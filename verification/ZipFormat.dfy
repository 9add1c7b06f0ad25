/**
 The ZIP archives of src/utils/ZipWriter.cpp on values: the bytes written, the offsets
 recorded, and what the reader makes of any bytes. Fields are little-endian, as in
 sections 4.3.7, 4.3.12 and 4.3.16 of PKWARE APPNOTE.TXT; casts to 16 and 32 bits are
 written out. zlib is a parameter.
 */
module ZipFormat {
  import opened Options
  import opened Octets

  const TWO16 := 0x1_0000
  const TWO32 := 0x1_0000_0000

  type U16 = x: int | 0 <= x < 0x1_0000
  type U32 = x: int | 0 <= x < 0x1_0000_0000

  function Cast16(n: nat): (r: U16)
    ensures n < TWO16 ==> r == n
  {
    if n < 0x1_0000 then n else n % 0x1_0000
  }

  function Cast32(n: nat): (r: U32)
    ensures n < TWO32 ==> r == n
  {
    if n < 0x1_0000_0000 then n else n % 0x1_0000_0000
  }

  // ---------------------------------------------------------------- little-endian fields

  function B0(v: nat): Byte { v % 0x100 }
  function B1(v: nat): Byte { v / 0x100 % 0x100 }
  function B2(v: nat): Byte { v / 0x1_0000 % 0x100 }
  function B3(v: nat): Byte { v / 0x100_0000 % 0x100 }

  function Field16(v: U16): Bytes { [B0(v), B1(v)] }
  function Field32(v: U32): Bytes { [B0(v), B1(v), B2(v), B3(v)] }

  function Value16(b0: int, b1: int): int { b0 + 0x100 * b1 }
  function Value32(b0: int, b1: int, b2: int, b3: int): int { b0 + 0x100 * b1 + 0x1_0000 * b2 + 0x100_0000 * b3 }

  function ReadU16(data: Bytes, at: nat): U16
    requires at + 2 <= |data|
  {
    Value16(data[at], data[at + 1])
  }

  function ReadU32(data: Bytes, at: nat): U32
    requires at + 4 <= |data|
  {
    Value32(data[at], data[at + 1], data[at + 2], data[at + 3])
  }

  lemma Field16ReadsBack(v: U16)
    ensures Value16(B0(v), B1(v)) == v
  {}

  lemma Field32ReadsBack(v: U32)
    ensures Value32(B0(v), B1(v), B2(v), B3(v)) == v
  {
    assert v / 0x1_0000 == v / 0x100 / 0x100;
    assert v / 0x100_0000 == v / 0x100 / 0x100 / 0x100;
  }

  // ---------------------------------------------------------------- zlib

  /** zlib's raw deflate (which can fail), its inverse for a known size, and its checksum. */
  datatype Codec = Codec(deflate: Bytes -> Option<Bytes>, inflate: (Bytes, nat) -> Option<Bytes>, crc: Bytes -> U32)

  /** The one law used of zlib. */
  ghost predicate Inverts(codec: Codec) {
    forall content, packed ::
      codec.deflate(content) == Some(packed) ==> codec.inflate(packed, |content|) == Some(content)
  }

  // ---------------------------------------------------------------- entries

  const STORE: U16 := 0
  const DEFLATE: U16 := 8

  datatype File = File(name: Bytes, content: Bytes, dosTime: U16, dosDate: U16)

  datatype Entry = Entry(name: Bytes, method_: U16, crc: U32, packedSize: U32, size: U32,
                         dosTime: U16, dosDate: U16, offset: U32, packed: Bytes)

  /** zlib takes 32-bit lengths. */
  function ZlibInput(content: Bytes): Bytes {
    content[..Cast32(|content|)]
  }

  function MakeEntry(codec: Codec, f: File): Option<Entry> {
    if f.content == [] then Some(Entry(f.name, STORE, 0, 0, 0, f.dosTime, f.dosDate, 0, []))
    else
      var packed := codec.deflate(ZlibInput(f.content));
      if packed.None? then None
      else Some(Entry(f.name, DEFLATE, codec.crc(ZlibInput(f.content)), Cast32(|packed.value|), Cast32(|f.content|),
                      f.dosTime, f.dosDate, 0, packed.value))
  }

  // ---------------------------------------------------------------- the archive

  /** The 22 bytes the two headers of an entry share. */
  function CommonFields(e: Entry): (h: Bytes)
    ensures |h| == 22
  {
    var n := Cast16(|e.name|);
    [B0(e.method_), B1(e.method_), B0(e.dosTime), B1(e.dosTime), B0(e.dosDate), B1(e.dosDate),
     B0(e.crc), B1(e.crc), B2(e.crc), B3(e.crc),
     B0(e.packedSize), B1(e.packedSize), B2(e.packedSize), B3(e.packedSize),
     B0(e.size), B1(e.size), B2(e.size), B3(e.size), B0(n), B1(n), 0, 0]
  }

  const LOCAL_START: Bytes := [0x50, 0x4b, 0x03, 0x04, 20, 0, 0, 0x08]
  const CENTRAL_START: Bytes := [0x50, 0x4b, 0x01, 0x02, 20, 0, 20, 0, 0, 0x08]

  /** Section 4.3.7: the 30 fixed bytes of a local file header. */
  function LocalHeader(e: Entry): (h: Bytes)
    ensures |h| == 30
  {
    LOCAL_START + CommonFields(e)
  }

  /** Comment length, disk, attributes and the offset of the local header. */
  function CentralEnd(offset: U32): (h: Bytes)
    ensures |h| == 14
  {
    [0, 0, 0, 0, 0, 0, 0, 0, 0, 0, B0(offset), B1(offset), B2(offset), B3(offset)]
  }

  /** Section 4.3.12: the 46 fixed bytes of a central directory header. */
  function CentralHeader(e: Entry, offset: U32): (h: Bytes)
    ensures |h| == 46
  {
    CENTRAL_START + CommonFields(e) + CentralEnd(offset)
  }

  /** Section 4.3.16: the 22 bytes that end the archive. */
  function EndRecord(count: U16, directorySize: U32, directoryOffset: U32): (h: Bytes)
    ensures |h| == 22
  {
    [0x50, 0x4b, 0x05, 0x06, 0, 0, 0, 0, B0(count), B1(count), B0(count), B1(count),
     B0(directorySize), B1(directorySize), B2(directorySize), B3(directorySize),
     B0(directoryOffset), B1(directoryOffset), B2(directoryOffset), B3(directoryOffset), 0, 0]
  }

  function LocalRecord(e: Entry): Bytes {
    LocalHeader(e) + e.name + e.packed
  }

  function Locals(entries: seq<Entry>): Bytes {
    if entries == [] then [] else Locals(entries[..|entries| - 1]) + LocalRecord(entries[|entries| - 1])
  }

  /** Where the local header of entry `i` is written. */
  function OffsetOf(entries: seq<Entry>, i: nat): nat
    requires i <= |entries|
  {
    |Locals(entries[..i])|
  }

  function CentralRecord(e: Entry, offset: U32): Bytes {
    CentralHeader(e, offset) + e.name
  }

  /** The records of the first `n` entries, with the 32-bit offsets the writer stored. */
  function Directory(entries: seq<Entry>, n: nat): Bytes
    requires n <= |entries|
  {
    if n == 0 then []
    else Directory(entries, n - 1) + CentralRecord(entries[n - 1], Cast32(OffsetOf(entries, n - 1)))
  }

  function Archive(entries: seq<Entry>): Bytes {
    var locals := Locals(entries);
    var directory := Directory(entries, |entries|);
    locals + directory + EndRecord(Cast16(|entries|), Cast32(|directory|), Cast32(|locals|))
  }

  // ---------------------------------------------------------------- the reader

  const END_SIGNATURE := 0x06054b50
  const CENTRAL_SIGNATURE := 0x02014b50
  const LOCAL_SIGNATURE := 0x04034b50
  const MAX_SCAN := 65557

  datatype Info = Info(name: Bytes, size: U32, packedSize: U32, crc: U32, content: Bytes)

  /** `Undefined`: a 32-bit sum wrapped past its check, and the next read is outside the archive. */
  datatype Outcome = Failed | Undefined | Read(infos: seq<Info>)
  datatype EntryOutcome = Bad | Wrapped | One(info: Info, next: nat)

  /** The end record is looked for from the last place it fits, backwards. */
  function FindEnd(data: Bytes, i: nat): (end: Option<nat>)
    requires i + 22 <= |data|
    ensures end.Some? ==> end.value <= i && |data| <= end.value + MAX_SCAN
    ensures end.Some? ==> ReadU32(data, end.value) == END_SIGNATURE
    ensures forall j | 0 <= j <= i && |data| <= j + MAX_SCAN && (end.Some? ==> end.value < j) ::
              ReadU32(data, j) != END_SIGNATURE
  {
    if i + MAX_SCAN < |data| then None
    else if ReadU32(data, i) == END_SIGNATURE then Some(i)
    else if i == 0 then None
    else FindEnd(data, i - 1)
  }

  /** Sums of 32-bit values wrap. */
  function Sum32(a: nat, b: nat): U32 { Cast32(a + b) }

  function Unpack(codec: Codec, data: Bytes, at: nat, method_: U16, packedSize: U32, size: U32): Option<Bytes>
    requires at + packedSize <= |data|
  {
    if packedSize == 0 && size == 0 then Some([])
    else if method_ == STORE then Some(data[at..at + packedSize])
    else if method_ == DEFLATE then codec.inflate(data[at..at + packedSize], size)
    else None
  }

  function Checksum(codec: Codec, content: Bytes): U32 {
    if content == [] then 0 else codec.crc(content)
  }

  /** Behind a local header, its name and its extra field. */
  function ContentAt(data: Bytes, offset: U32): U32
    requires offset + 30 <= |data|
  {
    Sum32(offset, 30 + ReadU16(data, offset + 26) + ReadU16(data, offset + 28))
  }

  function ReadContent(codec: Codec, data: Bytes, cursor: nat, name: Bytes, next: nat): EntryOutcome
    requires cursor + 46 <= |data|
  {
    var offset := ReadU32(data, cursor + 42);
    if Sum32(offset, 30) > |data| then Bad
    else if offset + 30 > |data| then Wrapped
    else if ReadU32(data, offset) != LOCAL_SIGNATURE then Bad
    else
      var at := ContentAt(data, offset);
      var packedSize := ReadU32(data, cursor + 20);
      if at + packedSize > |data| then Bad
      else
        var size := ReadU32(data, cursor + 24);
        var content := Unpack(codec, data, at, ReadU16(data, cursor + 10), packedSize, size);
        var crc := ReadU32(data, cursor + 16);
        if content.None? || Checksum(codec, content.value) != crc then Bad
        else One(Info(name, size, packedSize, crc, content.value), next)
  }

  function ReadEntry(codec: Codec, data: Bytes, cursor: nat): EntryOutcome {
    if cursor + 46 > |data| || ReadU32(data, cursor) != CENTRAL_SIGNATURE then Bad
    else
      var n := ReadU16(data, cursor + 28);
      if cursor + 46 + n > |data| then Bad
      else ReadContent(codec, data, cursor, data[cursor + 46..cursor + 46 + n],
                       cursor + 46 + n + ReadU16(data, cursor + 30) + ReadU16(data, cursor + 32))
  }

  /** The loop over directory entries, for any way of reading one. */
  function ReadAll(read: nat -> EntryOutcome, cursor: nat, count: nat, found: seq<Info>): Outcome
    decreases count
  {
    if count == 0 then Read(found)
    else
      match read(cursor)
      case Bad => Failed
      case Wrapped => Undefined
      case One(info, next) => ReadAll(read, next, count - 1, found + [info])
  }

  function Reader(codec: Codec, data: Bytes): nat -> EntryOutcome {
    (cursor: nat) => ReadEntry(codec, data, cursor)
  }

  function ReadEntries(codec: Codec, data: Bytes, cursor: nat, count: nat): Outcome {
    ReadAll(Reader(codec, data), cursor, count, [])
  }

  function ReadZip(codec: Codec, data: Bytes): Outcome {
    if |data| < 22 then Failed
    else
      match FindEnd(data, |data| - 22)
      case None => Failed
      case Some(end) =>
        if Sum32(ReadU32(data, end + 16), ReadU32(data, end + 12)) > |data| then Failed
        else ReadEntries(codec, data, ReadU32(data, end + 16), ReadU16(data, end + 10))
  }
}
