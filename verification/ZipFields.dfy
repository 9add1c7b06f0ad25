/**
 Every field of an archive at its place in the file, as sections 4.3.7, 4.3.12 and 4.3.16 of PKWARE
 APPNOTE.TXT have it, and what the reader makes of the fields of any bytes.
 */
module ZipFields {
  import opened Options
  import opened Octets
  import opened ZipFormat
  import opened ZipProofs

  // ---------------------------------------------------------------- fields in a file

  /** Lower byte first. */
  function Little16(b0: int, b1: int): int { b0 + 256 * b1 }
  function Little32(b0: int, b1: int, b2: int, b3: int): int { b0 + 256 * b1 + 65536 * b2 + 16777216 * b3 }

  /** The 16-bit field at `at` is `v`. */
  predicate Has16(data: Bytes, at: nat, v: int) {
    at + 2 <= |data| && ReadU16(data, at) == v && Little16(data[at], data[at + 1]) == v
  }

  predicate Has32(data: Bytes, at: nat, v: int) {
    && at + 4 <= |data| && ReadU32(data, at) == v
    && Little32(data[at], data[at + 1], data[at + 2], data[at + 3]) == v
  }

  lemma Finds16(data: Bytes, at: nat, v: U16)
    requires Holds(data, at, Field16(v))
    ensures Has16(data, at, v)
  {
    Reads16(data, at, Field16(v), 0, v);
  }

  lemma Finds32(data: Bytes, at: nat, v: U32)
    requires Holds(data, at, Field32(v))
    ensures Has32(data, at, v)
  {
    Reads32(data, at, Field32(v), 0, v);
  }

  lemma Two16(data: Bytes, at: nat, a: U16, b: U16)
    requires Holds(data, at, Field16(a) + Field16(b))
    ensures Has16(data, at, a) && Has16(data, at + 2, b)
  {
    assert |Field16(a)| == 2;
    hide Holds, Has16, Field16;
    HoldsBoth(data, at, Field16(a), Field16(b));
    Finds16(data, at, a);
    Finds16(data, at + 2, b);
  }

  lemma Three16(data: Bytes, at: nat, a: U16, b: U16, c: U16)
    requires Holds(data, at, Field16(a) + Field16(b) + Field16(c))
    ensures Has16(data, at, a) && Has16(data, at + 2, b) && Has16(data, at + 4, c)
  {
    assert |Field16(a)| == 2 && |Field16(b)| == 2;
    hide Holds, Has16, Field16;
    HoldsBoth(data, at, Field16(a) + Field16(b), Field16(c));
    Two16(data, at, a, b);
    Finds16(data, at + 4, c);
  }

  lemma Two32(data: Bytes, at: nat, a: U32, b: U32)
    requires Holds(data, at, Field32(a) + Field32(b))
    ensures Has32(data, at, a) && Has32(data, at + 4, b)
  {
    assert |Field32(a)| == 4;
    hide Holds, Has32, Field32;
    HoldsBoth(data, at, Field32(a), Field32(b));
    Finds32(data, at, a);
    Finds32(data, at + 4, b);
  }

  lemma Three32(data: Bytes, at: nat, a: U32, b: U32, c: U32)
    requires Holds(data, at, Field32(a) + Field32(b) + Field32(c))
    ensures Has32(data, at, a) && Has32(data, at + 4, b) && Has32(data, at + 8, c)
  {
    assert |Field32(a)| == 4 && |Field32(b)| == 4;
    hide Holds, Has32, Field32;
    HoldsBoth(data, at, Field32(a) + Field32(b), Field32(c));
    Two32(data, at, a, b);
    Finds32(data, at + 8, c);
  }

  /** What a length or an offset becomes in a field too narrow for it. */
  lemma CastsWrap(n: nat)
    ensures Cast16(n) == n % 0x1_0000 && Cast32(n) == n % 0x1_0000_0000
  {}

  // ---------------------------------------------------------------- where things are

  /** The local records one after another: 30 bytes, the name, the packed content. */
  function LocalPlace(entries: seq<Entry>, i: nat): nat
    requires i <= |entries|
  {
    if i == 0 then 0 else LocalPlace(entries, i - 1) + 30 + |entries[i - 1].name| + |entries[i - 1].packed|
  }

  /** Behind them all the directory records: 46 bytes and the name. */
  function RecordPlace(entries: seq<Entry>, i: nat): nat
    requires i <= |entries|
  {
    if i == 0 then LocalPlace(entries, |entries|) else RecordPlace(entries, i - 1) + 46 + |entries[i - 1].name|
  }

  lemma {:induction false} LocalPlaceIsOffset(entries: seq<Entry>, i: nat)
    requires i <= |entries|
    ensures OffsetOf(entries, i) == LocalPlace(entries, i)
  {
    hide LocalHeader;
    if i == 0 {
      assert entries[..0] == [];
    } else {
      LocalPlaceIsOffset(entries, i - 1);
      assert entries[..i][..i - 1] == entries[..i - 1];
    }
  }

  lemma {:induction false} RecordPlaceIsRecord(entries: seq<Entry>, i: nat)
    requires i <= |entries|
    ensures RecordAt(entries, i) == RecordPlace(entries, i)
  {
    hide CentralHeader, LocalHeader, Locals;
    if i == 0 {
      LocalPlaceIsOffset(entries, |entries|);
      assert entries[..|entries|] == entries;
    } else {
      RecordPlaceIsRecord(entries, i - 1);
    }
  }

  // ---------------------------------------------------------------- the local header

  /** Section 4.3.7. */
  predicate LocalTells(data: Bytes, at: nat, e: Entry) {
    && Has32(data, at, 0x04034b50)                   // signature
    && Has16(data, at + 4, 20)                       // version needed
    && Has16(data, at + 6, 0x0800)                   // UTF-8 names
    && Has16(data, at + 8, e.method_)
    && Has16(data, at + 10, e.dosTime)
    && Has16(data, at + 12, e.dosDate)
    && Has32(data, at + 14, e.crc)
    && Has32(data, at + 18, e.packedSize)
    && Has32(data, at + 22, e.size)
    && Has16(data, at + 26, Cast16(|e.name|))
    && Has16(data, at + 28, 0)                       // no extra field
    && Holds(data, at + 30, e.name)
    && Holds(data, at + 30 + |e.name|, e.packed)
  }

  lemma CommonParts(e: Entry)
    ensures CommonFields(e)
         == (Field16(e.method_) + Field16(e.dosTime) + Field16(e.dosDate))
            + (Field32(e.crc) + Field32(e.packedSize) + Field32(e.size))
            + (Field16(Cast16(|e.name|)) + Field16(0))
  {
    assert Field16(0) == [0, 0];
  }

  lemma CommonTells(data: Bytes, at: nat, e: Entry)
    requires Holds(data, at, CommonFields(e))
    ensures Has16(data, at, e.method_) && Has16(data, at + 2, e.dosTime) && Has16(data, at + 4, e.dosDate)
    ensures Has32(data, at + 6, e.crc) && Has32(data, at + 10, e.packedSize) && Has32(data, at + 14, e.size)
    ensures Has16(data, at + 18, Cast16(|e.name|)) && Has16(data, at + 20, 0)
  {
    CommonParts(e);
    var shorts := Field16(e.method_) + Field16(e.dosTime) + Field16(e.dosDate);
    var longs := Field32(e.crc) + Field32(e.packedSize) + Field32(e.size);
    var lengths := Field16(Cast16(|e.name|)) + Field16(0);
    assert |shorts| == 6 && |longs| == 12;
    hide Cast16, CommonFields, Holds, Has16, Has32, Field16, Field32;
    HoldsBoth(data, at, shorts + longs, lengths);
    HoldsBoth(data, at, shorts, longs);
    Three16(data, at, e.method_, e.dosTime, e.dosDate);
    Three32(data, at + 6, e.crc, e.packedSize, e.size);
    Two16(data, at + 18, Cast16(|e.name|), 0);
  }

  lemma Starts()
    ensures LOCAL_START == Field32(0x04034b50) + (Field16(20) + Field16(0x0800))
    ensures CENTRAL_START == Field32(0x02014b50) + (Field16(20) + Field16(20) + Field16(0x0800))
    ensures |LOCAL_START| == 8 && |CENTRAL_START| == 10
  {
    Signatures();
    assert B0(20) == 20 && B1(20) == 0 && B0(0x0800) == 0 && B1(0x0800) == 0x08;
  }

  lemma LocalStartTells(data: Bytes, at: nat)
    requires Holds(data, at, LOCAL_START)
    ensures Has32(data, at, 0x04034b50) && Has16(data, at + 4, 20) && Has16(data, at + 6, 0x0800)
  {
    Starts();
    assert |Field32(0x04034b50)| == 4;
    hide Holds, Has16, Has32, Field16, Field32;
    HoldsBoth(data, at, Field32(0x04034b50), Field16(20) + Field16(0x0800));
    Finds32(data, at, 0x04034b50);
    Two16(data, at + 4, 20, 0x0800);
  }

  lemma LocalParts(e: Entry)
    ensures LocalRecord(e) == LOCAL_START + CommonFields(e) + e.name + e.packed
    ensures |LOCAL_START + CommonFields(e)| == 30
  {}

  lemma LocalIsTold(data: Bytes, at: nat, e: Entry)
    requires Holds(data, at, LocalRecord(e))
    ensures LocalTells(data, at, e)
  {
    hide CommonFields, LocalHeader, LocalRecord, Has16, Has32, Cast16, Holds, Field16, Field32;
    LocalParts(e);
    HoldsBoth(data, at, LOCAL_START + CommonFields(e) + e.name, e.packed);
    HoldsBoth(data, at, LOCAL_START + CommonFields(e), e.name);
    HoldsBoth(data, at, LOCAL_START, CommonFields(e));
    Starts();
    LocalStartTells(data, at);
    CommonTells(data, at + 8, e);
  }

  // ---------------------------------------------------------------- the directory record

  /** Section 4.3.12. */
  predicate CentralTells(data: Bytes, at: nat, e: Entry, offset: int) {
    && Has32(data, at, 0x02014b50)                   // signature
    && Has16(data, at + 4, 20)                       // version made by
    && Has16(data, at + 6, 20)                       // version needed
    && Has16(data, at + 8, 0x0800)                   // UTF-8 names
    && Has16(data, at + 10, e.method_)
    && Has16(data, at + 12, e.dosTime)
    && Has16(data, at + 14, e.dosDate)
    && Has32(data, at + 16, e.crc)
    && Has32(data, at + 20, e.packedSize)
    && Has32(data, at + 24, e.size)
    && Has16(data, at + 28, Cast16(|e.name|))
    && Has16(data, at + 30, 0)                       // no extra field
    && Has16(data, at + 32, 0)                       // no comment
    && Has16(data, at + 34, 0)                       // disk
    && Has16(data, at + 36, 0)                       // internal attributes
    && Has32(data, at + 38, 0)                       // external attributes
    && Has32(data, at + 42, offset)
    && Holds(data, at + 46, e.name)
  }

  lemma CentralEndTells(data: Bytes, at: nat, offset: U32)
    requires Holds(data, at, CentralEnd(offset))
    ensures Has16(data, at, 0) && Has16(data, at + 2, 0) && Has16(data, at + 4, 0)
    ensures Has32(data, at + 6, 0) && Has32(data, at + 10, offset)
  {
    var shorts := Field16(0) + Field16(0) + Field16(0);
    assert shorts == [0, 0, 0, 0, 0, 0] && Field32(0) == [0, 0, 0, 0];
    assert CentralEnd(offset) == shorts + (Field32(0) + Field32(offset));
    hide Holds, Has16, Has32, Field16, Field32, CentralEnd;
    HoldsBoth(data, at, shorts, Field32(0) + Field32(offset));
    Three16(data, at, 0, 0, 0);
    Two32(data, at + 6, 0, offset);
  }

  lemma CentralStartTells(data: Bytes, at: nat)
    requires Holds(data, at, CENTRAL_START)
    ensures Has32(data, at, 0x02014b50) && Has16(data, at + 4, 20) && Has16(data, at + 6, 20)
    ensures Has16(data, at + 8, 0x0800)
  {
    Starts();
    assert |Field32(0x02014b50)| == 4;
    hide Holds, Has16, Has32, Field16, Field32;
    HoldsBoth(data, at, Field32(0x02014b50), Field16(20) + Field16(20) + Field16(0x0800));
    Finds32(data, at, 0x02014b50);
    Three16(data, at + 4, 20, 20, 0x0800);
  }

  lemma CentralIsTold(data: Bytes, at: nat, e: Entry, offset: U32)
    requires Holds(data, at, CentralRecord(e, offset))
    ensures CentralTells(data, at, e, offset)
  {
    assert CentralRecord(e, offset) == CENTRAL_START + CommonFields(e) + CentralEnd(offset) + e.name;
    assert |CENTRAL_START + CommonFields(e)| == 32;
    hide CommonFields, CentralEnd, CentralHeader, CentralRecord, Has16, Has32, Cast16, Holds;
    HoldsBoth(data, at, CENTRAL_START + CommonFields(e) + CentralEnd(offset), e.name);
    HoldsBoth(data, at, CENTRAL_START + CommonFields(e), CentralEnd(offset));
    HoldsBoth(data, at, CENTRAL_START, CommonFields(e));
    Starts();
    CentralStartTells(data, at);
    CommonTells(data, at + 10, e);
    CentralEndTells(data, at + 32, offset);
  }

  // ---------------------------------------------------------------- the whole archive

  /** Section 4.3.16, at the end of the file. */
  predicate EndTells(data: Bytes, at: nat, count: int, directorySize: int, directoryOffset: int) {
    && |data| == at + 22
    && Has32(data, at, 0x06054b50)                   // signature
    && Has16(data, at + 4, 0) && Has16(data, at + 6, 0)  // disks
    && Has16(data, at + 8, count) && Has16(data, at + 10, count)
    && Has32(data, at + 12, directorySize)
    && Has32(data, at + 16, directoryOffset)
    && Has16(data, at + 20, 0)                       // no comment
  }

  lemma EndParts(count: U16, size: U32, offset: U32)
    ensures EndRecord(count, size, offset)
         == Field32(0x06054b50)
            + ((Field16(0) + Field16(0)) + ((Field16(count) + Field16(count))
            + ((Field32(size) + Field32(offset)) + Field16(0))))
  {
    Signatures();
    assert Field16(0) == [0, 0];
  }

  lemma EndIsTold(data: Bytes, body: Bytes, count: U16, size: U32, offset: U32)
    requires data == body + EndRecord(count, size, offset)
    ensures EndTells(data, |body|, count, size, offset)
  {
    var at := |body|;
    assert Holds(data, at, EndRecord(count, size, offset));
    EndParts(count, size, offset);
    var disks, counts := Field16(0) + Field16(0), Field16(count) + Field16(count);
    var sizes := Field32(size) + Field32(offset);
    assert |Field32(0x06054b50)| == 4 == |disks| == |counts| && |sizes| == 8;
    hide EndRecord, Holds, Has16, Has32, Field16, Field32;
    HoldsBoth(data, at, Field32(0x06054b50), disks + (counts + (sizes + Field16(0))));
    Finds32(data, at, 0x06054b50);
    HoldsBoth(data, at + 4, disks, counts + (sizes + Field16(0)));
    Two16(data, at + 4, 0, 0);
    HoldsBoth(data, at + 8, counts, sizes + Field16(0));
    Two16(data, at + 8, count, count);
    HoldsBoth(data, at + 12, sizes, Field16(0));
    Two32(data, at + 12, size, offset);
    Finds16(data, at + 20, 0);
  }

  /**
   Every header of an archive within the 32-bit limit tells its entry, where the sizes of the records
   before it put it; the record in the directory points at the one before the content.
   */
  lemma HeadersTell(entries: seq<Entry>, i: nat)
    requires LocalPlace(entries, |entries|) < 0x1_0000_0000 && i < |entries|
    ensures LocalTells(Archive(entries), LocalPlace(entries, i), entries[i])
    ensures CentralTells(Archive(entries), RecordPlace(entries, i), entries[i], LocalPlace(entries, i))
  {
    PlacesAreLengths(entries);
    hide Locals, Directory, LocalPlace, RecordPlace, Archive, LocalRecord, CentralRecord, Holds, LocalTells,
         CentralTells;
    LocalPlaceIsOffset(entries, i);
    RecordPlaceIsRecord(entries, i);
    var archive := Archive(entries);
    ArchiveIsLaid(entries);
    LocalIsThere(archive, entries, i);
    LocalIsTold(archive, OffsetOf(entries, i), entries[i]);
    RecordIsThere(archive, entries, i);
    CentralIsTold(archive, RecordAt(entries, i), entries[i], Cast32(OffsetOf(entries, i)));
  }

  lemma PlacesAreLengths(entries: seq<Entry>)
    ensures LocalPlace(entries, |entries|) == |Locals(entries)|
    ensures RecordPlace(entries, |entries|) == |Locals(entries)| + |Directory(entries, |entries|)|
  {
    RecordPlaceIsRecord(entries, |entries|);
    LocalPlaceIsOffset(entries, |entries|);
    assert entries[..|entries|] == entries;
    hide Locals, Directory, LocalPlace, RecordPlace;
  }

  /** The bytes of the directory. */
  function DirectorySize(entries: seq<Entry>): nat {
    if entries == [] then 0 else DirectorySize(entries[..|entries| - 1]) + 46 + |entries[|entries| - 1].name|
  }

  lemma {:induction false} RecordPlaceOfPrefix(entries: seq<Entry>, i: nat)
    requires i <= |entries|
    ensures RecordPlace(entries, i) == LocalPlace(entries, |entries|) + DirectorySize(entries[..i])
  {
    if i > 0 {
      RecordPlaceOfPrefix(entries, i - 1);
      assert entries[..i][..i - 1] == entries[..i - 1];
    }
  }

  lemma EndStands(entries: seq<Entry>)
    ensures EndTells(Archive(entries), |Locals(entries)| + |Directory(entries, |entries|)|, Cast16(|entries|),
                     Cast32(|Directory(entries, |entries|)|), Cast32(|Locals(entries)|))
  {
    hide Locals, Directory, EndRecord, EndTells;
    var locals, directory := Locals(entries), Directory(entries, |entries|);
    var count, size, offset := Cast16(|entries|), Cast32(|directory|), Cast32(|locals|);
    var archive := Archive(entries);
    assert archive == (locals + directory) + EndRecord(count, size, offset);
    assert |locals + directory| == |locals| + |directory|;
    hide Archive, Cast16, Cast32;
    EndIsTold(archive, locals + directory, count, size, offset);
  }

  /** And nothing else is in the file but the end record, which tells the count and the directory's size and place. */
  lemma EndTellsDirectory(entries: seq<Entry>)
    ensures EndTells(Archive(entries), RecordPlace(entries, |entries|), Cast16(|entries|),
                     Cast32(DirectorySize(entries)), Cast32(LocalPlace(entries, |entries|)))
  {
    hide Archive, EndRecord, Locals, Directory, EndTells, LocalPlace, RecordPlace, DirectorySize, Cast16, Cast32;
    var archive := Archive(entries);
    var locals, directory := |Locals(entries)|, |Directory(entries, |entries|)|;
    PlacesAreLengths(entries);
    RecordPlaceOfPrefix(entries, |entries|);
    assert entries[..|entries|] == entries;
    assert directory == DirectorySize(entries);
    EndStands(entries);
  }

  // ---------------------------------------------------------------- from files to headers

  /** What the entry of a file says: stored if empty, else deflated; the file's name, time, date, size and checksum. */
  lemma EntryTells(codec: Codec, f: File, e: Entry)
    requires Made(codec, f, e) && |f.content| < 0x1_0000_0000
    ensures e.name == f.name && e.dosTime == f.dosTime && e.dosDate == f.dosDate && e.size == |f.content|
    ensures f.content == [] ==> e.method_ == 0 && e.crc == 0 && e.packed == []
    ensures f.content != [] ==> e.method_ == 8 && e.crc == codec.crc(f.content)
    ensures f.content != [] ==> codec.deflate(f.content) == Some(e.packed)
    ensures |e.packed| < 0x1_0000_0000 ==> e.packedSize == |e.packed|
  {
    assert ZlibInput(f.content) == f.content;
  }

  // ---------------------------------------------------------------- what the reader takes from any bytes

  /** Nothing, the bytes as they are, or what they inflate to. */
  ghost predicate Unpacks(codec: Codec, packed: Bytes, method_: int, size: nat, content: Bytes) {
    if packed == [] && size == 0 then content == []
    else if method_ == 0 then content == packed
    else method_ == 8 && codec.inflate(packed, size) == Some(content)
  }

  lemma UnpackMeans(codec: Codec, data: Bytes, at: nat, method_: U16, packedSize: U32, size: U32, content: Bytes)
    requires at + packedSize <= |data|
    ensures Unpack(codec, data, at, method_, packedSize, size) == Some(content)
       <==> Unpacks(codec, data[at..at + packedSize], method_, size, content)
  {}

  /** The content behind a local header: its name and extra field are skipped, in 32-bit arithmetic. */
  ghost predicate ContentTold(codec: Codec, data: Bytes, at: int, cursor: nat, content: Bytes)
    requires cursor + 46 <= |data| && 0 <= at && at + 30 <= |data|
  {
    var start := (at + 30 + ReadU16(data, at + 26) + ReadU16(data, at + 28)) % 0x1_0000_0000;
    var packedSize := ReadU32(data, cursor + 20);
    && start + packedSize <= |data|
    && Unpacks(codec, data[start..start + packedSize], ReadU16(data, cursor + 10), ReadU32(data, cursor + 24), content)
    && ReadU32(data, cursor + 16) == (if content == [] then 0 else codec.crc(content))
  }

  /** What an entry of the result says stands in the directory record at `cursor` and behind the header it points at. */
  ghost predicate InfoTold(codec: Codec, data: Bytes, cursor: nat, info: Info) {
    && cursor + 46 <= |data| && ReadU32(data, cursor) == 0x02014b50
    && cursor + 46 + ReadU16(data, cursor + 28) <= |data|
    && info.name == data[cursor + 46..cursor + 46 + ReadU16(data, cursor + 28)]
    && info.crc == ReadU32(data, cursor + 16) && info.packedSize == ReadU32(data, cursor + 20)
    && info.size == ReadU32(data, cursor + 24)
    && (var at := ReadU32(data, cursor + 42);
        && at + 30 <= |data| && ReadU32(data, at) == 0x04034b50
        && ContentTold(codec, data, at, cursor, info.content))
  }

  /** Behind the record, its name, its extra field and its comment. */
  function Behind(data: Bytes, cursor: nat): nat {
    if cursor + 46 > |data| then cursor
    else cursor + 46 + ReadU16(data, cursor + 28) + ReadU16(data, cursor + 30) + ReadU16(data, cursor + 32)
  }

  lemma SumsWrap(a: nat, b: nat)
    ensures Sum32(a, b) == (a + b) % 0x1_0000_0000 <= a + b
  {}

  lemma ContentIsTold(codec: Codec, data: Bytes, cursor: nat, name: Bytes, next: nat, info: Info)
    requires cursor + 46 <= |data|
    ensures ReadContent(codec, data, cursor, name, next) == One(info, next) <==>
      && info.name == name && info.crc == ReadU32(data, cursor + 16) && info.packedSize == ReadU32(data, cursor + 20)
      && info.size == ReadU32(data, cursor + 24)
      && (var at := ReadU32(data, cursor + 42);
          at + 30 <= |data| && ReadU32(data, at) == 0x04034b50 && ContentTold(codec, data, at, cursor, info.content))
  {
    hide Sum32, Cast32, ReadU16, ReadU32, Unpack, Unpacks;
    var at, packedSize := ReadU32(data, cursor + 42), ReadU32(data, cursor + 20);
    SumsWrap(at, 30);
    if at + 30 <= |data| {
      SumsWrap(at, 30 + ReadU16(data, at + 26) + ReadU16(data, at + 28));
      var start := ContentAt(data, at);
      if start + packedSize <= |data| {
        UnpackMeans(codec, data, start, ReadU16(data, cursor + 10), packedSize, ReadU32(data, cursor + 24),
                    info.content);
      }
    }
  }

  /** An entry is read exactly as the fields at the cursor tell it, and the cursor moves past its record. */
  lemma EntryIsReadAsTold(codec: Codec, data: Bytes, cursor: nat, info: Info, next: nat)
    ensures ReadEntry(codec, data, cursor) == One(info, next) <==>
            InfoTold(codec, data, cursor, info) && next == Behind(data, cursor)
  {
    if cursor + 46 <= |data| && cursor + 46 + ReadU16(data, cursor + 28) <= |data| {
      ContentIsTold(codec, data, cursor, data[cursor + 46..cursor + 46 + ReadU16(data, cursor + 28)], next, info);
    }
    hide ReadContent, ContentTold, ReadU16, ReadU32;
  }

  /** The records of `infos` one behind another, from `cursor` on. */
  ghost predicate Chain(codec: Codec, data: Bytes, cursor: nat, infos: seq<Info>)
    decreases |infos|
  {
    |infos| > 0 ==>
      InfoTold(codec, data, cursor, infos[0]) && Chain(codec, data, Behind(data, cursor), infos[1..])
  }

  lemma {:induction false} ReadsAreChained(codec: Codec, data: Bytes, cursor: nat, count: nat, found: seq<Info>,
                                           infos: seq<Info>)
    requires ReadAll(Reader(codec, data), cursor, count, found) == Read(infos)
    ensures |infos| == |found| + count && found <= infos && Chain(codec, data, cursor, infos[|found|..])
    decreases count
  {
    hide ReadEntry, InfoTold, Behind;
    if count > 0 {
      var one := Reader(codec, data)(cursor);
      assert one == ReadEntry(codec, data, cursor);
      EntryIsReadAsTold(codec, data, cursor, one.info, one.next);
      ReadsAreChained(codec, data, one.next, count - 1, found + [one.info], infos);
      assert infos[|found|] == one.info;
      assert infos[|found|..][1..] == infos[|found| + 1..];
    }
  }

  lemma {:induction false} ChainIsRead(codec: Codec, data: Bytes, cursor: nat, found: seq<Info>, infos: seq<Info>)
    requires Chain(codec, data, cursor, infos)
    ensures ReadAll(Reader(codec, data), cursor, |infos|, found) == Read(found + infos)
    decreases |infos|
  {
    hide ReadEntry, InfoTold, Behind;
    if infos == [] {
      assert found + infos == found;
    } else {
      var next := Behind(data, cursor);
      EntryIsReadAsTold(codec, data, cursor, infos[0], next);
      assert Reader(codec, data)(cursor) == One(infos[0], next);
      ChainIsRead(codec, data, next, found + [infos[0]], infos[1..]);
      assert found + [infos[0]] + infos[1..] == found + infos;
    }
  }

  /** The end record is the last signature among the last 65557 bytes from which 22 are left. */
  predicate IsEnd(data: Bytes, end: nat) {
    && end + 22 <= |data| <= end + 65557 && ReadU32(data, end) == 0x06054b50
    && forall j | end < j <= |data| - 22 :: ReadU32(data, j) != 0x06054b50
  }

  /** As many records as the end record says, from the place it says on; the directory it tells ends in the bytes. */
  ghost predicate EndTold(codec: Codec, data: Bytes, end: nat, infos: seq<Info>)
    requires end + 22 <= |data|
  {
    && (ReadU32(data, end + 16) + ReadU32(data, end + 12)) % 0x1_0000_0000 <= |data|
    && |infos| == ReadU16(data, end + 10) && Chain(codec, data, ReadU32(data, end + 16), infos)
  }

  lemma EndIsFollowed(codec: Codec, data: Bytes, infos: seq<Info>)
    requires ReadZip(codec, data) == Read(infos)
    ensures exists end | 0 <= end <= |data| - 22 && IsEnd(data, end) :: EndTold(codec, data, end, infos)
  {
    hide Chain, ReadU16, ReadU32, Sum32, Reader;
    var end := FindEnd(data, |data| - 22).value;
    assert IsEnd(data, end);
    SumsWrap(ReadU32(data, end + 16), ReadU32(data, end + 12));
    ReadsAreChained(codec, data, ReadU32(data, end + 16), ReadU16(data, end + 10), [], infos);
    assert infos[0..] == infos;
  }

  lemma EndIsRead(codec: Codec, data: Bytes, end: nat, infos: seq<Info>)
    requires IsEnd(data, end) && EndTold(codec, data, end, infos)
    ensures ReadZip(codec, data) == Read(infos)
  {
    hide Chain, ReadU16, ReadU32, Sum32, Reader;
    var found := FindEnd(data, |data| - 22);
    assert found == Some(end);
    SumsWrap(ReadU32(data, end + 16), ReadU32(data, end + 12));
    ChainIsRead(codec, data, ReadU32(data, end + 16), [], infos);
    assert [] + infos == infos;
  }

  /**
   Any bytes are read as these entries if and only if each entry is the one the directory tells at its place,
   with the checksum told for it, and their number is the one in the end record.
   */
  lemma ReadIsTold(codec: Codec, data: Bytes, infos: seq<Info>)
    ensures ReadZip(codec, data) == Read(infos)
       <==> exists end | 0 <= end <= |data| - 22 && IsEnd(data, end) :: EndTold(codec, data, end, infos)
  {
    hide ReadZip, IsEnd, EndTold;
    if ReadZip(codec, data) == Read(infos) {
      EndIsFollowed(codec, data, infos);
    }
    forall end | 0 <= end <= |data| - 22 && IsEnd(data, end) && EndTold(codec, data, end, infos)
      ensures ReadZip(codec, data) == Read(infos)
    {
      EndIsRead(codec, data, end, infos);
    }
  }

  /** Without an end record nothing is read. */
  lemma NoEndNoRead(codec: Codec, data: Bytes)
    requires forall end | 0 <= end <= |data| - 22 :: !IsEnd(data, end)
    ensures ReadZip(codec, data) == Failed
  {
    if |data| >= 22 {
      var found := FindEnd(data, |data| - 22);
      if found.Some? { assert IsEnd(data, found.value); }
    }
  }
}
