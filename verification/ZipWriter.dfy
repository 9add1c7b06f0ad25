/**
 The writer and the reader as the program has them: bytes appended to one buffer, the
 offset stored in each entry on the way, and a cursor moved over the directory.
 */
module ZipWriter {
  import opened Options
  import opened Seqs
  import opened Octets
  import opened ZipFormat
  import F = ZipFormat

  // ---------------------------------------------------------------- appending fields

  method WriteU16(buffer: Bytes, v: U16) returns (r: Bytes)
    ensures r == buffer + Field16(v)
  {
    r := buffer + [B0(v)];
    r := r + [B1(v)];
  }

  method WriteU32(buffer: Bytes, v: U32) returns (r: Bytes)
    ensures r == buffer + Field32(v)
  {
    r := buffer + [B0(v)];
    r := r + [B1(v)];
    r := r + [B2(v)];
    r := r + [B3(v)];
  }

  function ShortFields(e: Entry): Bytes {
    Field16(e.method_) + Field16(e.dosTime) + Field16(e.dosDate)
  }

  function LongFields(e: Entry): Bytes {
    Field32(e.crc) + Field32(e.packedSize) + Field32(e.size)
  }

  function LengthFields(e: Entry): Bytes {
    Field16(Cast16(|e.name|)) + Field16(0)
  }

  lemma CommonIsFields(e: Entry)
    ensures ShortFields(e) + LongFields(e) + LengthFields(e) == CommonFields(e)
  {}

  method WriteShorts(buffer: Bytes, e: Entry) returns (r: Bytes)
    ensures r == buffer + ShortFields(e)
  {
    r := WriteU16(buffer, e.method_);
    r := WriteU16(r, e.dosTime);
    Associates(buffer, Field16(e.method_), Field16(e.dosTime));
    r := WriteU16(r, e.dosDate);
    Associates(buffer, Field16(e.method_) + Field16(e.dosTime), Field16(e.dosDate));
  }

  method WriteLongs(buffer: Bytes, e: Entry) returns (r: Bytes)
    ensures r == buffer + LongFields(e)
  {
    r := WriteU32(buffer, e.crc);
    r := WriteU32(r, e.packedSize);
    Associates(buffer, Field32(e.crc), Field32(e.packedSize));
    r := WriteU32(r, e.size);
    Associates(buffer, Field32(e.crc) + Field32(e.packedSize), Field32(e.size));
  }

  method WriteLengths(buffer: Bytes, e: Entry) returns (r: Bytes)
    ensures r == buffer + LengthFields(e)
  {
    r := WriteU16(buffer, Cast16(|e.name|));
    r := WriteU16(r, 0);
    Associates(buffer, Field16(Cast16(|e.name|)), Field16(0));
  }

  /** The fields the two headers share. */
  method WriteCommon(buffer: Bytes, e: Entry) returns (r: Bytes)
    ensures r == buffer + CommonFields(e)
  {
    r := WriteShorts(buffer, e);
    r := WriteLongs(r, e);
    Associates(buffer, ShortFields(e), LongFields(e));
    r := WriteLengths(r, e);
    Associates(buffer, ShortFields(e) + LongFields(e), LengthFields(e));
    CommonIsFields(e);
  }

  lemma StartsAreFields()
    ensures Field32(LOCAL_SIGNATURE) + Field16(20) + Field16(0x0800) == LOCAL_START
    ensures Field32(CENTRAL_SIGNATURE) + Field16(20) + Field16(20) + Field16(0x0800) == CENTRAL_START
  {
    assert Field32(LOCAL_SIGNATURE) == [0x50, 0x4b, 0x03, 0x04];
    assert Field32(CENTRAL_SIGNATURE) == [0x50, 0x4b, 0x01, 0x02];
    assert Field16(20) == [20, 0] && Field16(0x0800) == [0, 0x08];
  }

  method WriteLocal(buffer: Bytes, e: Entry) returns (r: Bytes)
    ensures r == buffer + LocalRecord(e)
  {
    r := WriteU32(buffer, LOCAL_SIGNATURE);
    r := WriteU16(r, 20);
    Associates(buffer, Field32(LOCAL_SIGNATURE), Field16(20));
    r := WriteU16(r, 0x0800);
    Associates(buffer, Field32(LOCAL_SIGNATURE) + Field16(20), Field16(0x0800));
    StartsAreFields();
    assert r == buffer + LOCAL_START;
    r := WriteCommon(r, e);
    Associates(buffer, LOCAL_START, CommonFields(e));
    r := r + e.name;
    Associates(buffer, LocalHeader(e), e.name);
    r := r + e.packed;
    Associates(buffer, LocalHeader(e) + e.name, e.packed);
  }

  function ZeroFields(): Bytes {
    Field16(0) + Field16(0) + Field16(0) + Field32(0)
  }

  lemma CentralEndIsFields(offset: U32)
    ensures ZeroFields() + Field32(offset) == CentralEnd(offset)
  {
    assert Field16(0) == [0, 0] && Field32(0) == [0, 0, 0, 0];
  }

  method WriteCentralEnd(buffer: Bytes, offset: U32) returns (r: Bytes)
    ensures r == buffer + CentralEnd(offset)
  {
    r := WriteU16(buffer, 0);
    r := WriteU16(r, 0);
    Associates(buffer, Field16(0), Field16(0));
    r := WriteU16(r, 0);
    Associates(buffer, Field16(0) + Field16(0), Field16(0));
    r := WriteU32(r, 0);
    Associates(buffer, Field16(0) + Field16(0) + Field16(0), Field32(0));
    r := WriteU32(r, offset);
    Associates(buffer, ZeroFields(), Field32(offset));
    CentralEndIsFields(offset);
  }

  method WriteCentral(buffer: Bytes, e: Entry) returns (r: Bytes)
    ensures r == buffer + CentralRecord(e, e.offset)
  {
    r := WriteU32(buffer, CENTRAL_SIGNATURE);
    r := WriteU16(r, 20);
    Associates(buffer, Field32(CENTRAL_SIGNATURE), Field16(20));
    r := WriteU16(r, 20);
    Associates(buffer, Field32(CENTRAL_SIGNATURE) + Field16(20), Field16(20));
    r := WriteU16(r, 0x0800);
    Associates(buffer, Field32(CENTRAL_SIGNATURE) + Field16(20) + Field16(20), Field16(0x0800));
    StartsAreFields();
    assert r == buffer + CENTRAL_START;
    r := WriteCommon(r, e);
    Associates(buffer, CENTRAL_START, CommonFields(e));
    r := WriteCentralEnd(r, e.offset);
    Associates(buffer, CENTRAL_START + CommonFields(e), CentralEnd(e.offset));
    r := r + e.name;
    Associates(buffer, CentralHeader(e, e.offset), e.name);
  }

  function EndStart(count: U16): Bytes {
    Field32(END_SIGNATURE) + Field16(0) + Field16(0) + Field16(count) + Field16(count)
  }

  function EndRest(size: U32, offset: U32): Bytes {
    Field32(size) + Field32(offset) + Field16(0)
  }

  lemma EndIsFields(count: U16, size: U32, offset: U32)
    ensures EndStart(count) + EndRest(size, offset) == EndRecord(count, size, offset)
  {
    assert Field32(END_SIGNATURE) == [0x50, 0x4b, 0x05, 0x06] && Field16(0) == [0, 0];
  }

  method WriteEnd(buffer: Bytes, count: U16, size: U32, offset: U32) returns (r: Bytes)
    ensures r == buffer + EndRecord(count, size, offset)
  {
    r := WriteU32(buffer, END_SIGNATURE);
    r := WriteU16(r, 0);
    Associates(buffer, Field32(END_SIGNATURE), Field16(0));
    r := WriteU16(r, 0);
    Associates(buffer, Field32(END_SIGNATURE) + Field16(0), Field16(0));
    r := WriteU16(r, count);
    Associates(buffer, Field32(END_SIGNATURE) + Field16(0) + Field16(0), Field16(count));
    r := WriteU16(r, count);
    Associates(buffer, Field32(END_SIGNATURE) + Field16(0) + Field16(0) + Field16(count), Field16(count));
    r := WriteEndRest(r, size, offset);
    Associates(buffer, EndStart(count), EndRest(size, offset));
    EndIsFields(count, size, offset);
  }

  method WriteEndRest(buffer: Bytes, size: U32, offset: U32) returns (r: Bytes)
    ensures r == buffer + EndRest(size, offset)
  {
    r := WriteU32(buffer, size);
    r := WriteU32(r, offset);
    Associates(buffer, Field32(size), Field32(offset));
    r := WriteU16(r, 0);
    Associates(buffer, Field32(size) + Field32(offset), Field16(0));
  }

  // ---------------------------------------------------------------- the writer

  /** The entries with the offsets at which their local headers were written. */
  function Located(entries: seq<Entry>): (r: seq<Entry>)
    ensures |r| == |entries|
  {
    seq(|entries|, i requires 0 <= i < |entries| => entries[i].(offset := Cast32(OffsetOf(entries, i))))
  }

  lemma LocatedRecord(entries: seq<Entry>, i: nat)
    requires i < |entries|
    ensures CentralRecord(Located(entries)[i], Located(entries)[i].offset)
         == CentralRecord(entries[i], Cast32(OffsetOf(entries, i)))
  {}

  lemma LocalIgnoresOffset(e: Entry, offset: U32)
    ensures LocalRecord(e.(offset := offset)) == LocalRecord(e)
  {}

  class ZipWriter {
    var entries: seq<Entry>

    constructor ()
      ensures entries == []
    {
      entries := [];
    }

    method AddFile(codec: Codec, f: File) returns (ok: bool)
      modifies this
      ensures ok == MakeEntry(codec, f).Some?
      ensures entries == if ok then old(entries) + [MakeEntry(codec, f).value] else old(entries)
    {
      var entry := Entry(f.name, DEFLATE, 0, 0, Cast32(|f.content|), f.dosTime, f.dosDate, 0, []);
      if f.content == [] {
        entry := entry.(method_ := STORE);
        entries := entries + [entry];
        return true;
      }
      entry := entry.(crc := codec.crc(ZlibInput(f.content)));
      var packed := codec.deflate(ZlibInput(f.content));
      if packed.None? {
        return false;
      }
      entry := entry.(packed := packed.value, packedSize := Cast32(|packed.value|));
      entries := entries + [entry];
      return true;
    }

    /** The first loop: local records, and their offsets. */
    method WriteLocals() returns (buffer: Bytes)
      modifies this
      ensures buffer == Locals(old(entries)) && entries == Located(old(entries))
    {
      buffer := [];
      ghost var given := entries;
      var i := 0;
      while i < |entries|
        invariant i <= |entries| == |given|
        invariant buffer == Locals(given[..i])
        invariant forall j | 0 <= j < |entries| :: entries[j] == if j < i then Located(given)[j] else given[j]
      {
        var located := entries[i].(offset := Cast32(|buffer|));
        LocalIgnoresOffset(given[i], located.offset);
        LocalsStep(given, i);
        buffer := WriteLocal(buffer, located);
        entries := entries[i := located];
        i := i + 1;
      }
      assert given[..i] == given;
    }

    /** The second loop: the central directory. */
    method WriteDirectory(buffer0: Bytes, ghost given: seq<Entry>) returns (buffer: Bytes)
      requires entries == Located(given)
      ensures buffer == buffer0 + Directory(given, |given|)
    {
      buffer := buffer0;
      var i := 0;
      while i < |entries|
        invariant i <= |entries|
        invariant buffer == buffer0 + Directory(given, i)
      {
        LocatedRecord(given, i);
        Associates(buffer0, Directory(given, i), CentralRecord(entries[i], entries[i].offset));
        buffer := WriteCentral(buffer, entries[i]);
        i := i + 1;
      }
    }

    method Finalize() returns (buffer: Bytes)
      modifies this
      ensures buffer == Archive(old(entries))
      ensures entries == Located(old(entries))
    {
      ghost var given := entries;
      buffer := WriteLocals();
      var start := |buffer|;
      var directoryOffset := Cast32(start);
      buffer := WriteDirectory(buffer, given);
      var directorySize := Cast32(|buffer| - start);
      buffer := WriteEnd(buffer, Cast16(|entries|), directorySize, directoryOffset);
    }
  }

  lemma LocalsStep(entries: seq<Entry>, i: nat)
    requires i < |entries|
    ensures Locals(entries[..i + 1]) == Locals(entries[..i]) + LocalRecord(entries[i])
  {
    assert entries[..i + 1][..i] == entries[..i];
  }

  // ---------------------------------------------------------------- the reader

  method FindEnd(data: Bytes) returns (end: Option<nat>)
    requires |data| >= 22
    ensures end == F.FindEnd(data, |data| - 22)
  {
    var i := |data| - 22;
    while |data| <= i + MAX_SCAN
      invariant 0 <= i <= |data| - 22
      invariant F.FindEnd(data, i) == F.FindEnd(data, |data| - 22)
      decreases i
    {
      if ReadU32(data, i) == END_SIGNATURE {
        return Some(i);
      }
      if i == 0 {
        return None;
      }
      i := i - 1;
    }
    end := None;
  }

  /** `r` is what the reader finds at `cursor`. */
  predicate ReadsAs(codec: Codec, data: Bytes, cursor: nat, r: EntryOutcome) {
    r == ReadEntry(codec, data, cursor)
  }

  method ReadEntryAt(codec: Codec, data: Bytes, cursor: nat) returns (r: EntryOutcome)
    ensures ReadsAs(codec, data, cursor, r)
  {
    if cursor + 46 > |data| {
      return Bad;
    }
    if ReadU32(data, cursor) != CENTRAL_SIGNATURE {
      return Bad;
    }
    var at := cursor + 46;
    var nameLength := ReadU16(data, cursor + 28);
    if at + nameLength > |data| {
      return Bad;
    }
    var name := data[at..at + nameLength];
    at := at + nameLength + ReadU16(data, cursor + 30) + ReadU16(data, cursor + 32);
    r := ReadContentAt(codec, data, cursor, name, at);
  }

  method ReadContentAt(codec: Codec, data: Bytes, cursor: nat, name: Bytes, next: nat) returns (r: EntryOutcome)
    requires cursor + 46 <= |data|
    ensures r == ReadContent(codec, data, cursor, name, next)
  {
    var method_ := ReadU16(data, cursor + 10);
    var crc := ReadU32(data, cursor + 16);
    var packedSize := ReadU32(data, cursor + 20);
    var size := ReadU32(data, cursor + 24);
    var offset := ReadU32(data, cursor + 42);
    if Sum32(offset, 30) > |data| {
      return Bad;
    }
    if offset + 30 > |data| {
      return Wrapped;
    }
    if ReadU32(data, offset) != LOCAL_SIGNATURE {
      return Bad;
    }
    var at := ContentAt(data, offset);
    if at + packedSize > |data| {
      return Bad;
    }
    var content := UnpackAt(codec, data, at, method_, packedSize, size);
    if content.None? {
      return Bad;
    }
    var actual: U32 := 0;
    if content.value != [] {
      actual := codec.crc(content.value);
    }
    if actual != crc {
      return Bad;
    }
    r := One(Info(name, size, packedSize, crc, content.value), next);
  }

  method UnpackAt(codec: Codec, data: Bytes, at: nat, method_: U16, packedSize: U32, size: U32)
    returns (content: Option<Bytes>)
    requires at + packedSize <= |data|
    ensures content == Unpack(codec, data, at, method_, packedSize, size)
  {
    if packedSize == 0 && size == 0 {
      content := Some([]);
    } else if method_ == STORE {
      content := Some(data[at..at + packedSize]);
    } else if method_ == DEFLATE {
      content := codec.inflate(data[at..at + packedSize], size);
    } else {
      content := None;
    }
  }

  method ReadZipEntries(codec: Codec, data: Bytes) returns (r: Outcome)
    ensures r == ReadZip(codec, data)
  {
    if |data| < 22 {
      return Failed;
    }
    var end := FindEnd(data);
    if end.None? {
      return Failed;
    }
    var total := ReadU16(data, end.value + 10);
    var directorySize := ReadU32(data, end.value + 12);
    var directoryOffset := ReadU32(data, end.value + 16);
    if Sum32(directoryOffset, directorySize) > |data| {
      return Failed;
    }
    r := ReadDirectory(codec, data, directoryOffset, total, Reader(codec, data));
  }

  /** `read` is the reader, so the loop does what `ReadAll` does with it. */
  method ReadDirectory(codec: Codec, data: Bytes, offset: nat, total: nat, ghost read: nat -> EntryOutcome)
    returns (r: Outcome)
    requires forall cursor: nat, one :: ReadsAs(codec, data, cursor, one) ==> read(cursor) == one
    ensures r == ReadAll(read, offset, total, [])
  {
    hide ReadEntry;
    var cursor := offset;
    var infos: seq<Info> := [];
    var e := 0;
    while e < total
      invariant e <= total && ReadAll(read, cursor, total - e, infos) == ReadAll(read, offset, total, [])
    {
      var one := ReadEntryAt(codec, data, cursor);
      assert read(cursor) == one;
      match one
      case Bad => return Failed;
      case Wrapped => return Undefined;
      case One(info, next) =>
        infos := infos + [info];
        cursor := next;
        e := e + 1;
    }
    r := Read(infos);
  }
}
