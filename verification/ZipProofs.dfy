/**
 Reading what was written. The size limits are those of the format's fields and nothing
 else; in particular the number of entries is not limited by the writer.
 */
module ZipProofs {
  import opened Options
  import opened Octets
  import opened ZipFormat

  /** `part` stands at `at` in `data`. */
  predicate Holds(data: Bytes, at: nat, part: Bytes) {
    at + |part| <= |data| && data[at..at + |part|] == part
  }

  lemma Reads16(data: Bytes, at: nat, part: Bytes, k: nat, v: U16)
    requires Holds(data, at, part) && k + 2 <= |part| && part[k] == B0(v) && part[k + 1] == B1(v)
    ensures ReadU16(data, at + k) == v
  {
    assert data[at + k] == data[at..at + |part|][k] && data[at + k + 1] == data[at..at + |part|][k + 1];
    Field16ReadsBack(v);
  }

  lemma Reads32(data: Bytes, at: nat, part: Bytes, k: nat, v: U32)
    requires Holds(data, at, part) && k + 4 <= |part|
    requires part[k] == B0(v) && part[k + 1] == B1(v) && part[k + 2] == B2(v) && part[k + 3] == B3(v)
    ensures ReadU32(data, at + k) == v
  {
    var here := data[at..at + |part|];
    assert data[at + k] == here[k] && data[at + k + 1] == here[k + 1];
    assert data[at + k + 2] == here[k + 2] && data[at + k + 3] == here[k + 3];
    Field32ReadsBack(v);
  }

  lemma Signatures()
    ensures B0(END_SIGNATURE) == 0x50 && B1(END_SIGNATURE) == 0x4b
         && B2(END_SIGNATURE) == 0x05 && B3(END_SIGNATURE) == 0x06
    ensures B0(CENTRAL_SIGNATURE) == 0x50 && B1(CENTRAL_SIGNATURE) == 0x4b
         && B2(CENTRAL_SIGNATURE) == 0x01 && B3(CENTRAL_SIGNATURE) == 0x02
    ensures B0(LOCAL_SIGNATURE) == 0x50 && B1(LOCAL_SIGNATURE) == 0x4b
         && B2(LOCAL_SIGNATURE) == 0x03 && B3(LOCAL_SIGNATURE) == 0x04
  {}

  // ---------------------------------------------------------------- parts of parts

  lemma SliceOfSlice(data: Bytes, at: nat, to: nat, k: nat, l: nat)
    requires at <= to <= |data| && k <= l <= to - at
    ensures data[at..to][k..l] == data[at + k..at + l]
  {
    forall i | 0 <= i < l - k ensures data[at..to][k..l][i] == data[at + k..at + l][i] {
      assert data[at..to][k..l][i] == data[at..to][k + i] == data[at + k + i];
    }
  }

  lemma HoldsIn(data: Bytes, at: nat, part: Bytes, k: nat, inner: Bytes)
    requires Holds(data, at, part) && Holds(part, k, inner)
    ensures Holds(data, at + k, inner)
  {
    SliceOfSlice(data, at, at + |part|, k, k + |inner|);
  }

  lemma HoldsJoined(a: Bytes, b: Bytes, c: Bytes)
    ensures Holds(a + b + c, 0, a) && Holds(a + b + c, |a|, b) && Holds(a + b + c, |a| + |b|, c)
  {}

  lemma HoldsBoth(data: Bytes, at: nat, a: Bytes, b: Bytes)
    requires Holds(data, at, a + b)
    ensures Holds(data, at, a) && Holds(data, at + |a|, b)
  {
    assert Holds(a + b, 0, a) && Holds(a + b, |a|, b);
    HoldsIn(data, at, a + b, 0, a);
    HoldsIn(data, at, a + b, |a|, b);
  }

  lemma ReadsZero(data: Bytes, at: nat, part: Bytes, k: nat)
    requires Holds(data, at, part) && k + 2 <= |part| && part[k] == 0 && part[k + 1] == 0
    ensures ReadU16(data, at + k) == 0
  {
    assert data[at + k] == data[at..at + |part|][k] && data[at + k + 1] == data[at..at + |part|][k + 1];
  }

  lemma CommonRead(data: Bytes, at: nat, e: Entry)
    requires Holds(data, at, CommonFields(e))
    ensures ReadU16(data, at) == e.method_ && ReadU32(data, at + 6) == e.crc
    ensures ReadU32(data, at + 10) == e.packedSize && ReadU32(data, at + 14) == e.size
    ensures ReadU16(data, at + 18) == Cast16(|e.name|) && ReadU16(data, at + 20) == 0
  {
    hide B0, B1, B2, B3;
    var h := CommonFields(e);
    Reads16(data, at, h, 0, e.method_);
    Reads32(data, at, h, 6, e.crc);
    Reads32(data, at, h, 10, e.packedSize);
    Reads32(data, at, h, 14, e.size);
    Reads16(data, at, h, 18, Cast16(|e.name|));
    ReadsZero(data, at, h, 20);
  }

  lemma CentralEndRead(data: Bytes, at: nat, offset: U32)
    requires Holds(data, at, CentralEnd(offset))
    ensures ReadU16(data, at) == 0 && ReadU32(data, at + 10) == offset
  {
    hide B0, B1, B2, B3;
    ReadsZero(data, at, CentralEnd(offset), 0);
    Reads32(data, at, CentralEnd(offset), 10, offset);
  }

  lemma LocalFields(data: Bytes, at: nat, e: Entry)
    requires Holds(data, at, LocalHeader(e))
    ensures ReadU32(data, at) == LOCAL_SIGNATURE
    ensures ReadU16(data, at + 26) == Cast16(|e.name|) && ReadU16(data, at + 28) == 0
  {
    Signatures();
    HoldsBoth(data, at, LOCAL_START, CommonFields(e));
    Reads32(data, at, LOCAL_START, 0, LOCAL_SIGNATURE);
    CommonRead(data, at + 8, e);
  }

  lemma CentralFields(data: Bytes, at: nat, e: Entry, offset: U32)
    requires Holds(data, at, CentralHeader(e, offset))
    ensures ReadU32(data, at) == CENTRAL_SIGNATURE && ReadU16(data, at + 10) == e.method_
    ensures ReadU32(data, at + 16) == e.crc && ReadU32(data, at + 20) == e.packedSize
    ensures ReadU32(data, at + 24) == e.size && ReadU16(data, at + 28) == Cast16(|e.name|)
    ensures ReadU16(data, at + 30) == 0 && ReadU16(data, at + 32) == 0 && ReadU32(data, at + 42) == offset
  {
    Signatures();
    HoldsBoth(data, at, CENTRAL_START + CommonFields(e), CentralEnd(offset));
    HoldsBoth(data, at, CENTRAL_START, CommonFields(e));
    Reads32(data, at, CENTRAL_START, 0, CENTRAL_SIGNATURE);
    CommonRead(data, at + 10, e);
    CentralEndRead(data, at + 32, offset);
  }

  lemma EndFields(data: Bytes, at: nat, count: U16, size: U32, offset: U32)
    requires Holds(data, at, EndRecord(count, size, offset))
    ensures ReadU32(data, at) == END_SIGNATURE && ReadU16(data, at + 10) == count
    ensures ReadU32(data, at + 12) == size && ReadU32(data, at + 16) == offset
  {
    hide B0, B1, B2, B3;
    var h := EndRecord(count, size, offset);
    Signatures();
    Reads32(data, at, h, 0, END_SIGNATURE);
    Reads16(data, at, h, 10, count);
    Reads32(data, at, h, 12, size);
    Reads32(data, at, h, 16, offset);
  }

  lemma {:induction false} LocalsPrefix(entries: seq<Entry>, i: nat)
    requires i <= |entries|
    ensures Locals(entries[..i]) <= Locals(entries)
    decreases |entries|
  {
    if i == |entries| {
      assert entries[..i] == entries;
    } else {
      LocalsPrefix(entries[..|entries| - 1], i);
      assert entries[..|entries| - 1][..i] == entries[..i];
    }
  }

  ghost predicate Laid(archive: Bytes, entries: seq<Entry>) {
    && Holds(archive, 0, Locals(entries))
    && Holds(archive, |Locals(entries)|, Directory(entries, |entries|))
  }

  lemma ArchiveIsLaid(entries: seq<Entry>)
    ensures Laid(Archive(entries), entries)
  {
    var locals := Locals(entries);
    var directory := Directory(entries, |entries|);
    HoldsJoined(locals, directory, EndRecord(Cast16(|entries|), Cast32(|directory|), Cast32(|locals|)));
  }

  /** The local record of entry `i` is where its offset says. */
  lemma LocalIsThere(archive: Bytes, entries: seq<Entry>, i: nat)
    requires Laid(archive, entries) && i < |entries|
    ensures OffsetOf(entries, i) + |LocalRecord(entries[i])| <= |Locals(entries)|
    ensures Holds(archive, OffsetOf(entries, i), LocalRecord(entries[i]))
  {
    hide LocalHeader;
    var upTo := entries[..i + 1];
    assert upTo[..i] == entries[..i];
    LocalsPrefix(entries, i + 1);
    var before := Locals(entries[..i]);
    var record := LocalRecord(entries[i]);
    assert Locals(upTo) == before + record;
    HoldsPrefix(archive, Locals(entries), before + record);
    HoldsBoth(archive, 0, before, record);
  }

  lemma HoldsPrefix(data: Bytes, whole: Bytes, part: Bytes)
    requires Holds(data, 0, whole) && part <= whole
    ensures Holds(data, 0, part)
  {
    assert Holds(whole, 0, part);
    HoldsIn(data, 0, whole, 0, part);
  }

  /** Where the directory record of entry `i` is. */
  function RecordAt(entries: seq<Entry>, i: nat): nat
    requires i <= |entries|
  {
    |Locals(entries)| + |Directory(entries, i)|
  }

  lemma {:induction false} DirectoryPrefix(entries: seq<Entry>, i: nat, n: nat)
    requires i <= n <= |entries|
    ensures Directory(entries, i) <= Directory(entries, n)
    decreases n
  {
    hide CentralRecord, OffsetOf;
    if i < n {
      DirectoryPrefix(entries, i, n - 1);
    }
  }

  lemma RecordIsThere(archive: Bytes, entries: seq<Entry>, i: nat)
    requires Laid(archive, entries) && i < |entries|
    ensures var record := CentralRecord(entries[i], Cast32(OffsetOf(entries, i)));
      && Holds(archive, RecordAt(entries, i), record)
      && RecordAt(entries, i + 1) == RecordAt(entries, i) + |record|
  {
    hide CentralHeader, LocalHeader;
    var record := CentralRecord(entries[i], Cast32(OffsetOf(entries, i)));
    var before := Directory(entries, i);
    DirectoryPrefix(entries, i + 1, |entries|);
    RecordInDirectory(archive, |Locals(entries)|, Directory(entries, |entries|), before, record);
  }

  lemma RecordInDirectory(archive: Bytes, at: nat, directory: Bytes, before: Bytes, record: Bytes)
    requires Holds(archive, at, directory) && before + record <= directory
    ensures Holds(archive, at + |before|, record)
  {
    assert Holds(directory, 0, before + record);
    HoldsIn(archive, at, directory, 0, before + record);
    HoldsBoth(archive, at, before, record);
  }

  /** Every recorded offset points at its own local header. */
  lemma OffsetsPoint(entries: seq<Entry>, i: nat)
    requires |Locals(entries)| < TWO32 && i < |entries|
    ensures Holds(Archive(entries), Cast32(OffsetOf(entries, i)), LocalHeader(entries[i]))
  {
    ArchiveIsLaid(entries);
    LocalIsThere(Archive(entries), entries, i);
    var e := entries[i];
    HoldsBoth(Archive(entries), OffsetOf(entries, i), LocalHeader(e) + e.name, e.packed);
    HoldsBoth(Archive(entries), OffsetOf(entries, i), LocalHeader(e), e.name);
  }

  // ---------------------------------------------------------------- what a reader sees

  /** A local record, as far as the reader looks at it. */
  predicate LocalSeen(data: Bytes, at: nat, e: Entry) {
    && at + 30 + |e.name| + |e.packed| <= |data|
    && ReadU32(data, at) == LOCAL_SIGNATURE
    && ReadU16(data, at + 26) == Cast16(|e.name|) && ReadU16(data, at + 28) == 0
    && Holds(data, at + 30 + |e.name|, e.packed)
  }

  predicate CentralSeen(data: Bytes, at: nat, e: Entry, offset: U32) {
    && at + 46 + |e.name| <= |data|
    && ReadU32(data, at) == CENTRAL_SIGNATURE && ReadU16(data, at + 10) == e.method_
    && ReadU32(data, at + 16) == e.crc && ReadU32(data, at + 20) == e.packedSize
    && ReadU32(data, at + 24) == e.size && ReadU16(data, at + 28) == Cast16(|e.name|)
    && ReadU16(data, at + 30) == 0 && ReadU16(data, at + 32) == 0 && ReadU32(data, at + 42) == offset
    && Holds(data, at + 46, e.name)
  }

  lemma SeesLocal(data: Bytes, at: nat, e: Entry)
    requires Holds(data, at, LocalRecord(e))
    ensures LocalSeen(data, at, e)
  {
    HoldsBoth(data, at, LocalHeader(e) + e.name, e.packed);
    HoldsBoth(data, at, LocalHeader(e), e.name);
    LocalFields(data, at, e);
  }

  lemma SeesCentral(data: Bytes, at: nat, e: Entry, offset: U32)
    requires Holds(data, at, CentralRecord(e, offset))
    ensures CentralSeen(data, at, e, offset)
  {
    HoldsBoth(data, at, CentralHeader(e, offset), e.name);
    CentralFields(data, at, e, offset);
  }

  // ---------------------------------------------------------------- reading one entry back

  predicate Made(codec: Codec, f: File, e: Entry) {
    MakeEntry(codec, f) == Some(e.(offset := 0))
  }

  predicate FileFits(f: File) {
    |f.name| < TWO16 && |f.content| < TWO32
  }

  /** What a reader should find of a file. */
  function InfoOf(f: File, e: Entry): Info {
    Info(f.name, Cast32(|f.content|), Cast32(|e.packed|), e.crc, f.content)
  }

  /** The entry's fields are exact and its packed bytes unpack to the file. */
  predicate Packs(codec: Codec, f: File, e: Entry) {
    && e.name == f.name && |e.name| < TWO16 && e.packedSize == |e.packed| && e.size == |f.content|
    && e.crc == Checksum(codec, f.content)
    && (if f.content == [] then e.packed == []
        else e.method_ == DEFLATE && codec.inflate(e.packed, |f.content|) == Some(f.content))
  }

  lemma MadePacks(codec: Codec, f: File, e: Entry)
    requires Inverts(codec) && Made(codec, f, e) && FileFits(f) && |e.packed| < TWO32
    ensures Packs(codec, f, e)
  {
    if f.content != [] {
      assert ZlibInput(f.content) == f.content;
      assert codec.deflate(f.content) == Some(e.packed);
    }
  }

  lemma UnpacksTo(codec: Codec, data: Bytes, at: nat, f: File, e: Entry)
    requires Packs(codec, f, e) && Holds(data, at, e.packed)
    ensures Unpack(codec, data, at, e.method_, e.packedSize, e.size) == Some(f.content)
  {}

  lemma SumsAreExact(data: Bytes, e: Entry, offset: U32)
    requires LocalSeen(data, offset, e) && |e.name| < TWO16 && offset + 30 + |e.name| + |e.packed| < TWO32
    ensures Sum32(offset, 30) == offset + 30 && ContentAt(data, offset) == offset + 30 + |e.name|
  {}

  lemma ContentReadsBack(codec: Codec, data: Bytes, cursor: nat, f: File, e: Entry, offset: U32, name: Bytes, next: nat)
    requires Packs(codec, f, e) && CentralSeen(data, cursor, e, offset) && LocalSeen(data, offset, e)
    requires offset + 30 + |e.name| + |e.packed| < TWO32
    ensures ReadContent(codec, data, cursor, name, next) == One(InfoOf(f, e).(name := name), next)
  {
    UnpacksTo(codec, data, offset + 30 + |e.name|, f, e);
    SumsAreExact(data, e, offset);
  }

  lemma HeaderReads(codec: Codec, data: Bytes, cursor: nat, e: Entry, offset: U32)
    requires CentralSeen(data, cursor, e, offset) && |e.name| < TWO16
    ensures ReadEntry(codec, data, cursor) == ReadContent(codec, data, cursor, e.name, cursor + 46 + |e.name|)
  {}

  lemma EntryReadsBack(codec: Codec, data: Bytes, cursor: nat, f: File, e: Entry, offset: U32)
    requires Packs(codec, f, e) && CentralSeen(data, cursor, e, offset) && LocalSeen(data, offset, e)
    requires offset + 30 + |e.name| + |e.packed| < TWO32
    ensures ReadEntry(codec, data, cursor) == One(InfoOf(f, e), cursor + 46 + |e.name|)
  {
    HeaderReads(codec, data, cursor, e, offset);
    ContentReadsBack(codec, data, cursor, f, e, offset, e.name, cursor + 46 + |e.name|);
  }

  // ---------------------------------------------------------------- reading all of them

  predicate PlacedAt(data: Bytes, e: Entry, cursor: nat, offset: nat) {
    && offset + 30 + |e.name| + |e.packed| < TWO32
    && CentralSeen(data, cursor, e, offset) && LocalSeen(data, offset, e)
  }

  ghost predicate AllPack(codec: Codec, files: seq<File>, entries: seq<Entry>) {
    |files| == |entries| && forall i | 0 <= i < |files| :: Packs(codec, files[i], entries[i])
  }

  /** The files as the reader should report them. */
  function Infos(files: seq<File>, entries: seq<Entry>): (infos: seq<Info>)
    requires |files| == |entries|
    ensures |infos| == |files|
  {
    seq(|files|, i requires 0 <= i < |files| => InfoOf(files[i], entries[i]))
  }

  ghost predicate Steps(read: nat -> EntryOutcome, infos: seq<Info>, cursors: seq<nat>) {
    |cursors| == |infos| + 1 && forall i | 0 <= i < |infos| :: read(cursors[i]) == One(infos[i], cursors[i + 1])
  }

  lemma {:induction false} StepsRead(read: nat -> EntryOutcome, infos: seq<Info>, cursors: seq<nat>, i: nat, count: nat)
    requires Steps(read, infos, cursors) && i + count <= |infos|
    ensures ReadAll(read, cursors[i], count, infos[..i]) == Read(infos[..i + count])
    decreases count
  {
    if count > 0 {
      assert infos[..i] + [infos[i]] == infos[..i + 1];
      StepsRead(read, infos, cursors, i + 1, count - 1);
    }
  }

  lemma StepsFromStart(read: nat -> EntryOutcome, infos: seq<Info>, cursors: seq<nat>, count: nat)
    requires Steps(read, infos, cursors) && count <= |infos|
    ensures ReadAll(read, cursors[0], count, []) == Read(infos[..count])
  {
    StepsRead(read, infos, cursors, 0, count);
    assert infos[..0] == [];
  }

  lemma EntryIsPlaced(data: Bytes, entries: seq<Entry>, i: nat)
    requires Laid(data, entries) && |Locals(entries)| < TWO32 && i < |entries|
    ensures PlacedAt(data, entries[i], RecordAt(entries, i), OffsetOf(entries, i))
    ensures RecordAt(entries, i + 1) == RecordAt(entries, i) + 46 + |entries[i].name|
  {
    LocalIsThere(data, entries, i);
    RecordIsThere(data, entries, i);
    SeesLocal(data, OffsetOf(entries, i), entries[i]);
    SeesCentral(data, RecordAt(entries, i), entries[i], OffsetOf(entries, i));
  }

  lemma EndIsRead(data: Bytes, body: Bytes, count: U16, size: U32, offset: U32)
    requires data == body + EndRecord(count, size, offset)
    ensures |data| == |body| + 22
    ensures ReadU32(data, |body|) == END_SIGNATURE && ReadU16(data, |body| + 10) == count
    ensures ReadU32(data, |body| + 12) == size && ReadU32(data, |body| + 16) == offset
  {
    assert Holds(data, |body|, EndRecord(count, size, offset));
    EndFields(data, |body|, count, size, offset);
  }

  lemma ReadsCounted(codec: Codec, data: Bytes, body: Bytes, count: U16, size: U32, offset: U32)
    requires data == body + EndRecord(count, size, offset) && Sum32(offset, size) <= |data|
    ensures ReadZip(codec, data) == ReadEntries(codec, data, offset, count)
  {
    EndIsRead(data, body, count, size, offset);
  }

  lemma ArchiveReadsCounted(codec: Codec, entries: seq<Entry>)
    requires |Locals(entries)| < TWO32
    ensures ReadZip(codec, Archive(entries))
         == ReadEntries(codec, Archive(entries), |Locals(entries)|, Cast16(|entries|))
  {
    var locals := Locals(entries);
    var directory := Directory(entries, |entries|);
    WrappedSumIsSmaller(|locals|, |directory|);
    ReadsCounted(codec, Archive(entries), locals + directory,
                 Cast16(|entries|), Cast32(|directory|), Cast32(|locals|));
  }

  lemma WrappedSumIsSmaller(a: U32, b: nat)
    ensures Sum32(a, Cast32(b)) <= a + b
  {}

  ghost predicate MadeFrom(codec: Codec, files: seq<File>, entries: seq<Entry>) {
    |files| == |entries| && forall i | 0 <= i < |files| :: Made(codec, files[i], entries[i])
  }

  /** The limits of the 16- and 32-bit fields, for names, contents and offsets. */
  predicate Fits(files: seq<File>, entries: seq<Entry>) {
    (forall i | 0 <= i < |files| :: FileFits(files[i])) && |Locals(entries)| < TWO32
  }

  lemma AllArePacked(codec: Codec, files: seq<File>, entries: seq<Entry>, data: Bytes)
    requires Inverts(codec) && MadeFrom(codec, files, entries) && Fits(files, entries) && Laid(data, entries)
    ensures AllPack(codec, files, entries)
  {
    forall i | 0 <= i < |entries| ensures Packs(codec, files[i], entries[i]) {
      LocalIsThere(data, entries, i);
      assert Made(codec, files[i], entries[i]) && FileFits(files[i]);
      MadePacks(codec, files[i], entries[i]);
    }
  }

  function Cursors(entries: seq<Entry>): seq<nat> {
    seq(|entries| + 1, i requires 0 <= i <= |entries| => RecordAt(entries, i))
  }

  lemma PlacedIsRead(codec: Codec, data: Bytes, f: File, e: Entry, cursor: nat, offset: nat)
    requires Packs(codec, f, e) && PlacedAt(data, e, cursor, offset)
    ensures Reader(codec, data)(cursor) == One(InfoOf(f, e), cursor + 46 + |e.name|)
  {
    EntryReadsBack(codec, data, cursor, f, e, offset);
  }

  lemma EntryIsRead(codec: Codec, data: Bytes, entries: seq<Entry>, i: nat, f: File)
    requires Laid(data, entries) && |Locals(entries)| < TWO32 && i < |entries| && Packs(codec, f, entries[i])
    ensures Reader(codec, data)(RecordAt(entries, i)) == One(InfoOf(f, entries[i]), RecordAt(entries, i + 1))
  {
    hide LocalRecord, CentralRecord, LocalSeen, CentralSeen, ReadEntry, Packs, Locals, Directory;
    var e, cursor, offset := entries[i], RecordAt(entries, i), OffsetOf(entries, i);
    EntryIsPlaced(data, entries, i);
    PlacedIsRead(codec, data, f, e, cursor, offset);
  }

  lemma EntryStep(codec: Codec, files: seq<File>, entries: seq<Entry>, data: Bytes, i: nat)
    requires AllPack(codec, files, entries) && Laid(data, entries) && |Locals(entries)| < TWO32 && i < |entries|
    ensures Reader(codec, data)(Cursors(entries)[i]) == One(Infos(files, entries)[i], Cursors(entries)[i + 1])
  {
    hide ReadEntry, Packs, Laid, Locals, Directory;
    EntryIsRead(codec, data, entries, i, files[i]);
  }

  lemma AllAreRead(codec: Codec, files: seq<File>, entries: seq<Entry>, data: Bytes)
    requires AllPack(codec, files, entries) && Laid(data, entries) && |Locals(entries)| < TWO32
    ensures Steps(Reader(codec, data), Infos(files, entries), Cursors(entries))
  {
    forall i: nat | i < |entries|
      ensures Reader(codec, data)(Cursors(entries)[i]) == One(Infos(files, entries)[i], Cursors(entries)[i + 1])
    {
      EntryStep(codec, files, entries, data, i);
    }
  }

  lemma LaidReadsBack(codec: Codec, files: seq<File>, entries: seq<Entry>, data: Bytes, count: nat)
    requires Inverts(codec) && MadeFrom(codec, files, entries) && Fits(files, entries) && Laid(data, entries)
    requires count <= |files|
    ensures ReadEntries(codec, data, |Locals(entries)|, count) == Read(Infos(files, entries)[..count])
  {
    hide LocalRecord, CentralRecord, ReadEntry, Packs, AllPack, MadeFrom, Laid;
    AllArePacked(codec, files, entries, data);
    AllAreRead(codec, files, entries, data);
    StepsFromStart(Reader(codec, data), Infos(files, entries), Cursors(entries), count);
  }

  /**
   Reading an archive within the size limits gives back the files in order, with their
   sizes and checksums: as many of them as the 16-bit entry count says.
   */
  lemma ArchiveReadsBack(codec: Codec, files: seq<File>, entries: seq<Entry>)
    requires Inverts(codec) && MadeFrom(codec, files, entries) && Fits(files, entries)
    ensures ReadZip(codec, Archive(entries)) == Read(Infos(files, entries)[..Cast16(|files|)])
  {
    ArchiveReadsCounted(codec, entries);
    ArchiveIsLaid(entries);
    LaidReadsBack(codec, files, entries, Archive(entries), Cast16(|files|));
  }

  /** All files come back exactly when there are fewer than 65536; the count field drops the rest silently. */
  lemma RoundTripIffCountFits(codec: Codec, files: seq<File>, entries: seq<Entry>)
    requires Inverts(codec) && MadeFrom(codec, files, entries) && Fits(files, entries)
    ensures ReadZip(codec, Archive(entries)) == Read(Infos(files, entries)) <==> |files| < TWO16
  {
    ArchiveReadsBack(codec, files, entries);
    var infos := Infos(files, entries);
    assert infos[..|infos|] == infos;
    assert |infos[..Cast16(|files|)]| == Cast16(|files|) < TWO16;
  }

  // ---------------------------------------------------------------- an archive that loses its files

  const EMPTY_FILE := File([], [], 0, 0)
  const EMPTY_ENTRY := Entry([], STORE, 0, 0, 0, 0, 0, 0, [])

  function EmptyFiles(n: nat): seq<File> {
    seq(n, _ => EMPTY_FILE)
  }

  function EmptyEntries(n: nat): seq<Entry> {
    seq(n, _ => EMPTY_ENTRY)
  }

  /** Only the local header is left of an empty file. */
  lemma {:induction false} EmptyLocals(n: nat)
    ensures |Locals(EmptyEntries(n))| == 30 * n
  {
    if n == 0 {
    } else {
      EmptyLocals(n - 1);
      assert EmptyEntries(n)[..n - 1] == EmptyEntries(n - 1);
      assert |LocalRecord(EMPTY_ENTRY)| == 30;
    }
  }

  lemma EmptyFilesFit(codec: Codec, n: nat)
    requires 30 * n < TWO32
    ensures MadeFrom(codec, EmptyFiles(n), EmptyEntries(n)) && Fits(EmptyFiles(n), EmptyEntries(n))
  {
    hide Locals;
    EmptyLocals(n);
    assert Made(codec, EMPTY_FILE, EMPTY_ENTRY) && FileFits(EMPTY_FILE);
  }

  /** 65536 empty files fit every limit; the archive reads back without a failure and without a file. */
  lemma TooManyFilesReadAsNone(codec: Codec)
    requires Inverts(codec)
    ensures MadeFrom(codec, EmptyFiles(TWO16), EmptyEntries(TWO16)) && Fits(EmptyFiles(TWO16), EmptyEntries(TWO16))
    ensures ReadZip(codec, Archive(EmptyEntries(TWO16))) == Read([])
  {
    hide Archive, ReadZip, Locals, MadeFrom, Fits;
    var files, entries := EmptyFiles(TWO16), EmptyEntries(TWO16);
    EmptyFilesFit(codec, TWO16);
    ArchiveReadsBack(codec, files, entries);
    assert Infos(files, entries)[..Cast16(TWO16)] == [];
  }
}
