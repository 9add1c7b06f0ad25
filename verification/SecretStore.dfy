/**
 Secrets on disk (src/core/config/SecretStore.cpp): ciphertexts are kept as text, the
 system's as hex digits; one map remembers the ciphertext of each field and another the
 plaintext it is known to open to. Encryption and decryption may fail at any call.
 */
module Secrets {
  import opened Options
  import opened Octets

  // ---------------------------------------------------------------- hex text

  function HexDigit(v: int): Byte
    requires 0 <= v < 16
  {
    if v < 10 then '0' as int + v else 'a' as int + (v - 10)
  }

  function HexValue(c: Byte): Option<int> {
    if '0' as int <= c <= '9' as int then Some(c - '0' as int)
    else if 'a' as int <= c <= 'f' as int then Some(c - 'a' as int + 10)
    else if 'A' as int <= c <= 'F' as int then Some(c - 'A' as int + 10)
    else None
  }

  function ToHex(data: Bytes): Bytes {
    if data == [] then []
    else
      var last := data[|data| - 1];
      ToHex(data[..|data| - 1]) + [HexDigit(last / 16), HexDigit(last % 16)]
  }

  predicate AllHexDigits(text: Bytes) {
    |text| % 2 == 0 && forall i | 0 <= i < |text| :: HexValue(text[i]).Some?
  }

  predicate IsHex(text: Bytes) {
    text != [] && AllHexDigits(text)
  }

  function PairValue(high: Byte, low: Byte): Byte
    requires HexValue(high).Some? && HexValue(low).Some?
  {
    (HexValue(high).value * 16 + HexValue(low).value) % 256
  }

  /** Pairs of digits; the text has an even number of them. */
  function Unhex(text: Bytes): Bytes
    requires AllHexDigits(text)
  {
    if text == [] then []
    else
      var n := |text|;
      Unhex(text[..n - 2]) + [PairValue(text[n - 2], text[n - 1])]
  }

  function FromHex(text: Bytes): Bytes {
    if IsHex(text) then Unhex(text) else []
  }

  lemma {:induction false} ToHexIsHex(data: Bytes)
    ensures |ToHex(data)| == 2 * |data|
    ensures forall i | 0 <= i < |ToHex(data)| :: HexValue(ToHex(data)[i]).Some?
  {
    if data != [] {
      ToHexIsHex(data[..|data| - 1]);
    }
  }

  lemma PairOfDigits(value: Byte)
    ensures HexValue(HexDigit(value / 16)) == Some(value / 16) && HexValue(HexDigit(value % 16)) == Some(value % 16)
    ensures PairValue(HexDigit(value / 16), HexDigit(value % 16)) == value
  {
    assert value / 16 * 16 + value % 16 == value;
  }

  lemma UnhexPushed(text: Bytes, high: Byte, low: Byte)
    requires AllHexDigits(text) && HexValue(high).Some? && HexValue(low).Some?
    ensures AllHexDigits(text + [high, low]) && Unhex(text + [high, low]) == Unhex(text) + [PairValue(high, low)]
  {
    hide HexValue, PairValue;
    assert (text + [high, low])[..|text|] == text;
  }

  lemma {:induction false} UnhexOfHex(data: Bytes)
    requires AllHexDigits(ToHex(data))
    ensures Unhex(ToHex(data)) == data
  {
    if data == [] {
    } else {
      hide HexDigit, HexValue, PairValue, Unhex;
      var init, last := data[..|data| - 1], data[|data| - 1];
      ToHexIsHex(init);
      UnhexOfHex(init);
      PairOfDigits(last);
      UnhexPushed(ToHex(init), HexDigit(last / 16), HexDigit(last % 16));
    }
  }

  /** Decoding hex text undoes encoding, for every byte string. */
  lemma HexRoundTrip(data: Bytes)
    ensures FromHex(ToHex(data)) == data
  {
    ToHexIsHex(data);
    UnhexOfHex(data);
  }

  function LowerHex(c: Byte): Byte {
    if 'A' as int <= c <= 'F' as int then c + 32 else c
  }

  function LowerAll(text: Bytes): Bytes {
    seq(|text|, i requires 0 <= i < |text| => LowerHex(text[i]))
  }

  lemma DigitIsLower(c: Byte)
    requires HexValue(c).Some?
    ensures 0 <= HexValue(c).value < 16 && HexDigit(HexValue(c).value) == LowerHex(c)
  {}

  lemma PairSplits(high: int, low: int)
    requires 0 <= high < 16 && 0 <= low < 16
    ensures (high * 16 + low) % 256 / 16 == high && (high * 16 + low) % 256 % 16 == low
  {}

  lemma DigitPair(high: Byte, low: Byte)
    requires HexValue(high).Some? && HexValue(low).Some?
    ensures var value := PairValue(high, low);
            HexDigit(value / 16) == LowerHex(high) && HexDigit(value % 16) == LowerHex(low)
  {
    hide HexDigit, HexValue, LowerHex;
    DigitIsLower(high);
    DigitIsLower(low);
    PairSplits(HexValue(high).value, HexValue(low).value);
  }

  lemma HexOfPushed(data: Bytes, value: Byte)
    ensures ToHex(data + [value]) == ToHex(data) + [HexDigit(value / 16), HexDigit(value % 16)]
  {
    hide HexDigit;
    var pushed := data + [value];
    assert pushed[..|pushed| - 1] == data && pushed[|pushed| - 1] == value;
  }

  lemma LowerPair(text: Bytes)
    requires |text| >= 2
    ensures var n := |text|; LowerAll(text) == LowerAll(text[..n - 2]) + [LowerHex(text[n - 2]), LowerHex(text[n - 1])]
  {}

  /** The other way round the digits come back in lower case. */
  lemma {:induction false} HexOfUnhex(text: Bytes)
    requires AllHexDigits(text)
    ensures ToHex(Unhex(text)) == LowerAll(text)
  {
    if text == [] {
    } else {
      hide HexDigit, HexValue, LowerHex, PairValue, ToHex, LowerAll;
      var n := |text|;
      HexOfUnhex(text[..n - 2]);
      DigitPair(text[n - 2], text[n - 1]);
      HexOfPushed(Unhex(text[..n - 2]), PairValue(text[n - 2], text[n - 1]));
      LowerPair(text);
    }
  }

  // ---------------------------------------------------------------- protection

  /**
   Encryption and decryption at one moment; None where they fail. Each is the system's
   (CryptProtectData and CryptUnprotectData, on blobs) unless the store was given a function for it,
   which then works on the text of the disk.
   */
  datatype Crypt = Crypt(protect: Bytes -> Option<Bytes>, unprotect: Bytes -> Option<Bytes>,
                         givenProtect: bool, givenUnprotect: bool)

  /** What a blob opens to for the system, and a text for the functions given. */
  datatype Meaning = Meaning(blob: Bytes -> Option<Bytes>, text: Bytes -> Option<Bytes>)

  /** The one law used of protection: what it answers is true. */
  ghost predicate Honest(opens: Meaning, crypt: Crypt) {
    && (forall plain, cipher :: crypt.protect(plain) == Some(cipher)
          ==> (if crypt.givenProtect then opens.text(cipher) else opens.blob(cipher)) == Some(plain))
    && (forall plain, cipher :: crypt.unprotect(cipher) == Some(plain)
          ==> (if crypt.givenUnprotect then opens.text(cipher) else opens.blob(cipher)) == Some(plain))
  }

  /** `plain` is what a disk value opens to, one way or the other. */
  predicate OpensTo(opens: Meaning, disk: Bytes, plain: Bytes) {
    opens.blob(FromHex(disk)) == Some(plain) || opens.text(disk) == Some(plain)
  }

  const SIGNATURE: Bytes := [0x01, 0x00, 0x00, 0x00, 0xd0, 0x02, 0x9a, 0xdf]

  /** The header every protected blob starts with. */
  predicate HasSignature(data: Bytes) {
    |data| >= 20 && data[..8] == SIGNATURE
  }

  /** The blob's flags say that any user of the machine can open it. */
  predicate MachineBound(data: Bytes) {
    |data| >= 44 && data[40] / 4 % 2 == 1
  }

  datatype Decrypted = Refused | Opened(plain: Bytes, again: bool)

  function DecryptSecret(crypt: Crypt, raw: Bytes): Decrypted {
    if raw == [] then Opened([], false)
    else if crypt.givenUnprotect then
      match crypt.unprotect(raw)
      case Some(plain) => Opened(plain, false)
      case None => Refused
    else if !IsHex(raw) then Opened(raw, true)
    else
      match crypt.unprotect(FromHex(raw))
      case Some(plain) => Opened(plain, MachineBound(FromHex(raw)))
      case None => if HasSignature(FromHex(raw)) then Refused else Opened(raw, true)
  }

  function EncryptSecret(crypt: Crypt, plain: Bytes): Option<Bytes> {
    if plain == [] then Some([])
    else match crypt.protect(plain)
      case None => None
      case Some(cipher) => Some(if crypt.givenProtect then cipher else ToHex(cipher))
  }

  // ---------------------------------------------------------------- the store

  datatype Store = Store(saved: map<string, Bytes>, remembered: map<string, Bytes>)

  const EMPTY := Store(map[], map[])

  predicate HasSaved(s: Store, field: string) {
    field in s.saved && s.saved[field] != []
  }

  predicate Remembers(s: Store, field: string, plain: Bytes) {
    field in s.remembered && s.remembered[field] == plain
  }

  function Forget(s: Store, field: string): Store {
    Store(s.saved - {field}, s.remembered - {field})
  }

  function Remember(s: Store, field: string, cipher: Bytes, plain: Bytes): Store {
    Store(s.saved[field := cipher], s.remembered[field := plain])
  }

  /** Load a field: `target` is the value the program will use. */
  function Load(s: Store, crypt: Crypt, field: string, raw: Bytes): Store {
    if raw == [] then Forget(s, field)
    else match DecryptSecret(crypt, raw)
      case Refused => Store(s.saved[field := raw], s.remembered - {field})
      case Opened(plain, again) =>
        if !again then Remember(s, field, raw, plain)
        else Store(if HasSignature(FromHex(raw)) then s.saved[field := raw] else s.saved - {field},
                   s.remembered - {field})
  }

  function Target(crypt: Crypt, raw: Bytes): Bytes {
    match DecryptSecret(crypt, raw)
    case Refused => []
    case Opened(plain, _) => plain
  }

  datatype Written = Written(s: Store, disk: Bytes)

  function Save(s: Store, crypt: Crypt, field: string, plain: Bytes): Written {
    if plain == [] then
      if HasSaved(s, field) && field !in s.remembered then Written(s, s.saved[field]) else Written(Forget(s, field), [])
    else if Remembers(s, field, plain) && HasSaved(s, field) then Written(s, s.saved[field])
    else
      match EncryptSecret(crypt, plain)
      case Some(cipher) => Written(Remember(s, field, cipher, plain), cipher)
      case None => Written(s, if HasSaved(s, field) then s.saved[field] else [])
  }

  /** A plaintext to encrypt, and how protection answers when its turn comes. */
  datatype Legacy = Legacy(field: string, plain: Bytes, crypt: Crypt)

  predicate NeedsMigration(s: Store, item: Legacy) {
    item.plain != [] && !Remembers(s, item.field, item.plain)
  }

  function MigrateOne(s: Store, item: Legacy): Store {
    if !NeedsMigration(s, item) then s
    else match EncryptSecret(item.crypt, item.plain)
      case Some(cipher) => Remember(s, item.field, cipher, item.plain)
      case None => s
  }

  function Migrate(s: Store, items: seq<Legacy>): Store {
    if items == [] then s else MigrateOne(Migrate(s, items[..|items| - 1]), items[|items| - 1])
  }

  /** True when no encryption failed. */
  predicate Migrated(s: Store, items: seq<Legacy>) {
    items == [] ||
    var earlier, last := items[..|items| - 1], items[|items| - 1];
    Migrated(s, earlier) &&
    (NeedsMigration(Migrate(s, earlier), last) ==> EncryptSecret(last.crypt, last.plain).Some?)
  }

  // ---------------------------------------------------------------- runs

  /** A call, and how protection answers whenever it is asked. */
  datatype Call =
    | LoadField(field: string, raw: Bytes, crypt: Crypt)
    | SaveField(field: string, plain: Bytes, crypt: Crypt)
    | MigrateAll(items: seq<Legacy>)
    | Reset

  function Apply(s: Store, c: Call): Store {
    match c
    case LoadField(field, raw, crypt) => Load(s, crypt, field, raw)
    case SaveField(field, plain, crypt) => Save(s, crypt, field, plain).s
    case MigrateAll(items) => Migrate(s, items)
    case Reset => EMPTY
  }

  ghost function Run(s: Store, calls: seq<Call>): Store {
    if calls == [] then s else Apply(Run(s, calls[..|calls| - 1]), calls[|calls| - 1])
  }

  // ---------------------------------------------------------------- what is remembered is true

  ghost predicate Truthful(opens: Meaning, s: Store) {
    forall field | field in s.remembered ::
      field in s.saved && OpensTo(opens, s.saved[field], s.remembered[field])
  }

  ghost predicate HonestCall(opens: Meaning, c: Call) {
    match c
    case LoadField(_, _, crypt) => Honest(opens, crypt)
    case SaveField(_, _, crypt) => Honest(opens, crypt)
    case MigrateAll(items) => forall i | 0 <= i < |items| :: Honest(opens, items[i].crypt)
    case Reset => true
  }

  ghost predicate AllHonest(opens: Meaning, calls: seq<Call>) {
    forall i | 0 <= i < |calls| :: HonestCall(opens, calls[i])
  }

  lemma EncryptedOpens(opens: Meaning, crypt: Crypt, plain: Bytes)
    requires Honest(opens, crypt) && plain != [] && EncryptSecret(crypt, plain).Some?
    ensures OpensTo(opens, EncryptSecret(crypt, plain).value, plain)
  {
    HexRoundTrip(crypt.protect(plain).value);
  }

  lemma {:induction false} MigrateIsTruthful(opens: Meaning, s: Store, items: seq<Legacy>)
    requires Truthful(opens, s) && forall i | 0 <= i < |items| :: Honest(opens, items[i].crypt)
    ensures Truthful(opens, Migrate(s, items))
  {
    hide EncryptSecret, Honest, OpensTo;
    if items != [] {
      MigrateIsTruthful(opens, s, items[..|items| - 1]);
      var item := items[|items| - 1];
      if item.plain != [] && EncryptSecret(item.crypt, item.plain).Some? {
        EncryptedOpens(opens, item.crypt, item.plain);
      }
    }
  }

  lemma DecryptedOpens(opens: Meaning, crypt: Crypt, raw: Bytes)
    requires Honest(opens, crypt) && raw != []
    ensures var dec := DecryptSecret(crypt, raw); dec.Opened? && !dec.again ==> OpensTo(opens, raw, dec.plain)
  {
    hide IsHex, FromHex, HasSignature, MachineBound;
  }

  lemma LoadIsTruthful(opens: Meaning, s: Store, crypt: Crypt, field: string, raw: Bytes)
    requires Honest(opens, crypt) && Truthful(opens, s)
    ensures Truthful(opens, Load(s, crypt, field, raw))
  {
    hide DecryptSecret, OpensTo, HasSignature, FromHex, Honest, Truthful;
    if raw != [] && DecryptSecret(crypt, raw).Opened? && !DecryptSecret(crypt, raw).again {
      DecryptedOpens(opens, crypt, raw);
      RememberIsTruthful(opens, s, field, raw, DecryptSecret(crypt, raw).plain);
    } else {
      UnknownIsTruthful(opens, s, Load(s, crypt, field, raw), field);
    }
  }

  lemma RememberIsTruthful(opens: Meaning, s: Store, field: string, cipher: Bytes, plain: Bytes)
    requires Truthful(opens, s) && OpensTo(opens, cipher, plain)
    ensures Truthful(opens, Remember(s, field, cipher, plain))
  {}

  /** Nothing is claimed of a field whose plaintext is not remembered. */
  lemma UnknownIsTruthful(opens: Meaning, s: Store, t: Store, field: string)
    requires Truthful(opens, s) && t.remembered == s.remembered - {field}
    requires forall other | other in s.saved && other != field :: other in t.saved && t.saved[other] == s.saved[other]
    ensures Truthful(opens, t)
  {}

  lemma SaveIsTruthful(opens: Meaning, s: Store, crypt: Crypt, field: string, plain: Bytes)
    requires Honest(opens, crypt) && Truthful(opens, s)
    ensures Truthful(opens, Save(s, crypt, field, plain).s)
  {
    if plain != [] && EncryptSecret(crypt, plain).Some? {
      EncryptedOpens(opens, crypt, plain);
    }
  }

  lemma ApplyIsTruthful(opens: Meaning, s: Store, c: Call)
    requires HonestCall(opens, c) && Truthful(opens, s)
    ensures Truthful(opens, Apply(s, c))
  {
    match c
    case LoadField(field, raw, crypt) => LoadIsTruthful(opens, s, crypt, field, raw);
    case SaveField(field, plain, crypt) => SaveIsTruthful(opens, s, crypt, field, plain);
    case MigrateAll(items) => MigrateIsTruthful(opens, s, items);
    case Reset =>
  }

  /** Over any sequence of calls, every remembered plaintext is what its saved ciphertext opens to. */
  lemma {:induction false} RememberedOpens(opens: Meaning, calls: seq<Call>)
    requires AllHonest(opens, calls)
    ensures Truthful(opens, Run(EMPTY, calls))
  {
    if calls == [] {
    } else {
      RememberedOpens(opens, calls[..|calls| - 1]);
      ApplyIsTruthful(opens, Run(EMPTY, calls[..|calls| - 1]), calls[|calls| - 1]);
    }
  }

  // ---------------------------------------------------------------- what may reach the disk

  /** Not taken for a plaintext when it was loaded. */
  predicate TakenAsCipher(crypt: Crypt, raw: Bytes) {
    match DecryptSecret(crypt, raw)
    case Refused => true
    case Opened(_, again) => !again || HasSignature(FromHex(raw))
  }

  /** `c` put this ciphertext on record for the field: it was loaded as one, or just encrypted. */
  ghost predicate Recorded(c: Call, field: string, cipher: Bytes) {
    match c
    case LoadField(f, raw, crypt) => f == field && raw == cipher && TakenAsCipher(crypt, raw)
    case SaveField(f, plain, crypt) => f == field && plain != [] && EncryptSecret(crypt, plain) == Some(cipher)
    case MigrateAll(items) => exists i | 0 <= i < |items| :: Encrypts(items[i], field, cipher)
    case Reset => false
  }

  predicate Encrypts(item: Legacy, field: string, cipher: Bytes) {
    item.field == field && item.plain != [] && EncryptSecret(item.crypt, item.plain) == Some(cipher)
  }

  ghost predicate OnRecord(calls: seq<Call>, field: string, cipher: Bytes) {
    exists i | 0 <= i < |calls| :: Recorded(calls[i], field, cipher)
  }

  lemma {:induction false} MigrateRecords(s: Store, items: seq<Legacy>, all: seq<Legacy>, field: string)
    requires items <= all && field in Migrate(s, items).saved
    ensures var after := Migrate(s, items).saved[field];
      (field in s.saved && s.saved[field] == after) || Recorded(MigrateAll(all), field, after)
  {
    hide EncryptSecret;
    if items != [] {
      var before := Migrate(s, items[..|items| - 1]);
      if field in before.saved {
        MigrateRecords(s, items[..|items| - 1], all, field);
      }
      assert all[|items| - 1] == items[|items| - 1];
      var after := Migrate(s, items).saved[field];
      if field !in before.saved || before.saved[field] != after {
        assert Encrypts(all[|items| - 1], field, after);
      }
    }
  }

  lemma ApplyRecords(s: Store, c: Call, field: string)
    requires field in Apply(s, c).saved
    ensures var after := Apply(s, c).saved[field];
      (field in s.saved && s.saved[field] == after) || Recorded(c, field, after)
  {
    if c.MigrateAll? {
      MigrateRecords(s, c.items, c.items, field);
    }
  }

  lemma {:induction false} SavedIsOnRecord(calls: seq<Call>, field: string)
    requires field in Run(EMPTY, calls).saved
    ensures OnRecord(calls, field, Run(EMPTY, calls).saved[field])
  {
    if calls == [] {
    } else {
      var earlier, last := calls[..|calls| - 1], calls[|calls| - 1];
      var before := Run(EMPTY, earlier);
      var cipher := Run(EMPTY, calls).saved[field];
      ApplyRecords(before, last, field);
      if Recorded(last, field, cipher) {
        assert Recorded(calls[|calls| - 1], field, cipher);
      } else {
        SavedIsOnRecord(earlier, field);
        var i :| 0 <= i < |earlier| && Recorded(earlier[i], field, cipher);
        assert Recorded(calls[i], field, cipher);
      }
    }
  }

  /**
   What a save writes is empty, or a ciphertext of that field that was loaded, or an
   encryption output: a value that was taken for a plaintext is not written back.
   */
  lemma DiskIsOnRecord(calls: seq<Call>, field: string, plain: Bytes, crypt: Crypt)
    ensures var disk := Save(Run(EMPTY, calls), crypt, field, plain).disk;
      disk == [] || OnRecord(calls + [SaveField(field, plain, crypt)], field, disk)
  {
    var s := Run(EMPTY, calls);
    var c := SaveField(field, plain, crypt);
    var disk := Save(s, crypt, field, plain).disk;
    if field in s.saved && disk == s.saved[field] {
      SavedIsOnRecord(calls, field);
      var i :| 0 <= i < |calls| && Recorded(calls[i], field, disk);
      assert Recorded((calls + [c])[i], field, disk);
    } else if disk != [] {
      assert Recorded((calls + [c])[|calls|], field, disk);
    }
  }

  // ---------------------------------------------------------------- a ciphertext that is kept

  /** The field has a ciphertext although nothing is known of its plaintext. */
  predicate Kept(s: Store, field: string) {
    HasSaved(s, field) && field !in s.remembered
  }

  /** The load leaves the field so: it did not open, or is to be encrypted again. */
  predicate Blocks(c: Call, field: string) {
    c.LoadField? && c.field == field && c.raw != [] &&
    match DecryptSecret(c.crypt, c.raw)
    case Refused => true
    case Opened(_, again) => again && HasSignature(FromHex(c.raw))
  }

  predicate SparesItem(item: Legacy, field: string) {
    item.field != field || item.plain == [] || EncryptSecret(item.crypt, item.plain).None?
  }

  /** Calls that do not give the field a new value: those on other fields, saves of nothing, failing encryptions. */
  predicate Spares(c: Call, field: string) {
    match c
    case LoadField(f, _, _) => f != field
    case SaveField(f, plain, crypt) => f != field || plain == [] || EncryptSecret(crypt, plain).None?
    case MigrateAll(items) => forall i | 0 <= i < |items| :: SparesItem(items[i], field)
    case Reset => false
  }

  predicate AllSpare(calls: seq<Call>, field: string) {
    forall i | 0 <= i < |calls| :: Spares(calls[i], field)
  }

  lemma MigrateOneKeepsIff(s: Store, item: Legacy, field: string)
    ensures Kept(MigrateOne(s, item), field) <==> Kept(s, field) && SparesItem(item, field)
    ensures Kept(MigrateOne(s, item), field) ==> MigrateOne(s, item).saved[field] == s.saved[field]
  {
    hide EncryptSecret;
  }

  lemma {:induction false} MigrateKeepsIff(s: Store, items: seq<Legacy>, field: string)
    ensures Kept(Migrate(s, items), field) <==> Kept(s, field) && Spares(MigrateAll(items), field)
    ensures Kept(Migrate(s, items), field) ==> Migrate(s, items).saved[field] == s.saved[field]
  {
    hide MigrateOne, Kept, SparesItem;
    if items != [] {
      var init, last := items[..|items| - 1], items[|items| - 1];
      MigrateKeepsIff(s, init, field);
      MigrateOneKeepsIff(Migrate(s, init), last, field);
      assert Spares(MigrateAll(items), field) <==> Spares(MigrateAll(init), field) && SparesItem(last, field) by {
        assert forall i | 0 <= i < |init| :: items[i] == init[i];
      }
    }
  }

  /** A call leaves the field kept if and only if it blocks it, or spares it and it was kept before. */
  lemma ApplyKeepsIff(s: Store, c: Call, field: string)
    ensures var after := Apply(s, c);
      && (Kept(after, field) <==> Blocks(c, field) || (Kept(s, field) && Spares(c, field)))
      && (Kept(after, field) ==> after.saved[field] == if Blocks(c, field) then c.raw else s.saved[field])
  {
    hide DecryptSecret, EncryptSecret, HasSignature, FromHex;
    if c.MigrateAll? {
      MigrateKeepsIff(s, c.items, field);
    }
  }

  /** Some call blocked the field, and all since have spared it. */
  ghost predicate Stuck(calls: seq<Call>, field: string) {
    exists k | 0 <= k < |calls| :: Blocks(calls[k], field) && AllSpare(calls[k + 1..], field)
  }

  lemma AllSpareSnoc(calls: seq<Call>, c: Call, field: string)
    ensures AllSpare(calls + [c], field) <==> AllSpare(calls, field) && Spares(c, field)
  {
    hide Spares;
    var longer := calls + [c];
    assert longer[|calls|] == c && forall i | 0 <= i < |calls| :: longer[i] == calls[i];
  }

  lemma StuckSnoc(calls: seq<Call>, c: Call, field: string)
    ensures Stuck(calls + [c], field) <==> Blocks(c, field) || (Stuck(calls, field) && Spares(c, field))
  {
    hide Blocks, Spares, AllSpare;
    var longer := calls + [c];
    forall k | 0 <= k < |calls| ensures longer[k] == calls[k]
      ensures AllSpare(longer[k + 1..], field) <==> AllSpare(calls[k + 1..], field) && Spares(c, field)
    {
      assert longer[k + 1..] == calls[k + 1..] + [c];
      AllSpareSnoc(calls[k + 1..], c, field);
    }
    assert longer[|calls|] == c;
    NoneIsSpared(longer[|calls| + 1..], field);
  }

  lemma NoneIsSpared(none: seq<Call>, field: string)
    requires none == []
    ensures AllSpare(none, field)
  {}

  /** After any sequence of calls on any store. */
  lemma {:induction false} KeptIff(s: Store, calls: seq<Call>, field: string)
    ensures Kept(Run(s, calls), field) <==> Stuck(calls, field) || (Kept(s, field) && AllSpare(calls, field))
  {
    hide Apply, Kept, Blocks, Spares, Stuck, AllSpare;
    if calls == [] {
      NoneIsSpared(calls, field);
      NothingIsStuck(field);
    } else {
      var init, last := calls[..|calls| - 1], calls[|calls| - 1];
      KeptIff(s, init, field);
      ApplyKeepsIff(Run(s, init), last, field);
      assert calls == init + [last];
      StuckSnoc(init, last, field);
      AllSpareSnoc(init, last, field);
    }
  }

  lemma NothingIsStuck(field: string)
    ensures !Stuck([], field)
  {}

  /**
   Clearing a secret, over every run: it reaches the disk unless some call loaded the field with a
   ciphertext that did not open, or is to be encrypted again, and every call since has spared the field.
   */
  lemma ClearingTakesEffect(calls: seq<Call>, field: string, crypt: Crypt)
    ensures Save(Run(EMPTY, calls), crypt, field, []).disk == [] <==> !Stuck(calls, field)
  {
    hide Run, Stuck;
    KeptIff(EMPTY, calls, field);
  }

  lemma {:induction false} SparingKeeps(s: Store, calls: seq<Call>, field: string)
    requires Kept(s, field) && AllSpare(calls, field)
    ensures Kept(Run(s, calls), field) && Run(s, calls).saved[field] == s.saved[field]
  {
    hide Apply, Spares, Blocks;
    if calls != [] {
      var init, last := calls[..|calls| - 1], calls[|calls| - 1];
      SparingKeeps(s, init, field);
      assert Spares(calls[|calls| - 1], field);
      SparingDoesNotBlock(last, field);
      ApplyKeepsIff(Run(s, init), last, field);
    }
  }

  lemma SparingDoesNotBlock(c: Call, field: string)
    requires Spares(c, field)
    ensures !Blocks(c, field)
  {}

  /**
   The ciphertext that blocked the field is written back byte for byte by every save, until the field is
   loaded again, the store is reset, or a new value is encrypted.
   */
  lemma UnopenedIsWrittenBack(s: Store, first: Call, calls: seq<Call>, last: Call)
    requires first.LoadField? && Blocks(first, first.field) && AllSpare(calls, first.field)
    requires last.SaveField? && last.field == first.field && Spares(last, first.field)
    ensures Save(Run(Apply(s, first), calls), last.crypt, last.field, last.plain).disk == first.raw
  {
    hide Run, AllSpare, Blocks, DecryptSecret, EncryptSecret;
    ApplyKeepsIff(s, first, first.field);
    SparingKeeps(Apply(s, first), calls, first.field);
  }

  /** The shortest signed blob, and one whose flags bind it to the machine. */
  const SIGNED: Bytes := SIGNATURE + seq(12, _ => 0)
  const MACHINE_BOUND: Bytes := SIGNATURE + seq(32, _ => 0) + [4, 0, 0, 0]

  const NEVER_OPENS := Crypt(_ => None, _ => None, false, false)
  const ALWAYS_OPENS := Crypt(_ => None, _ => Some([1]), false, false)

  lemma HexIsLoaded(blob: Bytes)
    requires blob != []
    ensures ToHex(blob) != [] && IsHex(ToHex(blob)) && FromHex(ToHex(blob)) == blob
  {
    ToHexIsHex(blob);
    HexRoundTrip(blob);
  }

  /** Both reasons occur: a token that the system does not open, and one that any user could open. */
  lemma ClearingCanFail()
    ensures var raw := ToHex(SIGNED);
            raw != [] && DecryptSecret(NEVER_OPENS, raw).Refused?
            && Save(Load(EMPTY, NEVER_OPENS, "token", raw), NEVER_OPENS, "token", []).disk == raw
    ensures var raw := ToHex(MACHINE_BOUND);
            raw != [] && DecryptSecret(ALWAYS_OPENS, raw) == Opened([1], true)
            && Save(Load(EMPTY, ALWAYS_OPENS, "token", raw), ALWAYS_OPENS, "token", []).disk == raw
  {
    hide ToHex, FromHex, IsHex;
    HexIsLoaded(SIGNED);
    HexIsLoaded(MACHINE_BOUND);
    assert SIGNED[..8] == SIGNATURE && MACHINE_BOUND[..8] == SIGNATURE;
    assert MACHINE_BOUND[40] == 4;
  }

  // ---------------------------------------------------------------- what a load hands over

  /** The eight bytes a protected blob starts with, and room for the rest of its header. */
  predicate IsSigned(data: Bytes) {
    && |data| >= 20 && data[0] == 0x01 && data[1] == 0 && data[2] == 0 && data[3] == 0
    && data[4] == 0xd0 && data[5] == 0x02 && data[6] == 0x9a && data[7] == 0xdf
  }

  /** Bit 2 of the flags at byte 40. */
  predicate ForAnyUser(data: Bytes) {
    |data| >= 44 && data[40] % 8 >= 4
  }

  lemma BlobMeans(data: Bytes)
    ensures HasSignature(data) <==> IsSigned(data)
    ensures MachineBound(data) <==> ForAnyUser(data)
  {
    if |data| >= 20 {
      assert data[..8] == SIGNATURE <==> forall i | 0 <= i < 8 :: data[..8][i] == SIGNATURE[i];
    }
    if |data| >= 44 { BitTwo(data[40]); }
  }

  lemma BitTwo(v: int)
    requires 0 <= v < 256
    ensures v / 4 % 2 == 1 <==> v % 8 >= 4
  {}

  /** The digits of a text, in either case, two for each byte. */
  predicate IsDigits(text: Bytes) {
    && |text| >= 2 && |text| % 2 == 0
    && forall i | 0 <= i < |text| :: 48 <= text[i] <= 57 || 65 <= text[i] <= 70 || 97 <= text[i] <= 102
  }

  lemma HexMeans(text: Bytes)
    ensures IsHex(text) <==> IsDigits(text)
  {
    forall i | 0 <= i < |text|
      ensures HexValue(text[i]).Some? <==> 48 <= text[i] <= 57 || 65 <= text[i] <= 70 || 97 <= text[i] <= 102 {}
    hide HexValue;
  }

  /** Each byte becomes the digit of its upper half, then that of its lower half. */
  lemma {:induction false} HexText(data: Bytes, i: nat)
    requires i < |data|
    ensures |ToHex(data)| == 2 * |data|
    ensures ToHex(data)[2 * i] as char == "0123456789abcdef"[data[i] / 16]
    ensures ToHex(data)[2 * i + 1] as char == "0123456789abcdef"[data[i] % 16]
  {
    ToHexIsHex(data);
    var init, last := data[..|data| - 1], data[|data| - 1];
    ToHexIsHex(init);
    if i < |init| {
      HexText(init, i);
    } else {
      DigitIsListed(last / 16);
      DigitIsListed(last % 16);
    }
    hide HexDigit, HexValue;
  }

  lemma DigitIsListed(v: int)
    requires 0 <= v < 16
    ensures HexDigit(v) as char == "0123456789abcdef"[v]
  {}

  /** The system refuses what is signed and does not open, a function given what it does not open. */
  predicate IsRefused(crypt: Crypt, raw: Bytes) {
    && raw != []
    && (if crypt.givenUnprotect then crypt.unprotect(raw).None?
        else IsDigits(raw) && IsSigned(FromHex(raw)) && crypt.unprotect(FromHex(raw)).None?)
  }

  /** A plaintext of an older version: not digits, or digits that neither open nor are signed. */
  predicate IsPlaintext(crypt: Crypt, raw: Bytes) {
    && raw != [] && !crypt.givenUnprotect
    && (IsDigits(raw) ==> !IsSigned(FromHex(raw)) && crypt.unprotect(FromHex(raw)).None?)
  }

  /** It opens, but for any user of the machine. */
  predicate IsForAnyUser(crypt: Crypt, raw: Bytes) {
    && raw != [] && !crypt.givenUnprotect && IsDigits(raw)
    && crypt.unprotect(FromHex(raw)).Some? && ForAnyUser(FromHex(raw))
  }

  /** What a load answers: the plaintext the value opens to, a plaintext as it is, or nothing. */
  ghost predicate HandsOver(crypt: Crypt, raw: Bytes, target: Bytes, needsMigration: bool, failed: bool) {
    && (failed <==> IsRefused(crypt, raw))
    && (needsMigration <==> IsPlaintext(crypt, raw) || IsForAnyUser(crypt, raw))
    && (raw == [] || failed ==> target == [])
    && (IsPlaintext(crypt, raw) ==> target == raw)
    && (raw != [] && !failed && !IsPlaintext(crypt, raw) ==>
          (if crypt.givenUnprotect then crypt.unprotect(raw) else crypt.unprotect(FromHex(raw))) == Some(target))
  }

  lemma TargetIsHandedOver(crypt: Crypt, raw: Bytes)
    ensures var dec := DecryptSecret(crypt, raw);
            HandsOver(crypt, raw, Target(crypt, raw), dec.Opened? && dec.again, dec.Refused?)
  {
    hide IsHex, IsDigits, HasSignature, IsSigned, MachineBound, ForAnyUser, FromHex;
    HexMeans(raw);
    BlobMeans(FromHex(raw));
  }

  /** With honest protection, what opens is what was protected. */
  lemma HandedOverOpens(opens: Meaning, crypt: Crypt, raw: Bytes, target: Bytes, needsMigration: bool, failed: bool)
    requires Honest(opens, crypt) && HandsOver(crypt, raw, target, needsMigration, failed)
    requires raw != [] && !failed && !IsPlaintext(crypt, raw)
    ensures OpensTo(opens, raw, target)
    ensures (if crypt.givenUnprotect then opens.text(raw) else opens.blob(FromHex(raw))) == Some(target)
  {
    hide IsRefused, IsPlaintext, IsForAnyUser, FromHex;
  }

  /** What a load records: a ciphertext and what it opens to, a ciphertext alone, or nothing. */
  lemma LoadResult(s: Store, crypt: Crypt, field: string, raw: Bytes, target: Bytes, needsMigration: bool, failed: bool)
    requires HandsOver(crypt, raw, target, needsMigration, failed)
    ensures var next := Load(s, crypt, field, raw);
      && (forall other | other != field ::
            (other in next.saved <==> other in s.saved) && (other in s.saved ==> next.saved[other] == s.saved[other])
            && (other in next.remembered <==> other in s.remembered)
            && (other in s.remembered ==> next.remembered[other] == s.remembered[other]))
      && (field in next.remembered <==> raw != [] && !failed && !needsMigration)
      && (field in next.remembered ==> next.remembered[field] == target)
      && (field in next.saved <==> raw != [] && (!needsMigration || IsSigned(FromHex(raw))))
      && (field in next.saved ==> next.saved[field] == raw)
  {
    TargetIsHandedOver(crypt, raw);
    BlobMeans(FromHex(raw));
    hide IsRefused, IsPlaintext, IsForAnyUser, FromHex, HasSignature, IsSigned, DecryptSecret;
    if raw != [] { Decides(crypt, raw, target, needsMigration, failed); }
  }

  /** One value of `target` fits what is handed over. */
  lemma Decides(crypt: Crypt, raw: Bytes, target: Bytes, needsMigration: bool, failed: bool)
    requires HandsOver(crypt, raw, target, needsMigration, failed)
    ensures var dec := DecryptSecret(crypt, raw);
      && failed == dec.Refused? && (needsMigration <==> dec.Opened? && dec.again)
      && target == Target(crypt, raw)
  {
    hide IsDigits, IsSigned, ForAnyUser, FromHex, DecryptSecret;
    TargetIsHandedOver(crypt, raw);
  }

  // ---------------------------------------------------------------- what is saved loads back

  /** The store was given functions for both directions, or for none. */
  predicate Uses(crypt: Crypt, given: bool) {
    crypt.givenProtect == given && crypt.givenUnprotect == given
  }

  predicate CallUses(c: Call, given: bool) {
    match c
    case LoadField(_, _, crypt) => Uses(crypt, given)
    case SaveField(_, _, crypt) => Uses(crypt, given)
    case MigrateAll(items) => forall i | 0 <= i < |items| :: Uses(items[i].crypt, given)
    case Reset => true
  }

  predicate AllUse(calls: seq<Call>, given: bool) {
    forall i | 0 <= i < |calls| :: CallUses(calls[i], given)
  }

  /** Only the way of opening that is used matters. */
  function OnlyWay(opens: Meaning, given: bool): Meaning {
    if given then Meaning(_ => None, opens.text) else Meaning(opens.blob, _ => None)
  }

  lemma HonestOneWay(opens: Meaning, crypt: Crypt, given: bool)
    requires Honest(opens, crypt) && Uses(crypt, given)
    ensures Honest(OnlyWay(opens, given), crypt)
  {}

  lemma AllHonestOneWay(opens: Meaning, calls: seq<Call>, given: bool)
    requires AllHonest(opens, calls) && AllUse(calls, given)
    ensures AllHonest(OnlyWay(opens, given), calls)
  {
    hide Honest, OnlyWay, Uses;
    forall i | 0 <= i < |calls| ensures HonestCall(OnlyWay(opens, given), calls[i]) {
      assert HonestCall(opens, calls[i]) && CallUses(calls[i], given);
      match calls[i]
      case LoadField(_, _, crypt) => HonestOneWay(opens, crypt, given);
      case SaveField(_, _, crypt) => HonestOneWay(opens, crypt, given);
      case MigrateAll(items) =>
        forall k | 0 <= k < |items| ensures Honest(OnlyWay(opens, given), items[k].crypt) {
          HonestOneWay(opens, items[k].crypt, given);
        }
      case Reset =>
    }
  }

  /** The plaintext is known to be on the disk already, or protection takes it. */
  predicate CanSave(s: Store, crypt: Crypt, field: string, plain: Bytes) {
    && plain != []
    && (crypt.protect(plain).Some?
        || (field in s.remembered && s.remembered[field] == plain && field in s.saved && s.saved[field] != []))
  }

  lemma SavedOpens(opens: Meaning, s: Store, crypt: Crypt, field: string, plain: Bytes)
    requires Honest(opens, crypt) && Truthful(opens, s) && CanSave(s, crypt, field, plain)
    ensures OpensTo(opens, Save(s, crypt, field, plain).disk, plain)
  {
    hide OpensTo, Honest, Truthful;
    SaveIsTruthful(opens, s, crypt, field, plain);
    TruthfulAt(opens, Save(s, crypt, field, plain).s, field);
  }

  lemma TruthfulAt(opens: Meaning, s: Store, field: string)
    requires Truthful(opens, s) && field in s.remembered
    ensures field in s.saved && OpensTo(opens, s.saved[field], s.remembered[field])
  {}

  /**
   Over any calls with honest protection, what a save writes for a plaintext that protection takes is, where it
   is not refused and not for any user, handed over again by every later load of it.
   */
  lemma SavedLoadsBack(opens: Meaning, given: bool, calls: seq<Call>, crypt: Crypt, field: string, plain: Bytes,
                       later: Crypt, target: Bytes, needsMigration: bool, failed: bool)
    requires AllHonest(opens, calls) && Honest(opens, crypt) && Honest(opens, later)
    requires AllUse(calls, given) && Uses(crypt, given) && Uses(later, given)
    requires CanSave(Run(EMPTY, calls), crypt, field, plain)
    requires var disk := Save(Run(EMPTY, calls), crypt, field, plain).disk;
             && disk != [] && HandsOver(later, disk, target, needsMigration, failed)
             && !failed && !IsPlaintext(later, disk)
    ensures target == plain
  {
    hide Honest, Truthful, Save, HandsOver, IsPlaintext, FromHex, CanSave;
    var disk := Save(Run(EMPTY, calls), crypt, field, plain).disk;
    AllHonestOneWay(opens, calls, given);
    HonestOneWay(opens, crypt, given);
    RememberedOpens(OnlyWay(opens, given), calls);
    SavedOpens(OnlyWay(opens, given), Run(EMPTY, calls), crypt, field, plain);
    HandedOverOpens(opens, later, disk, target, needsMigration, failed);
  }

  /** Saved again, a plaintext that was saved writes the same bytes, whatever protection says now. */
  lemma SaveTwice(s: Store, crypt: Crypt, field: string, plain: Bytes, again: Crypt)
    requires CanSave(s, crypt, field, plain) && Save(s, crypt, field, plain).disk != []
    ensures var first := Save(s, crypt, field, plain); Save(first.s, again, field, plain) == first
  {
    hide ToHex;
  }

  /** When protection fails, nothing is recorded and what was on the disk stays. */
  lemma SaveFails(s: Store, crypt: Crypt, field: string, plain: Bytes)
    requires plain != [] && !CanSave(s, crypt, field, plain)
    ensures var out := Save(s, crypt, field, plain);
            out.s == s && out.disk == (if field in s.saved then s.saved[field] else [])
  {}

  /** A migration succeeds when no encryption it needs fails, and then each last plaintext of a field is on record. */
  lemma {:induction false} MigratedMeans(s: Store, items: seq<Legacy>)
    ensures Migrated(s, items) ==> forall i | 0 <= i < |items| && items[i].plain != []
              && (forall k | i < k < |items| :: items[k].field != items[i].field || items[k].plain == []) ::
              Remembers(Migrate(s, items), items[i].field, items[i].plain)
    ensures !Migrated(s, items) ==> exists i | 0 <= i < |items| ::
              items[i].plain != [] && items[i].crypt.protect(items[i].plain).None?
  {
    hide EncryptSecret, Remembers, MigrateOne, NeedsMigration;
    if items != [] {
      var init, last := items[..|items| - 1], items[|items| - 1];
      MigratedMeans(s, init);
      LastMigrates(Migrate(s, init), last);
      assert Migrate(s, items) == MigrateOne(Migrate(s, init), last);
      hide Migrate;
    }
  }

  lemma LastMigrates(s: Store, item: Legacy)
    ensures (NeedsMigration(s, item) ==> EncryptSecret(item.crypt, item.plain).Some?) && item.plain != [] ==>
              Remembers(MigrateOne(s, item), item.field, item.plain)
    ensures forall field, plain | Remembers(s, field, plain) && (item.field != field || item.plain == []) ::
              Remembers(MigrateOne(s, item), field, plain)
    ensures NeedsMigration(s, item) && EncryptSecret(item.crypt, item.plain).None? ==>
              item.plain != [] && item.crypt.protect(item.plain).None?
  {}
}

/** The store as the program has it. */
module SecretStore {
  import opened Options
  import opened Octets
  import opened Secrets
  import S = Secrets

  method StringToHex(data: Bytes) returns (text: Bytes)
    ensures text == ToHex(data)
  {
    text := [];
    for i := 0 to |data|
      invariant text == ToHex(data[..i])
    {
      assert data[..i + 1][..i] == data[..i];
      text := text + [HexDigit(data[i] / 16), HexDigit(data[i] % 16)];
    }
    assert data[..|data|] == data;
  }

  method HexToString(text: Bytes) returns (data: Bytes)
    ensures data == FromHex(text)
  {
    if !IsHex(text) {
      return [];
    }
    data := [];
    var i := 0;
    while i < |text|
      invariant i <= |text| && i % 2 == 0
      invariant data == Unhex(text[..i])
    {
      assert text[..i + 2][..i] == text[..i];
      data := data + [PairValue(text[i], text[i + 1])];
      i := i + 2;
    }
    assert text[..|text|] == text;
  }

  class SecretStore {
    var savedCiphertexts: map<string, Bytes>
    var encryptedPlaintexts: map<string, Bytes>

    ghost function View(): Store
      reads this
    {
      Store(savedCiphertexts, encryptedPlaintexts)
    }

    constructor ()
      ensures View() == EMPTY
    {
      savedCiphertexts, encryptedPlaintexts := map[], map[];
    }

    method Encrypt(crypt: Crypt, plain: Bytes) returns (enc: Option<Bytes>)
      ensures enc == EncryptSecret(crypt, plain)
    {
      if plain == [] {
        return Some([]);
      }
      enc := crypt.protect(plain);
      if enc.Some? && !crypt.givenProtect {
        var text := StringToHex(enc.value);
        enc := Some(text);
      }
    }

    method Decrypt(crypt: Crypt, raw: Bytes) returns (dec: Decrypted)
      ensures dec == DecryptSecret(crypt, raw)
    {
      if raw == [] {
        return Opened([], false);
      }
      if crypt.givenUnprotect {
        var plain := crypt.unprotect(raw);
        return if plain.Some? then Opened(plain.value, false) else Refused;
      }
      if IsHex(raw) {
        var bytes := HexToString(raw);
        var plain := crypt.unprotect(bytes);
        if plain.Some? {
          return Opened(plain.value, MachineBound(bytes));
        }
        if HasSignature(bytes) {
          return Refused;
        }
      }
      dec := Opened(raw, true);
    }

    method LoadSecretField(crypt: Crypt, field: string, raw: Bytes)
      returns (target: Bytes, needsMigration: bool, failed: bool)
      modifies this
      ensures View() == Load(old(View()), crypt, field, raw)
      ensures HandsOver(crypt, raw, target, needsMigration, failed)
      ensures forall opens | Honest(opens, crypt) && raw != [] && !failed && !needsMigration ::
                OpensTo(opens, raw, target)
    {
      hide HandsOver, IsPlaintext, FromHex, Honest;
      needsMigration, failed := false, false;
      if raw != [] {
        var dec := Decrypt(crypt, raw);
        if dec.Opened? {
          target := dec.plain;
          if dec.again {
            needsMigration := true;
            encryptedPlaintexts := encryptedPlaintexts - {field};
            var bytes := HexToString(raw);
            if HasSignature(bytes) {
              savedCiphertexts := savedCiphertexts[field := raw];
            } else {
              savedCiphertexts := savedCiphertexts - {field};
            }
          } else {
            savedCiphertexts := savedCiphertexts[field := raw];
            encryptedPlaintexts := encryptedPlaintexts[field := dec.plain];
          }
        } else {
          target := [];
          savedCiphertexts := savedCiphertexts[field := raw];
          encryptedPlaintexts := encryptedPlaintexts - {field};
          failed := true;
        }
      } else {
        target := [];
        savedCiphertexts := savedCiphertexts - {field};
        encryptedPlaintexts := encryptedPlaintexts - {field};
      }
      TargetIsHandedOver(crypt, raw);
      forall opens | Honest(opens, crypt) && raw != [] && !failed && !needsMigration
        ensures OpensTo(opens, raw, target)
      {
        DecryptedOpens(opens, crypt, raw);
      }
    }

    method SaveSecretField(crypt: Crypt, field: string, plain: Bytes) returns (disk: Bytes)
      modifies this
      ensures Written(View(), disk) == Save(old(View()), crypt, field, plain)
    {
      if plain == [] {
        if field in savedCiphertexts && savedCiphertexts[field] != [] && field !in encryptedPlaintexts {
          disk := savedCiphertexts[field];
          return;
        }
        disk := [];
        savedCiphertexts := savedCiphertexts - {field};
        encryptedPlaintexts := encryptedPlaintexts - {field};
        return;
      }
      if field in encryptedPlaintexts && encryptedPlaintexts[field] == plain
         && field in savedCiphertexts && savedCiphertexts[field] != [] {
        disk := savedCiphertexts[field];
        return;
      }
      var enc := Encrypt(crypt, plain);
      if enc.Some? {
        savedCiphertexts := savedCiphertexts[field := enc.value];
        encryptedPlaintexts := encryptedPlaintexts[field := plain];
        disk := enc.value;
      } else if field in savedCiphertexts && savedCiphertexts[field] != [] {
        disk := savedCiphertexts[field];
      } else {
        disk := [];
      }
    }

    method MigrateLegacySecrets(items: seq<Legacy>) returns (ok: bool)
      modifies this
      ensures View() == Migrate(old(View()), items)
      ensures ok == Migrated(old(View()), items)
    {
      ok := true;
      for i := 0 to |items|
        invariant View() == Migrate(old(View()), items[..i])
        invariant ok == Migrated(old(View()), items[..i])
      {
        assert items[..i + 1][..i] == items[..i];
        var item := items[i];
        if item.plain != [] && (item.field !in encryptedPlaintexts || encryptedPlaintexts[item.field] != item.plain) {
          var enc := Encrypt(item.crypt, item.plain);
          if enc.Some? {
            savedCiphertexts := savedCiphertexts[item.field := enc.value];
            encryptedPlaintexts := encryptedPlaintexts[item.field := item.plain];
          } else {
            ok := false;
          }
        }
      }
      assert items[..|items|] == items;
    }

    method Reset()
      modifies this
      ensures View() == EMPTY
    {
      savedCiphertexts := map[];
      encryptedPlaintexts := map[];
    }
  }
}
