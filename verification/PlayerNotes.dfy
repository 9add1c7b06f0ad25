/**
 Notes and tags about players (src/core/accounts/PlayerNotes.cpp): normalisation of any
 bytes a user may have typed or pasted, as passes over code points.
 */
module PlayerNotes {
  import opened Octets
  import opened Utf8

  const MAX_NOTE: nat := 2000
  const MAX_TAG: nat := 32

  const TAB: Scalar := 0x09
  const LF: Scalar := 0x0A
  const CR: Scalar := 0x0D
  const SPACE: Scalar := 0x20

  predicate IsSpace(cp: int) {
    cp == SPACE || cp == TAB || cp == LF
  }

  predicate IsControl(cp: int) {
    cp < 0x20 || 0x7F <= cp <= 0x9F
  }

  /** What code point `i` contributes: a carriage return ends a line, once. */
  function Filtered(cps: seq<Scalar>, i: nat): seq<Scalar>
    requires i < |cps|
  {
    var cp := cps[i];
    if cp == CR then (if i + 1 < |cps| && cps[i + 1] == LF then [] else [LF])
    else if IsControl(cp) && cp != LF && cp != TAB then []
    else [cp]
  }

  function FilterTo(cps: seq<Scalar>, n: nat): seq<Scalar>
    requires n <= |cps|
  {
    if n == 0 then [] else FilterTo(cps, n - 1) + Filtered(cps, n - 1)
  }

  function TrimLeading(cps: seq<Scalar>): (r: seq<Scalar>)
    ensures r != [] ==> !IsSpace(r[0])
    ensures |r| <= |cps| && r == cps[|cps| - |r|..]
    ensures forall i | 0 <= i < |cps| - |r| :: IsSpace(cps[i])
  {
    if cps != [] && IsSpace(cps[0]) then TrimLeading(cps[1..]) else cps
  }

  function TrimTrailing(cps: seq<Scalar>): (r: seq<Scalar>)
    ensures r != [] ==> !IsSpace(r[|r| - 1])
    ensures r <= cps
    ensures forall i | |r| <= i < |cps| :: IsSpace(cps[i])
  {
    if cps != [] && IsSpace(cps[|cps| - 1]) then TrimTrailing(cps[..|cps| - 1]) else cps
  }

  function Cut(cps: seq<Scalar>, max: nat): seq<Scalar> {
    if |cps| > max then cps[..max] else cps
  }

  function NormalizePoints(cps: seq<Scalar>): seq<Scalar> {
    TrimTrailing(Cut(TrimLeading(FilterTo(cps, |cps|)), MAX_NOTE))
  }

  function NormalizeNote(text: Bytes): Bytes {
    EncodeAll(NormalizePoints(Decode(text)))
  }

  // ---------------------------------------------------------------- notes

  /** Nothing a normalised note may not contain. */
  predicate IsPlain(cp: int) {
    !IsControl(cp) || cp == LF || cp == TAB
  }

  predicate AllPlain(cps: seq<Scalar>) {
    forall i | 0 <= i < |cps| :: IsPlain(cps[i])
  }

  /** What a stored note looks like. */
  predicate IsNote(cps: seq<Scalar>) {
    && |cps| <= MAX_NOTE && AllPlain(cps)
    && (cps != [] ==> !IsSpace(cps[0]) && !IsSpace(cps[|cps| - 1]))
  }

  lemma {:induction false} FilterIsPlain(cps: seq<Scalar>, n: nat)
    requires n <= |cps|
    ensures AllPlain(FilterTo(cps, n))
  {
    if n > 0 {
      FilterIsPlain(cps, n - 1);
    }
  }

  lemma {:induction false} PlainIsKept(cps: seq<Scalar>, n: nat)
    requires AllPlain(cps) && n <= |cps|
    ensures FilterTo(cps, n) == cps[..n]
  {
    if n > 0 {
      PlainIsKept(cps, n - 1);
      assert IsPlain(cps[n - 1]);
    }
  }

  lemma NormalizedIsNote(cps: seq<Scalar>)
    ensures IsNote(NormalizePoints(cps))
  {
    FilterIsPlain(cps, |cps|);
  }

  lemma NotesAreFixed(cps: seq<Scalar>)
    requires IsNote(cps)
    ensures NormalizePoints(cps) == cps
  {
    PlainIsKept(cps, |cps|);
    assert cps[..|cps|] == cps;
  }

  /** Normalising any bytes gives a note, of at most 2000 code points; once more changes nothing. */
  lemma NoteIsNormal(text: Bytes)
    ensures IsNote(Decode(NormalizeNote(text))) && WellFormed(NormalizeNote(text))
    ensures |Decode(NormalizeNote(text))| <= 2000
    ensures NormalizeNote(NormalizeNote(text)) == NormalizeNote(text)
  {
    var cps := NormalizePoints(Decode(text));
    NormalizedIsNote(Decode(text));
    DecodeOfEncode(cps);
    NotesAreFixed(cps);
    ReencodesIffWellFormed(NormalizeNote(text));
  }

  /** The texts normalisation leaves alone are exactly the notes in UTF-8. */
  lemma NoteIsFixedIff(text: Bytes)
    ensures NormalizeNote(text) == text <==> WellFormed(text) && IsNote(Decode(text))
  {
    ReencodesIffWellFormed(text);
    NoteIsNormal(text);
    if WellFormed(text) && IsNote(Decode(text)) {
      NotesAreFixed(Decode(text));
    }
  }

  // ---------------------------------------------------------------- tags

  datatype Collapse = Collapse(clean: seq<Scalar>, lastSpace: bool)

  function CollapseStep(c: Collapse, cp: Scalar): Collapse {
    if IsSpace(cp) then
      Collapse(if !c.lastSpace && |c.clean| < MAX_TAG then c.clean + [SPACE] else c.clean, true)
    else if |c.clean| >= MAX_TAG then c
    else Collapse(c.clean + [cp], false)
  }

  function Collapsed(cps: seq<Scalar>): (c: Collapse)
    ensures |c.clean| <= MAX_TAG
  {
    if cps == [] then Collapse([], true) else CollapseStep(Collapsed(cps[..|cps| - 1]), cps[|cps| - 1])
  }

  function TagPoints(note: seq<Scalar>): seq<Scalar> {
    TrimTrailing(Collapsed(note).clean)
  }

  function NormalizeTag(text: Bytes): Bytes {
    EncodeAll(TagPoints(Decode(NormalizeNote(text))))
  }

  /** Words with one space between them. */
  predicate IsTag(cps: seq<Scalar>) {
    && |cps| <= MAX_TAG && IsNote(cps)
    && (forall i | 0 <= i < |cps| :: cps[i] != TAB && cps[i] != LF)
    && (forall i | 0 < i < |cps| :: !(IsSpace(cps[i - 1]) && IsSpace(cps[i])))
  }

  /** The part of a tag's shape that every prefix of it has. */
  predicate SingleSpaced(cps: seq<Scalar>) {
    && AllPlain(cps) && (cps != [] ==> !IsSpace(cps[0]))
    && (forall i | 0 <= i < |cps| :: cps[i] != TAB && cps[i] != LF)
    && (forall i | 0 < i < |cps| :: !(IsSpace(cps[i - 1]) && IsSpace(cps[i])))
  }

  predicate EndsSpaced(cps: seq<Scalar>) {
    cps == [] || IsSpace(cps[|cps| - 1])
  }

  lemma {:induction false} CollapsedIsSingleSpaced(cps: seq<Scalar>)
    requires AllPlain(cps)
    ensures SingleSpaced(Collapsed(cps).clean)
    ensures !Collapsed(cps).lastSpace ==> !EndsSpaced(Collapsed(cps).clean)
    ensures Collapsed(cps).lastSpace && |Collapsed(cps).clean| < MAX_TAG ==> EndsSpaced(Collapsed(cps).clean)
  {
    if cps != [] {
      CollapsedIsSingleSpaced(cps[..|cps| - 1]);
      assert IsPlain(cps[|cps| - 1]);
    }
  }

  lemma {:induction false} SingleSpacedIsKept(cps: seq<Scalar>)
    requires SingleSpaced(cps) && |cps| <= MAX_TAG
    ensures Collapsed(cps) == Collapse(cps, EndsSpaced(cps))
  {
    if cps != [] {
      var init, last := cps[..|cps| - 1], cps[|cps| - 1];
      SingleSpacedIsKept(init);
      assert init + [last] == cps;
    }
  }

  lemma TagPointsIsTag(note: seq<Scalar>)
    requires IsNote(note)
    ensures IsTag(TagPoints(note))
  {
    CollapsedIsSingleSpaced(note);
  }

  lemma TagsAreFixed(cps: seq<Scalar>)
    requires IsTag(cps)
    ensures TagPoints(cps) == cps
  {
    SingleSpacedIsKept(cps);
  }

  /** Normalising any bytes gives a tag, of at most 32 code points; once more changes nothing. */
  lemma TagIsNormal(text: Bytes)
    ensures IsTag(Decode(NormalizeTag(text))) && WellFormed(NormalizeTag(text))
    ensures |Decode(NormalizeTag(text))| <= 32
    ensures NormalizeTag(NormalizeTag(text)) == NormalizeTag(text)
  {
    NoteIsNormal(text);
    var tag := TagPoints(Decode(NormalizeNote(text)));
    TagPointsIsTag(Decode(NormalizeNote(text)));
    DecodeOfEncode(tag);
    ReencodesIffWellFormed(NormalizeTag(text));
    NoteIsFixedIff(NormalizeTag(text));
    TagsAreFixed(tag);
  }

  // ---------------------------------------------------------------- previews

  function PreviewTo(cps: seq<Scalar>, n: nat): seq<Scalar>
    requires n <= |cps|
  {
    if n == 0 then []
    else
      var before := PreviewTo(cps, n - 1);
      var cp: Scalar := if cps[n - 1] == LF || cps[n - 1] == TAB || cps[n - 1] == CR then SPACE else cps[n - 1];
      if cp == SPACE && (before == [] || before[|before| - 1] == SPACE) then before else before + [cp]
  }

  const ELLIPSIS: Scalar := 0x2026

  function PreviewPoints(cps: seq<Scalar>, max: nat): seq<Scalar> {
    var line := TrimTrailing(PreviewTo(cps, |cps|));
    if |line| > max then TrimTrailing(line[..max]) + [ELLIPSIS] else line
  }

  function Preview(text: Bytes, max: nat): Bytes {
    EncodeAll(PreviewPoints(Decode(text), max))
  }

  lemma {:induction false} PreviewIsOneLine(cps: seq<Scalar>, n: nat)
    requires n <= |cps|
    ensures forall i | 0 <= i < |PreviewTo(cps, n)| ::
      PreviewTo(cps, n)[i] != LF && PreviewTo(cps, n)[i] != TAB && PreviewTo(cps, n)[i] != CR
  {
    if n > 0 {
      PreviewIsOneLine(cps, n - 1);
    }
  }

  /** A preview is one line, and at most `max` code points before the ellipsis. */
  lemma PreviewIsShort(text: Bytes, max: nat)
    ensures var cps := Decode(Preview(text, max));
      && (forall i | 0 <= i < |cps| :: cps[i] != LF && cps[i] != TAB && cps[i] != CR)
      && (|cps| <= max || (|cps| == max + 1 && cps[max] == ELLIPSIS))
  {
    var cps := Decode(text);
    PreviewIsOneLine(cps, |cps|);
    DecodeOfEncode(PreviewPoints(cps, max));
  }

  // ---------------------------------------------------------------- the loops

  method TrimTrailingInPlace(cps0: seq<Scalar>) returns (cps: seq<Scalar>)
    ensures cps == TrimTrailing(cps0)
  {
    cps := cps0;
    while cps != [] && IsSpace(cps[|cps| - 1])
      invariant TrimTrailing(cps) == TrimTrailing(cps0)
      decreases |cps|
    {
      cps := cps[..|cps| - 1];
    }
  }

  method FilterPoints(decoded: seq<Scalar>) returns (cps: seq<Scalar>)
    ensures cps == FilterTo(decoded, |decoded|)
  {
    cps := [];
    for i := 0 to |decoded|
      invariant cps == FilterTo(decoded, i)
    {
      var cp := decoded[i];
      if cp == CR {
        if i + 1 < |decoded| && decoded[i + 1] == LF {
          continue;
        }
        cp := LF;
      }
      var control := cp < 0x20 || 0x7F <= cp <= 0x9F;
      if control && cp != LF && cp != TAB {
        continue;
      }
      cps := cps + [cp];
    }
  }

  method TrimLeadingInPlace(cps0: seq<Scalar>) returns (cps: seq<Scalar>)
    ensures cps == TrimLeading(cps0)
  {
    var start := 0;
    while start < |cps0| && IsSpace(cps0[start])
      invariant start <= |cps0| && TrimLeading(cps0[start..]) == TrimLeading(cps0)
    {
      assert cps0[start..][1..] == cps0[start + 1..];
      start := start + 1;
    }
    cps := cps0[start..];
  }

  method NormalizeNoteText(text: Bytes) returns (out: Bytes)
    ensures out == NormalizeNote(text)
  {
    var decoded := DecodeText(text);
    var cps := FilterPoints(decoded);
    cps := TrimLeadingInPlace(cps);
    if |cps| > MAX_NOTE {
      cps := cps[..MAX_NOTE];
    }
    cps := TrimTrailingInPlace(cps);
    out := EncodeText(cps);
  }

  method CollapsePoints(cps: seq<Scalar>) returns (clean: seq<Scalar>)
    ensures clean == Collapsed(cps).clean
  {
    clean := [];
    var lastSpace := true;
    for i := 0 to |cps|
      invariant Collapse(clean, lastSpace) == Collapsed(cps[..i])
    {
      assert cps[..i + 1][..i] == cps[..i];
      var cp := cps[i];
      if cp == LF || cp == TAB || cp == SPACE {
        if !lastSpace && |clean| < MAX_TAG {
          clean := clean + [SPACE];
        }
        lastSpace := true;
        continue;
      }
      if |clean| >= MAX_TAG {
        FullStaysFull(cps, i);
        break;
      }
      clean := clean + [cp];
      lastSpace := false;
    }
    assert cps[..|cps|] == cps;
  }

  /** Once full, the rest of the text adds nothing. */
  lemma {:induction false} FullStaysFull(cps: seq<Scalar>, i: nat)
    requires i <= |cps| && |Collapsed(cps[..i]).clean| == MAX_TAG
    ensures Collapsed(cps).clean == Collapsed(cps[..i]).clean
    decreases |cps|
  {
    if i == |cps| {
      assert cps[..i] == cps;
    } else {
      assert cps[..|cps| - 1][..i] == cps[..i];
      FullStaysFull(cps[..|cps| - 1], i);
    }
  }

  method NormalizeTagText(text: Bytes) returns (out: Bytes)
    ensures out == NormalizeTag(text)
  {
    var normalized := NormalizeNoteText(text);
    var cps := DecodeText(normalized);
    var clean := CollapsePoints(cps);
    clean := TrimTrailingInPlace(clean);
    out := EncodeText(clean);
  }

  method OneLine(decoded: seq<Scalar>) returns (cps: seq<Scalar>)
    ensures cps == PreviewTo(decoded, |decoded|)
  {
    cps := [];
    for i := 0 to |decoded|
      invariant cps == PreviewTo(decoded, i)
    {
      var cp := decoded[i];
      if cp == LF || cp == TAB || cp == CR {
        cp := SPACE;
      }
      if cp == SPACE && (cps == [] || cps[|cps| - 1] == SPACE) {
        continue;
      }
      cps := cps + [cp];
    }
  }

  lemma EllipsisBytes()
    ensures Encode(ELLIPSIS) == [0xE2, 0x80, 0xA6]
  {}

  method PreviewText(text: Bytes, max: nat) returns (out: Bytes)
    ensures out == Preview(text, max)
  {
    var decoded := DecodeText(text);
    var cps := OneLine(decoded);
    cps := TrimTrailingInPlace(cps);
    var truncated := |cps| > max;
    if truncated {
      cps := TrimTrailingInPlace(cps[..max]);
    }
    out := EncodeText(cps);
    if truncated {
      EncodeLast(cps, ELLIPSIS);
      EllipsisBytes();
      out := out + [0xE2, 0x80, 0xA6];
    }
  }
}
