/**
 What a normalised note, tag or preview keeps of the text it was made from, in terms of that text
 and numbers alone.
 */
module NoteContents {
  import opened Octets
  import opened Seqs
  import opened Utf8
  import opened PlayerNotes

  // ---------------------------------------------------------------- notes

  /** Space, tab or line feed. */
  predicate Blank(cp: int) {
    cp == 32 || cp == 9 || cp == 10
  }

  /** Line ends become line feeds, one for a pair; other control characters but tabs are dropped. */
  function Cleaned(cps: seq<Scalar>): seq<Scalar> {
    if cps == [] then []
    else if |cps| > 1 && cps[0] == 13 && cps[1] == 10 then [10] + Cleaned(cps[2..])
    else if cps[0] == 13 then [10] + Cleaned(cps[1..])
    else if cps[0] == 9 || cps[0] == 10 || 32 <= cps[0] <= 126 || cps[0] >= 160 then [cps[0]] + Cleaned(cps[1..])
    else Cleaned(cps[1..])
  }

  /** What the code points from the first on contribute, each looked at with the next. */
  function FilteredFrom(cps: seq<Scalar>, i: nat): seq<Scalar>
    requires i <= |cps|
    decreases |cps| - i
  {
    if i == |cps| then [] else Filtered(cps, i) + FilteredFrom(cps, i + 1)
  }

  lemma {:induction false} FilterSplits(cps: seq<Scalar>, n: nat)
    requires n <= |cps|
    ensures FilterTo(cps, |cps|) == FilterTo(cps, n) + FilteredFrom(cps, n)
    decreases |cps| - n
  {
    hide Filtered;
    if n < |cps| {
      FilterSplits(cps, n + 1);
      Associates(FilterTo(cps, n), Filtered(cps, n), FilteredFrom(cps, n + 1));
    } else {
      assert FilterTo(cps, n) + [] == FilterTo(cps, n);
    }
  }

  lemma {:induction false} FilteredIsCleaned(cps: seq<Scalar>, i: nat)
    requires i <= |cps|
    ensures FilteredFrom(cps, i) == Cleaned(cps[i..])
    decreases |cps| - i
  {
    if i < |cps| {
      FilteredIsCleaned(cps, i + 1);
      if i + 1 < |cps| && cps[i] == 13 && cps[i + 1] == 10 {
        FilteredIsCleaned(cps, i + 2);
      }
      CleanedHere(cps, i);
    }
  }

  /** The clean text from a place on: what stands there, a CRLF as one break, and the rest. */
  lemma CleanedHere(cps: seq<Scalar>, i: nat)
    requires i < |cps| && FilteredFrom(cps, i + 1) == Cleaned(cps[i + 1..])
    requires i + 1 < |cps| && cps[i] == 13 && cps[i + 1] == 10 ==> FilteredFrom(cps, i + 2) == Cleaned(cps[i + 2..])
    ensures FilteredFrom(cps, i) == Cleaned(cps[i..])
  {
    var here := cps[i..];
    assert here[1..] == cps[i + 1..];
    if i + 1 < |cps| && cps[i] == 13 && cps[i + 1] == 10 {
      assert here[2..] == cps[i + 2..];
      assert FilteredFrom(cps, i) == [] + FilteredFrom(cps, i + 1);
      assert FilteredFrom(cps, i + 1) == [10] + FilteredFrom(cps, i + 2);
      hide Filtered, FilteredFrom;
    } else {
      hide FilteredFrom;
    }
  }

  lemma FilterCleans(cps: seq<Scalar>)
    ensures FilterTo(cps, |cps|) == Cleaned(cps)
  {
    FilterSplits(cps, 0);
    FilteredIsCleaned(cps, 0);
    assert cps[0..] == cps;
    assert [] + FilteredFrom(cps, 0) == FilteredFrom(cps, 0);
  }

  /** `cps` without the blanks around it, cut after 2000 code points. */
  predicate IsMiddle(note: seq<Scalar>, cps: seq<Scalar>, first: nat, last: nat) {
    && first <= last <= |cps| && note == cps[first..last] && last <= first + 2000
    && (forall i | 0 <= i < first :: Blank(cps[i]))
    && (first < |cps| ==> !Blank(cps[first]))
    && (forall i | last <= i < |cps| && i < first + 2000 :: Blank(cps[i]))
    && (first < last ==> !Blank(cps[last - 1]))
  }

  /** Leading blanks go, then what is too long, then trailing blanks. */
  predicate Trims(cps: seq<Scalar>, rest: seq<Scalar>, note: seq<Scalar>) {
    && |rest| <= |cps| && rest == cps[|cps| - |rest|..] && (rest != [] ==> !Blank(rest[0]))
    && (forall i | 0 <= i < |cps| - |rest| :: Blank(cps[i]))
    && note <= rest && |note| <= 2000 && (note != [] ==> !Blank(note[|note| - 1]))
    && forall i | |note| <= i < |rest| && i < 2000 :: Blank(rest[i])
  }

  lemma TrimsToMiddle(cps: seq<Scalar>, rest: seq<Scalar>, note: seq<Scalar>)
    requires Trims(cps, rest, note)
    ensures IsMiddle(note, cps, |cps| - |rest|, |cps| - |rest| + |note|)
  {
    hide Blank;
    var first := |cps| - |rest|;
    forall i | 0 <= i < |rest| ensures rest[i] == cps[first + i] {}
    assert note == cps[first..first + |note|];
    forall i | first + |note| <= i < |cps| && i < first + 2000 ensures Blank(cps[i]) {
      assert cps[i] == rest[i - first];
    }
    if note != [] { assert note[|note| - 1] == rest[|note| - 1] == cps[first + |note| - 1]; }
  }

  lemma SpacesAreBlank(cp: int)
    ensures IsSpace(cp) <==> Blank(cp)
  {}

  lemma PassesTrim(cps: seq<Scalar>)
    ensures Trims(cps, TrimLeading(cps), TrimTrailing(Cut(TrimLeading(cps), 2000)))
  {
    hide TrimLeading, TrimTrailing, IsSpace, Blank;
    forall cp: int ensures IsSpace(cp) <==> Blank(cp) { SpacesAreBlank(cp); }
    var rest := TrimLeading(cps);
    var cut := Cut(rest, 2000);
    forall i | |TrimTrailing(cut)| <= i < |rest| && i < 2000 ensures Blank(rest[i]) {
      assert cut[i] == rest[i];
    }
  }

  /** A note is the cleaned text without the blanks around it, up to 2000 code points from its first. */
  lemma NoteKeepsText(text: Bytes)
    ensures exists first, last :: IsMiddle(Decode(NormalizeNote(text)), Cleaned(Decode(text)), first, last)
  {
    var cps := Decode(text);
    FilterCleans(cps);
    DecodeOfEncode(NormalizePoints(cps));
    hide Cleaned, TrimLeading, TrimTrailing, FilterTo, Cut, IsMiddle;
    var all := Cleaned(cps);
    var rest := TrimLeading(all);
    var note := TrimTrailing(Cut(rest, 2000));
    PassesTrim(all);
    TrimsToMiddle(all, rest, note);
    assert note == Decode(NormalizeNote(text));
  }

  // ---------------------------------------------------------------- words

  /** The runs of code points between blanks; the last one is empty behind a blank. */
  function Words(cps: seq<Scalar>, blanks: set<int>): (words: seq<seq<Scalar>>)
    ensures |words| > 0
  {
    if cps == [] then [[]]
    else
      var words, last := Words(cps[..|cps| - 1], blanks), cps[|cps| - 1];
      var word := words[|words| - 1];
      if last !in blanks then words[..|words| - 1] + [word + [last]]
      else if word == [] then words
      else words + [[]]
  }

  /** With one space between them. */
  function Join(words: seq<seq<Scalar>>): seq<Scalar> {
    if words == [] then []
    else if |words| == 1 then words[0]
    else Join(words[..|words| - 1]) + [32] + words[|words| - 1]
  }

  function LastWord(cps: seq<Scalar>, blanks: set<int>): seq<Scalar> {
    Words(cps, blanks)[|Words(cps, blanks)| - 1]
  }

  function Squeezed(cps: seq<Scalar>, blanks: set<int>): seq<Scalar> {
    Join(Words(cps, blanks))
  }

  lemma JoinLonger(words: seq<seq<Scalar>>, c: Scalar)
    requires words != []
    ensures Join(words[..|words| - 1] + [words[|words| - 1] + [c]]) == Join(words) + [c]
  {
    hide Join;
    var n := |words| - 1;
    var longer := words[..n] + [words[n] + [c]];
    assert longer[..n] == words[..n] && longer[n] == words[n] + [c];
    JoinLast(words);
    JoinLast(longer);
    if n > 0 { Associates(Join(words[..n]) + [32], words[n], [c]); }
  }

  lemma JoinLast(words: seq<seq<Scalar>>)
    requires words != []
    ensures var n := |words| - 1; Join(words) == (if n == 0 then words[0] else Join(words[..n]) + [32] + words[n])
  {}

  lemma JoinSpace(words: seq<seq<Scalar>>)
    requires words != []
    ensures Join(words + [[]]) == Join(words) + [32]
  {
    hide Join;
    JoinLast(words + [[]]);
    assert (words + [[]])[..|words|] == words;
    assert Join(words) + [32] + [] == Join(words) + [32];
  }

  /** One more code point adds itself, or a space behind a word, or nothing. */
  lemma SqueezedStep(cps: seq<Scalar>, c: Scalar, blanks: set<int>)
    ensures var was, now := Squeezed(cps, blanks), Squeezed(cps + [c], blanks);
      && now == (if c !in blanks then was + [c] else if LastWord(cps, blanks) == [] then was else was + [32])
      && LastWord(cps + [c], blanks) == (if c in blanks then [] else LastWord(cps, blanks) + [c])
  {
    hide Join;
    assert (cps + [c])[..|cps|] == cps;
    JoinLonger(Words(cps, blanks), c);
    JoinSpace(Words(cps, blanks));
  }

  // ---------------------------------------------------------------- tags and previews

  /** The first `limit` code points of `cps`, up to the last that is not blank. */
  predicate CutAt(cps: seq<Scalar>, limit: nat, n: nat) {
    && n <= |cps| && n <= limit && (n > 0 ==> !Blank(cps[n - 1]))
    && forall i | n <= i < |cps| && i < limit :: Blank(cps[i])
  }

  function UpTo(cps: seq<Scalar>, limit: nat): seq<Scalar> {
    if |cps| > limit then cps[..limit] else cps
  }

  lemma TrimIsCut(cps: seq<Scalar>, limit: nat)
    ensures var r := TrimTrailing(UpTo(cps, limit)); |r| <= |cps| && r == cps[..|r|] && CutAt(cps, limit, |r|)
  {
    hide TrimTrailing, IsSpace, Blank;
    forall cp: int ensures IsSpace(cp) <==> Blank(cp) { SpacesAreBlank(cp); }
    var first := UpTo(cps, limit);
    var r := TrimTrailing(first);
    assert r == first[..|r|] == cps[..|r|];
    forall i | |r| <= i < |cps| && i < limit ensures Blank(cps[i]) {
      assert cps[i] == first[i];
    }
    if r != [] { assert r[|r| - 1] == cps[|r| - 1]; }
  }

  /** Until 32 code points are reached a tag takes up the words of the note. */
  lemma {:induction false} CollapsedIsSqueezed(cps: seq<Scalar>)
    ensures var words, c := Squeezed(cps, {9, 10, 32}), Collapsed(cps);
      && c.clean == UpTo(words, 32)
      && (|words| < 32 ==> (c.lastSpace <==> LastWord(cps, {9, 10, 32}) == []))
  {
    hide Squeezed, LastWord;
    var blanks: set<int> := {9, 10, 32};
    if cps == [] {
      NothingSqueezed(blanks);
    } else {
      var init, last := cps[..|cps| - 1], cps[|cps| - 1];
      CollapsedIsSqueezed(init);
      SqueezedStep(init, last, blanks);
      assert init + [last] == cps;
      assert IsSpace(last) <==> last in blanks;
    }
  }

  lemma NothingSqueezed(blanks: set<int>)
    ensures Squeezed([], blanks) == [] && LastWord([], blanks) == []
  {}

  /** A tag is the words of the note with one space between them, cut at 32 code points behind a letter. */
  lemma TagKeepsWords(text: Bytes)
    ensures exists n | 0 <= n <= 32 :: CutAt(Squeezed(Decode(NormalizeNote(text)), {9, 10, 32}), 32, n)
              && Decode(NormalizeTag(text)) == Squeezed(Decode(NormalizeNote(text)), {9, 10, 32})[..n]
  {
    hide Squeezed, Collapsed, TrimTrailing;
    var note := Decode(NormalizeNote(text));
    DecodeOfEncode(TagPoints(note));
    CollapsedIsSqueezed(note);
    TrimIsCut(Squeezed(note, {9, 10, 32}), 32);
    assert CutAt(Squeezed(note, {9, 10, 32}), 32, |Decode(NormalizeTag(text))|);
  }

  lemma {:induction false} PreviewIsSqueezed(cps: seq<Scalar>, n: nat)
    requires n <= |cps|
    ensures var words := Squeezed(cps[..n], {9, 10, 13, 32});
      && PreviewTo(cps, n) == words
      && (LastWord(cps[..n], {9, 10, 13, 32}) == [] <==> words == [] || words[|words| - 1] == 32)
  {
    hide Squeezed, LastWord;
    var blanks: set<int> := {9, 10, 13, 32};
    if n == 0 {
      NothingSqueezed(blanks);
      assert cps[..0] == [];
    } else {
      PreviewIsSqueezed(cps, n - 1);
      SqueezedStep(cps[..n - 1], cps[n - 1], blanks);
      assert cps[..n - 1] + [cps[n - 1]] == cps[..n];
    }
  }

  /** The text of `max` code points, or of all of them, that a preview shows. */
  ghost predicate Shows(words: seq<Scalar>, max: nat, shown: seq<Scalar>, n: nat, k: nat) {
    && CutAt(words, |words|, n)
    && (if n <= max then shown == words[..n] else CutAt(words, max, k) && shown == words[..k] + [0x2026])
  }

  /** A preview is the words of the text with one space between them; what is too long ends in an ellipsis. */
  lemma PreviewKeepsWords(text: Bytes, max: nat)
    ensures exists n, k :: Shows(Squeezed(Decode(text), {9, 10, 13, 32}), max, Decode(Preview(text, max)), n, k)
  {
    hide Squeezed, PreviewTo, TrimTrailing, CutAt;
    var cps := Decode(text);
    DecodeOfEncode(PreviewPoints(cps, max));
    PreviewIsSqueezed(cps, |cps|);
    assert cps[..|cps|] == cps;
    var words := Squeezed(cps, {9, 10, 13, 32});
    TrimIsCut(words, |words|);
    TrimIsCut(words, max);
    var line := TrimTrailing(words);
    assert UpTo(words, |words|) == words;
    if |line| > max { assert line[..max] == words[..max] == UpTo(words, max); }
    assert Shows(words, max, Decode(Preview(text, max)), |line|, |TrimTrailing(UpTo(words, max))|);
  }
}
