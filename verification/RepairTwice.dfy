/**
 Repairing a file for one port and then for another, byte by byte. The rewritten lines are
 those of one repair (`RewriteTwice`); the bytes are too, unless a carriage return that a
 line kept is taken for part of a line ending when the file is read again.
 */
module RepairTwice {
  import opened Options
  import opened Seqs
  import opened Text
  import opened IniText
  import opened StatsApiIni
  import opened IniProofs
  import opened IniTwice
  import opened IniFile

  predicate EndsInReturn(line: string) {
    line != "" && line[|line| - 1] == '\r'
  }

  predicate IsEnding(ending: string) {
    ending == "\n" || ending == "\r\n"
  }

  /** Is line `i` followed by a line ending when the lines are joined? */
  predicate Ended(lines: seq<string>, i: nat, endLast: bool) {
    i + 1 < |lines| || endLast
  }

  /** With plain newlines, no line ending makes a carriage return part of it. */
  predicate EndedClean(lines: seq<string>, ending: string, endLast: bool) {
    ending == "\r\n" || forall i | 0 <= i < |lines| && Ended(lines, i, endLast) :: !EndsInReturn(lines[i])
  }

  /** The lines a file of these lines is read as. */
  function Reread(lines: seq<string>, endLast: bool): seq<string> {
    if endLast || lines == [] then lines
    else
      var init, last := lines[..|lines| - 1], lines[|lines| - 1];
      if last == "" then init else init + [StripReturn(last)]
  }

  // ---------------------------------------------------------------- reading joined lines again

  lemma SplitEnded(line: string, ending: string, rest: string)
    requires OneLine(line) && IsEnding(ending) && (ending == "\n" ==> !EndsInReturn(line))
    ensures Split(line + ending + rest) == [line] + Split(rest)
  {
    var written := if ending == "\n" then line else line + "\r";
    assert line + ending + rest == written + "\n" + rest;
    FindsBreak(written, rest);
    var all := written + "\n" + rest;
    assert all[..|written|] == written && all[|written| + 1..] == rest;
    assert StripReturn(written) == line;
  }

  lemma SplitUnended(line: string)
    requires OneLine(line)
    ensures Split(line) == if line == "" then [] else [StripReturn(line)]
  {
    assert Find(line, '\n').None?;
  }

  lemma RestIsClean(lines: seq<string>, ending: string, endLast: bool)
    requires |lines| > 1 && EndedClean(lines, ending, endLast)
    ensures EndedClean(lines[1..], ending, endLast)
    ensures ending == "\n" ==> !EndsInReturn(lines[0])
  {
    hide EndsInReturn;
    if ending != "\r\n" {
      assert Ended(lines, 0, endLast);
      forall i: nat | i < |lines[1..]| && Ended(lines[1..], i, endLast) ensures !EndsInReturn(lines[1..][i]) {
        assert Ended(lines, i + 1, endLast) && lines[1..][i] == lines[i + 1];
      }
    }
  }

  lemma RereadRest(lines: seq<string>, endLast: bool)
    requires |lines| > 1
    ensures Reread(lines, endLast) == [lines[0]] + Reread(lines[1..], endLast)
  {
    hide StripReturn;
    var rest := lines[1..];
    assert lines == [lines[0]] + rest;
    assert lines[..|lines| - 1] == [lines[0]] + rest[..|rest| - 1];
  }

  lemma {:induction false} SplitOfJoined(lines: seq<string>, ending: string, endLast: bool)
    requires lines != [] && AllOneLine(lines) && IsEnding(ending) && EndedClean(lines, ending, endLast)
    ensures Split(Join(lines, ending, endLast)) == Reread(lines, endLast)
    decreases |lines|
  {
    hide Split;
    var first, rest := lines[0], lines[1..];
    assert OneLine(first);
    if rest == [] {
      assert lines == [first];
      if endLast {
        assert Ended(lines, 0, endLast);
        SplitEnded(first, ending, "");
        SplitUnended("");
        assert first + ending + "" == first + ending;
      } else {
        SplitUnended(first);
        assert lines[..0] == [];
      }
    } else {
      RestIsClean(lines, ending, endLast);
      SplitEnded(first, ending, Join(rest, ending, endLast));
      SplitOfJoined(rest, ending, endLast);
      RereadRest(lines, endLast);
    }
  }

  // ---------------------------------------------------------------- the line endings of joined lines

  lemma JoinedHasCrLf(lines: seq<string>, endLast: bool)
    requires |lines| > 1
    ensures HasCrLf(Join(lines, "\r\n", endLast))
  {
    var s := Join(lines, "\r\n", endLast);
    assert s == lines[0] + "\r\n" + Join(lines[1..], "\r\n", endLast);
    assert s[|lines[0]|] == '\r' && s[|lines[0]| + 1] == '\n';
  }

  lemma NoCrLfInOne(line: string)
    requires OneLine(line)
    ensures !HasCrLf(line) && (!EndsInReturn(line) ==> !HasCrLf(line + "\n"))
  {
    forall i | 0 <= i < |line| ensures (line + "\n")[i] != '\n' {
      assert (line + "\n")[i] == line[i];
    }
  }

  lemma NoCrLfJoined(line: string, rest: string)
    requires !HasCrLf(line + "\n") && !HasCrLf(rest)
    ensures !HasCrLf(line + "\n" + rest)
  {
    var ended := line + "\n";
    var s := ended + rest;
    forall i | 0 <= i < |s| - 1 ensures !(s[i] == '\r' && s[i + 1] == '\n') {
      if i + 1 < |ended| {
        assert s[i] == ended[i] && s[i + 1] == ended[i + 1];
      } else if i == |line| {
        assert s[i] == '\n';
      } else {
        assert s[i] == rest[i - |ended|] && s[i + 1] == rest[i + 1 - |ended|];
      }
    }
  }

  lemma {:induction false} JoinedHasNoCrLf(lines: seq<string>, endLast: bool)
    requires lines != [] && AllOneLine(lines) && EndedClean(lines, "\n", endLast)
    ensures !HasCrLf(Join(lines, "\n", endLast))
    decreases |lines|
  {
    hide HasCrLf;
    assert OneLine(lines[0]);
    NoCrLfInOne(lines[0]);
    if |lines| == 1 {
      assert endLast ==> Ended(lines, 0, endLast);
    } else {
      RestIsClean(lines, "\n", endLast);
      JoinedHasNoCrLf(lines[1..], endLast);
      NoCrLfJoined(lines[0], Join(lines[1..], "\n", endLast));
    }
  }

  lemma CrLfBehind(before: string, s: string)
    requires HasCrLf(s)
    ensures HasCrLf(before + s)
  {
    var i :| 0 <= i < |s| - 1 && s[i] == '\r' && s[i + 1] == '\n';
    var all := before + s;
    assert all[|before| + i] == '\r' && all[|before| + i + 1] == '\n';
  }

  /** A line that ends in a carriage return and a newline behind it read as one ending. */
  lemma {:induction false} ExposedIsCrLf(lines: seq<string>, endLast: bool, i: nat)
    requires i < |lines| && Ended(lines, i, endLast) && EndsInReturn(lines[i])
    ensures HasCrLf(Join(lines, "\n", endLast))
    decreases |lines|
  {
    hide HasCrLf;
    var s := Join(lines, "\n", endLast);
    if i == 0 {
      assert s[|lines[0]| - 1] == '\r' && s[|lines[0]|] == '\n';
      FoundCrLf(s, |lines[0]| - 1);
    } else {
      ExposedIsCrLf(lines[1..], endLast, i - 1);
      CrLfBehind(lines[0] + "\n", Join(lines[1..], "\n", endLast));
    }
  }

  lemma FoundCrLf(s: string, i: nat)
    requires i + 1 < |s| && s[i] == '\r' && s[i + 1] == '\n'
    ensures HasCrLf(s)
  {}

  lemma {:induction false} JoinedEndsLine(lines: seq<string>, ending: string, endLast: bool)
    requires lines != [] && AllOneLine(lines) && IsEnding(ending)
    ensures EndsLine(Join(lines, ending, endLast)) <==> endLast || (|lines| > 1 && lines[|lines| - 1] == "")
    decreases |lines|
  {
    assert OneLine(lines[0]);
    if |lines| > 1 {
      JoinedEndsLine(lines[1..], ending, endLast);
      LastOfJoined(lines[0] + ending, Join(lines[1..], ending, endLast));
    }
  }

  lemma LastOfJoined(a: string, b: string)
    requires a != ""
    ensures EndsLine(a + b) == if b == "" then EndsLine(a) else EndsLine(b)
  {
    if b == "" { assert a + b == a; }
  }

  // ---------------------------------------------------------------- a blank last line

  /** An empty last line without an ending is written as nothing. */
  lemma {:induction false} JoinBlankEnd(lines: seq<string>, ending: string)
    requires lines != []
    ensures Join(lines + [""], ending, false) == Join(lines, ending, true)
    decreases |lines|
  {
    if |lines| == 1 {
      assert (lines + [""])[1..] == [""];
      assert lines[0] + ending + "" == lines[0] + ending;
    } else {
      assert (lines + [""])[1..] == lines[1..] + [""];
      JoinBlankEnd(lines[1..], ending);
    }
  }

  lemma RewriteBlankEnd(lines: seq<string>, port: Int32)
    requires HasSection(lines)
    ensures Rewrite(lines + [""], port) == Rewrite(lines, port) + [""]
  {
    var d := WriteFrom(BLANK, port, lines);
    SawMeansHas(port, lines);
    EmptyIsInert("");
    WriteConcat(BLANK, port, lines, [""]);
    WriteOne(d, port, "");
    CloseBlankEnd(d, port);
  }

  lemma CloseBlankEnd(d: Draft, port: Int32)
    requires KindOf("") == Inert
    ensures var e := WriteLine(d, port, ""); Close(e, port).Text() == Close(d, port).Text() + [""] && e.saw == d.saw
  {
    hide KindOf, PortLine;
    if d.inside {
      Associates(d.head + Missing(d, port), d.tail, [""]);
    }
  }

  // ---------------------------------------------------------------- joined lines are told apart

  lemma FirstBreak(line: string, ending: string, rest: string)
    requires OneLine(line) && IsEnding(ending)
    ensures Find(line + ending + rest, '\n') == Some(|line| + |ending| - 1)
  {
    var all := line + ending + rest;
    forall i | 0 <= i < |line| + |ending| - 1 ensures all[i] != '\n' {
      assert i < |line| ==> all[i] == line[i];
    }
    FindsFirst(all, '\n', |line| + |ending| - 1);
  }

  lemma SameStart(a: string, b: string, c: string, d: string)
    requires a + b == c + d && |a| == |c|
    ensures a == c && b == d
  {
    assert (a + b)[..|a|] == a && (c + d)[..|c|] == c;
    assert (a + b)[|a|..] == b && (c + d)[|c|..] == d;
  }

  lemma SameLine(line: string, other: string, ending: string, rest: string, more: string)
    requires OneLine(line) && OneLine(other) && IsEnding(ending) && line + ending + rest == other + ending + more
    ensures line == other && rest == more
  {
    FirstBreak(line, ending, rest);
    FirstBreak(other, ending, more);
    SameStart(line + ending, rest, other + ending, more);
    SameStart(line, ending, other, ending);
  }

  lemma {:induction false} JoinIsInjective(a: seq<string>, b: seq<string>, ending: string)
    requires a != [] && b != [] && AllOneLine(a) && AllOneLine(b) && IsEnding(ending)
    requires Join(a, ending, false) == Join(b, ending, false)
    ensures a == b
    decreases |a|
  {
    assert OneLine(a[0]) && OneLine(b[0]);
    if |a| > 1 { FirstBreak(a[0], ending, Join(a[1..], ending, false)); }
    if |b| > 1 { FirstBreak(b[0], ending, Join(b[1..], ending, false)); }
    if |a| > 1 && |b| > 1 {
      SameLine(a[0], b[0], ending, Join(a[1..], ending, false), Join(b[1..], ending, false));
      JoinIsInjective(a[1..], b[1..], ending);
    }
    assert a == [a[0]] + a[1..] && b == [b[0]] + b[1..];
  }

  // ---------------------------------------------------------------- what is among the rewritten lines

  lemma OwnLinesEnd(port: Int32)
    ensures !EndsInReturn(HEADER) && !EndsInReturn(RATE_LINE) && !EndsInReturn(PortLine(port))
    ensures HEADER != "" && RATE_LINE != "" && PortLine(port) != "" && RATE_LINE != PortLine(port)
  {
    NumberReadsBack(port);
    assert RATE_LINE[1] == 'a' && PortLine(port)[1] == 'o';
  }

  /** What the flags of a draft promise of its text; only lines of the input end in a carriage return. */
  ghost predicate Written(d: Draft, port: Int32, lines: seq<string>) {
    && (d.rate ==> RATE_LINE in d.Text()) && (d.port ==> PortLine(port) in d.Text())
    && (d.saw ==> HasSection(d.Text())) && (d.inside ==> d.saw)
    && forall raw | raw in d.Text() && EndsInReturn(raw) :: raw in lines
  }

  lemma SectionIn(lines: seq<string>, raw: string)
    requires raw in lines && KindOf(raw) == Header(true)
    ensures HasSection(lines)
  {
    hide KindOf;
    var i :| 0 <= i < |lines| && lines[i] == raw;
    assert KindOf(lines[i]) == Header(true);
  }

  lemma SectionStays(a: seq<string>, b: seq<string>)
    requires HasSection(a) && forall raw | raw in a :: raw in b
    ensures HasSection(b)
  {
    hide KindOf;
    var i :| 0 <= i < |a| && KindOf(a[i]) == Header(true);
    SectionIn(b, a[i]);
  }

  lemma CloseWritten(d: Draft, port: Int32, lines: seq<string>)
    requires Written(d, port, lines)
    ensures Written(Close(d, port), port, lines)
  {
    hide EndsInReturn, PortLine, HasSection;
    OwnLinesEnd(port);
    if d.inside {
      var missing := Missing(d, port);
      var closed := Close(d, port);
      assert forall raw :: raw in closed.Text() <==> raw in d.Text() || raw in missing;
      assert RATE_LINE in d.Text() || RATE_LINE in missing;
      assert PortLine(port) in d.Text() || PortLine(port) in missing;
      SectionStays(d.Text(), closed.Text());
    }
  }

  lemma PutWritten(d: Draft, e: Draft, port: Int32, lines: seq<string>, written: seq<string>)
    requires Written(d, port, lines) && e.Text() == d.Text() + written
    requires forall raw | raw in written && EndsInReturn(raw) :: raw in lines
    requires (e.rate ==> d.rate || RATE_LINE in written) && (e.port ==> d.port || PortLine(port) in written)
    requires (e.saw ==> d.saw || HasSection(e.Text())) && (e.inside ==> e.saw)
    ensures Written(e, port, lines)
  {
    hide EndsInReturn, PortLine, HasSection;
    if d.saw { SectionStays(d.Text(), e.Text()); }
  }

  lemma MoreWritten(d: Draft, port: Int32, lines: seq<string>, raw: string)
    requires Written(d, port, lines)
    ensures Written(d, port, lines + [raw])
  {
    hide EndsInReturn, PortLine, HasSection;
  }

  lemma LineWritten(d: Draft, port: Int32, lines: seq<string>, raw: string)
    requires Written(d, port, lines)
    ensures Written(WriteLine(d, port, raw), port, lines + [raw])
  {
    hide KindOf, EndsInReturn, PortLine, HasSection, Written;
    var e := WriteLine(d, port, raw);
    MoreWritten(d, port, lines, raw);
    OwnLinesEnd(port);
    match KindOf(raw)
    case Header(exporter) =>
      CloseWritten(d, port, lines + [raw]);
      HeaderWritten(Close(d, port), e, port, lines + [raw], raw, exporter);
    case Inert => InertWritten(d, port, lines + [raw], raw);
    case _ => OtherWritten(d, port, lines + [raw], raw);
  }

  lemma HeaderWritten(d: Draft, e: Draft, port: Int32, lines: seq<string>, raw: string, exporter: bool)
    requires Written(d, port, lines) && raw in lines && KindOf(raw) == Header(exporter)
    requires e == Put(d, [raw]).(inside := exporter, saw := d.saw || exporter)
    ensures Written(e, port, lines)
  {
    hide KindOf, EndsInReturn, PortLine, HasSection;
    assert e.Text() == d.Text() + [raw];
    if exporter { SectionIn(e.Text(), raw); }
    PutWritten(d, e, port, lines, [raw]);
  }

  lemma InertWritten(d: Draft, port: Int32, lines: seq<string>, raw: string)
    requires Written(d, port, lines) && raw in lines && KindOf(raw) == Inert
    ensures Written(WriteLine(d, port, raw), port, lines)
  {
    hide KindOf, EndsInReturn, PortLine, HasSection;
    var e := WriteLine(d, port, raw);
    assert e.Text() == d.Text() + [raw];
    PutWritten(d, e, port, lines, [raw]);
  }

  lemma OtherWritten(d: Draft, port: Int32, lines: seq<string>, raw: string)
    requires Written(d, port, lines) && raw in lines && !KindOf(raw).Header? && !KindOf(raw).Inert?
    ensures Written(WriteLine(d, port, raw), port, lines)
  {
    hide KindOf, EndsInReturn, PortLine, HasSection;
    OwnLinesEnd(port);
    var e := WriteLine(d, port, raw);
    var written := if !d.inside || KindOf(raw).Plain? then [raw]
                   else if KindOf(raw).Rate? then (if d.rate then [] else [RATE_LINE])
                   else (if d.port then [] else [PortLine(port)]);
    assert e.Text() == d.Text() + written;
    PutWritten(d, e, port, lines, written);
  }

  lemma {:induction false} DraftWritten(port: Int32, lines: seq<string>)
    ensures Written(WriteFrom(BLANK, port, lines), port, lines)
  {
    if lines == [] {
    } else {
      hide WriteLine, Written;
      var init, last := lines[..|lines| - 1], lines[|lines| - 1];
      DraftWritten(port, init);
      LineWritten(WriteFrom(BLANK, port, init), port, init, last);
      assert init + [last] == lines;
    }
  }

  lemma AppendedWritten(lines: seq<string>, port: Int32)
    ensures var r := Appended(lines, port);
      && RATE_LINE in r && PortLine(port) in r && HasSection(r)
      && forall raw | raw in r && EndsInReturn(raw) :: raw in lines
  {
    hide KindOf, PortLine;
    OwnLinesEnd(port);
    HeaderIsHeader();
    DroppedIsBlank(lines);
    var r := Appended(lines, port);
    var kept := DropBlankEnd(lines);
    var before := if kept == [] then [] else kept + [""];
    assert r == before + [HEADER, RATE_LINE, PortLine(port)];
    assert HEADER in r;
    SectionIn(r, HEADER);
  }

  /** Rewritten lines have a section and both of its lines, and no carriage return at an end that was not there. */
  lemma RewriteWrites(lines: seq<string>, port: Int32)
    ensures var r := Rewrite(lines, port);
      && RATE_LINE in r && PortLine(port) in r && HasSection(r) && |r| > 1
      && forall raw | raw in r && EndsInReturn(raw) :: raw in lines
  {
    hide Appended, Written, WriteLine, HasSection, EndsInReturn, PortLine;
    var d := WriteFrom(BLANK, port, lines);
    DraftWritten(port, lines);
    CloseWritten(d, port, lines);
    DraftIsFull(lines, port);
    WrittenMeans(Close(d, port), port, lines);
    if !d.saw { AppendedWritten(Close(d, port).Text(), port); }
    OwnLinesEnd(port);
    TwoMembers(Rewrite(lines, port), RATE_LINE, PortLine(port));
  }

  lemma WrittenMeans(d: Draft, port: Int32, lines: seq<string>)
    requires Written(d, port, lines)
    ensures (d.rate ==> RATE_LINE in d.Text()) && (d.port ==> PortLine(port) in d.Text())
    ensures (d.saw ==> HasSection(d.Text())) && forall raw | raw in d.Text() && EndsInReturn(raw) :: raw in lines
  {}

  lemma TwoMembers(lines: seq<string>, a: string, b: string)
    requires a in lines && b in lines && a != b
    ensures |lines| > 1
  {}

  // ---------------------------------------------------------------- a section's own lines are written ones

  predicate IsWritten(raw: string, port: Int32) {
    raw == RATE_LINE || raw == PortLine(port)
  }

  /** Rate and port lines inside an exporter section are the ones the rewriter writes. */
  predicate OwnWritten(k: Kept, lines: seq<string>, port: Int32) {
    lines == [] ||
    var init, last := lines[..|lines| - 1], lines[|lines| - 1];
    OwnWritten(k, init, port) && (KeepFrom(k, init).inside && IsOwn(last) ==> IsWritten(last, port))
  }

  lemma {:induction false} OwnConcat(k: Kept, a: seq<string>, b: seq<string>, port: Int32)
    ensures OwnWritten(k, a + b, port) <==> OwnWritten(k, a, port) && OwnWritten(KeepFrom(k, a), b, port)
  {
    hide IsOwn, IsWritten, KeepLine;
    if b == [] {
      assert a + b == a;
    } else {
      var init := b[..|b| - 1];
      assert (a + b)[..|a + b| - 1] == a + init;
      OwnConcat(k, a, init, port);
      KeepConcat(k, a, init);
    }
  }

  lemma OwnOne(k: Kept, raw: string, port: Int32)
    ensures OwnWritten(k, [raw], port) <==> (k.inside && IsOwn(raw) ==> IsWritten(raw, port))
  {
    assert [raw][..0] == [];
    assert KeepFrom(k, []) == k;
  }

  /** Lines that are no own lines, or are the written ones. */
  predicate Harmless(lines: seq<string>, port: Int32) {
    forall i | 0 <= i < |lines| :: IsOwn(lines[i]) ==> IsWritten(lines[i], port)
  }

  lemma {:induction false} OwnOfHarmless(k: Kept, lines: seq<string>, port: Int32)
    requires Harmless(lines, port)
    ensures OwnWritten(k, lines, port)
  {
    hide IsOwn, IsWritten, KeepFrom;
    if lines != [] { OwnOfHarmless(k, lines[..|lines| - 1], port); }
  }

  lemma CloseOwn(d: Draft, port: Int32, seen: seq<string>)
    requires Keeps(d, seen) && OwnWritten(NONE_KEPT, d.Text(), port)
    ensures OwnWritten(NONE_KEPT, Close(d, port).Text(), port)
  {
    hide KindOf, PortLine, OwnWritten, KeepFrom;
    if d.inside {
      var missing := Missing(d, port);
      OwnConcat(NONE_KEPT, d.head, d.tail, port);
      OwnOfHarmless(KeepFrom(NONE_KEPT, d.head), missing, port);
      OwnConcat(NONE_KEPT, d.head, missing, port);
      OwnOfHarmless(KeepFrom(NONE_KEPT, d.head + missing), d.tail, port);
      OwnConcat(NONE_KEPT, d.head + missing, d.tail, port);
      assert Close(d, port).Text() == d.head + missing + d.tail;
    }
  }

  lemma OneMoreOwn(text: seq<string>, raw: string, port: Int32)
    requires OwnWritten(NONE_KEPT, text, port)
    requires KeepFrom(NONE_KEPT, text).inside && IsOwn(raw) ==> IsWritten(raw, port)
    ensures OwnWritten(NONE_KEPT, text + [raw], port)
  {
    hide IsOwn, IsWritten, KeepFrom;
    OwnOne(KeepFrom(NONE_KEPT, text), raw, port);
    OwnConcat(NONE_KEPT, text, [raw], port);
  }

  lemma LineOwn(d: Draft, port: Int32, seen: seq<string>, raw: string)
    requires Keeps(d, seen) && OwnWritten(NONE_KEPT, d.Text(), port)
    ensures OwnWritten(NONE_KEPT, WriteLine(d, port, raw).Text(), port)
  {
    hide KindOf, PortLine, OwnWritten, KeepFrom;
    var e := WriteLine(d, port, raw);
    if KindOf(raw).Header? {
      CloseOwn(d, port, seen);
      OneMoreOwn(Close(d, port).Text(), raw, port);
      assert e.Text() == Close(d, port).Text() + [raw];
      CloseKeeps(d, port, seen);
    } else if d.inside && IsOwn(raw) {
      var line := if KindOf(raw).Rate? then RATE_LINE else PortLine(port);
      OneMoreOwn(d.Text(), line, port);
      assert d.Text() + [] == d.Text();
      assert e.Text() == d.Text() || e.Text() == d.Text() + [line];
    } else {
      OneMoreOwn(d.Text(), raw, port);
      assert e.Text() == d.Text() + [raw];
    }
  }

  lemma {:induction false} DraftOwn(port: Int32, lines: seq<string>)
    ensures OwnWritten(NONE_KEPT, WriteFrom(BLANK, port, lines).Text(), port)
  {
    if lines == [] {
    } else {
      hide WriteLine, Keeps, OwnWritten;
      var init, last := lines[..|lines| - 1], lines[|lines| - 1];
      DraftOwn(port, init);
      DraftKeeps(port, init);
      LineOwn(WriteFrom(BLANK, port, init), port, init, last);
    }
  }

  lemma AppendedOwn(lines: seq<string>, port: Int32)
    requires OwnWritten(NONE_KEPT, lines, port)
    ensures OwnWritten(NONE_KEPT, Appended(lines, port), port)
  {
    hide KindOf, PortLine, OwnWritten, KeepFrom;
    DroppedIsBlank(lines);
    var kept := DropBlankEnd(lines);
    assert lines == kept + lines[|kept|..];
    OwnConcat(NONE_KEPT, kept, lines[|kept|..], port);
    var more := (if kept == [] then [] else [""]) + [HEADER, RATE_LINE, PortLine(port)];
    HeaderIsHeader();
    EmptyIsInert("");
    OwnOfHarmless(KeepFrom(NONE_KEPT, kept), more, port);
    OwnConcat(NONE_KEPT, kept, more, port);
    assert Appended(lines, port) == kept + more;
  }

  lemma RewriteOwn(lines: seq<string>, port: Int32)
    ensures OwnWritten(NONE_KEPT, Rewrite(lines, port), port)
  {
    hide OwnWritten, Appended, Keeps, WriteFrom;
    var d := WriteFrom(BLANK, port, lines);
    DraftOwn(port, lines);
    DraftKeeps(port, lines);
    CloseOwn(d, port, lines);
    if !Close(d, port).saw { AppendedOwn(Close(d, port).Text(), port); }
  }

  // ---------------------------------------------------------------- the second repair

  /**
   Read again, some kept carriage return would be taken for part of an ending: one before a plain newline, or
   one at the very end of a text that does not end its last line.
   */
  predicate Exposes(lines: seq<string>, ending: string, endLast: bool) {
    || !EndedClean(lines, ending, endLast)
    || (!endLast && lines != [] && EndsInReturn(lines[|lines| - 1]))
  }

  lemma RewrittenIsLines(content: string, port: Int32)
    ensures AllOneLine(Rewrite(Split(content), port))
  {
    SplitIsLines(content);
    RewriteIsLines(Split(content), port);
  }

  /** What the second repair finds, when no newline makes a carriage return part of an ending. */
  lemma ReadAgain(content: string, port: Int32)
    requires EndedClean(Rewrite(Split(content), port), Ending(content), EndsLine(content))
    ensures var lines := Rewrite(Split(content), port); var repaired := Repair(content, port);
      && |lines| > 1
      && Split(repaired) == Reread(lines, EndsLine(content)) && Ending(repaired) == Ending(content)
      && (EndsLine(repaired) <==> EndsLine(content) || lines[|lines| - 1] == "")
  {
    hide Rewrite, Split, Join, HasCrLf, EndsLine, EndedClean;
    var lines := Rewrite(Split(content), port);
    RewriteWrites(Split(content), port);
    RewrittenIsLines(content, port);
    SplitOfJoined(lines, Ending(content), EndsLine(content));
    JoinedEndsLine(lines, Ending(content), EndsLine(content));
    if HasCrLf(content) {
      JoinedHasCrLf(lines, EndsLine(content));
    } else {
      JoinedHasNoCrLf(lines, EndsLine(content));
    }
  }

  lemma SectionBeforeBlank(lines: seq<string>)
    requires HasSection(lines + [""])
    ensures HasSection(lines)
  {
    EmptyIsInert("");
    hide KindOf;
    var i :| 0 <= i < |lines + [""]| && KindOf((lines + [""])[i]) == Header(true);
    assert KindOf(lines[i]) == Header(true);
  }

  lemma UnexposedIsStable(content: string, first: Int32, port: Int32)
    requires !Exposes(Rewrite(Split(content), first), Ending(content), EndsLine(content))
    ensures Repair(Repair(content, first), port) == Repair(content, port)
  {
    hide Rewrite, Split, Join, HasCrLf, EndsLine, EndedClean, HasSection;
    var lines := Rewrite(Split(content), first);
    ReadAgain(content, first);
    RewriteTwice(Split(content), first, port);
    var init, last := lines[..|lines| - 1], lines[|lines| - 1];
    assert lines == init + [last];
    if !EndsLine(content) && last == "" {
      RewriteWrites(Split(content), first);
      SectionBeforeBlank(init);
      RewriteBlankEnd(init, port);
      RewriteWrites(init, port);
      JoinBlankEnd(Rewrite(init, port), Ending(content));
    }
  }

  lemma KindOfStripped(line: string)
    ensures KindOf(StripReturn(line)) == KindOf(line)
  {
    if EndsInReturn(line) {
      TrimIgnoresReturn(StripReturn(line));
      assert StripReturn(line) + "\r" == line;
    }
  }

  lemma StrippedKeepsSection(init: seq<string>, last: string)
    requires HasSection(init + [last])
    ensures HasSection(init + [StripReturn(last)])
  {
    hide KindOf, StripReturn;
    KindOfStripped(last);
    var i :| 0 <= i < |init + [last]| && KindOf((init + [last])[i]) == Header(true);
    assert KindOf((init + [StripReturn(last)])[i]) == Header(true);
  }

  /** A kept line without its carriage return is another line that is kept. */
  lemma StrippedIsAnother(init: seq<string>, last: string, port: Int32)
    requires EndsInReturn(last) && OwnWritten(NONE_KEPT, init + [last], port)
    ensures Others(init + [StripReturn(last)]) != Others(init + [last])
  {
    hide KindOf, PortLine, OwnWritten, KeepFrom;
    var k := KeepFrom(NONE_KEPT, init);
    OwnConcat(NONE_KEPT, init, [last], port);
    OwnOne(k, last, port);
    OwnLinesEnd(port);
    KindOfStripped(last);
    KeepConcat(NONE_KEPT, init, [last]);
    KeepOne(k, last);
    KeepConcat(NONE_KEPT, init, [StripReturn(last)]);
    KeepOne(k, StripReturn(last));
    assert StripReturn(last) != last;
    assert (k.lines + [last])[|k.lines|] != (k.lines + [StripReturn(last)])[|k.lines|];
  }

  /** The text ends in a carriage return that a line kept; the second repair takes it away. */
  lemma ExposedEndDiffers(content: string, first: Int32, port: Int32)
    requires var lines := Rewrite(Split(content), first);
      && EndedClean(lines, Ending(content), EndsLine(content))
      && !EndsLine(content) && lines != [] && EndsInReturn(lines[|lines| - 1])
    ensures Repair(Repair(content, first), port) != Repair(content, port)
  {
    hide Rewrite, Split, Join, HasCrLf, EndsLine, EndedClean, HasSection, OwnWritten, Others;
    var lines := Rewrite(Split(content), first);
    var init, last := lines[..|lines| - 1], lines[|lines| - 1];
    assert lines == init + [last];
    var stripped := init + [StripReturn(last)];
    ReadAgain(content, first);
    assert Split(Repair(content, first)) == stripped;
    RewriteTwice(Split(content), first, port);
    RewriteOwn(Split(content), first);
    StrippedIsAnother(init, last, first);
    RewriteWrites(Split(content), first);
    StrippedKeepsSection(init, last);
    RewriteKeepsOthers(lines, port);
    RewriteKeepsOthers(stripped, port);
    assert Rewrite(stripped, port) != Rewrite(lines, port);
    RewriteWrites(stripped, port);
    RewriteWrites(lines, port);
    RewrittenIsLines(content, port);
    RewrittenIsLines(Repair(content, first), port);
    if Repair(Repair(content, first), port) == Repair(content, port) {
      JoinIsInjective(Rewrite(stripped, port), Rewrite(lines, port), Ending(content));
      assert false;
    }
  }

  /** Every newline is part of a carriage return and newline. */
  predicate OnlyCrLf(s: string) {
    forall i | 0 <= i < |s| && s[i] == '\n' :: i > 0 && s[i - 1] == '\r'
  }

  lemma {:induction false} JoinedIsCrLf(lines: seq<string>, endLast: bool)
    requires AllOneLine(lines)
    ensures OnlyCrLf(Join(lines, "\r\n", endLast))
    decreases |lines|
  {
    if lines != [] {
      assert OneLine(lines[0]);
      OneIsCrLf(lines[0]);
      if |lines| > 1 {
        JoinedIsCrLf(lines[1..], endLast);
        CrLfConcat(lines[0] + "\r\n", Join(lines[1..], "\r\n", endLast));
      }
    }
  }

  lemma OneIsCrLf(line: string)
    requires OneLine(line)
    ensures OnlyCrLf(line) && OnlyCrLf(line + "\r\n")
  {
    var s := line + "\r\n";
    forall i | 0 <= i < |line| ensures s[i] != '\n' {
      assert s[i] == line[i];
    }
  }

  lemma CrLfConcat(a: string, b: string)
    requires OnlyCrLf(a) && OnlyCrLf(b)
    ensures OnlyCrLf(a + b)
  {
    var s := a + b;
    forall i | 0 <= i < |s| && s[i] == '\n' ensures i > 0 && s[i - 1] == '\r' {
      if i < |a| { assert s[i] == a[i]; } else { assert s[i] == b[i - |a|]; }
    }
  }

  lemma NotCrLfBehind(line: string, s: string)
    requires !OnlyCrLf(s)
    ensures !OnlyCrLf(line + "\n" + s)
  {
    var i :| 0 <= i < |s| && s[i] == '\n' && !(i > 0 && s[i - 1] == '\r');
    var all := line + "\n" + s;
    var at := |line| + 1 + i;
    assert all[at] == '\n' && all[at - 1] == if i > 0 then s[i - 1] else '\n';
  }

  /** A line with an ending of its own, a plain newline. */
  lemma {:induction false} BareBreak(lines: seq<string>, endLast: bool, i: nat)
    requires i < |lines| && Ended(lines, i, endLast) && lines[i] != "" && !EndsInReturn(lines[i])
    ensures !OnlyCrLf(Join(lines, "\n", endLast))
    decreases |lines|
  {
    hide OnlyCrLf;
    if i == 0 {
      var s := Join(lines, "\n", endLast);
      assert s[|lines[0]|] == '\n' && s[|lines[0]| - 1] == lines[0][|lines[0]| - 1];
      FoundBare(s, |lines[0]|);
    } else {
      BareBreak(lines[1..], endLast, i - 1);
      NotCrLfBehind(lines[0], Join(lines[1..], "\n", endLast));
    }
  }

  lemma FoundBare(s: string, i: nat)
    requires 0 < i < |s| && s[i] == '\n' && s[i - 1] != '\r'
    ensures !OnlyCrLf(s)
  {}

  /** One of two different members is not the last. */
  lemma OneIsEnded(lines: seq<string>, a: string, b: string, endLast: bool) returns (i: nat)
    requires a in lines && b in lines && a != b
    ensures i < |lines| && Ended(lines, i, endLast) && (lines[i] == a || lines[i] == b)
  {
    var k :| 0 <= k < |lines| && lines[k] == a;
    var l :| 0 <= l < |lines| && lines[l] == b;
    i := if k < l then k else l;
  }

  /** A newline made a kept carriage return part of its ending; the second repair ends every line so. */
  lemma ExposedEndingDiffers(content: string, first: Int32, port: Int32)
    requires !EndedClean(Rewrite(Split(content), first), Ending(content), EndsLine(content))
    ensures Repair(Repair(content, first), port) != Repair(content, port)
  {
    var lines := Rewrite(Split(content), first);
    var i: nat :| i < |lines| && Ended(lines, i, EndsLine(content)) && EndsInReturn(lines[i]);
    ExposedIsCrLf(lines, EndsLine(content), i);
    hide Rewrite, Split, Join, HasCrLf, EndsLine, HasSection, OnlyCrLf, PortLine, EndsInReturn;
    var repaired := Repair(content, first);
    RewrittenIsLines(repaired, port);
    JoinedIsCrLf(Rewrite(Split(repaired), port), EndsLine(repaired));
    var direct := Rewrite(Split(content), port);
    RewriteWrites(Split(content), port);
    OwnLinesEnd(port);
    var k := OneIsEnded(direct, RATE_LINE, PortLine(port), EndsLine(content));
    BareBreak(direct, EndsLine(content), k);
  }

  /**
   Repairing for one port and then for another gives the bytes of repairing for the other if and only if the
   first repair leaves no carriage return at the end of a line where reading it again would take it away.
   */
  lemma RepairTwiceIff(content: string, first: Int32, port: Int32)
    ensures Repair(Repair(content, first), port) == Repair(content, port)
      <==> !Exposes(Rewrite(Split(content), first), Ending(content), EndsLine(content))
  {
    hide Repair, EndedClean;
    if !Exposes(Rewrite(Split(content), first), Ending(content), EndsLine(content)) {
      UnexposedIsStable(content, first, port);
    } else if EndedClean(Rewrite(Split(content), first), Ending(content), EndsLine(content)) {
      ExposedEndDiffers(content, first, port);
    } else {
      ExposedEndingDiffers(content, first, port);
    }
  }

  /** So it does for every file of which no line, its ending apart, ends in a carriage return. */
  lemma CleanRepairTwice(content: string, first: Int32, port: Int32)
    requires forall raw | raw in Split(content) :: !EndsInReturn(raw)
    ensures Repair(Repair(content, first), port) == Repair(content, port)
  {
    hide Rewrite, EndsInReturn, Repair, Split;
    RewriteWrites(Split(content), first);
    RepairTwiceIff(content, first, port);
  }

  /** And it can fail: the line keeps a carriage return and gets a newline behind it. */
  lemma RepairTwiceCanDiffer(first: Int32, port: Int32)
    ensures Repair(Repair("a\r\r", first), port) != Repair("a\r\r", port)
  {
    var content := "a\r\r";
    assert |content| == 3 && content[0] == 'a' && content[1] == '\r' && content[2] == '\r';
    assert OneLine(content);
    NoCrLfInOne(content);
    SplitUnended(content);
    assert StripReturn(content) == content[..2] == "a\r";
    assert !EndsLine(content);
    LoneLine(first);
    RepairTwiceIff(content, first, port);
  }

  lemma LoneLine(port: Int32)
    ensures Exposes(Rewrite(["a\r"], port), "\n", false)
  {
    var lines := ["a\r"];
    LoneLineIsPlain();
    assert Sectionless(lines);
    SectionlessDraft(lines, port);
    assert lines + [] == lines;
    var r := Rewrite(lines, port);
    assert r == lines + [""] + [HEADER, RATE_LINE, PortLine(port)];
    assert Ended(r, 0, false) && EndsInReturn(r[0]);
  }

  lemma LoneLineIsPlain()
    ensures KindOf("a\r") == Plain && Trim("a\r") == "a"
  {
    TrimIgnoresReturn("a");
    NothingToTrim("a");
    assert "a" + "\r" == "a\r";
    assert Find("a", '=').None?;
  }
}
