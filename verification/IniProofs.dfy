/**
 What a rewrite achieves, for every list of lines: the reader finds rate 30 and the
 port, a second rewrite is as good as one, and only exporter rate and port lines go.
 */
module IniProofs {
  import opened Options
  import opened Text
  import opened IniText
  import opened StatsApiIni

  predicate AllInert(lines: seq<string>) {
    forall i | 0 <= i < |lines| :: KindOf(lines[i]) == Inert
  }

  predicate ReadsThirty(stof: string -> Option<real>) {
    stof("30") == Some(30.0)
  }

  // ---------------------------------------------------------------- the reader finds the values

  lemma {:induction false} ReadConcat(stof: string -> Option<real>, s: Seen, a: seq<string>, b: seq<string>)
    ensures ReadFrom(stof, s, a + b) == ReadFrom(stof, ReadFrom(stof, s, a), b)
  {
    if b == [] {
      assert a + b == a;
    } else {
      assert (a + b)[..|a + b| - 1] == a + b[..|b| - 1];
      ReadConcat(stof, s, a, b[..|b| - 1]);
    }
  }

  lemma ReadOne(stof: string -> Option<real>, s: Seen, raw: string)
    ensures ReadFrom(stof, s, [raw]) == ReadLine(stof, s, raw)
  {
    assert [raw][..0] == [];
  }

  lemma {:induction false} ReadInert(stof: string -> Option<real>, s: Seen, lines: seq<string>)
    requires AllInert(lines)
    ensures ReadFrom(stof, s, lines) == s
  {
    if lines != [] {
      ReadInert(stof, s, lines[..|lines| - 1]);
    }
  }

  /** Inside the section, each line the rewriter adds sets its value. */
  lemma ReadOwn(stof: string -> Option<real>, port: Int32, s: Seen)
    requires ReadsThirty(stof) && s.inside
    ensures ReadLine(stof, s, RATE_LINE) == Seen(true, s.values.(rate := Some(30.0)))
    ensures ReadLine(stof, s, PortLine(port)) == Seen(true, s.values.(port := Some(port)))
  {
    hide KindOf, ValueText, StoI, PortLine;
    RateIsRate();
    PortIsPort(port);
  }

  lemma ReadMissing(stof: string -> Option<real>, d: Draft, port: Int32, s: Seen)
    requires ReadsThirty(stof) && s.inside
    ensures ReadFrom(stof, s, Missing(d, port))
         == Seen(true, Values(if d.rate then s.values.rate else Some(30.0),
                              if d.port then s.values.port else Some(port)))
  {
    hide ReadLine, PortLine;
    var rate: seq<string> := if d.rate then [] else [RATE_LINE];
    var own: seq<string> := if d.port then [] else [PortLine(port)];
    var between := ReadFrom(stof, s, rate);
    ReadConcat(stof, s, rate, own);
    ReadOne(stof, s, RATE_LINE);
    ReadOwn(stof, port, s);
    ReadOne(stof, between, PortLine(port));
    ReadOwn(stof, port, between);
  }

  /** What the draft's flags promise a reader. */
  function Promised(d: Draft, port: Int32): Seen {
    Seen(d.inside, Values(if d.rate then Some(30.0) else None, if d.port then Some(port) else None))
  }

  predicate Reads(stof: string -> Option<real>, d: Draft, port: Int32) {
    && ReadFrom(stof, NOTHING, d.head) == Promised(d, port)
    && AllInert(d.tail) && (!d.inside ==> d.tail == [])
    && (!d.saw ==> !d.inside && !d.rate && !d.port) && (d.saw && !d.inside ==> d.rate && d.port)
  }

  lemma ReadsText(stof: string -> Option<real>, d: Draft, port: Int32)
    requires Reads(stof, d, port)
    ensures ReadFrom(stof, NOTHING, d.Text()) == Promised(d, port)
  {
    ReadConcat(stof, NOTHING, d.head, d.tail);
    ReadInert(stof, Promised(d, port), d.tail);
  }

  lemma CloseReads(stof: string -> Option<real>, d: Draft, port: Int32)
    requires ReadsThirty(stof) && Reads(stof, d, port)
    ensures Reads(stof, Close(d, port), port)
  {
    if d.inside {
      var missing := Missing(d, port);
      ReadConcat(stof, NOTHING, d.head, missing);
      ReadMissing(stof, d, port, Promised(d, port));
      ReadConcat(stof, NOTHING, d.head + missing, d.tail);
      ReadInert(stof, ReadFrom(stof, NOTHING, d.head + missing), d.tail);
    }
  }

  lemma PutReads(stof: string -> Option<real>, d: Draft, port: Int32, raw: string)
    requires Reads(stof, d, port)
    ensures ReadFrom(stof, NOTHING, Put(d, [raw]).head) == ReadLine(stof, Promised(d, port), raw)
    ensures ReadFrom(stof, NOTHING, Put(d, []).head) == Promised(d, port)
  {
    ReadsText(stof, d, port);
    ReadConcat(stof, NOTHING, d.Text(), [raw]);
    ReadOne(stof, Promised(d, port), raw);
    assert d.Text() + [] == d.Text();
  }

  lemma HeaderReads(stof: string -> Option<real>, d: Draft, port: Int32, raw: string)
    requires ReadsThirty(stof) && Reads(stof, d, port) && KindOf(raw).Header?
    ensures Reads(stof, WriteLine(d, port, raw), port)
  {
    CloseReads(stof, d, port);
    PutReads(stof, Close(d, port), port, raw);
  }

  /** A line of the exporter's own keys: written once, at most. */
  lemma OwnLineReads(stof: string -> Option<real>, d: Draft, port: Int32, raw: string)
    requires ReadsThirty(stof) && Reads(stof, d, port) && (KindOf(raw).Rate? || KindOf(raw).Port?)
    ensures Reads(stof, WriteLine(d, port, raw), port)
  {
    RateIsRate();
    PortIsPort(port);
    PutReads(stof, d, port, if !d.inside then raw else if KindOf(raw).Rate? then RATE_LINE else PortLine(port));
  }

  lemma WriteReads(stof: string -> Option<real>, d: Draft, port: Int32, raw: string)
    requires ReadsThirty(stof) && Reads(stof, d, port)
    ensures Reads(stof, WriteLine(d, port, raw), port)
  {
    match KindOf(raw)
    case Header(_) => HeaderReads(stof, d, port, raw);
    case Rate => OwnLineReads(stof, d, port, raw);
    case Port => OwnLineReads(stof, d, port, raw);
    case _ => PutReads(stof, d, port, raw);
  }

  lemma {:induction false} DraftReads(stof: string -> Option<real>, port: Int32, lines: seq<string>)
    requires ReadsThirty(stof)
    ensures Reads(stof, WriteFrom(BLANK, port, lines), port)
  {
    if lines == [] {
    } else {
      DraftReads(stof, port, lines[..|lines| - 1]);
      WriteReads(stof, WriteFrom(BLANK, port, lines[..|lines| - 1]), port, lines[|lines| - 1]);
    }
  }

  predicate AllBlank(lines: seq<string>) {
    forall i | 0 <= i < |lines| :: Trim(lines[i]) == ""
  }

  /** All blank lines at the end are dropped, and nothing else. */
  lemma {:induction false} DroppedIsBlank(lines: seq<string>)
    ensures var kept := DropBlankEnd(lines);
      kept <= lines && AllBlank(lines[|kept|..]) && (kept == [] || Trim(kept[|kept| - 1]) != "")
  {
    if lines != [] && Trim(lines[|lines| - 1]) == "" {
      DroppedIsBlank(lines[..|lines| - 1]);
      var k := |DropBlankEnd(lines)|;
      assert lines[k..] == lines[..|lines| - 1][k..] + [lines[|lines| - 1]];
    }
  }

  lemma ReadSection(stof: string -> Option<real>, s: Seen, port: Int32)
    requires ReadsThirty(stof)
    ensures ReadFrom(stof, s, [HEADER, RATE_LINE, PortLine(port)]) == Seen(true, Values(Some(30.0), Some(port)))
  {
    HeaderIsHeader();
    hide KindOf, PortLine, ReadFrom;
    ReadOne(stof, s, HEADER);
    var inside := Seen(true, s.values);
    ReadConcat(stof, s, [HEADER], [RATE_LINE, PortLine(port)]);
    assert [HEADER] + [RATE_LINE, PortLine(port)] == [HEADER, RATE_LINE, PortLine(port)];
    ReadMissing(stof, BLANK, port, inside);
    assert Missing(BLANK, port) == [RATE_LINE, PortLine(port)];
  }

  lemma ReadAppended(stof: string -> Option<real>, lines: seq<string>, port: Int32)
    requires ReadsThirty(stof)
    ensures ReadValues(stof, Appended(lines, port)) == Values(Some(30.0), Some(port))
  {
    var kept := DropBlankEnd(lines);
    var before := if kept == [] then [] else kept + [""];
    ReadConcat(stof, NOTHING, before, [HEADER, RATE_LINE, PortLine(port)]);
    ReadSection(stof, ReadFrom(stof, NOTHING, before), port);
  }

  /** For any lines, the rewritten ones read as rate 30 and the requested port. */
  lemma RewriteReads(stof: string -> Option<real>, lines: seq<string>, port: Int32)
    requires ReadsThirty(stof)
    ensures ReadValues(stof, Rewrite(lines, port)) == Values(Some(30.0), Some(port))
  {
    var d := WriteFrom(BLANK, port, lines);
    DraftReads(stof, port, lines);
    if d.saw {
      CloseReads(stof, d, port);
      ReadsText(stof, Close(d, port), port);
    } else {
      ReadAppended(stof, Close(d, port).Text(), port);
    }
  }

  // ---------------------------------------------------------------- nothing else is lost

  /** The lines that are not exporter rate or port lines, and whether the last section is the exporter's. */
  datatype Kept = Kept(inside: bool, lines: seq<string>)

  function KeepLine(k: Kept, raw: string): Kept {
    match KindOf(raw)
    case Header(exporter) => Kept(exporter, k.lines + [raw])
    case Rate => if k.inside then k else k.(lines := k.lines + [raw])
    case Port => if k.inside then k else k.(lines := k.lines + [raw])
    case _ => k.(lines := k.lines + [raw])
  }

  function KeepFrom(k: Kept, lines: seq<string>): Kept {
    if lines == [] then k else KeepLine(KeepFrom(k, lines[..|lines| - 1]), lines[|lines| - 1])
  }

  const NONE_KEPT := Kept(false, [])

  function Others(lines: seq<string>): seq<string> {
    KeepFrom(NONE_KEPT, lines).lines
  }

  lemma {:induction false} KeepConcat(k: Kept, a: seq<string>, b: seq<string>)
    ensures KeepFrom(k, a + b) == KeepFrom(KeepFrom(k, a), b)
  {
    if b == [] {
      assert a + b == a;
    } else {
      assert (a + b)[..|a + b| - 1] == a + b[..|b| - 1];
      KeepConcat(k, a, b[..|b| - 1]);
    }
  }

  lemma KeepOne(k: Kept, raw: string)
    ensures KeepFrom(k, [raw]) == KeepLine(k, raw)
  {
    assert [raw][..0] == [];
  }

  predicate IsOwn(raw: string) {
    KindOf(raw) == Rate || KindOf(raw) == Port
  }

  predicate AllOwn(lines: seq<string>) {
    forall i | 0 <= i < |lines| :: IsOwn(lines[i])
  }

  lemma WrittenIsOwn(port: Int32)
    ensures IsOwn(RATE_LINE) && IsOwn(PortLine(port))
  {
    RateIsRate();
    PortIsPort(port);
  }

  lemma {:induction false} KeepOwn(k: Kept, lines: seq<string>)
    requires k.inside && AllOwn(lines)
    ensures KeepFrom(k, lines) == k
  {
    if lines != [] {
      KeepOwn(k, lines[..|lines| - 1]);
      assert IsOwn(lines[|lines| - 1]);
    }
  }

  lemma {:induction false} KeepInert(k: Kept, lines: seq<string>)
    requires AllInert(lines)
    ensures KeepFrom(k, lines) == k.(lines := k.lines + lines)
  {
    if lines == [] {
      assert k.lines + [] == k.lines;
    } else {
      KeepInert(k, lines[..|lines| - 1]);
      assert k.lines + lines == k.lines + lines[..|lines| - 1] + [lines[|lines| - 1]];
    }
  }

  /** The draft keeps what the lines read so far keep. */
  ghost predicate Keeps(d: Draft, lines: seq<string>) {
    && KeepFrom(NONE_KEPT, d.Text()) == KeepFrom(NONE_KEPT, lines)
    && KeepFrom(NONE_KEPT, lines).inside == d.inside
    && AllInert(d.tail) && (!d.saw ==> !d.inside && d.Text() == lines)
  }

  lemma CloseKeeps(d: Draft, port: Int32, lines: seq<string>)
    requires Keeps(d, lines)
    ensures Keeps(Close(d, port), lines)
  {
    hide KindOf, PortLine;
    if d.inside {
      var missing := Missing(d, port);
      KeepConcat(NONE_KEPT, d.head, d.tail);
      KeepInert(KeepFrom(NONE_KEPT, d.head), d.tail);
      KeepConcat(NONE_KEPT, d.head, missing);
      WrittenIsOwn(port);
      assert AllOwn(missing);
      KeepOwn(KeepFrom(NONE_KEPT, d.head), missing);
      KeepConcat(NONE_KEPT, d.head + missing, d.tail);
      assert Close(d, port).Text() == d.head + missing + d.tail;
    }
  }

  lemma PutKeeps(d: Draft, e: Draft, lines: seq<string>, raw: string, written: seq<string>)
    requires Keeps(d, lines) && e.Text() == d.Text() + written && AllInert(e.tail)
    requires KeepFrom(KeepFrom(NONE_KEPT, lines), written) == KeepLine(KeepFrom(NONE_KEPT, lines), raw)
    requires KeepLine(KeepFrom(NONE_KEPT, lines), raw).inside == e.inside
    requires !e.saw ==> !e.inside && !d.saw && written == [raw]
    ensures Keeps(e, lines + [raw])
  {
    KeepConcat(NONE_KEPT, lines, [raw]);
    KeepOne(KeepFrom(NONE_KEPT, lines), raw);
    KeepConcat(NONE_KEPT, d.Text(), written);
  }

  lemma WriteKeeps(d: Draft, port: Int32, lines: seq<string>, raw: string)
    requires Keeps(d, lines)
    ensures Keeps(WriteLine(d, port, raw), lines + [raw])
  {
    hide KindOf;
    var k := KeepFrom(NONE_KEPT, lines);
    var e := WriteLine(d, port, raw);
    KeepOne(k, raw);
    match KindOf(raw)
    case Header(_) =>
      CloseKeeps(d, port, lines);
      PutKeeps(Close(d, port), e, lines, raw, [raw]);
    case Rate => OwnLineKeeps(d, port, lines, raw);
    case Port => OwnLineKeeps(d, port, lines, raw);
    case _ =>
      assert e.Text() == d.Text() + [raw];
      PutKeeps(d, e, lines, raw, [raw]);
  }

  lemma OwnLineKeeps(d: Draft, port: Int32, lines: seq<string>, raw: string)
    requires Keeps(d, lines) && IsOwn(raw)
    ensures Keeps(WriteLine(d, port, raw), lines + [raw])
  {
    hide KindOf;
    var k := KeepFrom(NONE_KEPT, lines);
    var e := WriteLine(d, port, raw);
    if d.inside {
      var written := e.head[|d.Text()|..];
      WrittenIsOwn(port);
      assert e.Text() == d.Text() + written && AllOwn(written);
      KeepOwn(k, written);
      PutKeeps(d, e, lines, raw, written);
    } else {
      KeepOne(k, raw);
      PutKeeps(d, e, lines, raw, [raw]);
    }
  }

  lemma {:induction false} DraftKeeps(port: Int32, lines: seq<string>)
    ensures Keeps(WriteFrom(BLANK, port, lines), lines)
  {
    if lines == [] {
    } else {
      DraftKeeps(port, lines[..|lines| - 1]);
      WriteKeeps(WriteFrom(BLANK, port, lines[..|lines| - 1]), port, lines[..|lines| - 1], lines[|lines| - 1]);
      assert lines[..|lines| - 1] + [lines[|lines| - 1]] == lines;
    }
  }

  /** Does the input have an exporter section? */
  predicate HasSection(lines: seq<string>) {
    exists i | 0 <= i < |lines| :: KindOf(lines[i]) == Header(true)
  }

  lemma {:induction false} SawMeansHas(port: Int32, lines: seq<string>)
    ensures WriteFrom(BLANK, port, lines).saw <==> HasSection(lines)
  {
    hide KindOf, Missing;
    if lines != [] {
      var earlier := lines[..|lines| - 1];
      SawMeansHas(port, earlier);
      if HasSection(earlier) {
        var i :| 0 <= i < |earlier| && KindOf(earlier[i]) == Header(true);
        assert KindOf(lines[i]) == Header(true);
      }
    }
  }

  /**
   Every line that is not an exporter rate or port line survives, in order. Without an
   exporter section the whole text survives, up to the blank lines at its end, and the
   section is appended.
   */
  lemma RewriteKeepsOthers(lines: seq<string>, port: Int32)
    ensures if HasSection(lines) then Others(Rewrite(lines, port)) == Others(lines)
            else
              var kept := DropBlankEnd(lines);
              && Rewrite(lines, port) == (if kept == [] then [] else kept + [""]) + [HEADER, RATE_LINE, PortLine(port)]
              && kept <= lines && AllBlank(lines[|kept|..]) && (kept == [] || Trim(kept[|kept| - 1]) != "")
  {
    hide KindOf, PortLine, KeepFrom;
    var d := WriteFrom(BLANK, port, lines);
    DraftKeeps(port, lines);
    SawMeansHas(port, lines);
    DroppedIsBlank(lines);
    if d.saw {
      CloseKeeps(d, port, lines);
    }
  }
}
