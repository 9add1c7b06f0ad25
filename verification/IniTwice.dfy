/**
 Rewriting for one port and then for another is rewriting for the other; in particular a
 second rewrite changes nothing. The second pass runs over the first one's output: it is
 followed next to the pass that the second port would have made over the input.
 */
module IniTwice {
  import opened Options
  import opened Seqs
  import opened IniText
  import opened StatsApiIni
  import opened IniProofs

  /** Drafts of the same text, wherever their insertion points are. */
  predicate Same(d: Draft, e: Draft) {
    d.Text() == e.Text() && d.inside == e.inside && d.saw == e.saw && d.rate == e.rate && d.port == e.port
  }

  lemma {:induction false} WriteConcat(d: Draft, port: Int32, a: seq<string>, b: seq<string>)
    ensures WriteFrom(d, port, a + b) == WriteFrom(WriteFrom(d, port, a), port, b)
  {
    if b == [] {
      assert a + b == a;
    } else {
      assert (a + b)[..|a + b| - 1] == a + b[..|b| - 1];
      WriteConcat(d, port, a, b[..|b| - 1]);
    }
  }

  lemma WriteOne(d: Draft, port: Int32, raw: string)
    ensures WriteFrom(d, port, [raw]) == WriteLine(d, port, raw)
  {
    assert [raw][..0] == [];
  }

  lemma {:induction false} InertGrowsTail(d: Draft, port: Int32, lines: seq<string>)
    requires d.inside && AllInert(lines)
    ensures WriteFrom(d, port, lines) == d.(tail := d.tail + lines)
  {
    if lines == [] {
      assert d.tail + [] == d.tail;
    } else {
      InertGrowsTail(d, port, lines[..|lines| - 1]);
      assert d.tail + lines == d.tail + lines[..|lines| - 1] + [lines[|lines| - 1]];
    }
  }

  lemma FullCloseIsSame(d: Draft, port: Int32)
    requires d.inside ==> d.rate && d.port
    ensures Same(Close(d, port), d)
  {
    if d.inside {
      assert d.head + [] + d.tail == d.Text();
      assert d.head + [] + d.tail + [] == d.Text();
    }
  }

  /** The insertion point matters only where something is missing. */
  lemma WriteSame(d: Draft, e: Draft, port: Int32, raw: string)
    requires Same(d, e) && (KindOf(raw).Header? && d.inside ==> d.rate && d.port)
    ensures Same(WriteLine(d, port, raw), WriteLine(e, port, raw))
  {
    hide KindOf, PortLine;
    if KindOf(raw).Header? {
      FullCloseIsSame(d, port);
      FullCloseIsSame(e, port);
    } else if KindOf(raw).Inert? {
      assert d.head + (d.tail + [raw]) == d.Text() + [raw];
      assert e.head + (e.tail + [raw]) == e.Text() + [raw];
    }
  }

  /**
   `a` is the first pass's draft of some input, `b` the draft of the same input for `port`,
   and a pass for `port` over what `a` has up to its insertion point is at `b`'s.
   */
  ghost predicate Mirrors(a: Draft, b: Draft, port: Int32) {
    && a.inside == b.inside && a.saw == b.saw && a.rate == b.rate && a.port == b.port
    && a.tail == b.tail && AllInert(a.tail) && (!a.inside ==> a.tail == [])
    && Same(WriteFrom(BLANK, port, a.head), b.(tail := []))
  }

  lemma MirrorsText(a: Draft, b: Draft, port: Int32)
    requires Mirrors(a, b, port)
    ensures Same(WriteFrom(BLANK, port, a.Text()), b)
  {
    hide KindOf;
    var w := WriteFrom(BLANK, port, a.head);
    WriteConcat(BLANK, port, a.head, a.tail);
    if a.inside {
      InertGrowsTail(w, port, a.tail);
      assert w.head + (w.tail + a.tail) == w.Text() + a.tail;
    }
  }

  /** Both drafts put a line; the second pass reads the first one's. */
  lemma PutMirrors(a: Draft, b: Draft, c: Draft, port: Int32, raw: string)
    requires Mirrors(a, b, port) && c.head == a.Text() + [raw] && c.tail == []
    requires KindOf(raw).Header? ==> !a.inside || (a.rate && a.port)
    requires WriteLine(b, port, raw).tail == []
    requires var e := WriteLine(b, port, raw);
      c.inside == e.inside && c.saw == e.saw && c.rate == e.rate && c.port == e.port
    ensures Mirrors(c, WriteLine(b, port, raw), port)
  {
    MirrorsText(a, b, port);
    WriteConcat(BLANK, port, a.Text(), [raw]);
    WriteOne(WriteFrom(BLANK, port, a.Text()), port, raw);
    WriteSame(WriteFrom(BLANK, port, a.Text()), b, port, raw);
    var e := WriteLine(b, port, raw);
    assert e.(tail := []) == e;
  }

  /** Reading the rate line, and the port line of the first pass, the second pass writes its own. */
  lemma ReplacesOwn(w: Draft, first: Int32, port: Int32)
    requires w.inside
    ensures WriteLine(w, port, RATE_LINE) == Put(w, if w.rate then [] else [RATE_LINE]).(rate := true)
    ensures WriteLine(w, port, PortLine(first)) == Put(w, if w.port then [] else [PortLine(port)]).(port := true)
  {
    RateIsRate();
    PortIsPort(first);
  }

  /** The second pass over the lines the first one inserted. */
  lemma ReadsMissing(w: Draft, a: Draft, first: Int32, port: Int32)
    requires w.inside && w.rate == a.rate && w.port == a.port
    ensures var v := WriteFrom(w, port, Missing(a, first));
      v.Text() == w.Text() + Missing(w, port) && v.inside && v.saw == w.saw && v.rate && v.port
  {
    hide KindOf, PortLine;
    var rate: seq<string> := if a.rate then [] else [RATE_LINE];
    var own: seq<string> := if a.port then [] else [PortLine(first)];
    WriteConcat(w, port, rate, own);
    WriteOne(w, port, RATE_LINE);
    ReplacesOwn(w, first, port);
    var u := WriteFrom(w, port, rate);
    assert u.Text() == w.Text() + rate;
    WriteOne(u, port, PortLine(first));
    ReplacesOwn(u, first, port);
    assert w.Text() + rate + (if w.port then [] else [PortLine(port)]) == w.Text() + Missing(w, port);
  }

  lemma TextOfLongerTail(d: Draft, more: seq<string>)
    ensures d.(tail := d.tail + more).Text() == d.Text() + more
  {
    assert d.head + (d.tail + more) == d.head + d.tail + more;
  }

  lemma ReadsTail(w: Draft, port: Int32, lines: seq<string>, tail: seq<string>)
    requires WriteFrom(w, port, lines).inside && AllInert(tail)
    ensures var v := WriteFrom(w, port, lines); var x := WriteFrom(w, port, lines + tail);
      x == v.(tail := v.tail + tail) && x.Text() == v.Text() + tail
  {
    WriteConcat(w, port, lines, tail);
    InertGrowsTail(WriteFrom(w, port, lines), port, tail);
    TextOfLongerTail(WriteFrom(w, port, lines), tail);
  }

  /** ... and over the tail behind them. */
  lemma ReadsClosed(w: Draft, a: Draft, first: Int32, port: Int32)
    requires w.inside && w.rate == a.rate && w.port == a.port && AllInert(a.tail)
    ensures var v := WriteFrom(w, port, Missing(a, first) + a.tail);
      v.Text() == w.Text() + Missing(w, port) + a.tail && v.inside && v.saw == w.saw && v.rate && v.port
  {
    ReadsMissing(w, a, first, port);
    ReadsTail(w, port, Missing(a, first), a.tail);
  }

  lemma CloseMirrors(a: Draft, b: Draft, first: Int32, port: Int32)
    requires Mirrors(a, b, port)
    ensures Mirrors(Close(a, first), Close(b, port), port)
  {
    hide KindOf, PortLine, WriteFrom;
    if a.inside {
      var w := WriteFrom(BLANK, port, a.head);
      ReadsClosed(w, a, first, port);
      WriteConcat(BLANK, port, a.head, Missing(a, first) + a.tail);
      assert a.head + (Missing(a, first) + a.tail) == Close(a, first).head;
      assert w.Text() == b.head;
    }
  }

  lemma HeaderMirrors(a: Draft, b: Draft, first: Int32, port: Int32, raw: string)
    requires Mirrors(a, b, port) && KindOf(raw).Header?
    ensures Mirrors(WriteLine(a, first, raw), WriteLine(b, port, raw), port)
  {
    hide KindOf, PortLine;
    CloseMirrors(a, b, first, port);
    var closedB := Close(b, port);
    assert Close(closedB, port).Text() == closedB.Text() by { FullCloseIsSame(closedB, port); }
    assert WriteLine(closedB, port, raw) == WriteLine(b, port, raw);
    PutMirrors(Close(a, first), closedB, WriteLine(a, first, raw), port, raw);
  }

  /** An own line inside the section: each pass writes its own, or nothing. */
  lemma OwnMirrors(a: Draft, b: Draft, first: Int32, port: Int32, raw: string)
    requires Mirrors(a, b, port) && IsOwn(raw) && a.inside
    ensures Mirrors(WriteLine(a, first, raw), WriteLine(b, port, raw), port)
  {
    var w := WriteFrom(BLANK, port, a.Text());
    MirrorsText(a, b, port);
    ReplacesOwn(w, first, port);
    var line := if KindOf(raw).Rate? then RATE_LINE else PortLine(first);
    WriteConcat(BLANK, port, a.Text(), [line]);
    WriteOne(w, port, line);
    assert a.Text() + [] == a.Text();
    assert b.Text() + [] == b.Text();
  }

  lemma InertMirrors(a: Draft, b: Draft, first: Int32, port: Int32, raw: string)
    requires Mirrors(a, b, port) && KindOf(raw).Inert? && a.inside
    ensures Mirrors(WriteLine(a, first, raw), WriteLine(b, port, raw), port)
  {}

  lemma LineMirrors(a: Draft, b: Draft, first: Int32, port: Int32, raw: string)
    requires Mirrors(a, b, port)
    ensures Mirrors(WriteLine(a, first, raw), WriteLine(b, port, raw), port)
  {
    hide KindOf;
    if KindOf(raw).Header? {
      HeaderMirrors(a, b, first, port, raw);
    } else if IsOwn(raw) && a.inside {
      OwnMirrors(a, b, first, port, raw);
    } else if KindOf(raw).Inert? && a.inside {
      InertMirrors(a, b, first, port, raw);
    } else {
      PutMirrors(a, b, WriteLine(a, first, raw), port, raw);
    }
  }

  lemma {:induction false} PassMirrors(lines: seq<string>, first: Int32, port: Int32)
    ensures Mirrors(WriteFrom(BLANK, first, lines), WriteFrom(BLANK, port, lines), port)
  {
    if lines == [] {
    } else {
      var earlier := lines[..|lines| - 1];
      PassMirrors(earlier, first, port);
      LineMirrors(WriteFrom(BLANK, first, earlier), WriteFrom(BLANK, port, earlier), first, port, lines[|lines| - 1]);
    }
  }

  // ---------------------------------------------------------------- without a section

  /** Lines of which none opens an exporter section. */
  predicate Sectionless(lines: seq<string>) {
    forall i | 0 <= i < |lines| :: KindOf(lines[i]) != Header(true)
  }

  lemma PlainLineIsPut(lines: seq<string>, port: Int32, raw: string)
    requires KindOf(raw) != Header(true)
    ensures WriteLine(BLANK.(head := lines), port, raw) == BLANK.(head := lines + [raw])
  {
    assert BLANK.(head := lines).Text() == lines;
  }

  lemma {:induction false} SectionlessDraft(lines: seq<string>, port: Int32)
    requires Sectionless(lines)
    ensures WriteFrom(BLANK, port, lines) == BLANK.(head := lines)
  {
    hide KindOf;
    if lines == [] {
    } else {
      var earlier := lines[..|lines| - 1];
      SectionlessDraft(earlier, port);
      PlainLineIsPut(earlier, port, lines[|lines| - 1]);
      assert earlier + [lines[|lines| - 1]] == lines;
    }
  }

  lemma HeaderIsRead(d: Draft, port: Int32)
    requires d == BLANK.(head := d.head)
    ensures WriteFrom(d, port, [HEADER]) == Draft(d.head + [HEADER], [], true, true, false, false)
  {
    HeaderIsHeader();
    WriteOne(d, port, HEADER);
    assert d.Text() == d.head;
  }

  lemma SectionIsRead(d: Draft, first: Int32, port: Int32)
    requires d == BLANK.(head := d.head)
    ensures var w := WriteFrom(d, port, [HEADER] + Missing(BLANK, first));
      w.Text() == d.head + ([HEADER] + Missing(BLANK, port)) && w.saw && w.rate && w.port
  {
    hide KindOf, PortLine;
    HeaderIsRead(d, port);
    var inSection := Draft(d.head + [HEADER], [], true, true, false, false);
    WriteConcat(d, port, [HEADER], Missing(BLANK, first));
    ReadsMissing(inSection, BLANK, first, port);
    assert inSection.Text() == d.head + [HEADER];
    Associates(d.head, [HEADER], Missing(BLANK, port));
  }

  lemma SectionLines(port: Int32)
    ensures [HEADER] + Missing(BLANK, port) == [HEADER, RATE_LINE, PortLine(port)]
  {}

  lemma AppendedTwice(lines: seq<string>, first: Int32, port: Int32)
    requires Sectionless(lines)
    ensures Rewrite(Appended(lines, first), port) == Appended(lines, port)
  {
    var kept := DropBlankEnd(lines);
    DroppedIsBlank(lines);
    var before := if kept == [] then [] else kept + [""];
    EmptyIsInert("");
    assert Sectionless(before);
    SectionlessDraft(before, port);
    WriteConcat(BLANK, port, before, [HEADER, RATE_LINE, PortLine(first)]);
    SectionLines(first);
    SectionLines(port);
    SectionIsRead(BLANK.(head := before), first, port);
    FullCloseIsSame(WriteFrom(BLANK, port, Appended(lines, first)), port);
  }

  /** Rewriting for `first` and then for `port` is rewriting for `port`. */
  lemma RewriteTwice(lines: seq<string>, first: Int32, port: Int32)
    ensures Rewrite(Rewrite(lines, first), port) == Rewrite(lines, port)
  {
    var a := WriteFrom(BLANK, first, lines);
    var b := WriteFrom(BLANK, port, lines);
    SawMeansHas(first, lines);
    SawMeansHas(port, lines);
    if a.saw {
      PassMirrors(lines, first, port);
      CloseMirrors(a, b, first, port);
      DraftIsFull(lines, first);
      MirrorsText(Close(a, first), Close(b, port), port);
      FullCloseIsSame(WriteFrom(BLANK, port, Close(a, first).Text()), port);
    } else {
      assert Sectionless(lines);
      SectionlessDraft(lines, first);
      SectionlessDraft(lines, port);
      assert lines + [] == lines;
      AppendedTwice(lines, first, port);
    }
  }

  /** Once the exporter section is closed, both of its lines are there. */
  lemma DraftIsFull(lines: seq<string>, port: Int32)
    ensures var d := Close(WriteFrom(BLANK, port, lines), port); d.saw ==> d.rate && d.port
  {
    DraftReads(s => Some(30.0), port, lines);
  }
}
