/**
 Where a rewrite puts its lines, how the repaired file's lines end, and what each answer of the check
 means.
 */
module IniPlaces {
  import opened Options
  import opened Seqs
  import opened Text
  import opened IniText
  import opened StatsApiIni
  import opened IniProofs
  import opened IniLines
  import opened IniTwice
  import opened IniFile

  // ---------------------------------------------------------------- the section in its place

  predicate NoHeader(lines: seq<string>) {
    forall i | 0 <= i < |lines| :: !KindOf(lines[i]).Header?
  }

  /**
   The lines of an exporter section after the rewrite: the first of each setting in its place, further ones
   gone, and what is missing before the comments and blank lines at the end.
   */
  function Settled(body: seq<string>, rate: bool, port: bool, portLine: string): seq<string> {
    if AllInert(body) then
      (if rate then [] else ["PacketSendRate=30"]) + (if port then [] else [portLine]) + body
    else if KindOf(body[0]) == Rate then
      (if rate then [] else ["PacketSendRate=30"]) + Settled(body[1..], true, port, portLine)
    else if KindOf(body[0]) == Port then
      (if port then [] else [portLine]) + Settled(body[1..], rate, true, portLine)
    else [body[0]] + Settled(body[1..], rate, port, portLine)
  }

  lemma SettledFirst(raw: string, rest: seq<string>, rate: bool, port: bool, portLine: string)
    requires !AllInert([raw] + rest)
    ensures Settled([raw] + rest, rate, port, portLine)
         == if KindOf(raw) == Rate then
              (if rate then [] else ["PacketSendRate=30"]) + Settled(rest, true, port, portLine)
            else if KindOf(raw) == Port then
              (if port then [] else [portLine]) + Settled(rest, rate, true, portLine)
            else [raw] + Settled(rest, rate, port, portLine)
  {
    assert ([raw] + rest)[1..] == rest;
  }

  lemma {:induction false} SettledBehindInert(tail: seq<string>, body: seq<string>, rate: bool, port: bool,
                                              portLine: string)
    requires AllInert(tail) && !AllInert(body)
    ensures Settled(tail + body, rate, port, portLine) == tail + Settled(body, rate, port, portLine)
  {
    hide KindOf, Settled;
    if tail == [] {
      assert tail + body == body;
      assert tail + Settled(body, rate, port, portLine) == Settled(body, rate, port, portLine);
    } else {
      var first, more := tail[0], tail[1..];
      SomeActive(more, body);
      SettledBehindInert(more, body, rate, port, portLine);
      assert tail + body == [first] + (more + body);
      SomeActive([first], more + body);
      SettledFirst(first, more + body, rate, port, portLine);
      Associates([first], more, Settled(body, rate, port, portLine));
      assert [first] + more == tail;
    }
  }

  lemma SomeActive(a: seq<string>, b: seq<string>)
    requires !AllInert(b)
    ensures !AllInert(a + b)
  {
    hide KindOf;
    var i :| 0 <= i < |b| && KindOf(b[i]) != Inert;
    assert (a + b)[|a| + i] == b[i];
  }

  /** Closed behind a body without headers, a draft in a section has the settled body behind its head. */
  lemma {:induction false} BodyIsSettled(d: Draft, port: Int32, body: seq<string>)
    requires d.inside && AllInert(d.tail) && NoHeader(body)
    ensures var e := WriteFrom(d, port, body);
      && e.inside && e.saw == d.saw
      && Close(e, port).Text() == d.head + Settled(d.tail + body, d.rate, d.port, PortLine(port))
    decreases |body|
  {
    hide KindOf, PortLine, Settled;
    if AllInert(body) {
      InertGrowsTail(d, port, body);
      InertIsSettled(d, port, body);
    } else {
      var first, rest := body[0], body[1..];
      assert body == [first] + rest;
      WriteConcat(d, port, [first], rest);
      WriteOne(d, port, first);
      var next := WriteLine(d, port, first);
      NextInSection(d, port, first);
      BodyIsSettled(next, port, rest);
      SettledBehindInert(d.tail, body, d.rate, d.port, PortLine(port));
      SettledFirst(first, rest, d.rate, d.port, PortLine(port));
      StepIsSettled(d, port, first, rest);
    }
  }

  lemma InertIsSettled(d: Draft, port: Int32, body: seq<string>)
    requires d.inside && AllInert(d.tail) && AllInert(body)
    ensures Close(d.(tail := d.tail + body), port).Text()
         == d.head + Settled(d.tail + body, d.rate, d.port, PortLine(port))
  {
    hide KindOf, PortLine;
    OwnLinesAre(port);
    assert AllInert(d.tail + body);
    var missing, tail := Missing(d, port), d.tail + body;
    assert Settled(tail, d.rate, d.port, PortLine(port)) == missing + tail;
    hide Missing, Settled;
    Associates(d.head, missing, tail);
    assert d.head + missing + tail + [] == d.head + missing + tail;
  }

  /** What a line of a section is replaced with. */
  function Replaced(d: Draft, port: Int32, raw: string): seq<string> {
    match KindOf(raw)
    case Rate => if d.rate then [] else [RATE_LINE]
    case Port => if d.port then [] else [PortLine(port)]
    case _ => [raw]
  }

  lemma NextInSection(d: Draft, port: Int32, raw: string)
    requires d.inside && AllInert(d.tail) && !KindOf(raw).Header?
    ensures var next := WriteLine(d, port, raw);
      && next.inside && next.saw == d.saw && AllInert(next.tail)
      && next.head + next.tail == d.head + d.tail + Replaced(d, port, raw)
      && (KindOf(raw) != Inert ==> next.tail == [])
      && next.rate == (d.rate || KindOf(raw) == Rate) && next.port == (d.port || KindOf(raw) == Port)
  {
    hide PortLine;
    Associates(d.head, d.tail, [raw]);
  }

  lemma StepIsSettled(d: Draft, port: Int32, raw: string, rest: seq<string>)
    requires d.inside && AllInert(d.tail) && !KindOf(raw).Header? && !AllInert([raw] + rest)
    ensures var next := WriteLine(d, port, raw);
      next.head + Settled(next.tail + rest, next.rate, next.port, PortLine(port))
      == d.head + (d.tail + Settled([raw] + rest, d.rate, d.port, PortLine(port)))
  {
    hide KindOf, PortLine, Settled, WriteLine, AllInert, Replaced;
    var next := WriteLine(d, port, raw);
    var settled := Settled(rest, next.rate, next.port, PortLine(port));
    NextInSection(d, port, raw);
    SettledNext(d, port, raw, rest);
    if KindOf(raw) == Inert {
      StillActive(raw, rest);
      SettledBehindInert(next.tail, rest, next.rate, next.port, PortLine(port));
    } else {
      assert next.tail + rest == rest;
    }
    assert Settled(next.tail + rest, next.rate, next.port, PortLine(port)) == next.tail + settled;
    SameText(d, next, Replaced(d, port, raw), settled);
  }

  lemma StillActive(raw: string, rest: seq<string>)
    requires KindOf(raw) == Inert && !AllInert([raw] + rest)
    ensures !AllInert(rest)
  {
    hide KindOf;
  }

  lemma SettledNext(d: Draft, port: Int32, raw: string, rest: seq<string>)
    requires !AllInert([raw] + rest)
    ensures Settled([raw] + rest, d.rate, d.port, PortLine(port))
         == Replaced(d, port, raw)
            + Settled(rest, d.rate || KindOf(raw) == Rate, d.port || KindOf(raw) == Port, PortLine(port))
  {
    hide KindOf, PortLine, Settled, AllInert;
    OwnLinesAre(port);
    SettledFirst(raw, rest, d.rate, d.port, PortLine(port));
  }

  lemma SameText(d: Draft, next: Draft, own: seq<string>, settled: seq<string>)
    requires next.head + next.tail == d.head + d.tail + own
    ensures next.head + (next.tail + settled) == d.head + (d.tail + (own + settled))
  {
    Associates(next.head, next.tail, settled);
    Associates(d.head + d.tail, own, settled);
    Associates(d.head, d.tail, own + settled);
  }

  /** With both settings written, a draft keeps just the other lines. */
  lemma {:induction false} FullDraftKeeps(d: Draft, port: Int32, lines: seq<string>)
    requires d.rate && d.port
    ensures var e := WriteFrom(d, port, lines); var k := KeepFrom(Kept(d.inside, d.Text()), lines);
      e.rate && e.port && e.saw == (d.saw || HasSection(lines)) && e.Text() == k.lines && e.inside == k.inside
  {
    hide KindOf, PortLine, HasSection;
    if lines == [] {
      NoSection();
    } else {
      var init, last := lines[..|lines| - 1], lines[|lines| - 1];
      FullDraftKeeps(d, port, init);
      assert init + [last] == lines;
      SectionSnoc(init, last);
      FullLineKeeps(WriteFrom(d, port, init), port, last);
    }
  }

  lemma NoSection()
    ensures !HasSection([])
  {}

  lemma SectionSnoc(lines: seq<string>, raw: string)
    ensures HasSection(lines + [raw]) <==> HasSection(lines) || KindOf(raw) == Header(true)
  {
    hide KindOf;
    var longer := lines + [raw];
    assert longer[|lines|] == raw && forall i | 0 <= i < |lines| :: longer[i] == lines[i];
  }

  lemma FullLineKeeps(d: Draft, port: Int32, raw: string)
    requires d.rate && d.port
    ensures var e := WriteLine(d, port, raw); var k := KeepLine(Kept(d.inside, d.Text()), raw);
      && e.rate && e.port && e.saw == (d.saw || KindOf(raw) == Header(true))
      && e.Text() == k.lines && e.inside == k.inside
  {
    hide KindOf, PortLine;
    assert d.Text() + [] == d.Text() && d.Text() + [] + [raw] == d.Text() + [raw];
    Associates(d.head, d.tail, [raw]);
    if d.inside {
      assert Close(d, port).Text() == d.Text() by { FullCloseIsSame(d, port); }
    }
    assert d.Text() + [raw] + [] == d.Text() + [raw];
  }

  /** What was kept before does not matter to what is kept behind a header. */
  lemma {:induction false} KeepBehind(inside: bool, before: seq<string>, lines: seq<string>)
    requires lines == [] || KindOf(lines[0]).Header? || !inside
    ensures KeepFrom(Kept(inside, before), lines).lines == before + Others(lines)
    ensures lines != [] || !inside ==> KeepFrom(Kept(inside, before), lines).inside == KeepFrom(NONE_KEPT, lines).inside
  {
    hide KindOf;
    if lines == [] {
      assert before + [] == before;
    } else {
      var init, last := lines[..|lines| - 1], lines[|lines| - 1];
      KeepBehind(inside, before, init);
      var k, n := KeepFrom(Kept(inside, before), init), KeepFrom(NONE_KEPT, init);
      Associates(before, n.lines, [last]);
      if init == [] {
        assert lines[0] == last;
      }
    }
  }

  /**
   The lines before the first exporter section stay as they are, the section is settled in its place, and
   further exporter sections only lose their settings.
   */
  lemma RewritePlaces(before: seq<string>, header: string, body: seq<string>, behind: seq<string>, port: Int32)
    requires Sectionless(before) && KindOf(header) == Header(true) && NoHeader(body)
    requires behind == [] || KindOf(behind[0]).Header?
    ensures Rewrite(before + ([header] + (body + behind)), port)
         == before + [header] + Settled(body, false, false, PortLine(port)) + Others(behind)
  {
    hide KindOf, PortLine, Settled, Sectionless, NoHeader;
    var inSection := Draft(before + [header], [], true, true, false, false);
    SectionlessDraft(before, port);
    HeaderOpens(before, header, port);
    WriteConcat(BLANK, port, before, [header] + (body + behind));
    WriteConcat(BLANK.(head := before), port, [header], body + behind);
    WriteOne(BLANK.(head := before), port, header);
    WriteConcat(inSection, port, body, behind);
    BodyIsSettled(inSection, port, body);
    assert [] + body == body;
    var inBody := WriteFrom(inSection, port, body);
    var settled := before + [header] + Settled(body, false, false, PortLine(port));
    assert Close(inBody, port).Text() == settled;
    if behind == [] {
      assert Others(behind) == [] && settled + [] == settled;
    } else {
      SectionsBehind(inBody, port, behind, settled);
    }
  }

  lemma HeaderOpens(before: seq<string>, header: string, port: Int32)
    requires KindOf(header) == Header(true)
    ensures WriteLine(BLANK.(head := before), port, header) == Draft(before + [header], [], true, true, false, false)
  {
    hide KindOf;
    assert before + [] == before;
  }

  lemma SectionsBehind(d: Draft, port: Int32, behind: seq<string>, settled: seq<string>)
    requires d.inside && d.saw && behind != [] && KindOf(behind[0]).Header? && Close(d, port).Text() == settled
    ensures var e := WriteFrom(d, port, behind); e.saw && Close(e, port).Text() == settled + Others(behind)
  {
    hide KindOf, PortLine, Missing;
    var first, rest := behind[0], behind[1..];
    assert behind == [first] + rest;
    WriteConcat(d, port, [first], rest);
    WriteOne(d, port, first);
    var next := WriteLine(d, port, first);
    assert next.head == settled + [first] && next.tail == [] && next.rate && next.port && next.saw;
    assert next.Text() == settled + [first];
    FullDraftKeeps(next, port, rest);
    var e := WriteFrom(next, port, rest);
    FullCloseIsSame(e, port);
    KeepConcat(Kept(false, settled), [first], rest);
    KeepOne(Kept(false, settled), first);
    KeepBehind(false, settled, behind);
  }

  // ---------------------------------------------------------------- line ends and answers

  /** Every line with its ending; the last one without it unless `endLast`. */
  function Lined(lines: seq<string>, ending: string, endLast: bool): string {
    if lines == [] then ""
    else
      var last := lines[|lines| - 1] + (if endLast then ending else "");
      if |lines| == 1 then last else Lined(lines[..|lines| - 1], ending, true) + last
  }

  lemma {:induction false} JoinIsLined(lines: seq<string>, ending: string, endLast: bool)
    ensures Join(lines, ending, endLast) == Lined(lines, ending, endLast)
    decreases |lines|
  {
    if |lines| <= 1 {
      if lines != [] { assert lines[0] + "" == lines[0]; }
    } else {
      var first, rest := lines[0], lines[1..];
      JoinIsLined(rest, ending, endLast);
      LinedFirst(lines, ending, endLast);
    }
  }

  lemma {:induction false} LinedFirst(lines: seq<string>, ending: string, endLast: bool)
    requires |lines| > 1
    ensures Lined(lines, ending, endLast) == lines[0] + ending + Lined(lines[1..], ending, endLast)
    decreases |lines|
  {
    var init, n := lines[..|lines| - 1], |lines|;
    var last := lines[n - 1] + (if endLast then ending else "");
    assert lines[1..][n - 2] == lines[n - 1];
    if n == 2 {
      assert init == [lines[0]];
    } else {
      LinedFirst(init, ending, true);
      assert init[1..] == lines[1..][..n - 2];
      assert lines[0] + ending + Lined(init[1..], ending, true) + last
          == lines[0] + ending + (Lined(init[1..], ending, true) + last);
    }
  }

  predicate CrLfAt(content: string, i: int) {
    0 <= i < |content| - 1 && content[i] == '\r' && content[i + 1] == '\n'
  }

  /** A file with CRLF anywhere gets it everywhere, any other one LF; the last line is ended if it was before. */
  lemma RepairMeans(content: string, port: Int32)
    ensures Repair(content, port)
         == Lined(Rewrite(Split(content), port), if exists i :: CrLfAt(content, i) then "\r\n" else "\n",
                  content != "" && content[|content| - 1] == '\n')
  {
    hide Rewrite, Split, Join, Lined;
    var lines := Rewrite(Split(content), port);
    JoinIsLined(lines, Ending(content), EndsLine(content));
    if HasCrLf(content) {
      var i :| 0 <= i < |content| - 1 && content[i] == '\r' && content[i + 1] == '\n';
      assert CrLfAt(content, i);
    }
    if i :| CrLfAt(content, i) {
      assert content[i] == '\r' && content[i + 1] == '\n';
    }
  }

  /** What each answer of the check says of the rate and the port that were read. */
  lemma StatusMeans(v: Values, port: Int32)
    ensures var s := StatusOf(v, port);
      && (s == MissingRate <==> v.rate == None)
      && (s == DisabledRate <==> v.rate.Some? && v.rate.value <= 0.0)
      && (s == WrongRate <==> v.rate.Some? && v.rate.value > 0.0 && v.rate.value != 30.0)
      && (s == MissingPort <==> v.rate == Some(30.0) && v.port == None)
      && (s == WrongPort <==> v.rate == Some(30.0) && v.port.Some? && v.port.value != port)
      && (s == Valid <==> v.rate == Some(30.0) && v.port == Some(port))
  {}
}
