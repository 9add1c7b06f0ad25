/**
 Reading and rewriting the exporter section of the Stats API configuration
 (src/core/config/StatsApiIni.hpp) on values. The rewriter makes one pass with a moving
 insertion point: what it wrote up to that point is `head`, the comments and blank lines
 it wrote after it are `tail`.
 */
module StatsApiIni {
  import opened Options
  import opened Text
  import opened IniText

  const EXPORTER := "TAGame.MatchStatsExporter_TA"
  const HEADER := "[" + EXPORTER + "]"
  const RATE_KEY := "PacketSendRate"
  const RATE_LINE := RATE_KEY + "=" + "30"

  function PortLine(port: Int32): string {
    "Port=" + ToString(port)
  }

  function SectionName(line: string): Option<string> {
    if |line| < 2 || line[0] != '[' || line[|line| - 1] != ']' then None else Some(Trim(line[1..|line| - 1]))
  }

  predicate IsExporter(name: string) {
    Lower(name) == Lower(EXPORTER)
  }

  /** What both passes make of a line; a line of any kind but `Header` matters only inside the exporter section. */
  datatype Kind = Header(exporter: bool) | Inert | Rate | Port | Plain

  function Key(line: string): string {
    match Find(line, '=')
    case None => ""
    case Some(eq) => Lower(Trim(line[..eq]))
  }

  function KindOf(raw: string): Kind {
    var line := Trim(raw);
    var section := SectionName(line);
    if section.Some? then Header(IsExporter(section.value))
    else if line == "" || line[0] == ';' || line[0] == '#' then Inert
    else if Key(line) == "packetsendrate" then Rate
    else if Key(line) == "port" then Port
    else Plain
  }

  function ValueText(raw: string): string {
    var line := Trim(raw);
    match Find(line, '=')
    case None => ""
    case Some(eq) => Trim(line[eq + 1..])
  }

  // ---------------------------------------------------------------- the reader

  datatype Values = Values(rate: Option<real>, port: Option<int>)
  datatype Seen = Seen(inside: bool, values: Values)

  const NOTHING := Seen(false, Values(None, None))

  /** `stof` is std::stof, None where it throws. */
  function ReadLine(stof: string -> Option<real>, s: Seen, raw: string): Seen {
    match KindOf(raw)
    case Header(exporter) => s.(inside := exporter)
    case Rate =>
      if s.inside && stof(ValueText(raw)).Some? then s.(values := s.values.(rate := stof(ValueText(raw)))) else s
    case Port =>
      if s.inside && StoI(ValueText(raw)).Some? then s.(values := s.values.(port := StoI(ValueText(raw)))) else s
    case _ => s
  }

  function ReadFrom(stof: string -> Option<real>, s: Seen, lines: seq<string>): Seen {
    if lines == [] then s
    else ReadLine(stof, ReadFrom(stof, s, lines[..|lines| - 1]), lines[|lines| - 1])
  }

  function ReadValues(stof: string -> Option<real>, lines: seq<string>): Values {
    ReadFrom(stof, NOTHING, lines).values
  }

  // ---------------------------------------------------------------- the rewriter

  datatype Draft = Draft(head: seq<string>, tail: seq<string>, inside: bool, saw: bool, rate: bool, port: bool) {
    function Text(): seq<string> { head + tail }
  }

  const BLANK := Draft([], [], false, false, false, false)

  function Missing(d: Draft, port: Int32): seq<string> {
    (if d.rate then [] else [RATE_LINE]) + (if d.port then [] else [PortLine(port)])
  }

  function Close(d: Draft, port: Int32): Draft {
    if d.inside then Draft(d.head + Missing(d, port) + d.tail, [], true, d.saw, true, true) else d
  }

  /** Everything written so far is before the insertion point again. */
  function Put(d: Draft, lines: seq<string>): Draft {
    d.(head := d.Text() + lines, tail := [])
  }

  function WriteLine(d: Draft, port: Int32, raw: string): Draft {
    match KindOf(raw)
    case Header(exporter) => Put(Close(d, port), [raw]).(inside := exporter, saw := d.saw || exporter)
    case Inert => if d.inside then d.(tail := d.tail + [raw]) else Put(d, [raw])
    case Rate =>
      if !d.inside then Put(d, [raw]) else Put(d, if d.rate then [] else [RATE_LINE]).(rate := true)
    case Port =>
      if !d.inside then Put(d, [raw]) else Put(d, if d.port then [] else [PortLine(port)]).(port := true)
    case Plain => Put(d, [raw])
  }

  function WriteFrom(d: Draft, port: Int32, lines: seq<string>): Draft {
    if lines == [] then d else WriteLine(WriteFrom(d, port, lines[..|lines| - 1]), port, lines[|lines| - 1])
  }

  function DropBlankEnd(lines: seq<string>): seq<string> {
    if lines != [] && Trim(lines[|lines| - 1]) == "" then DropBlankEnd(lines[..|lines| - 1]) else lines
  }

  /** A blank line, unless nothing precedes, and the whole section. */
  function Appended(lines: seq<string>, port: Int32): seq<string> {
    var kept := DropBlankEnd(lines);
    (if kept == [] then [] else kept + [""]) + [HEADER, RATE_LINE, PortLine(port)]
  }

  function Rewrite(lines: seq<string>, port: Int32): seq<string> {
    var d := Close(WriteFrom(BLANK, port, lines), port);
    if d.saw then d.Text() else Appended(d.Text(), port)
  }

  // ---------------------------------------------------------------- the lines it writes

  lemma HeaderIsHeader()
    ensures KindOf(HEADER) == Header(true)
  {
    NothingToTrim(HEADER);
    assert HEADER[1..|HEADER| - 1] == EXPORTER;
    NothingToTrim(EXPORTER);
  }

  lemma EmptyIsInert(raw: string)
    requires Trim(raw) == ""
    ensures KindOf(raw) == Inert
  {}

  lemma FindsFirst(s: string, c: char, at: nat)
    requires at < |s| && s[at] == c && forall i | 0 <= i < at :: s[i] != c
    ensures Find(s, c) == Some(at)
  {}

  lemma LowerRateKey()
    ensures Lower(RATE_KEY) == "packetsendrate" && |RATE_KEY| == 14
    ensures Trim(RATE_KEY) == RATE_KEY && forall i | 0 <= i < |RATE_KEY| :: RATE_KEY[i] != '='
  {
    NothingToTrim(RATE_KEY);
  }

  lemma RateIsRate()
    ensures KindOf(RATE_LINE) == Rate && ValueText(RATE_LINE) == "30"
  {
    LowerRateKey();
    KeyedLine(RATE_KEY, "30");
  }

  /** A line `key=value` with nothing to trim is split at its sign. */
  lemma KeyedLine(key: string, value: string)
    requires key != "" && value != "" && !IsSpace(key[0]) && !IsSpace(value[|value| - 1])
    requires key[0] != '[' && key[0] != ';' && key[0] != '#' && forall i | 0 <= i < |key| :: key[i] != '='
    ensures var line := key + "=" + value;
      && Trim(line) == line && Key(line) == Lower(Trim(key)) && ValueText(line) == Trim(value)
      && SectionName(line).None? && KindOf(line) != Inert && !KindOf(line).Header?
  {
    var line := key + "=" + value;
    NothingToTrim(line);
    FindsFirst(line, '=', |key|);
    assert line[..|key|] == key && line[|key| + 1..] == value;
  }

  lemma LowerPortKey()
    ensures Lower("Port") == "port" && Trim("Port") == "Port"
  {
    NothingToTrim("Port");
    assert Lower("Port") == "port";
  }

  lemma PortIsPort(port: Int32)
    ensures KindOf(PortLine(port)) == Port && StoI(ValueText(PortLine(port))) == Some(port)
  {
    hide StoI, ToString, Trim, Key, ValueText, SectionName, IsExporter;
    var value := ToString(port);
    NumberReadsBack(port);
    LowerPortKey();
    KeyedLine("Port", value);
    assert PortLine(port) == "Port" + "=" + value;
  }
}
