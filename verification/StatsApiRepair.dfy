/**
 The repair of a configuration file: content split into lines, rewritten and joined
 (src/updater/StatsApiRepair.cpp), and the check made of a file's content
 (src/core/config/StatsApiConfig.cpp).
 */
module IniFile {
  import opened Options
  import opened Text
  import opened IniText
  import opened StatsApiIni
  import opened IniProofs

  /** Pieces ended by a newline, and what follows the last one if there is anything. */
  function GetLines(content: string): seq<string>
    decreases |content|
  {
    if content == "" then []
    else match Find(content, '\n')
      case None => [content]
      case Some(k) => [content[..k]] + GetLines(content[k + 1..])
  }

  function StripReturn(line: string): string {
    if line != "" && line[|line| - 1] == '\r' then line[..|line| - 1] else line
  }

  function Split(content: string): seq<string>
    decreases |content|
  {
    if content == "" then []
    else match Find(content, '\n')
      case None => [StripReturn(content)]
      case Some(k) => [StripReturn(content[..k])] + Split(content[k + 1..])
  }

  /** Every line but the last is ended; the last one is when the old content was. */
  function Join(lines: seq<string>, ending: string, endLast: bool): string {
    if lines == [] then ""
    else if |lines| == 1 then (if endLast then lines[0] + ending else lines[0])
    else lines[0] + ending + Join(lines[1..], ending, endLast)
  }

  predicate HasCrLf(content: string) {
    exists i | 0 <= i < |content| - 1 :: content[i] == '\r' && content[i + 1] == '\n'
  }

  function Ending(content: string): string {
    if HasCrLf(content) then "\r\n" else "\n"
  }

  predicate EndsLine(content: string) {
    content != "" && content[|content| - 1] == '\n'
  }

  function Repair(content: string, port: Int32): string {
    Join(Rewrite(Split(content), port), Ending(content), EndsLine(content))
  }

  datatype Status = Valid | MissingRate | DisabledRate | WrongRate | MissingPort | WrongPort

  function StatusOf(v: Values, port: Int32): Status {
    if v.rate.None? then MissingRate
    else if v.rate.value <= 0.0 then DisabledRate
    else if v.rate.value != 30.0 then WrongRate
    else if v.port.None? then MissingPort
    else if v.port.value != port then WrongPort
    else Valid
  }

  function Check(stof: string -> Option<real>, content: string, port: Int32): Status {
    StatusOf(ReadValues(stof, GetLines(content)), port)
  }

  /** The check passes exactly when the file sets rate 30 and the expected port. */
  lemma ValidMeans(v: Values, port: Int32)
    ensures StatusOf(v, port) == Valid <==> v == Values(Some(30.0), Some(port))
  {}

  // ---------------------------------------------------------------- no line breaks inside lines

  predicate OneLine(s: string) {
    forall i | 0 <= i < |s| :: s[i] != '\n'
  }

  predicate AllOneLine(lines: seq<string>) {
    forall i | 0 <= i < |lines| :: OneLine(lines[i])
  }

  lemma {:induction false} SplitIsLines(content: string)
    ensures AllOneLine(Split(content))
    decreases |content|
  {
    if content != "" && Find(content, '\n').Some? {
      SplitIsLines(content[Find(content, '\n').value + 1..]);
    }
  }

  lemma OwnLinesAreLines(port: Int32)
    ensures OneLine(HEADER) && OneLine(RATE_LINE) && OneLine(PortLine(port))
  {
    var magnitude: nat := if port < 0 then -(port as int) else port;
    assert forall i | 0 <= i < |Digits(magnitude)| :: IsDigit(Digits(magnitude)[i]);
  }

  lemma JoinedLines(a: seq<string>, b: seq<string>)
    requires AllOneLine(a) && AllOneLine(b)
    ensures AllOneLine(a + b)
  {}

  ghost predicate OfLines(d: Draft) {
    AllOneLine(d.head) && AllOneLine(d.tail)
  }

  lemma PutIsLines(d: Draft, lines: seq<string>)
    requires OfLines(d) && AllOneLine(lines)
    ensures OfLines(Put(d, lines))
  {
    JoinedLines(d.head, d.tail);
    JoinedLines(d.Text(), lines);
  }

  lemma CloseIsLines(d: Draft, port: Int32)
    requires OfLines(d)
    ensures OfLines(Close(d, port))
  {
    OwnLinesAreLines(port);
    var missing := Missing(d, port);
    assert AllOneLine(missing);
    JoinedLines(d.head, missing);
    JoinedLines(d.head + missing, d.tail);
  }

  lemma WriteIsLines(d: Draft, port: Int32, raw: string)
    requires OfLines(d) && OneLine(raw)
    ensures OfLines(WriteLine(d, port, raw))
  {
    OwnLinesAreLines(port);
    PutIsLines(d, [raw]);
    match KindOf(raw)
    case Header(_) =>
      CloseIsLines(d, port);
      PutIsLines(Close(d, port), [raw]);
    case Inert => JoinedLines(d.tail, [raw]);
    case Rate => PutIsLines(d, if d.rate then [] else [RATE_LINE]);
    case Port => PutIsLines(d, if d.port then [] else [PortLine(port)]);
    case Plain =>
  }

  lemma {:induction false} DraftIsLines(port: Int32, lines: seq<string>)
    requires AllOneLine(lines)
    ensures OfLines(WriteFrom(BLANK, port, lines))
  {
    if lines == [] {
    } else {
      DraftIsLines(port, lines[..|lines| - 1]);
      WriteIsLines(WriteFrom(BLANK, port, lines[..|lines| - 1]), port, lines[|lines| - 1]);
    }
  }

  lemma AppendedIsLines(lines: seq<string>, port: Int32)
    requires AllOneLine(lines)
    ensures AllOneLine(Appended(lines, port))
  {
    var kept := DropBlankEnd(lines);
    DroppedIsBlank(lines);
    OwnLinesAreLines(port);
    assert AllOneLine(kept) && AllOneLine([HEADER, RATE_LINE, PortLine(port)]);
    JoinedLines(kept, [""]);
    JoinedLines(if kept == [] then [] else kept + [""], [HEADER, RATE_LINE, PortLine(port)]);
  }

  lemma RewriteIsLines(lines: seq<string>, port: Int32)
    requires AllOneLine(lines)
    ensures AllOneLine(Rewrite(lines, port))
  {
    var d := WriteFrom(BLANK, port, lines);
    DraftIsLines(port, lines);
    CloseIsLines(d, port);
    var closed := Close(d, port);
    JoinedLines(closed.head, closed.tail);
    if !closed.saw {
      AppendedIsLines(closed.Text(), port);
    }
  }

  // ---------------------------------------------------------------- reading what was joined

  lemma FindsBreak(line: string, rest: string)
    requires OneLine(line)
    ensures Find(line + "\n" + rest, '\n') == Some(|line|)
    ensures GetLines(line + "\n" + rest) == [line] + GetLines(rest)
  {
    var all := line + "\n" + rest;
    FindsFirst(all, '\n', |line|);
    assert all[..|line|] == line && all[|line| + 1..] == rest;
  }

  lemma ReturnIsIgnored(stof: string -> Option<real>, s: Seen, line: string)
    ensures ReadLine(stof, s, line + "\r") == ReadLine(stof, s, line)
  {
    TrimIgnoresReturn(line);
  }

  /** A line with its ending, read back. */
  lemma ReadsEnded(stof: string -> Option<real>, s: Seen, line: string, ending: string, rest: string)
    requires OneLine(line) && (ending == "\n" || ending == "\r\n")
    ensures ReadFrom(stof, s, GetLines(line + ending + rest)) == ReadFrom(stof, ReadLine(stof, s, line), GetLines(rest))
  {
    var written := if ending == "\n" then line else line + "\r";
    assert line + ending + rest == written + "\n" + rest;
    FindsBreak(written, rest);
    ReadConcat(stof, s, [written], GetLines(rest));
    ReadOne(stof, s, written);
    ReturnIsIgnored(stof, s, line);
  }

  lemma ReadsUnended(stof: string -> Option<real>, s: Seen, line: string)
    requires OneLine(line)
    ensures ReadFrom(stof, s, GetLines(line)) == ReadLine(stof, s, line)
  {
    if line != "" {
      assert Find(line, '\n').None?;
      ReadOne(stof, s, line);
    } else {
      EmptyIsInert(line);
    }
  }

  lemma {:induction false} ReadsJoined(stof: string -> Option<real>, s: Seen, lines: seq<string>, ending: string,
                                       endLast: bool)
    requires AllOneLine(lines) && (ending == "\n" || ending == "\r\n")
    ensures ReadFrom(stof, s, GetLines(Join(lines, ending, endLast))) == ReadFrom(stof, s, lines)
    decreases |lines|
  {
    if lines != [] {
      var first, rest := lines[0], lines[1..];
      assert OneLine(first);
      assert lines == [first] + rest;
      ReadConcat(stof, s, [first], rest);
      ReadOne(stof, s, first);
      if rest != [] {
        ReadsEnded(stof, s, first, ending, Join(rest, ending, endLast));
        ReadsJoined(stof, ReadLine(stof, s, first), rest, ending, endLast);
      } else if endLast {
        ReadsEnded(stof, s, first, ending, "");
        assert first + ending + "" == first + ending;
      } else {
        ReadsUnended(stof, s, first);
      }
    }
  }

  /** Whatever a file contains, its repair passes the check. */
  lemma RepairIsValid(stof: string -> Option<real>, content: string, port: Int32)
    requires ReadsThirty(stof)
    ensures Check(stof, Repair(content, port), port) == Valid
  {
    hide StatusOf, Rewrite, Join, Split, GetLines, ReadsThirty;
    var lines := Rewrite(Split(content), port);
    SplitIsLines(content);
    RewriteIsLines(Split(content), port);
    ReadsJoined(stof, NOTHING, lines, Ending(content), EndsLine(content));
    RewriteReads(stof, Split(content), port);
    ValidMeans(ReadValues(stof, GetLines(Repair(content, port))), port);
  }
}

/** The passes as the program makes them. */
module StatsApiRepair {
  import opened Options
  import opened Seqs
  import opened Text
  import opened IniText
  import opened StatsApiIni
  import opened IniFile

  method ReadExporterValues(stof: string -> Option<real>, lines: seq<string>) returns (values: Values)
    ensures values == ReadValues(stof, lines)
  {
    values := Values(None, None);
    var inExporter := false;
    for i := 0 to |lines|
      invariant Seen(inExporter, values) == ReadFrom(stof, NOTHING, lines[..i])
    {
      assert lines[..i + 1][..i] == lines[..i];
      var line := Trim(lines[i]);
      if line == "" || line[0] == ';' || line[0] == '#' {
        continue;
      }
      var section := SectionName(line);
      if section.Some? {
        inExporter := IsExporter(section.value);
        continue;
      }
      if !inExporter {
        continue;
      }
      var eq := Find(line, '=');
      if eq.None? {
        continue;
      }
      var key := Lower(Trim(line[..eq.value]));
      var value := Trim(line[eq.value + 1..]);
      if key == "packetsendrate" {
        if stof(value).Some? {
          values := values.(rate := stof(value));
        }
      } else if key == "port" {
        if StoI(value).Some? {
          values := values.(port := StoI(value));
        }
      }
    }
    assert lines[..|lines|] == lines;
  }

  method KeyOf(line: string) returns (key: string)
    ensures key == Key(line)
  {
    var eq := Find(line, '=');
    key := if eq.None? then "" else Lower(Trim(line[..eq.value]));
  }

  lemma KeyDecides(raw: string)
    requires !KindOf(raw).Header? && !KindOf(raw).Inert?
    ensures var key := Key(Trim(raw));
      KindOf(raw) == if key == "packetsendrate" then Rate else if key == "port" then Port else Plain
  {
    hide Key;
  }

  /** The rewriter's variables; `insertAt` is meaningful inside the exporter section. */
  class Rewriter {
    var out: seq<string>
    var inExporter: bool
    var sawSection: bool
    var wroteRate: bool
    var wrotePort: bool
    var insertAt: nat

    ghost predicate Writes(d: Draft)
      reads this
    {
      && out == d.Text() && inExporter == d.inside && sawSection == d.saw && wroteRate == d.rate && wrotePort == d.port
      && (inExporter ==> insertAt == |d.head|) && (!inExporter ==> d.tail == [])
    }

    constructor ()
      ensures Writes(BLANK)
    {
      out, insertAt := [], 0;
      inExporter, sawSection, wroteRate, wrotePort := false, false, false, false;
    }

    method CloseSection(port: Int32, ghost d: Draft)
      requires Writes(d) && inExporter
      modifies this
      ensures out == Close(d, port).Text() && wroteRate && wrotePort
      ensures inExporter == old(inExporter) && sawSection == old(sawSection)
    {
      var missing := [];
      if !wroteRate { missing := missing + [RATE_LINE]; }
      if !wrotePort { missing := missing + [PortLine(port)]; }
      assert missing == Missing(d, port);
      assert out[..insertAt] == d.head && out[insertAt..] == d.tail;
      out := out[..insertAt] + missing + out[insertAt..];
      wroteRate, wrotePort := true, true;
    }

    method PlaceHeader(raw: string, exporter: bool, port: Int32, ghost d: Draft)
      requires Writes(d) && KindOf(raw) == Header(exporter)
      modifies this
      ensures Writes(WriteLine(d, port, raw))
    {
      if inExporter {
        CloseSection(port, d);
      }
      inExporter := exporter;
      out := out + [raw];
      if inExporter {
        sawSection := true;
        insertAt := |out|;
      }
      assert Close(d, port).Text() + [raw] == WriteLine(d, port, raw).Text();
    }

    /** Behind these lines is the place for what is missing. */
    method PutLines(lines: seq<string>)
      modifies this`out, this`insertAt
      ensures out == old(out) + lines && insertAt == |out|
    {
      out := out + lines;
      insertAt := |out|;
    }

    /** A line of the exporter section that is neither blank nor a comment. */
    method PlaceKey(raw: string, port: Int32, ghost d: Draft)
      requires Writes(d) && inExporter && !KindOf(raw).Header? && !KindOf(raw).Inert?
      modifies this
      ensures Writes(WriteLine(d, port, raw))
    {
      hide KindOf, PortLine, Trim;
      var key := KeyOf(Trim(raw));
      KeyDecides(raw);
      if key == "packetsendrate" {
        PutLines(if wroteRate then [] else [RATE_LINE]);
        wroteRate := true;
      } else if key == "port" {
        PutLines(if wrotePort then [] else [PortLine(port)]);
        wrotePort := true;
      } else {
        PutLines([raw]);
      }
    }

    method Place(raw: string, port: Int32, ghost d: Draft)
      requires Writes(d)
      modifies this
      ensures Writes(WriteLine(d, port, raw))
    {
      var line := Trim(raw);
      var section := SectionName(line);
      if section.Some? {
        PlaceHeader(raw, IsExporter(section.value), port, d);
        return;
      }
      if inExporter && line != "" && line[0] != ';' && line[0] != '#' {
        PlaceKey(raw, port, d);
        return;
      }
      out := out + [raw];
      assert d.head + (d.tail + [raw]) == d.Text() + [raw];
    }
  }

  method RewriteExporterSection(lines: seq<string>, port: Int32) returns (out: seq<string>)
    ensures out == Rewrite(lines, port)
  {
    var r := new Rewriter();
    ghost var d := BLANK;
    for i := 0 to |lines|
      invariant d == WriteFrom(BLANK, port, lines[..i]) && r.Writes(d)
      invariant fresh(r)
    {
      assert lines[..i + 1][..i] == lines[..i];
      r.Place(lines[i], port, d);
      d := WriteLine(d, port, lines[i]);
    }
    assert lines[..|lines|] == lines;
    if r.inExporter {
      r.CloseSection(port, d);
    }
    out := r.out;
    if !r.sawSection {
      out := AppendSection(out, port);
    }
  }

  method AppendSection(lines: seq<string>, port: Int32) returns (out: seq<string>)
    ensures out == Appended(lines, port)
  {
    out := lines;
    while out != [] && Trim(out[|out| - 1]) == ""
      invariant DropBlankEnd(out) == DropBlankEnd(lines)
      decreases |out|
    {
      out := out[..|out| - 1];
    }
    if out != [] {
      out := out + [""];
    }
    out := out + [HEADER];
    out := out + [RATE_LINE];
    out := out + [PortLine(port)];
  }

  /** The line at `pos`, and where the next one starts; a carriage return before the newline goes too. */
  method TakeLine(content: string, pos: nat) returns (line: string, end: nat)
    requires pos < |content|
    ensures pos < end <= |content|
    ensures Split(content[pos..]) == [line] + Split(content[end..])
  {
    var rest := content[pos..];
    var next := Find(rest, '\n');
    line := if next.None? then rest else rest[..next.value];
    end := if next.None? then |content| else pos + (next.value + 1);
    assert next.Some? ==> content[end..] == rest[next.value + 1..];
    if line != "" && line[|line| - 1] == '\r' {
      line := line[..|line| - 1];
    }
  }

  /** The content, cut at every newline. */
  method SplitContent(content: string) returns (lines: seq<string>)
    ensures lines == Split(content)
  {
    assert Split("") == [];
    hide Split;
    lines := [];
    var pos := 0;
    while pos < |content|
      invariant pos <= |content|
      invariant lines + Split(content[pos..]) == Split(content)
      decreases |content| - pos
    {
      var line, end := TakeLine(content, pos);
      Associates(lines, [line], Split(content[end..]));
      lines := lines + [line];
      pos := end;
    }
    assert content[pos..] == "";
  }

  lemma JoinStep(lines: seq<string>, i: nat, ending: string, endLast: bool)
    requires i < |lines|
    ensures Join(lines[i..], ending, endLast)
         == lines[i] + (if i + 1 < |lines| || endLast then ending else "") + Join(lines[i + 1..], ending, endLast)
  {
    assert lines[i..][1..] == lines[i + 1..];
  }

  method JoinLines(lines: seq<string>, ending: string, endLast: bool) returns (content: string)
    ensures content == Join(lines, ending, endLast)
  {
    assert Join([], ending, endLast) == "";
    hide Join;
    content := "";
    var i := 0;
    while i < |lines|
      invariant i <= |lines|
      invariant content + Join(lines[i..], ending, endLast) == Join(lines, ending, endLast)
    {
      JoinStep(lines, i, ending, endLast);
      var line := lines[i];
      if i + 1 < |lines| || endLast {
        line := line + ending;
      }
      Associates(content, line, Join(lines[i + 1..], ending, endLast));
      content := content + line;
      i := i + 1;
    }
    assert lines[i..] == [];
  }

  method RepairContent(content: string, port: Int32) returns (repaired: string)
    ensures repaired == Repair(content, port)
  {
    var ending := if HasCrLf(content) then "\r\n" else "\n";
    var lines := SplitContent(content);
    var rewritten := RewriteExporterSection(lines, port);
    repaired := JoinLines(rewritten, ending, content != "" && content[|content| - 1] == '\n');
  }
}
