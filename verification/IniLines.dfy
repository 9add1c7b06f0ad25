/**
 What the reader makes of a configuration file, in terms of its characters and lines: which lines are
 headers, comments and settings, which setting counts, and what a number is.
 */
module IniLines {
  import opened Options
  import opened Text
  import opened IniText
  import opened StatsApiIni
  import opened IniProofs

  // ---------------------------------------------------------------- spaces and letter case

  predicate Space(c: char) {
    c == ' ' || c == '\t' || c == '\r' || c == '\n'
  }

  predicate AllSpace(s: string) {
    forall i | 0 <= i < |s| :: Space(s[i])
  }

  /** Nothing to trim. */
  predicate Bare(s: string) {
    s != "" ==> !Space(s[0]) && !Space(s[|s| - 1])
  }

  lemma {:induction false} TrimStartMeans(a: string, s: string)
    requires AllSpace(a) && (s == "" || !Space(s[0]))
    ensures TrimStart(a + s) == s
  {
    if a != "" {
      assert Space(a[0]) && (a + s)[1..] == a[1..] + s;
      TrimStartMeans(a[1..], s);
    } else {
      assert a + s == s;
    }
  }

  lemma {:induction false} TrimEndMeans(s: string, b: string)
    requires AllSpace(b) && (s == "" || !Space(s[|s| - 1]))
    ensures TrimEnd(s + b) == s
  {
    if b != "" {
      assert Space(b[|b| - 1]) && (s + b)[..|s + b| - 1] == s + b[..|b| - 1];
      TrimEndMeans(s, b[..|b| - 1]);
    } else {
      assert s + b == s;
    }
  }

  lemma {:induction false} SpaceTrims(a: string)
    requires AllSpace(a)
    ensures TrimStart(a) == ""
  {
    assert a + "" == a;
    TrimStartMeans(a, "");
  }

  /** The spaces around a text go, and nothing else. */
  lemma TrimMeans(a: string, s: string, b: string)
    requires AllSpace(a) && AllSpace(b) && Bare(s)
    ensures Trim(a + s + b) == s
  {
    hide TrimStart, TrimEnd;
    if s == "" {
      assert AllSpace(a + b) && a + s + b == a + b;
      SpaceTrims(a + b);
      assert "" + "" == "";
      TrimEndMeans("", "");
    } else {
      assert a + s + b == a + (s + b);
      TrimStartMeans(a, s + b);
      TrimEndMeans(s, b);
    }
  }

  predicate SameLetter(c: char, d: char) {
    c == d || ('A' <= c <= 'Z' && d as int == c as int + 32) || ('A' <= d <= 'Z' && c as int == d as int + 32)
  }

  predicate SameLetters(s: string, t: string) {
    |s| == |t| && forall i | 0 <= i < |s| :: SameLetter(s[i], t[i])
  }

  lemma LowerMeans(s: string, t: string)
    ensures Lower(s) == Lower(t) <==> SameLetters(s, t)
  {
    forall c: char, d: char ensures LowerChar(c) == LowerChar(d) <==> SameLetter(c, d) {}
    hide LowerChar, SameLetter;
    if Lower(s) == Lower(t) {
      assert |Lower(s)| == |Lower(t)|;
      forall i | 0 <= i < |s| ensures SameLetter(s[i], t[i]) {
        assert Lower(s)[i] == Lower(t)[i];
      }
    }
  }

  // ---------------------------------------------------------------- the kinds of lines

  /** The lines the program writes. */
  lemma OwnLinesAre(port: Int32)
    ensures HEADER == "[TAGame.MatchStatsExporter_TA]" && RATE_LINE == "PacketSendRate=30"
    ensures port >= 0 ==> PortLine(port) == "Port=" + Digits(port)
    ensures port < 0 ==> PortLine(port) == "Port=" + ("-" + Digits(0 - (port as int)))
  {}

  lemma HeaderMeans(a: string, b: string, name: string, c: string, d: string)
    requires AllSpace(a) && AllSpace(b) && AllSpace(c) && AllSpace(d) && Bare(name)
    ensures KindOf(a + ("[" + b + name + c + "]") + d) == Header(SameLetters(name, "TAGame.MatchStatsExporter_TA"))
  {
    hide Trim, Lower, SameLetters;
    var line := "[" + b + name + c + "]";
    TrimMeans(a, line, d);
    assert line[1..|line| - 1] == b + name + c;
    TrimMeans(b, name, c);
    LowerMeans(name, "TAGame.MatchStatsExporter_TA");
  }

  /** Blank, or from the first character on a comment. */
  lemma CommentMeans(a: string, s: string, b: string)
    requires AllSpace(a) && AllSpace(b) && Bare(s) && (s == "" || s[0] == ';' || s[0] == '#')
    ensures KindOf(a + s + b) == Inert
  {
    hide Trim;
    TrimMeans(a, s, b);
  }

  lemma LowerKeys(key: string)
    ensures Lower(key) == "packetsendrate" <==> SameLetters(key, "packetsendrate")
    ensures Lower(key) == "port" <==> SameLetters(key, "port")
  {
    LowerMeans(key, "packetsendrate");
    LowerMeans(key, "port");
    assert Lower("packetsendrate") == "packetsendrate" && Lower("port") == "port";
    hide Lower, SameLetters;
  }

  /** A setting is split at its first equals sign; in any letter case its key decides what it sets. */
  lemma SettingMeans(a: string, key: string, b: string, c: string, value: string, d: string)
    requires AllSpace(a) && AllSpace(b) && AllSpace(c) && AllSpace(d) && Bare(value)
    requires Bare(key) && key != "" && key[0] != '[' && key[0] != ';' && key[0] != '#' && '=' !in key
    ensures var raw := a + (key + b + "=" + c + value) + d;
      && KindOf(raw) == (if SameLetters(key, "packetsendrate") then Rate
                         else if SameLetters(key, "port") then Port else Plain)
      && ValueText(raw) == value
  {
    hide Trim, Lower, SameLetters, Find;
    var raw := a + (key + b + "=" + c + value) + d;
    var behind := if value == "" then "" else c + value;
    var line := key + b + "=" + behind;
    var rest := if value == "" then c + d else d;
    assert raw == a + line + rest;
    assert line[0] == key[0] && (behind == "" ==> line[|line| - 1] == '=');
    assert behind != "" ==> line[|line| - 1] == value[|value| - 1];
    TrimMeans(a, line, rest);
    EqualsIsFound(key, b, behind);
    assert line[..|key + b|] == "" + key + b && line[|key + b| + 1..] == behind;
    TrimMeans("", key, b);
    LowerKeys(key);
    if value == "" { TrimMeans("", "", ""); } else { TrimMeans(c, value, ""); assert c + value + "" == c + value; }
  }

  lemma EqualsIsFound(key: string, b: string, behind: string)
    requires AllSpace(b) && '=' !in key
    ensures Find(key + b + "=" + behind, '=') == Some(|key + b|)
  {
    var line := key + b + "=" + behind;
    forall i | 0 <= i < |key + b| ensures line[i] != '=' {
      if i < |key| {
        assert line[i] == key[i] && key[i] in key;
      } else {
        assert line[i] == b[i - |key|] && Space(b[i - |key|]);
      }
    }
    FindsFirst(line, '=', |key + b|);
  }

  // ---------------------------------------------------------------- which setting counts

  /** The last header before line `i` opens an exporter section. */
  ghost predicate InSection(lines: seq<string>, i: nat)
    requires i <= |lines|
  {
    exists h :: OpensUntil(lines, h, i)
  }

  ghost predicate OpensUntil(lines: seq<string>, h: int, i: nat)
    requires i <= |lines|
  {
    0 <= h < i && KindOf(lines[h]) == Header(true) && forall k | h < k < i :: !KindOf(lines[k]).Header?
  }

  /** Line `i` of an exporter section sets the rate, or the port. */
  ghost predicate SetsRate(stof: string -> Option<real>, lines: seq<string>, i: int) {
    0 <= i < |lines| && KindOf(lines[i]) == Rate && InSection(lines, i) && stof(ValueText(lines[i])).Some?
  }

  ghost predicate SetsPort(lines: seq<string>, i: int) {
    0 <= i < |lines| && KindOf(lines[i]) == Port && InSection(lines, i) && StoI(ValueText(lines[i])).Some?
  }

  ghost predicate LastRate(stof: string -> Option<real>, lines: seq<string>, i: int) {
    SetsRate(stof, lines, i) && forall k | i < k < |lines| :: !SetsRate(stof, lines, k)
  }

  ghost predicate LastPort(lines: seq<string>, i: int) {
    SetsPort(lines, i) && forall k | i < k < |lines| :: !SetsPort(lines, k)
  }

  /** The rate is that of the last line that sets one; none when there is no such line. Likewise the port. */
  ghost predicate Knows(stof: string -> Option<real>, lines: seq<string>, s: Seen) {
    && (s.inside <==> InSection(lines, |lines|))
    && (forall i :: LastRate(stof, lines, i) ==> s.values.rate == stof(ValueText(lines[i])))
    && ((forall i :: !SetsRate(stof, lines, i)) ==> s.values.rate == None)
    && (forall i :: LastPort(lines, i) ==> s.values.port == StoI(ValueText(lines[i])))
    && ((forall i :: !SetsPort(lines, i)) ==> s.values.port == None)
  }

  lemma SectionGoesOn(lines: seq<string>, raw: string, i: nat)
    requires i <= |lines|
    ensures InSection(lines + [raw], i) <==> InSection(lines, i)
  {
    hide KindOf;
    var longer := lines + [raw];
    assert forall k | 0 <= k < |lines| :: longer[k] == lines[k];
    forall h ensures OpensUntil(longer, h, i) <==> OpensUntil(lines, h, i) {}
  }

  lemma SectionChanges(lines: seq<string>, raw: string)
    ensures var longer := lines + [raw];
      InSection(longer, |longer|)
      <==> if KindOf(raw).Header? then KindOf(raw) == Header(true) else InSection(lines, |lines|)
  {
    hide KindOf;
    var longer, n := lines + [raw], |lines|;
    SectionGoesOn(lines, raw, n);
    assert longer[n] == raw;
    if KindOf(raw) == Header(true) {
      assert OpensUntil(longer, n, n + 1);
    } else if !KindOf(raw).Header? {
      if InSection(longer, n + 1) {
        var h :| OpensUntil(longer, h, n + 1);
        assert OpensUntil(longer, h, n);
      }
      if InSection(longer, n) {
        var h :| OpensUntil(longer, h, n);
        assert OpensUntil(longer, h, n + 1);
      }
    }
  }

  lemma SettingsGoOn(stof: string -> Option<real>, lines: seq<string>, raw: string, i: int)
    requires i < |lines|
    ensures SetsRate(stof, lines + [raw], i) <==> SetsRate(stof, lines, i)
    ensures SetsPort(lines + [raw], i) <==> SetsPort(lines, i)
  {
    hide KindOf, StoI, ValueText, InSection;
    if i >= 0 {
      SectionGoesOn(lines, raw, i);
      assert (lines + [raw])[i] == lines[i];
    }
  }

  lemma LastSets(stof: string -> Option<real>, lines: seq<string>, raw: string)
    ensures var n := |lines|;
      && (SetsRate(stof, lines + [raw], n) <==>
            KindOf(raw) == Rate && InSection(lines, n) && stof(ValueText(raw)).Some?)
      && (SetsPort(lines + [raw], n) <==> KindOf(raw) == Port && InSection(lines, n) && StoI(ValueText(raw)).Some?)
  {
    hide KindOf, StoI, ValueText, InSection;
    SectionGoesOn(lines, raw, |lines|);
  }

  lemma KnowsRate(stof: string -> Option<real>, lines: seq<string>, raw: string, s: Seen)
    requires Knows(stof, lines, s)
    ensures var longer, next := lines + [raw], ReadLine(stof, s, raw);
      && (forall i :: LastRate(stof, longer, i) ==> next.values.rate == stof(ValueText(longer[i])))
      && ((forall i :: !SetsRate(stof, longer, i)) ==> next.values.rate == None)
  {
    hide KindOf, StoI, ValueText, InSection, LastPort, SetsPort, SetsRate;
    var longer, n := lines + [raw], |lines|;
    LastSets(stof, lines, raw);
    forall i | i < n ensures SetsRate(stof, longer, i) <==> SetsRate(stof, lines, i) {
      SettingsGoOn(stof, lines, raw, i);
    }
    assert longer[n] == raw && forall i | 0 <= i < n :: longer[i] == lines[i];
    forall i | LastRate(stof, longer, i) ensures 0 <= i < |longer| {
      BoundedRate(stof, longer, i);
    }
    forall i | 0 <= i < |longer| && LastRate(stof, longer, i)
      ensures ReadLine(stof, s, raw).values.rate == stof(ValueText(longer[i]))
    {
      if i < n { assert LastRate(stof, lines, i); }
    }
    forall i | !SetsRate(stof, longer, i) ensures !SetsRate(stof, lines, i) {
      if SetsRate(stof, lines, i) { BoundedRate(stof, lines, i); }
    }
  }

  lemma BoundedRate(stof: string -> Option<real>, lines: seq<string>, i: int)
    requires SetsRate(stof, lines, i)
    ensures 0 <= i < |lines|
  {}

  lemma BoundedPort(lines: seq<string>, i: int)
    requires SetsPort(lines, i)
    ensures 0 <= i < |lines|
  {}

  lemma KnowsPort(stof: string -> Option<real>, lines: seq<string>, raw: string, s: Seen)
    requires Knows(stof, lines, s)
    ensures var longer, next := lines + [raw], ReadLine(stof, s, raw);
      && (forall i :: LastPort(longer, i) ==> next.values.port == StoI(ValueText(longer[i])))
      && ((forall i :: !SetsPort(longer, i)) ==> next.values.port == None)
  {
    hide KindOf, StoI, ValueText, InSection, LastRate, SetsPort, SetsRate;
    var longer, n := lines + [raw], |lines|;
    LastSets(stof, lines, raw);
    forall i | i < n ensures SetsPort(longer, i) <==> SetsPort(lines, i) {
      SettingsGoOn(stof, lines, raw, i);
    }
    assert longer[n] == raw && forall i | 0 <= i < n :: longer[i] == lines[i];
    forall i | LastPort(longer, i) ensures 0 <= i < |longer| {
      BoundedPort(longer, i);
    }
    forall i | 0 <= i < |longer| && LastPort(longer, i)
      ensures ReadLine(stof, s, raw).values.port == StoI(ValueText(longer[i]))
    {
      if i < n { assert LastPort(lines, i); }
    }
    forall i | !SetsPort(longer, i) ensures !SetsPort(lines, i) {
      if SetsPort(lines, i) { BoundedPort(lines, i); }
    }
  }

  /** The reader takes the last setting of each kind that stands in an exporter section and is a number. */
  lemma {:induction false} ReaderKnows(stof: string -> Option<real>, lines: seq<string>)
    ensures Knows(stof, lines, ReadFrom(stof, NOTHING, lines))
  {
    hide KindOf, InSection, SetsRate, SetsPort, LastRate, LastPort, ReadLine;
    if lines == [] {
      NothingKnown(stof);
    } else {
      var init, last := lines[..|lines| - 1], lines[|lines| - 1];
      ReaderKnows(stof, init);
      var s := ReadFrom(stof, NOTHING, init);
      assert init + [last] == lines;
      KnowsRate(stof, init, last, s);
      KnowsPort(stof, init, last, s);
      SectionChanges(init, last);
      InsideChanges(stof, s, last);
    }
  }

  lemma InsideChanges(stof: string -> Option<real>, s: Seen, raw: string)
    ensures ReadLine(stof, s, raw).inside == if KindOf(raw).Header? then KindOf(raw) == Header(true) else s.inside
  {
    hide KindOf;
  }

  lemma NothingKnown(stof: string -> Option<real>)
    ensures Knows(stof, [], NOTHING)
  {}

  // ---------------------------------------------------------------- numbers

  /** What a conversion to an integer skips. */
  predicate Skipped(c: char) {
    Space(c) || c as int == 11 || c as int == 12
  }

  lemma {:induction false} SkipsMeans(a: string, s: string)
    requires (forall i | 0 <= i < |a| :: Skipped(a[i])) && (s == "" || !Skipped(s[0]))
    ensures SkipSpace(a + s) == s
  {
    if a != "" {
      assert Skipped(a[0]) && (a + s)[1..] == a[1..] + s;
      SkipsMeans(a[1..], s);
    } else {
      assert a + s == s;
    }
  }

  lemma {:induction false} DigitsMean(digits: string, rest: string)
    requires AllNumeric(digits) && (rest == "" || !IsDigit(rest[0]))
    ensures LeadingDigits(digits + rest) == digits
  {
    if digits != "" {
      assert IsDigit(digits[0]) && (digits + rest)[1..] == digits[1..] + rest;
      assert AllNumeric(digits[1..]) by { assert forall i | 0 <= i < |digits[1..]| :: digits[1..][i] == digits[i + 1]; }
      DigitsMean(digits[1..], rest);
    } else {
      assert digits + rest == rest;
    }
  }

  /** Spaces, a sign, digits, and anything: the number the digits spell, if it fits 32 bits. */
  lemma StoIMeans(a: string, sign: string, digits: string, rest: string)
    requires forall i | 0 <= i < |a| :: Skipped(a[i])
    requires sign == "" || sign == "-" || sign == "+"
    requires AllNumeric(digits) && (rest == "" || !IsDigit(rest[0]))
    requires sign == "" && digits == "" ==> rest == "" || (!Skipped(rest[0]) && rest[0] != '-' && rest[0] != '+')
    ensures var n: int := if sign == "-" then 0 - ValueOf(digits) else ValueOf(digits);
      StoI(a + (sign + digits + rest)) == if digits != "" && -2147483648 <= n <= 2147483647 then Some(n) else None
  {
    hide ValueOf, SkipSpace, LeadingDigits;
    var s := sign + digits + rest;
    if digits != "" { assert IsDigit(digits[0]); }
    if sign != "" {
      assert s[0] == sign[0] && s[1..] == digits + rest;
    } else {
      assert s == digits + rest;
      if digits != "" { assert s[0] == digits[0]; }
    }
    SkipsMeans(a, s);
    DigitsMean(digits, rest);
  }
}
