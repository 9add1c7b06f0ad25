/** The text functions the INI reader and rewriter share (src/core/config/StatsApiIni.hpp). */
module IniText {
  import opened Options
  import opened Text

  predicate IsSpace(c: char) {
    c == ' ' || c == '\t' || c == '\r' || c == '\n'
  }

  function TrimStart(s: string): string {
    if s != "" && IsSpace(s[0]) then TrimStart(s[1..]) else s
  }

  function TrimEnd(s: string): string {
    if s != "" && IsSpace(s[|s| - 1]) then TrimEnd(s[..|s| - 1]) else s
  }

  function Trim(s: string): string {
    TrimEnd(TrimStart(s))
  }

  function LowerChar(c: char): char {
    if 'A' <= c <= 'Z' then c - 'A' + 'a' else c
  }

  function Lower(s: string): string {
    seq(|s|, i requires 0 <= i < |s| => LowerChar(s[i]))
  }

  lemma NothingToTrim(s: string)
    requires s != "" && !IsSpace(s[0]) && !IsSpace(s[|s| - 1])
    ensures Trim(s) == s
  {}

  lemma {:induction false} TrimEndIgnoresReturn(s: string)
    ensures TrimEnd(s + "\r") == TrimEnd(s)
  {
    assert (s + "\r")[..|s|] == s;
  }

  lemma {:induction false} TrimIgnoresReturn(s: string)
    ensures Trim(s + "\r") == Trim(s)
  {
    if s != "" && IsSpace(s[0]) {
      TrimIgnoresReturn(s[1..]);
      assert (s + "\r")[1..] == s[1..] + "\r";
    } else if s != "" {
      TrimEndIgnoresReturn(s);
    } else {
      assert s + "\r" == "\r";
      assert "\r"[1..] == "";
    }
  }

  // ---------------------------------------------------------------- numbers

  const MAX_INT := 0x7fff_ffff
  const MIN_INT := -0x8000_0000

  type Int32 = x: int | -0x8000_0000 <= x <= 0x7fff_ffff

  function ToString(n: int): string {
    if n < 0 then "-" + Digits(-n) else Digits(n)
  }

  /** The leading digits, where a conversion stops reading. */
  function LeadingDigits(s: string): (r: string)
    ensures forall i | 0 <= i < |r| :: IsDigit(r[i])
  {
    if s != "" && IsDigit(s[0]) then [s[0]] + LeadingDigits(s[1..]) else ""
  }

  lemma {:induction false} AllDigits(s: string)
    requires forall i | 0 <= i < |s| :: IsDigit(s[i])
    ensures LeadingDigits(s) == s
  {
    if s != "" {
      AllDigits(s[1..]);
    }
  }

  function SkipSpace(s: string): string {
    if s != "" && (IsSpace(s[0]) || s[0] as int == 11 || s[0] as int == 12) then SkipSpace(s[1..]) else s
  }

  /** std::stoi: None where it throws, because there is no number or it does not fit. */
  function StoI(text: string): Option<Int32> {
    var s := SkipSpace(text);
    var negative := s != "" && s[0] == '-';
    var digits := LeadingDigits(if s != "" && (s[0] == '-' || s[0] == '+') then s[1..] else s);
    if digits == "" then None
    else
      var value: int := if negative then 0 - ValueOf(digits) else ValueOf(digits);
      if MIN_INT <= value <= MAX_INT then Some(value) else None
  }

  lemma NaturalReadsBack(n: nat)
    ensures LeadingDigits(Digits(n)) == Digits(n) && ValueOf(Digits(n)) == n
    ensures Digits(n)[0] != '-' && Digits(n)[0] != '+' && !IsSpace(Digits(n)[0]) && SkipSpace(Digits(n)) == Digits(n)
  {
    assert IsDigit(Digits(n)[0]);
    AllDigits(Digits(n));
    DigitsReadBack(n);
  }

  lemma NegativeReadsBack(n: nat)
    requires 0 < n <= 0x8000_0000
    ensures StoI("-" + Digits(n)) == Some(-(n as int))
  {
    NaturalReadsBack(n);
    assert ("-" + Digits(n))[1..] == Digits(n);
    assert SkipSpace("-" + Digits(n)) == "-" + Digits(n);
  }

  lemma PositiveReadsBack(n: nat)
    requires n <= 0x7fff_ffff
    ensures StoI(Digits(n)) == Some(n)
  {
    NaturalReadsBack(n);
  }

  lemma NumberReadsBack(n: Int32)
    ensures StoI(ToString(n)) == Some(n)
    ensures ToString(n) != "" && Trim(ToString(n)) == ToString(n)
    ensures !IsSpace(ToString(n)[|ToString(n)| - 1])
  {
    var magnitude: nat := if n < 0 then -(n as int) else n;
    var digits := Digits(magnitude);
    NaturalReadsBack(magnitude);
    assert IsDigit(digits[|digits| - 1]);
    if n < 0 {
      NegativeReadsBack(magnitude);
    } else {
      PositiveReadsBack(magnitude);
    }
    NothingToTrim(ToString(n));
  }
}
