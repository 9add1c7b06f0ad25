/**
 The order of version strings (src/updater/UpdaterCommon.cpp, IsNewerVersion), decided on
 the characters, against the order of the numbers they stand for.
 */
module Version {
  import opened Options
  import opened Text

  // ---------------------------------------------------------------- the numeric order

  /** A component that is not a number counts as 0. */
  function Number(component: string): nat {
    if AllNumeric(component) then ValueOf(component) else 0
  }

  /** The numbers between the dots, of any size. */
  function Numbers(version: string): seq<nat>
    decreases |version|
  {
    if version == "" then []
    else match Find(version, '.')
      case None => [Number(version)]
      case Some(k) => [Number(version[..k])] + Numbers(version[k + 1..])
  }

  /** Numbers written in decimal with dots between them. */
  function Dotted(v: seq<nat>): string {
    if v == [] then ""
    else if |v| == 1 then Digits(v[0])
    else Digits(v[0]) + "." + Dotted(v[1..])
  }

  lemma FindsDot(digits: string, rest: string)
    requires AllNumeric(digits)
    ensures Find(digits, '.') == None && Find(digits + "." + rest, '.') == Some(|digits|)
  {
    var text := digits + "." + rest;
    assert forall i | 0 <= i < |digits| :: IsDigit(digits[i]) && text[i] == digits[i];
    assert text[|digits|] == '.';
  }

  /** A version written as numbers with dots between them is read as those numbers. */
  lemma {:induction false} DottedReadsBack(v: seq<nat>)
    ensures Numbers(Dotted(v)) == v
    decreases |v|
  {
    hide Find, Digits, AllNumeric, ValueOf;
    if v != [] {
      DigitsReadBack(v[0]);
      if |v| == 1 {
        FindsDot(Digits(v[0]), "");
      } else {
        var first, rest := Digits(v[0]), Dotted(v[1..]);
        FindsDot(first, rest);
        DottedReadsBack(v[1..]);
        assert (first + "." + rest)[..|first|] == first && (first + "." + rest)[|first| + 1..] == rest;
        assert v == [v[0]] + v[1..];
      }
    }
  }

  /** Missing components are 0. */
  function At(v: seq<nat>, i: nat): nat {
    if i < |v| then v[i] else 0
  }

  /** `u` is below `v` at their first difference. */
  ghost predicate Below(u: seq<nat>, v: seq<nat>) {
    exists k: nat :: FirstLess(u, v, k)
  }

  ghost predicate FirstLess(u: seq<nat>, v: seq<nat>, k: nat) {
    At(u, k) < At(v, k) && forall i: nat | i < k :: At(u, i) == At(v, i)
  }

  ghost predicate SameVersion(u: seq<nat>, v: seq<nat>) {
    forall i: nat :: At(u, i) == At(v, i)
  }

  lemma BelowIsStrict(u: seq<nat>)
    ensures !Below(u, u)
  {}

  lemma BelowIsTransitive(u: seq<nat>, v: seq<nat>, w: seq<nat>)
    requires Below(u, v) && Below(v, w)
    ensures Below(u, w)
  {
    var j: nat :| FirstLess(u, v, j);
    var k: nat :| FirstLess(v, w, k);
    assert FirstLess(u, w, if j < k then j else k);
  }

  /** The position of the first difference, if there is one up to `n`. */
  lemma {:induction false} Differs(u: seq<nat>, v: seq<nat>, n: nat)
    ensures Below(u, v) || Below(v, u) || forall i: nat | i < n :: At(u, i) == At(v, i)
  {
    if n > 0 {
      Differs(u, v, n - 1);
      if forall i: nat | i < n - 1 :: At(u, i) == At(v, i) {
        if At(u, n - 1) < At(v, n - 1) {
          assert FirstLess(u, v, n - 1);
        } else if At(v, n - 1) < At(u, n - 1) {
          assert FirstLess(v, u, n - 1);
        }
      }
    }
  }

  /** Any two versions are in order one way, or the other, or are the same: ties are exactly equal vectors. */
  lemma Trichotomy(u: seq<nat>, v: seq<nat>)
    ensures SameVersion(u, v) <==> !Below(u, v) && !Below(v, u)
    ensures !(Below(u, v) && Below(v, u))
  {
    Differs(u, v, if |u| > |v| then |u| else |v|);
    if Below(u, v) && Below(v, u) {
      BelowIsTransitive(u, v, u);
      BelowIsStrict(u);
    }
  }

  // ---------------------------------------------------------------- comparing digits as text

  function Power10(n: nat): (p: nat)
    ensures p > 0
  {
    if n == 0 then 1 else 10 * Power10(n - 1)
  }

  function DigitOf(c: char): nat
    requires IsDigit(c)
  {
    c as int - '0' as int
  }

  lemma TenTimes(d: nat, p: nat, r: nat)
    ensures 10 * (d * p + r) == d * (10 * p) + 10 * r
  {}

  lemma {:induction false} ValueOfFirst(s: string)
    requires AllNumeric(s) && s != ""
    ensures ValueOf(s) == DigitOf(s[0]) * Power10(|s| - 1) + ValueOf(s[1..])
  {
    if |s| > 1 {
      var init := s[..|s| - 1];
      ValueOfFirst(init);
      assert init[1..] == s[1..][..|s| - 2];
      assert Power10(|s| - 1) == 10 * Power10(|init| - 1);
      TenTimes(DigitOf(s[0]), Power10(|init| - 1), ValueOf(init[1..]));
    } else {
      assert s[..0] == "" && s[1..] == "";
    }
  }

  lemma {:induction false} ValueBelowPower(s: string)
    requires AllNumeric(s)
    ensures ValueOf(s) < Power10(|s|)
  {
    if s != "" {
      ValueBelowPower(s[..|s| - 1]);
      assert IsDigit(s[|s| - 1]);
    }
  }

  lemma {:induction false} PowerGrows(m: nat, n: nat)
    requires m <= n
    ensures Power10(m) <= Power10(n)
  {
    if m < n {
      PowerGrows(m, n - 1);
    }
  }

  /** A number without leading zeros. */
  predicate Stripped(s: string) {
    AllNumeric(s) && (s != "" ==> s[0] != '0')
  }

  lemma LongerIsLarger(a: string, b: string)
    requires Stripped(a) && Stripped(b) && |a| < |b|
    ensures ValueOf(a) < ValueOf(b)
  {
    ValueBelowPower(a);
    PowerGrows(|a|, |b| - 1);
    ValueOfFirst(b);
    assert IsDigit(b[0]);
    AtLeastOnce(DigitOf(b[0]), Power10(|b| - 1));
  }

  lemma AtLeastOnce(d: nat, p: nat)
    requires d >= 1
    ensures d * p >= p
  {
    assert (d - 1) * p >= 0;
  }

  /** The order of std::string_view. */
  predicate TextLess(a: string, b: string) {
    if b == "" then false
    else if a == "" then true
    else if a[0] != b[0] then a[0] < b[0]
    else TextLess(a[1..], b[1..])
  }

  lemma {:induction false} TextOrderIsNumeric(a: string, b: string)
    requires AllNumeric(a) && AllNumeric(b) && |a| == |b|
    ensures TextLess(a, b) <==> ValueOf(a) < ValueOf(b)
    ensures a == b <==> ValueOf(a) == ValueOf(b)
  {
    if a != "" {
      ValueOfFirst(a);
      ValueOfFirst(b);
      TextOrderIsNumeric(a[1..], b[1..]);
      ValueBelowPower(a[1..]);
      ValueBelowPower(b[1..]);
      var p := Power10(|a| - 1);
      DigitDecides(DigitOf(a[0]), DigitOf(b[0]), p, ValueOf(a[1..]), ValueOf(b[1..]));
      assert a == [a[0]] + a[1..] && b == [b[0]] + b[1..];
    }
  }

  lemma DigitDecides(d: nat, e: nat, p: nat, r: nat, s: nat)
    requires r < p && s < p
    ensures d < e ==> d * p + r < e * p + s
    ensures d > e ==> d * p + r > e * p + s
  {
    if d < e {
      assert (d + 1) * p <= e * p;
    } else if d > e {
      assert (e + 1) * p <= d * p;
    }
  }

  // ---------------------------------------------------------------- a component, as the program takes it

  function DropZeros(s: string): string {
    if s != "" && s[0] == '0' then DropZeros(s[1..]) else s
  }

  /** Leading zeros go; what is left counts only if it is a number. */
  function Component(s: string): string {
    if AllNumeric(DropZeros(s)) then DropZeros(s) else ""
  }

  lemma {:induction false} DroppingZeros(s: string)
    ensures DropZeros(s) != "" ==> DropZeros(s)[0] != '0'
    ensures AllNumeric(DropZeros(s)) <==> AllNumeric(s)
    ensures AllNumeric(s) ==> ValueOf(DropZeros(s)) == ValueOf(s)
  {
    if s != "" && s[0] == '0' {
      DroppingZeros(s[1..]);
      assert s == [s[0]] + s[1..];
      if AllNumeric(s) {
        ValueOfFirst(s);
      }
      if AllNumeric(s[1..]) {
        assert forall i | 0 < i < |s| :: s[i] == s[1..][i - 1];
      }
    }
  }

  lemma ComponentIsNumber(s: string)
    ensures Stripped(Component(s)) && ValueOf(Component(s)) == Number(s)
  {
    DroppingZeros(s);
  }

  /** Comparing two components as text is comparing their numbers. */
  lemma ComponentsCompare(s: string, t: string)
    ensures var a, b := Component(s), Component(t);
      && (a == b <==> Number(s) == Number(t))
      && ((if |a| != |b| then |a| < |b| else TextLess(a, b)) <==> Number(s) < Number(t))
  {
    var a, b := Component(s), Component(t);
    ComponentIsNumber(s);
    ComponentIsNumber(t);
    if |a| < |b| {
      LongerIsLarger(a, b);
    } else if |b| < |a| {
      LongerIsLarger(b, a);
    } else {
      TextOrderIsNumeric(a, b);
    }
  }

  // ---------------------------------------------------------------- the loop

  function First(rest: string): string {
    match Find(rest, '.')
    case None => rest
    case Some(k) => rest[..k]
  }

  function AfterFirst(rest: string): string {
    match Find(rest, '.')
    case None => ""
    case Some(k) => rest[k + 1..]
  }

  lemma NumbersStep(rest: string, i: nat)
    ensures At(Numbers(rest), 0) == Number(First(rest))
    ensures At(Numbers(rest), i + 1) == At(Numbers(AfterFirst(rest)), i)
  {}

  /** Versions whose rests start alike are in the order of what follows. */
  lemma SkipEqual(u: string, v: string)
    requires Number(First(u)) == Number(First(v))
    ensures Below(Numbers(u), Numbers(v)) <==> Below(Numbers(AfterFirst(u)), Numbers(AfterFirst(v)))
  {
    hide Numbers, At;
    var x, y := Numbers(u), Numbers(v);
    var x1, y1 := Numbers(AfterFirst(u)), Numbers(AfterFirst(v));
    forall i: nat ensures At(x, i + 1) == At(x1, i) && At(y, i + 1) == At(y1, i) {
      NumbersStep(u, i);
      NumbersStep(v, i);
    }
    NumbersStep(u, 0);
    NumbersStep(v, 0);
    if Below(x, y) {
      LessShifts(x, y, x1, y1);
    }
    if Below(x1, y1) {
      LessShiftsBack(x, y, x1, y1);
    }
  }

  lemma LessShifts(x: seq<nat>, y: seq<nat>, x1: seq<nat>, y1: seq<nat>)
    requires forall i: nat :: At(x, i + 1) == At(x1, i) && At(y, i + 1) == At(y1, i)
    requires At(x, 0) == At(y, 0) && Below(x, y)
    ensures Below(x1, y1)
  {
    hide At;
    var k: nat :| FirstLess(x, y, k);
    assert k > 0;
    assert At(x, (k - 1) + 1) == At(x1, k - 1);
    forall i: nat | i < k - 1 ensures At(x1, i) == At(y1, i) {
      assert At(x, i + 1) == At(y, i + 1);
    }
    assert FirstLess(x1, y1, k - 1);
  }

  lemma LessShiftsBack(x: seq<nat>, y: seq<nat>, x1: seq<nat>, y1: seq<nat>)
    requires forall i: nat :: At(x, i + 1) == At(x1, i) && At(y, i + 1) == At(y1, i)
    requires At(x, 0) == At(y, 0) && Below(x1, y1)
    ensures Below(x, y)
  {
    hide At;
    var k: nat :| FirstLess(x1, y1, k);
    forall i: nat | i < k + 1 ensures At(x, i) == At(y, i) {
      if i > 0 {
        assert At(x, (i - 1) + 1) == At(x1, i - 1);
      }
    }
    assert FirstLess(x, y, k + 1);
  }

  lemma FirstDecides(u: string, v: string)
    requires Number(First(u)) != Number(First(v))
    ensures Below(Numbers(u), Numbers(v)) <==> Number(First(u)) < Number(First(v))
  {
    NumbersStep(u, 0);
    NumbersStep(v, 0);
    if Number(First(u)) < Number(First(v)) {
      assert FirstLess(Numbers(u), Numbers(v), 0);
    } else {
      assert FirstLess(Numbers(v), Numbers(u), 0);
      Trichotomy(Numbers(u), Numbers(v));
    }
  }

  /** Where the number starts, or the end if what follows its zeros is not a number. */
  method NumberStart(component: string) returns (start: nat)
    ensures start <= |component| && component[start..] == Component(component)
  {
    start := 0;
    while start < |component| && component[start] == '0'
      invariant start <= |component| && DropZeros(component[start..]) == DropZeros(component)
    {
      assert component[start..][1..] == component[start + 1..];
      start := start + 1;
    }
    var i := start;
    while i < |component|
      invariant start <= i <= |component| && forall j | start <= j < i :: IsDigit(component[j])
    {
      if component[i] < '0' || component[i] > '9' {
        assert component[start..][i - start] == component[i];
        return |component|;
      }
      i := i + 1;
    }
  }

  method TakeComponent(version: string, pos: nat) returns (component: string, next: nat)
    requires pos <= |version|
    ensures component == Component(First(version[pos..]))
    ensures pos <= next <= |version| && version[next..] == AfterFirst(version[pos..])
    ensures pos < |version| ==> pos < next
  {
    var rest := version[pos..];
    var end := Find(rest, '.');
    var whole := if end.None? then rest else rest[..end.value];
    var start := NumberStart(whole);
    component := whole[start..];
    next := if end.None? then |version| else pos + end.value + 1;
  }

  /** The program's loop decides the numeric order. */
  method IsNewerVersion(current: string, latest: string) returns (newer: bool)
    ensures newer <==> Below(Numbers(current), Numbers(latest))
  {
    var cur, lat := 0, 0;
    while cur < |current| || lat < |latest|
      invariant cur <= |current| && lat <= |latest|
      invariant Below(Numbers(current[cur..]), Numbers(latest[lat..])) <==> Below(Numbers(current), Numbers(latest))
      decreases |current| - cur + |latest| - lat
    {
      ghost var u, v := current[cur..], latest[lat..];
      var a, b;
      a, cur := TakeComponent(current, cur);
      b, lat := TakeComponent(latest, lat);
      ComponentsCompare(First(u), First(v));
      if Number(First(u)) == Number(First(v)) {
        SkipEqual(u, v);
      } else {
        FirstDecides(u, v);
      }
      if |a| != |b| {
        return |b| > |a|;
      }
      if a != b {
        return TextLess(a, b);
      }
    }
    assert current[cur..] == "" && latest[lat..] == "";
    BelowIsStrict([]);
    newer := false;
  }

  /** The downgrade check of the manifest verifier (src/updater/ReleaseManifest.cpp:153). */
  method AcceptsVersion(manifest: string, installed: string) returns (accepted: bool)
    ensures accepted <==> installed == "" || !Below(Numbers(manifest), Numbers(installed))
    ensures accepted && installed != "" ==>
              SameVersion(Numbers(manifest), Numbers(installed)) || Below(Numbers(installed), Numbers(manifest))
  {
    accepted := true;
    if installed != "" {
      var older := IsNewerVersion(manifest, installed);
      if older {
        accepted := false;
      }
      Trichotomy(Numbers(manifest), Numbers(installed));
    }
  }
}
