/** Comparing operating system versions through a base-100 number. */
module Version {
  import opened Base

  function Pow100(k: nat): (r: nat)
    ensures r >= 1
  {
    if k == 0 then 1 else 100 * Pow100(k - 1)
  }

  /** The weight of the i-th fragment; fragments after the first count + 1 weigh nothing,
      since a fraction is cut to zero. */
  function Factor(count: nat, i: nat): nat {
    if i > count then 0 else Pow100(count - i)
  }

  function NormalFrom(fragments: seq<int>, count: nat, i: nat): int
    requires i <= |fragments|
    decreases |fragments| - i
  {
    if i == |fragments| then 0
    else fragments[i] * Factor(count, i) + NormalFrom(fragments, count, i + 1)
  }

  method NormalizeVersion(fragments: seq<int>, count: nat) returns (result: int)
    ensures result == NormalFrom(fragments, count, 0)
  {
    result := 0;
    for i := 0 to |fragments|
      invariant result + NormalFrom(fragments, count, i) == NormalFrom(fragments, count, 0)
    {
      result := result + fragments[i] * Factor(count, i);
    }
  }

  // ---- Lexicographic order ----

  /** The first n fragments, zero padded. */
  function Padded(fragments: seq<int>, n: nat): (r: seq<int>)
    ensures |r| == n
  {
    seq(n, i requires 0 <= i < n => if i < |fragments| then fragments[i] else 0)
  }

  predicate Less(a: seq<int>, b: seq<int>)
    requires |a| == |b|
  {
    a != [] && (a[0] < b[0] || (a[0] == b[0] && Less(a[1..], b[1..])))
  }

  predicate InRange(fragments: seq<int>) {
    forall i :: 0 <= i < |fragments| ==> 0 <= fragments[i] <= 99
  }

  /** The number whose base-100 digits are given, the first one most significant. */
  function Value(digits: seq<int>): int {
    if digits == [] then 0 else digits[0] * Pow100(|digits| - 1) + Value(digits[1..])
  }

  lemma {:induction false} ValueBound(digits: seq<int>)
    requires InRange(digits)
    ensures 0 <= Value(digits) < Pow100(|digits|)
  {
    if digits != [] {
      ValueBound(digits[1..]);
      var p := Pow100(|digits| - 1);
      assert 0 <= digits[0] * p <= 99 * p;
    }
  }

  /** The leading digit may be any number. */
  lemma {:induction false} ValueOrder(a: seq<int>, b: seq<int>)
    requires |a| == |b| && (a != [] ==> InRange(a[1..]) && InRange(b[1..]))
    ensures Value(a) < Value(b) <==> Less(a, b)
    ensures Value(a) == Value(b) <==> a == b
  {
    if a != [] {
      ValueOrder(a[1..], b[1..]);
      ValueBound(a[1..]);
      ValueBound(b[1..]);
      var p := Pow100(|a| - 1);
      assert a == [a[0]] + a[1..] && b == [b[0]] + b[1..];
      if a[0] < b[0] {
        LeadingDigit(a[0], b[0], Value(a[1..]), Value(b[1..]), p);
      } else if b[0] < a[0] {
        LeadingDigit(b[0], a[0], Value(b[1..]), Value(a[1..]), p);
      }
    }
  }

  lemma LeadingDigit(x: int, y: int, u: int, v: int, p: nat)
    requires x < y && 0 <= u < p && 0 <= v < p
    ensures x * p + u < y * p + v
  {
    Scale(x + 1, y, p);
  }

  lemma Scale(x: int, y: int, p: nat)
    requires x <= y
    ensures x * p <= y * p
  {
  }

  /** The i-th digit on, of the zero-padded version, make up what the loop adds from i on. */
  lemma {:induction false} NormalIsValue(fragments: seq<int>, count: nat, i: nat)
    requires i <= |fragments|
    ensures NormalFrom(fragments, count, i) == if i > count then 0 else Value(Padded(fragments, count + 1)[i..])
    decreases |fragments| - i
  {
    var digits := Padded(fragments, count + 1);
    if i == |fragments| {
      if i <= count {
        ZerosHaveNoValue(digits[i..]);
      }
    } else {
      NormalIsValue(fragments, count, i + 1);
      if i <= count {
        assert digits[i..][1..] == digits[i + 1..];
        if i == count {
          assert digits[i + 1..] == [];
        }
      }
    }
  }

  lemma {:induction false} ZerosHaveNoValue(digits: seq<int>)
    requires forall k :: 0 <= k < |digits| ==> digits[k] == 0
    ensures Value(digits) == 0
  {
    if digits != [] {
      ZerosHaveNoValue(digits[1..]);
    }
  }

  /** The fragments that have a weight, other than the first, have at most two digits. */
  predicate TailInRange(v: seq<int>, count: nat) {
    forall i :: 1 <= i <= count && i < |v| ==> 0 <= v[i] <= 99
  }

  /** The numbers compare as the versions do lexicographically, fragments beyond count + 1
      being ignored and missing ones being zero. */
  predicate Ordered(v: seq<int>, u: seq<int>, count: nat) {
    && (NormalFrom(v, count, 0) < NormalFrom(u, count, 0) <==> Less(Padded(v, count + 1), Padded(u, count + 1)))
    && (NormalFrom(v, count, 0) == NormalFrom(u, count, 0) <==> Padded(v, count + 1) == Padded(u, count + 1))
  }

  lemma NormalOrder(v: seq<int>, u: seq<int>, count: nat)
    requires TailInRange(v, count) && TailInRange(u, count)
    ensures Ordered(v, u, count)
  {
    NormalIsValue(v, count, 0);
    NormalIsValue(u, count, 0);
    var a, b := Padded(v, count + 1), Padded(u, count + 1);
    assert a[0..] == a && b[0..] == b;
    ValueOrder(a, b);
  }

  // ---- The condition is exact ----

  /** The version of k + 1 fragments that has a given number. */
  function Digits(n: int, k: nat): (r: seq<int>)
    ensures |r| == k + 1
    decreases k
  {
    if k == 0 then [n] else [n / Pow100(k)] + Digits(n % Pow100(k), k - 1)
  }

  lemma {:induction false} DigitsHaveValue(n: int, k: nat)
    ensures Value(Digits(n, k)) == n
    decreases k
  {
    var d := Digits(n, k);
    if k == 0 {
      assert d[1..] == [];
    } else {
      DigitsHaveValue(n % Pow100(k), k - 1);
      assert d[1..] == Digits(n % Pow100(k), k - 1);
    }
  }

  lemma {:induction false} DigitsInRange(n: int, k: nat)
    requires 0 <= n < Pow100(k + 1)
    ensures InRange(Digits(n, k))
    decreases k
  {
    if k > 0 {
      var p := Pow100(k);
      DigitsInRange(n % p, k - 1);
      LeadingInRange(n, p);
    }
  }

  lemma LeadingInRange(n: int, p: nat)
    requires 0 <= n < 100 * p && p > 0
    ensures 0 <= n / p <= 99
  {
    var q := n / p;
    if q >= 100 {
      Scale(100, q, p);
    }
  }

  lemma DigitsFit(n: int, count: nat)
    ensures TailInRange(Digits(n, count), count) && NormalFrom(Digits(n, count), count, 0) == n
  {
    var u := Digits(n, count);
    if count > 0 {
      DigitsInRange(n % Pow100(count), count - 1);
      assert forall i :: 1 <= i <= count ==> u[i] == Digits(n % Pow100(count), count - 1)[i - 1];
    }
    DigitsHaveValue(n, count);
    NormalIsValue(u, count, 0);
    assert Padded(u, count + 1)[0..] == u;
  }

  /** A version compares rightly with every version of the kind above if and only if it is
      of that kind itself. */
  lemma OrderIsExact(v: seq<int>, count: nat)
    ensures TailInRange(v, count) <==> forall u :: TailInRange(u, count) ==> Ordered(v, u, count)
  {
    if TailInRange(v, count) {
      forall u | TailInRange(u, count)
        ensures Ordered(v, u, count)
      {
        NormalOrder(v, u, count);
      }
    } else {
      var i :| 1 <= i <= count && i < |v| && !(0 <= v[i] <= 99);
      var u := Digits(NormalFrom(v, count, 0), count);
      DigitsFit(NormalFrom(v, count, 0), count);
      assert Padded(v, count + 1)[i] != Padded(u, count + 1)[i];
      assert !Ordered(v, u, count);
    }
  }

  /** A fragment of three digits makes a version as large as one that lexicographically is
      above it. */
  lemma WideIsMisordered(v: seq<int>, count: nat) returns (u: seq<int>)
    requires !TailInRange(v, count)
    requires forall i :: 1 <= i <= count && i < |v| ==> v[i] >= 0
    ensures TailInRange(u, count) && NormalFrom(v, count, 0) == NormalFrom(u, count, 0)
    ensures Less(Padded(v, count + 1), Padded(u, count + 1))
  {
    u := Digits(NormalFrom(v, count, 0), count);
    DigitsFit(NormalFrom(v, count, 0), count);
    NormalIsValue(v, count, 0);
    NormalIsValue(u, count, 0);
    var a, b := Padded(v, count + 1), Padded(u, count + 1);
    assert a[0..] == a && b[0..] == b;
    var i :| 1 <= i <= count && i < |v| && !(0 <= v[i] <= 99);
    assert a[i] != b[i];
    CarryIsAbove(a, b);
  }

  lemma {:induction false} CarryIsAbove(a: seq<int>, b: seq<int>)
    requires |a| == |b| && (a != [] ==> NoneNegative(a[1..]) && InRange(b[1..]))
    requires Value(a) == Value(b) && a != b
    ensures Less(a, b)
  {
    var p := Pow100(|a| - 1);
    ValueBound(b[1..]);
    ValueIsNatural(a[1..]);
    assert a == [a[0]] + a[1..] && b == [b[0]] + b[1..];
    if a[0] == b[0] {
      CarryIsAbove(a[1..], b[1..]);
    } else if a[0] > b[0] {
      Scale(b[0] + 1, a[0], p);
    }
  }

  predicate NoneNegative(digits: seq<int>) {
    forall i :: 0 <= i < |digits| ==> digits[i] >= 0
  }

  lemma {:induction false} ValueIsNatural(digits: seq<int>)
    requires NoneNegative(digits)
    ensures Value(digits) >= 0
  {
    if digits != [] {
      ValueIsNatural(digits[1..]);
      Scale(0, digits[0], Pow100(|digits| - 1));
    }
  }

  /** The smallest instance: 1.100 and 2.0. */
  lemma WideFragmentsBreakOrder()
    ensures NormalFrom([1, 100], 1, 0) == NormalFrom([2, 0], 1, 0) && Less([1, 100], [2, 0])
  {
    assert Pow100(1) == 100 * Pow100(0);
    assert NormalFrom([1, 100], 1, 2) == 0 && NormalFrom([2, 0], 1, 2) == 0;
    assert NormalFrom([1, 100], 1, 1) == 100 && NormalFrom([2, 0], 1, 1) == 0;
  }

  // ---- Matching an operating system ----

  /** A version is the list of its fragments; an empty target string is None. */
  datatype System = System(name: string, system: string, architecture: string, version: seq<int>)
  datatype Target = Target(name: string, system: string, architecture: string,
                           minRequired: Option<seq<int>>, maxAllowed: Option<seq<int>>)

  predicate SameKind(s: System, t: Target) {
    && (t.name == "" || t.name == s.name)
    && (t.system == "" || t.system == s.system)
    && (t.architecture == "" || t.architecture == s.architecture)
  }

  method Matches(s: System, target: Option<Target>) returns (r: bool)
    requires |s.version| > 0
    ensures r == MatchesSpec(s, target)
  {
    if target.None? {
      return true;
    }
    var t := target.value;
    if t.name != "" && t.name != s.name {
      return false;
    }
    if t.system != "" && t.system != s.system {
      return false;
    }
    if t.architecture != "" && t.architecture != s.architecture {
      return false;
    }
    if t.minRequired.None? && t.maxAllowed.None? {
      return true;
    }
    var count := |s.version| - 1;
    var actual := NormalizeVersion(s.version, count);
    if t.minRequired.Some? {
      var least := NormalizeVersion(t.minRequired.value, count);
      if actual < least {
        return false;
      }
    }
    var most := NormalizeVersion(if t.maxAllowed.Some? then t.maxAllowed.value else [0], count);
    r := actual >= most;
  }

  function MatchesSpec(s: System, target: Option<Target>): bool
    requires |s.version| > 0
  {
    match target
    case None => true
    case Some(t) =>
      var count := |s.version| - 1;
      var actual := NormalFrom(s.version, count, 0);
      && SameKind(s, t)
      && ((t.minRequired.None? && t.maxAllowed.None?)
          || (&& (t.minRequired.Some? ==> actual >= NormalFrom(t.minRequired.value, count, 0))
              && actual >= NormalFrom(if t.maxAllowed.Some? then t.maxAllowed.value else [0], count, 0)))
  }

  /** The right kind, and a version lexicographically below neither bound. */
  predicate WithinBounds(s: System, t: Target) {
    var n := |s.version|;
    && SameKind(s, t)
    && (t.minRequired.Some? ==> !Less(s.version, Padded(t.minRequired.value, n)))
    && (t.maxAllowed.Some? ==> !Less(s.version, Padded(t.maxAllowed.value, n)))
  }

  predicate BoundsInRange(t: Target, count: nat) {
    && (t.minRequired.Some? ==> TailInRange(t.minRequired.value, count))
    && (t.maxAllowed.Some? ==> TailInRange(t.maxAllowed.value, count))
  }

  /** A system matches exactly when it is of the right kind and its version is
      lexicographically neither below the required minimum nor below the stated maximum; a
      minimum without a maximum also demands that the leading fragment is not negative. */
  lemma MatchesExactly(s: System, t: Target)
    requires |s.version| > 0 && TailInRange(s.version, |s.version| - 1) && BoundsInRange(t, |s.version| - 1)
    ensures MatchesSpec(s, Some(t)) <==>
      WithinBounds(s, t) && (t.minRequired.Some? && t.maxAllowed.None? ==> s.version[0] >= 0)
  {
    var count := |s.version| - 1;
    assert Padded(s.version, count + 1) == s.version;
    if t.minRequired.Some? {
      NormalOrder(s.version, t.minRequired.value, count);
    }
    if t.maxAllowed.Some? {
      NormalOrder(s.version, t.maxAllowed.value, count);
    } else {
      SignOfVersion(s.version);
      assert NormalFrom([0], count, 1) == 0;
    }
  }

  lemma SignOfVersion(v: seq<int>)
    requires |v| > 0 && TailInRange(v, |v| - 1)
    ensures NormalFrom(v, |v| - 1, 0) >= 0 <==> v[0] >= 0
  {
    var count := |v| - 1;
    var p := Pow100(count);
    NormalIsValue(v, count, 0);
    assert Padded(v, count + 1)[0..] == v;
    ValueBound(v[1..]);
    if v[0] >= 0 {
      Scale(0, v[0], p);
    } else {
      Scale(v[0], -1, p);
    }
  }

  /** A system whose fragments are not negative is matched rightly against all targets with
      bounds of the kind above if and only if its own version is of that kind. */
  lemma MatchingIsExact(s: System)
    requires |s.version| > 0 && NoneNegative(s.version)
    ensures TailInRange(s.version, |s.version| - 1) <==>
      forall t :: BoundsInRange(t, |s.version| - 1) ==> (MatchesSpec(s, Some(t)) <==> WithinBounds(s, t))
  {
    var count := |s.version| - 1;
    if TailInRange(s.version, count) {
      forall t | BoundsInRange(t, count)
        ensures MatchesSpec(s, Some(t)) <==> WithinBounds(s, t)
      {
        MatchesExactly(s, t);
      }
    } else {
      var u := WideIsMisordered(s.version, count);
      var t := Target("", "", "", None, Some(u));
      assert Padded(s.version, count + 1) == s.version;
      assert BoundsInRange(t, count) && MatchesSpec(s, Some(t)) && !WithinBounds(s, t);
    }
  }

  // ---- The stated maximum ----

  lemma {:induction false} LessIsTotal(a: seq<int>, b: seq<int>)
    requires |a| == |b|
    ensures Less(a, b) <==> a != b && !Less(b, a)
  {
    if a != [] {
      LessIsTotal(a[1..], b[1..]);
      assert a == [a[0]] + a[1..] && b == [b[0]] + b[1..];
    }
  }

  /** Version 2 is within a maximum of 1, and version 1 is not within a maximum of 2. */
  lemma MaximumIsExceeded(name: string)
    ensures MatchesSpec(System(name, "", "", [2]), Some(Target(name, "", "", None, Some([1]))))
    ensures !MatchesSpec(System(name, "", "", [1]), Some(Target(name, "", "", None, Some([2]))))
  {
    forall x: int
      ensures NormalFrom([x], 0, 0) == x
    {
      assert NormalFrom([x], 0, 1) == 0;
    }
  }

  /** For a system of the right kind that meets the minimum, matching agrees with the name of
      the maximum exactly when the version is the maximum. */
  lemma MaximumAgrees(s: System, t: Target)
    requires |s.version| > 0 && TailInRange(s.version, |s.version| - 1) && BoundsInRange(t, |s.version| - 1)
    requires SameKind(s, t) && t.maxAllowed.Some?
    requires t.minRequired.Some? ==> !Less(s.version, Padded(t.minRequired.value, |s.version|))
    ensures var most := Padded(t.maxAllowed.value, |s.version|);
      (MatchesSpec(s, Some(t)) <==> !Less(most, s.version)) <==> s.version == most
  {
    MatchesExactly(s, t);
    LessIsTotal(s.version, Padded(t.maxAllowed.value, |s.version|));
  }
}
