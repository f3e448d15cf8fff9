/** The string operations the logger relies on. */
module Text {
  function Lower(c: char): char {
    if 'A' <= c <= 'Z' then (c as int + 32) as char else c
  }

  function ToLower(s: string): string {
    seq(|s|, i requires 0 <= i < |s| => Lower(s[i]))
  }

  function NormalChar(c: char): char {
    if c == '/' || c == '-' || c == ' ' then '_' else Lower(c)
  }

  /** Lower case, with slashes, dashes and blanks turned into underscores. */
  function Normalize(s: string): (r: string)
    ensures |r| == |s| && Clean(r)
  {
    seq(|s|, i requires 0 <= i < |s| => NormalChar(s[i]))
  }

  /** A normalized segment is a fixed point: its characters are lower case and none of those
      that are replaced, and every other character of the original is kept. */
  lemma NormalizeIsFinal(s: string)
    ensures Normalize(Normalize(s)) == Normalize(s)
    ensures forall c :: c in Normalize(s) ==> c !in {'/', '-', ' '} && Lower(c) == c
    ensures forall i :: 0 <= i < |s| && s[i] !in {'/', '-', ' '} && Lower(s[i]) == s[i] ==> Normalize(s)[i] == s[i]
  {
    var n := Normalize(s);
    forall i | 0 <= i < |s|
      ensures n[i] == NormalChar(s[i]) && NormalChar(n[i]) == n[i]
    {
    }
    assert Normalize(n) == n;
  }

  /** A string that can be one segment of a path. */
  predicate Clean(s: string) {
    '/' !in s
  }

  function Join(parts: seq<string>, separator: string): string {
    if parts == [] then ""
    else if |parts| == 1 then parts[0]
    else parts[0] + separator + Join(parts[1..], separator)
  }

  lemma {:induction false} JoinIsClean(parts: seq<string>, separator: string)
    requires Clean(separator) && forall i :: 0 <= i < |parts| ==> Clean(parts[i])
    ensures Clean(Join(parts, separator))
  {
    if |parts| > 1 {
      JoinIsClean(parts[1..], separator);
    }
  }

  predicate HasSuffix(s: string, suffix: string) {
    |suffix| <= |s| && s[|s| - |suffix|..] == suffix
  }

  function TrimSuffix(s: string, suffix: string): string {
    if HasSuffix(s, suffix) then s[..|s| - |suffix|] else s
  }

  /** The index of the first occurrence, or -1. */
  function Index(s: string, part: string): (r: int)
    ensures -1 <= r <= |s| && (r >= 0 ==> r + |part| <= |s| && s[r..r + |part|] == part)
  {
    if |s| < |part| then -1
    else if s[..|part|] == part then 0
    else if s == "" then -1
    else
      var r := Index(s[1..], part);
      if r < 0 then -1 else r + 1
  }

  /** Every occurrence is at the index or after it. */
  lemma {:induction false} IndexIsFirst(s: string, part: string, i: nat)
    requires i + |part| <= |s| && s[i..i + |part|] == part
    ensures 0 <= Index(s, part) <= i
  {
    if s[..|part|] != part {
      assert i > 0 by {
        assert s[0..|part|] == s[..|part|];
      }
      assert s[1..][i - 1..i - 1 + |part|] == part;
      IndexIsFirst(s[1..], part, i - 1);
    }
  }

  /** The index of the last slash, or -1. */
  function LastSlash(s: string): (r: int)
    ensures -1 <= r < |s| && (r >= 0 ==> s[r] == '/') && forall i :: r < i < |s| ==> s[i] != '/'
  {
    if s == "" then -1
    else if s[|s| - 1] == '/' then |s| - 1
    else LastSlash(s[..|s| - 1])
  }

  // ---- Numbers ----

  function Digit(d: nat): char
    requires d < 10
  {
    (('0' as int) + d) as char
  }

  function Decimal(n: nat): (r: string)
    ensures |r| >= 1 && Clean(r)
  {
    if n < 10 then [Digit(n)] else Decimal(n / 10) + [Digit(n % 10)]
  }

  /** Four digits, zero padded; longer numbers lose their leading digits. */
  function Sprintf4(n: nat): (r: string)
    ensures |r| == 4 && Clean(r)
  {
    var s := "0000" + Decimal(n);
    s[|s| - 4..]
  }

  /** The last k digits of a number, zero padded. */
  function LastDigits(n: nat, k: nat): (r: string)
    ensures |r| == k
  {
    if k == 0 then "" else LastDigits(n / 10, k - 1) + [Digit(n % 10)]
  }

  /** A zero-padded decimal ends in the last digits of the number. */
  lemma {:induction false} DecimalEnd(pad: string, n: nat, k: nat)
    requires pad == LastDigits(0, |pad|) && k <= |pad|
    ensures var s := pad + Decimal(n); s[|s| - k..] == LastDigits(n, k)
    decreases k
  {
    if k > 0 {
      var t := if n < 10 then pad else pad + Decimal(n / 10);
      assert pad + Decimal(n) == t + [Digit(n % 10)];
      if n < 10 {
        LastDigitsEnd(0, |pad|, k - 1);
      } else {
        DecimalEnd(pad, n / 10, k - 1);
      }
      DropLast(t, Digit(n % 10), k - 1);
    }
  }

  lemma {:induction false} LastDigitsEnd(n: nat, m: nat, k: nat)
    requires k <= m
    ensures LastDigits(n, m)[m - k..] == LastDigits(n, k)
    decreases k
  {
    if k > 0 {
      LastDigitsEnd(n / 10, m - 1, k - 1);
      DropLast(LastDigits(n / 10, m - 1), Digit(n % 10), k - 1);
    }
  }

  lemma FourZeros()
    ensures "0000" == LastDigits(0, 4)
  {
    assert LastDigits(0, 1) == LastDigits(0, 0) + [Digit(0)] == "0";
    assert LastDigits(0, 2) == LastDigits(0, 1) + [Digit(0)] == "00";
    assert LastDigits(0, 3) == LastDigits(0, 2) + [Digit(0)] == "000";
    assert LastDigits(0, 4) == LastDigits(0, 3) + [Digit(0)] == "0000";
  }

  /** The code of a number is its last four digits. */
  lemma Sprintf4IsLastDigits(n: nat)
    ensures Sprintf4(n) == LastDigits(n, 4)
  {
    FourZeros();
    DecimalEnd("0000", n, 4);
  }

  lemma DropLast(t: string, c: char, k: nat)
    requires k <= |t|
    ensures (t + [c])[|t| - k..] == t[|t| - k..] + [c]
  {
  }

  function Pow10(k: nat): (r: nat)
    ensures r > 0
  {
    if k == 0 then 1 else 10 * Pow10(k - 1)
  }

  /** The last k digits tell numbers apart exactly modulo the k-th power of ten. */
  lemma {:induction false} LastDigitsInjective(m: nat, n: nat, k: nat)
    requires k <= 4
    ensures LastDigits(m, k) == LastDigits(n, k) <==> m % Pow10(k) == n % Pow10(k)
  {
    if k > 0 {
      LastDigitsInjective(m / 10, n / 10, k - 1);
      SplitLastDigit(m, k - 1);
      SplitLastDigit(n, k - 1);
      var s, t := LastDigits(m, k), LastDigits(n, k);
      assert s[..k - 1] == LastDigits(m / 10, k - 1) && t[..k - 1] == LastDigits(n / 10, k - 1);
      assert s[k - 1] == Digit(m % 10) && t[k - 1] == Digit(n % 10);
    }
  }

  lemma SplitLastDigit(n: nat, k: nat)
    requires k < 4
    ensures n % Pow10(k + 1) == 10 * (n / 10 % Pow10(k)) + n % 10
  {
    assert Pow10(0) == 1 && Pow10(1) == 10 && Pow10(2) == 100;
    assert Pow10(3) == 1000 && Pow10(4) == 10000;
  }

  /** The code tells numbers apart exactly modulo ten thousand. */
  lemma Sprintf4Injective(m: nat, n: nat)
    ensures Sprintf4(m) == Sprintf4(n) <==> m % 10000 == n % 10000
  {
    Sprintf4IsLastDigits(m);
    Sprintf4IsLastDigits(n);
    LastDigitsInjective(m, n, 4);
    assert Pow10(2) == 10 * Pow10(1) && Pow10(4) == 10 * Pow10(3);
  }

  // ---- Paths ----

  /** A clean directory name and a file name can be told apart again. */
  lemma PathInjective(root: string, d1: string, n1: string, d2: string, n2: string)
    requires Clean(d1) && Clean(d2)
    requires root + "/" + d1 + "/" + n1 == root + "/" + d2 + "/" + n2
    ensures d1 == d2 && n1 == n2
  {
    var p1, p2 := root + "/" + d1 + "/" + n1, root + "/" + d2 + "/" + n2;
    var k := |root| + 1;
    assert p1[k..] == d1 + "/" + n1 && p2[k..] == d2 + "/" + n2;
    SplitAtSlash(d1, n1, d2, n2);
  }

  lemma {:induction false} SplitAtSlash(d1: string, n1: string, d2: string, n2: string)
    requires Clean(d1) && Clean(d2) && d1 + "/" + n1 == d2 + "/" + n2
    ensures d1 == d2 && n1 == n2
  {
    var p, q := d1 + "/" + n1, d2 + "/" + n2;
    assert p[0] == if d1 == "" then '/' else d1[0];
    assert q[0] == if d2 == "" then '/' else d2[0];
    if d1 != "" && d2 != "" {
      assert p[1..] == d1[1..] + "/" + n1 && q[1..] == d2[1..] + "/" + n2;
      SplitAtSlash(d1[1..], n1, d2[1..], n2);
      assert d1 == [d1[0]] + d1[1..] && d2 == [d2[0]] + d2[1..];
    } else {
      assert d1 == "" && d2 == "";
      assert p[1..] == n1 && q[1..] == n2;
    }
  }
}
