/** Names built with Go's `%d` and dashes (internal/orchestrator/orchestrator.go). */
module Naming {

  function Digit(d: nat): char
    requires d < 10
  {
    '0' + d as char
  }

  /** `%d` of a non-negative number. */
  function Decimal(n: nat): (s: string)
    ensures s != "" && forall c <- s :: '0' <= c <= '9'
  {
    if n < 10 then [Digit(n)] else Decimal(n / 10) + [Digit(n % 10)]
  }

  /** The number that a text of decimal digits stands for. */
  function Value(s: string): nat
    requires forall c <- s :: '0' <= c <= '9'
  {
    if s == "" then 0
    else
      var rest, last := s[..|s| - 1], s[|s| - 1];
      assert last in s && forall c <- rest :: c in s;
      10 * Value(rest) + (last as int - '0' as int)
  }

  /** The digits stand for the number, and there is no leading zero. */
  lemma {:induction false} DecimalMeans(n: nat)
    ensures Value(Decimal(n)) == n && (Decimal(n)[0] == '0' ==> n == 0 && Decimal(n) == "0")
  {
    var s := Decimal(n);
    if n < 10 {
      assert s[..|s| - 1] == "";
    } else {
      DecimalMeans(n / 10);
      assert s[..|s| - 1] == Decimal(n / 10) && s[0] == Decimal(n / 10)[0];
    }
  }

  lemma DecimalInjective(m: nat, n: nat)
    requires Decimal(m) == Decimal(n)
    ensures m == n
  {
    DecimalMeans(m);
    DecimalMeans(n);
  }

  /** Two texts cut at their last dash. */
  lemma LastDashSplits(u: string, v: string, x: string, y: string)
    requires '-' !in x && '-' !in y
    requires u + "-" + x == v + "-" + y
    ensures u == v && x == y
  {
    var s, t := u + "-" + x, v + "-" + y;
    assert s[|u|] == '-' && t[|v|] == '-';
    assert forall k :: |u| < k < |s| ==> s[k] == x[k - |u| - 1];
    assert forall k :: |v| < k < |t| ==> t[k] == y[k - |v| - 1];
    assert s[..|u|] == u && t[..|v|] == v;
    assert s[|u| + 1..] == x && t[|v| + 1..] == y;
  }

  /** A name with its number, as in `prefix-7`. */
  function Numbered(prefix: string, i: nat): string {
    prefix + "-" + Decimal(i)
  }

  lemma NumberedInjective(p: string, q: string, i: nat, j: nat)
    ensures Numbered(p, i) == Numbered(q, j) ==> p == q && i == j
  {
    if Numbered(p, i) == Numbered(q, j) {
      LastDashSplits(p, q, Decimal(i), Decimal(j));
      DecimalInjective(i, j);
    }
  }
}
