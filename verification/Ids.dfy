/** Lease identifiers: the decimal rendering used for generated names, and the
    lexicographic order used to break ties between standbys. */
module Ids {

  /** Decimal rendering of a non-negative number, as `%d` prints it. */
  function Itoa(n: nat): (s: string)
    ensures |s| > 0
  {
    if n < 10 then ["0123456789"[n]] else Itoa(n / 10) + ["0123456789"[n % 10]]
  }

  /** The number that decimal digits denote. */
  function Number(digits: string): int {
    if |digits| == 0 then 0
    else 10 * Number(digits[..|digits| - 1]) + (digits[|digits| - 1] as int - '0' as int)
  }

  /** The rendering consists of digits that denote the number, without leading zeros. */
  lemma {:induction false} ItoaDenotes(n: nat)
    ensures Number(Itoa(n)) == n
    ensures forall i :: 0 <= i < |Itoa(n)| ==> '0' <= Itoa(n)[i] <= '9'
    ensures n > 0 ==> Itoa(n)[0] != '0'
  {
    if n < 10 {
      assert Number(Itoa(n)[..0]) == 0;
    } else {
      ItoaDenotes(n / 10);
      assert Itoa(n)[..|Itoa(n)| - 1] == Itoa(n / 10);
    }
  }

  lemma ItoaInjective(m: nat, n: nat)
    requires Itoa(m) == Itoa(n)
    ensures m == n
  {
    ItoaDenotes(m);
    ItoaDenotes(n);
  }

  /** Name of the n-th standby ever created. */
  function PoolId(n: nat): string {
    "pool-" + Itoa(n)
  }

  /** Name of the lease behind an always-on port. */
  function PortId(port: nat): string {
    "port-" + Itoa(port)
  }

  ghost predicate IsPoolId(id: string) {
    exists n: nat :: id == PoolId(n)
  }

  lemma PoolIdInjective(m: nat, n: nat)
    requires PoolId(m) == PoolId(n)
    ensures m == n
  {
    assert PoolId(m)[5..] == Itoa(m) && PoolId(n)[5..] == Itoa(n);
    ItoaInjective(m, n);
  }

  lemma PortIdInjective(p: nat, q: nat)
    requires PortId(p) == PortId(q)
    ensures p == q
  {
    assert PortId(p)[5..] == Itoa(p) && PortId(q)[5..] == Itoa(q);
    ItoaInjective(p, q);
  }

  lemma PortIdIsNoPoolId(port: nat)
    ensures !IsPoolId(PortId(port))
  {
    forall n: nat ensures PortId(port) != PoolId(n) {
      assert PortId(port)[2] == 'r' && PoolId(n)[2] == 'o';
    }
  }

  /** Byte-wise lexicographic order on identifiers. */
  predicate Less(a: string, b: string) {
    |b| > 0 && (|a| == 0 || a[0] < b[0] || (a[0] == b[0] && Less(a[1..], b[1..])))
  }

  /** a is b up to some position where a ends or has the smaller character. */
  ghost predicate Smaller(a: string, b: string, n: nat) {
    n <= |a| && n < |b| && a[..n] == b[..n] && (n == |a| || a[n] < b[n])
  }

  lemma {:induction false} LessIsLexicographic(a: string, b: string)
    ensures Less(a, b) <==> exists n: nat :: Smaller(a, b, n)
  {
    if |a| > 0 && |b| > 0 && a[0] == b[0] {
      LessIsLexicographic(a[1..], b[1..]);
      forall n: nat ensures Smaller(a[1..], b[1..], n) <==> Smaller(a, b, n + 1) {
        if n < |a| && n + 1 < |b| {
          assert a[..n + 1] == [a[0]] + a[1..][..n] && b[..n + 1] == [b[0]] + b[1..][..n];
          assert a[..n + 1][1..] == a[1..][..n] && b[..n + 1][1..] == b[1..][..n];
        }
      }
      assert !Smaller(a, b, 0);
      if n: nat :| Smaller(a, b, n) {
        assert Smaller(a[1..], b[1..], n - 1);
      }
    } else if |b| > 0 && (|a| == 0 || a[0] < b[0]) {
      assert Smaller(a, b, 0);
    } else if |a| > 0 && |b| > 0 {
      forall n: nat ensures !Smaller(a, b, n) {
        assert n > 0 && n <= |a| && n < |b| ==> a[..n][0] != b[..n][0];
      }
    }
  }

  lemma {:induction false} LessTotal(a: string, b: string)
    ensures a == b || Less(a, b) || Less(b, a)
  {
    if |a| > 0 && |b| > 0 && a[0] == b[0] {
      LessTotal(a[1..], b[1..]);
      assert a == [a[0]] + a[1..] && b == [b[0]] + b[1..];
    }
  }

  lemma {:induction false} LessTransitive(a: string, b: string, c: string)
    requires Less(a, b) && Less(b, c)
    ensures Less(a, c)
  {
    if |a| > 0 && a[0] == b[0] == c[0] {
      LessTransitive(a[1..], b[1..], c[1..]);
    }
  }

  lemma {:induction false} LessAsymmetric(a: string, b: string)
    requires Less(a, b)
    ensures !Less(b, a)
  {
    if |a| > 0 && a[0] == b[0] {
      LessAsymmetric(a[1..], b[1..]);
    }
  }
}
