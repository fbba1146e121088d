/** Round-robin selection over a list of candidates, from a random offset chosen once. */
module RoundRobin {
  import opened Wrappers

  class RoundRobinLoadBalancerStrategy {
    var startOffset: Option<nat>
    var callCount: nat

    constructor ()
      ensures startOffset == None && callCount == 0
    {
      startOffset, callCount := None, 0;
    }

    /** Where the next call looks, before the remainder is taken. */
    function Position(offset: nat): nat
      reads this
    {
      startOffset.GetOr(offset) + callCount
    }

    /** Picks a candidate. The number drawn lies in [0, 1) and counts in the first call only. */
    method Select<T>(candidates: seq<T>, random: real) returns (selected: Option<T>)
      requires 0.0 <= random < 1.0
      modifies this
      ensures candidates == [] ==> selected == None && startOffset == old(startOffset) && callCount == old(callCount)
      ensures candidates != [] ==>
        var offset := (random * |candidates| as real).Floor;
        && 0 <= offset < |candidates|
        && selected == Some(candidates[old(Position(offset)) % |candidates|])
        && startOffset.Some? && (forall fallback :: Position(fallback) == old(Position(offset)) + 1)
    {
      if |candidates| == 0 {
        return None;
      }
      DrawnWithin(random, |candidates|);
      if startOffset.None? {
        startOffset := Some((random * |candidates| as real).Floor);
      }
      var index := (startOffset.value + callCount) % |candidates|;
      callCount := callCount + 1;
      selected := Some(candidates[index]);
    }
  }

  lemma {:induction false} DrawnWithin(random: real, n: nat)
    requires 0.0 <= random < 1.0 && n > 0
    ensures 0 <= (random * n as real).Floor < n
  {
  }

  /** How often candidate `c` of `n` is picked in `calls` calls from a position on. */
  function Picks(position: nat, calls: nat, n: nat, c: nat): nat
    requires n > 0
  {
    if calls == 0 then 0
    else Picks(position, calls - 1, n, c) + if (position + calls - 1) % n == c then 1 else 0
  }

  lemma {:induction false} DivisionIs(a: int, d: nat, q: int, r: int)
    requires d > 0 && a == q * d + r && 0 <= r < d
    ensures a / d == q && a % d == r
  {
    var k := a / d - q;
    assert k * d == r - a % d;
  }

  lemma {:induction false} NextQuotient(y: nat, n: nat)
    requires n > 0
    ensures (y + 1) / n == y / n + if (y + 1) % n == 0 then 1 else 0
  {
    var q, r := y / n, y % n;
    assert y == q * n + r;
    if r + 1 < n {
      DivisionIs(y + 1, n, q, r + 1);
    } else {
      assert y + 1 == (q + 1) * n;
      DivisionIs(y + 1, n, q + 1, 0);
    }
  }

  lemma {:induction false} SameRemainder(x: nat, n: nat, c: nat)
    requires c < n
    ensures (x + n - c) % n == 0 <==> x % n == c
  {
    var q, r := x / n, x % n;
    assert x == q * n + r;
    if r >= c {
      assert x + n - c == (q + 1) * n + (r - c);
      DivisionIs(x + n - c, n, q + 1, r - c);
    } else {
      assert x + n - c == q * n + (n + r - c);
      DivisionIs(x + n - c, n, q, n + r - c);
    }
  }

  lemma {:induction false} PicksInClosedForm(position: nat, calls: nat, n: nat, c: nat)
    requires c < n
    ensures Picks(position, calls, n, c) == (position + calls + n - 1 - c) / n - (position + n - 1 - c) / n
  {
    if calls > 0 {
      PicksInClosedForm(position, calls - 1, n, c);
      NextQuotient(position + calls - 1 + n - 1 - c, n);
      SameRemainder(position + calls - 1, n, c);
    }
  }

  lemma {:induction false} QuotientOfSum(a: nat, m: nat, n: nat)
    requires n > 0
    ensures m / n <= (a + m) / n - a / n <= m / n + 1
    ensures m % n == 0 ==> (a + m) / n - a / n == m / n
  {
    var q, r, p, s := a / n, a % n, m / n, m % n;
    assert a + m == (q + p) * n + (r + s);
    if r + s < n {
      DivisionIs(a + m, n, q + p, r + s);
    } else {
      assert a + m == (q + p + 1) * n + (r + s - n);
      DivisionIs(a + m, n, q + p + 1, r + s - n);
    }
  }

  /** After any number of calls, two candidates were picked equally often or one was picked once more. */
  lemma {:induction false} PicksDifferByOneAtMost(position: nat, calls: nat, n: nat, c: nat, d: nat)
    requires c < n && d < n
    ensures -1 <= Picks(position, calls, n, c) - Picks(position, calls, n, d) <= 1
  {
    PicksInClosedForm(position, calls, n, c);
    PicksInClosedForm(position, calls, n, d);
    QuotientOfSum(position + n - 1 - c, calls, n);
    QuotientOfSum(position + n - 1 - d, calls, n);
  }

  /** Any `n` consecutive calls pick each of the `n` candidates exactly once. */
  lemma {:induction false} EachOncePerRound(position: nat, n: nat, c: nat)
    requires c < n
    ensures Picks(position, n, n, c) == 1
  {
    PicksInClosedForm(position, n, n, c);
    DivisionIs(n, n, 1, 0);
    QuotientOfSum(position + n - 1 - c, n, n);
  }
}
