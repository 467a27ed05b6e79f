/** Sums of weights over finite sets. */
module Sums {

  ghost function Sum<T(!new)>(s: set<T>, f: T -> nat): nat {
    if s == {} then 0 else var x :| x in s; f(x) + Sum(s - {x}, f)
  }

  /** The sum does not depend on the order in which elements are taken. */
  lemma {:induction false} SumPick<T(!new)>(s: set<T>, f: T -> nat, x: T)
    requires x in s
    ensures Sum(s, f) == f(x) + Sum(s - {x}, f)
    decreases |s|
  {
    var y :| y in s && Sum(s, f) == f(y) + Sum(s - {y}, f);
    if y != x {
      SumPick(s - {y}, f, x);
      SumPick(s - {x}, f, y);
      assert s - {y} - {x} == s - {x} - {y};
    }
  }

  lemma RemoveOne<T>(s: set<T>, x: T)
    ensures |s| == |s - {x}| + (if x in s then 1 else 0)
  {
    if x in s {
      assert s == (s - {x}) + {x};
    } else {
      assert s == s - {x};
    }
  }

  /** A pointwise comparison with unit gains and losses carries over to the sums. */
  lemma {:induction false} SumCompare<T(!new)>(s: set<T>, f: T -> nat, g: T -> nat, gain: set<T>, loss: set<T>)
    requires gain <= s
    requires forall x | x in s :: f(x) + (if x in gain then 1 else 0) <= g(x) + (if x in loss then 1 else 0)
    ensures Sum(s, f) + |gain| <= Sum(s, g) + |loss|
    decreases |s|
  {
    if s != {} {
      var x :| x in s;
      SumPick(s, f, x);
      SumPick(s, g, x);
      RemoveOne(gain, x);
      RemoveOne(loss, x);
      SumCompare(s - {x}, f, g, gain - {x}, loss - {x});
    }
  }

  lemma {:induction false} SumBound<T(!new)>(s: set<T>, f: T -> nat, k: nat)
    requires forall x | x in s :: f(x) <= k
    ensures Sum(s, f) <= |s| * k
    decreases |s|
  {
    if s != {} {
      var x :| x in s;
      SumPick(s, f, x);
      SumBound(s - {x}, f, k);
      assert |s| == |s - {x}| + 1;
      OneMore(|s - {x}|, k);
    }
  }

  lemma OneMore(n: nat, k: nat)
    ensures (n + 1) * k == n * k + k
    ensures k * (n + 1) == k * n + k
  {
  }

  /** One more event of weight b, paid for by the drop from p to p'. */
  lemma PayOne(b: nat, happened: bool, n: nat, total: nat, p: int, p': int, rest: int)
    requires total == n + (if happened then 1 else 0)
    requires b * n <= p' + rest
    requires (if happened then b else 0) + p' <= p
    ensures b * total <= p + rest
  {
    if happened {
      OneMore(n, b);
    }
  }

  lemma QuotientExceeded(b: nat, n: nat, m: nat)
    requires b > 0 && n > m / b
    ensures b * n > m
  {
    assert m == b * (m / b) + m % b;
    var d := n - m / b;
    assert b * n == b * (m / b) + b * d;
    assert b * d >= b;
  }

  lemma DivideBound(b: nat, n: nat, m: nat)
    requires b > 0 && b * n <= m
    ensures n <= m / b
  {
    if n > m / b {
      QuotientExceeded(b, n, m);
    }
  }

  lemma SumAtLeast<T(!new)>(s: set<T>, f: T -> nat, x: T)
    requires x in s
    ensures f(x) <= Sum(s, f)
  {
    SumPick(s, f, x);
  }

  lemma {:induction false} SumSame<T(!new)>(s: set<T>, f: T -> nat, g: T -> nat)
    requires forall x | x in s :: f(x) == g(x)
    ensures Sum(s, f) == Sum(s, g)
    decreases |s|
  {
    if s != {} {
      var x :| x in s;
      SumPick(s, f, x);
      SumPick(s, g, x);
      SumSame(s - {x}, f, g);
    }
  }
}
