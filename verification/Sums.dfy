// Sums over finite sets.
module Sums {
  ghost function Sum<T(!new)>(xs: set<T>, f: T -> int): int
    decreases |xs|
  {
    if xs == {} then 0 else var x :| x in xs; f(x) + Sum(xs - {x}, f)
  }

  lemma {:induction false} SumRemove<T(!new)>(xs: set<T>, f: T -> int, y: T)
    requires y in xs
    ensures Sum(xs, f) == f(y) + Sum(xs - {y}, f)
    decreases |xs|
  {
    var x :| x in xs && Sum(xs, f) == f(x) + Sum(xs - {x}, f);
    if x != y {
      SumRemove(xs - {x}, f, y);
      SumRemove(xs - {y}, f, x);
      assert xs - {x} - {y} == xs - {y} - {x};
    }
  }

  // A weight that travels along a bijection has the same sum on both sides.
  lemma {:induction false} SumAlong<A(!new), B(!new)>(xs: set<A>, ys: set<B>, g: A -> B, u: A -> int, v: B -> int)
    requires forall x :: x in xs ==> g(x) in ys && u(x) == v(g(x))
    requires forall x, x' :: x in xs && x' in xs && g(x) == g(x') ==> x == x'
    requires forall y :: y in ys ==> exists x :: x in xs && g(x) == y
    ensures |xs| == |ys| && Sum(xs, u) == Sum(ys, v)
    decreases |xs|
  {
    if xs != {} {
      var x :| x in xs;
      SumRemove(xs, u, x);
      SumRemove(ys, v, g(x));
      SumAlong(xs - {x}, ys - {g(x)}, g, u, v);
    }
  }

  // Elements without weight do not matter.
  lemma {:induction false} SumIgnoresZeros<T(!new)>(xs: set<T>, ys: set<T>, f: T -> int)
    requires ys <= xs && forall x :: x in xs && x !in ys ==> f(x) == 0
    ensures Sum(xs, f) == Sum(ys, f)
    decreases |xs|
  {
    if x :| x in xs && x !in ys {
      SumRemove(xs, f, x);
      SumIgnoresZeros(xs - {x}, ys, f);
    } else {
      assert xs == ys;
    }
  }

  lemma {:induction false} SumsAlike<T(!new)>(xs: set<T>, f: T -> int, g: T -> int)
    requires forall x :: x in xs ==> f(x) == g(x)
    ensures Sum(xs, f) == Sum(xs, g)
    decreases |xs|
  {
    if x :| x in xs {
      SumRemove(xs, f, x);
      SumRemove(xs, g, x);
      SumsAlike(xs - {x}, f, g);
    }
  }

  lemma {:induction false} SumAdds<T(!new)>(xs: set<T>, f: T -> int, g: T -> int, h: T -> int)
    requires forall x :: x in xs ==> h(x) == f(x) + g(x)
    ensures Sum(xs, h) == Sum(xs, f) + Sum(xs, g)
    decreases |xs|
  {
    if x :| x in xs {
      SumRemove(xs, f, x);
      SumRemove(xs, g, x);
      SumRemove(xs, h, x);
      SumAdds(xs - {x}, f, g, h);
    }
  }
}
