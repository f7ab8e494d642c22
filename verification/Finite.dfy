/** Sizes of finite sets of numbers, and sequences without repetition. */
module Finite {
  function Below(n: nat): (r: set<nat>)
    ensures forall i: nat :: i in r <==> i < n
    ensures |r| == n
  {
    if n == 0 then {} else Below(n - 1) + {n - 1}
  }

  /** An injective function keeps the size of a set. */
  lemma {:induction false} ImageSize(xs: set<nat>, ys: set<nat>, f: nat --> nat)
    requires forall x :: x in xs ==> f.requires(x)
    requires forall x, y :: x in xs && y in xs && x != y ==> f(x) != f(y)
    requires ys == set x | x in xs :: f(x)
    ensures |ys| == |xs|
  {
    if xs != {} {
      var x :| x in xs;
      var ys' := ys - {f(x)};
      assert ys' == set z | z in xs - {x} :: f(z);
      ImageSize(xs - {x}, ys', f);
    }
  }

  lemma {:induction false} SubsetSize(a: set<nat>, b: set<nat>)
    requires a <= b
    ensures |a| <= |b|
  {
    if a != {} {
      var x :| x in a;
      SubsetSize(a - {x}, b - {x});
    }
  }

  ghost predicate Distinct(xs: seq<nat>) {
    forall i, j :: 0 <= i < j < |xs| ==> xs[i] != xs[j]
  }

  function One(b: bool): nat {
    if b then 1 else 0
  }
}
