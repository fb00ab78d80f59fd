/** Sums of weights over the elements of a sequence, and products unfolded into sums. */
module Sums {

  function Tally<T>(xs: seq<T>, weight: T -> nat): nat {
    if xs == [] then 0 else Tally(xs[..|xs| - 1], weight) + weight(xs[|xs| - 1])
  }

  lemma {:induction false} TallyUpdate<T>(xs: seq<T>, weight: T -> nat, i: nat, x: T)
    requires i < |xs|
    ensures Tally(xs[i := x], weight) == Tally(xs, weight) - weight(xs[i]) + weight(x)
  {
    var n := |xs| - 1;
    if i == n {
      assert xs[i := x][..n] == xs[..n];
    } else {
      assert xs[i := x][..n] == xs[..n][i := x];
      TallyUpdate(xs[..n], weight, i, x);
    }
  }

  lemma {:induction false} TallyAtLeast<T>(xs: seq<T>, weight: T -> nat, i: nat)
    requires i < |xs|
    ensures Tally(xs, weight) >= weight(xs[i])
  {
    if i < |xs| - 1 {
      TallyAtLeast(xs[..|xs| - 1], weight, i);
    }
  }

  lemma {:induction false} TallyPositive<T>(xs: seq<T>, weight: T -> nat) returns (i: nat)
    requires Tally(xs, weight) > 0
    ensures i < |xs| && weight(xs[i]) > 0
  {
    i := |xs| - 1;
    if weight(xs[i]) == 0 {
      i := TallyPositive(xs[..i], weight);
    }
  }

  lemma {:induction false} TallySame<T>(a: seq<T>, b: seq<T>, weight: T -> nat)
    requires |a| == |b|
    requires forall i | 0 <= i < |a| :: weight(a[i]) == weight(b[i])
    ensures Tally(a, weight) == Tally(b, weight)
  {
    if a != [] {
      TallySame(a[..|a| - 1], b[..|b| - 1], weight);
    }
  }

  lemma {:induction false} TallyGrows<T>(a: seq<T>, b: seq<T>, weight: T -> nat)
    requires |a| == |b|
    requires forall i | 0 <= i < |a| :: weight(a[i]) >= weight(b[i])
    ensures Tally(a, weight) >= Tally(b, weight)
    ensures Tally(a, weight) == Tally(b, weight) ==> forall i | 0 <= i < |a| :: weight(a[i]) == weight(b[i])
  {
    if a != [] {
      var n := |a| - 1;
      TallyGrows(a[..n], b[..n], weight);
      if Tally(a, weight) == Tally(b, weight) {
        forall i | 0 <= i < |a| ensures weight(a[i]) == weight(b[i]) {
          if i < n { assert a[..n][i] == a[i] && b[..n][i] == b[i]; }
        }
      }
    }
  }

  lemma {:induction false} TallyFalls<T>(a: seq<T>, f: T -> nat, b: seq<T>, g: T -> nat)
    requires |a| == |b|
    requires forall i | 0 <= i < |a| :: f(a[i]) >= g(b[i])
    ensures Tally(a, f) >= Tally(b, g)
    ensures (exists i | 0 <= i < |a| :: f(a[i]) > g(b[i])) ==> Tally(a, f) > Tally(b, g)
  {
    if a != [] {
      var n := |a| - 1;
      TallyFalls(a[..n], f, b[..n], g);
      if i :| 0 <= i < |a| && f(a[i]) > g(b[i]) {
        if i < n { assert f(a[..n][i]) > g(b[..n][i]); }
      }
    }
  }

  function Positive<T>(xs: seq<T>, weight: T -> nat): set<nat> {
    set i: nat | i < |xs| && weight(xs[i]) != 0
  }

  lemma {:induction false} TallyCounts<T>(xs: seq<T>, weight: T -> nat)
    requires forall i | 0 <= i < |xs| :: weight(xs[i]) <= 1
    ensures Tally(xs, weight) == |Positive(xs, weight)|
  {
    if xs == [] {
      assert Positive(xs, weight) == {};
    } else {
      var n := |xs| - 1;
      var rest := Positive(xs[..n], weight);
      TallyCounts(xs[..n], weight);
      assert Positive(xs, weight) == if weight(xs[n]) != 0 then rest + {n} else rest;
    }
  }

  lemma SetCounts<T>(s: set<T>, t: T)
    ensures |s - {t}| == |s| - (if t in s then 1 else 0)
    ensures |s + {t}| == |s| + (if t in s then 0 else 1)
  {
    if t in s { assert s + {t} == s; } else { assert s - {t} == s; }
  }

  // units * price, unfolded one unit at a time.
  function Worth(units: nat, price: nat): nat {
    if units == 0 then 0 else Worth(units - 1, price) + price
  }

  lemma {:induction false} WorthGrows(units: nat, more: nat, price: nat)
    requires units < more
    ensures Worth(units, price) + price <= Worth(more, price)
  {
    if units < more - 1 { WorthGrows(units, more - 1, price); }
  }

  lemma {:induction false} WorthIsProduct(units: nat, price: nat)
    ensures Worth(units, price) == units * price
  {
    if units > 0 { WorthIsProduct(units - 1, price); }
  }
}
