/** Load vectors: sums, sums of squares, and what moving one unit from a heavier to a lighter place does. */
module Loads {

  function Sum(l: seq<nat>): nat
  {
    if l == [] then 0 else l[0] + Sum(l[1..])
  }

  function Squares(l: seq<nat>): (r: seq<nat>)
    ensures |r| == |l| && forall i :: 0 <= i < |l| ==> r[i] == l[i] * l[i]
  {
    seq(|l|, i requires 0 <= i < |l| => l[i] * l[i])
  }

  function SumSq(l: seq<nat>): nat
  {
    Sum(Squares(l))
  }

  ghost predicate Within(l: seq<nat>, lo: nat, hi: nat)
  {
    forall i :: 0 <= i < |l| ==> lo <= l[i] <= hi
  }

  ghost predicate IsMax(l: seq<nat>, a: nat)
  {
    a < |l| && forall i :: 0 <= i < |l| ==> l[i] <= l[a]
  }

  ghost predicate IsMin(l: seq<nat>, b: nat)
  {
    b < |l| && forall i :: 0 <= i < |l| ==> l[b] <= l[i]
  }

  // One unit moves from place a to place b.
  function Shift(l: seq<nat>, a: nat, b: nat): seq<nat>
    requires a < |l| && b < |l| && l[b] < l[a]
  {
    l[a := l[a] - 1][b := l[b] + 1]
  }

  // Sums of vectors that differ in one place.
  lemma {:induction false} SumChange(l: seq<nat>, m: seq<nat>, i: nat)
    requires |l| == |m| && i < |l| && forall j :: 0 <= j < |l| && j != i ==> m[j] == l[j]
    ensures Sum(m) - m[i] == Sum(l) - l[i]
    decreases |l|
  {
    if i == 0 {
      assert m[1..] == l[1..];
    } else {
      SumChange(l[1..], m[1..], i - 1);
    }
  }

  lemma ShiftSum(l: seq<nat>, a: nat, b: nat)
    requires a < |l| && b < |l| && l[b] < l[a]
    ensures Sum(Shift(l, a, b)) == Sum(l)
  {
    var m, r := l[a := l[a] - 1], Shift(l, a, b);
    SumChange(l, m, a);
    SumChange(m, r, b);
  }

  // The sum of squares drops by exactly 2 * (gap - 1): a gap of one is a swap, any other is progress.
  lemma ShiftSumSq(l: seq<nat>, a: nat, b: nat)
    requires a < |l| && b < |l| && l[b] < l[a]
    ensures SumSq(Shift(l, a, b)) == SumSq(l) - 2 * (l[a] - l[b] - 1)
  {
    var m, r := l[a := l[a] - 1], Shift(l, a, b);
    SumChange(Squares(l), Squares(m), a);
    SumChange(Squares(m), Squares(r), b);
    NextSquare(l[a] - 1);
    NextSquare(l[b]);
  }

  lemma NextSquare(x: nat)
    ensures (x + 1) * (x + 1) == x * x + 2 * x + 1
  {
  }

  // No load leaves the range the loads had before.
  lemma ShiftWithin(l: seq<nat>, a: nat, b: nat, lo: nat, hi: nat)
    requires a < |l| && b < |l| && l[b] < l[a] && Within(l, lo, hi)
    ensures Within(Shift(l, a, b), lo, hi)
  {
  }

  lemma MaxExists(l: seq<nat>) returns (a: nat)
    requires l != []
    ensures IsMax(l, a)
  {
    a := 0;
    for i := 0 to |l|
      invariant a < |l| && forall j :: 0 <= j < i ==> l[j] <= l[a]
    {
      if l[i] > l[a] {
        a := i;
      }
    }
  }

  lemma MinExists(l: seq<nat>) returns (b: nat)
    requires l != []
    ensures IsMin(l, b)
  {
    b := 0;
    for i := 0 to |l|
      invariant b < |l| && forall j :: 0 <= j < i ==> l[b] <= l[j]
    {
      if l[i] < l[b] {
        b := i;
      }
    }
  }

  lemma TimesMonotone(x: nat, y: nat, k: nat)
    requires x <= y
    ensures x * k <= y * k
  {
  }

  // The average is at least every lower bound, strictly if some load is above it.
  lemma {:induction false} SumAbove(l: seq<nat>, lo: nat)
    requires forall i :: 0 <= i < |l| ==> lo <= l[i]
    ensures lo * |l| <= Sum(l)
    ensures (exists i :: 0 <= i < |l| && l[i] > lo) ==> lo * |l| < Sum(l)
    decreases |l|
  {
    if l != [] {
      var t := l[1..];
      SumAbove(t, lo);
      assert lo * |l| == lo * |t| + lo;
      if i :| 0 < i < |l| && l[i] > lo {
        assert t[i - 1] > lo;
      }
    }
  }

  lemma {:induction false} SumBelow(l: seq<nat>, hi: nat)
    requires forall i :: 0 <= i < |l| ==> l[i] <= hi
    ensures Sum(l) <= hi * |l|
    ensures (exists i :: 0 <= i < |l| && l[i] < hi) ==> Sum(l) < hi * |l|
    decreases |l|
  {
    if l != [] {
      var t := l[1..];
      SumBelow(t, hi);
      assert hi * |l| == hi * |t| + hi;
      if i :| 0 < i < |l| && l[i] < hi {
        assert t[i - 1] < hi;
      }
    }
  }
}
