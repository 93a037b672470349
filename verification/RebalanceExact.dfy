/**
 * When the rebalance loop stops, for sessions that are all bound to a type and sit on endpoints of it, exactly:
 * the loop works down from the heaviest loads, so the first type that it can only swap holds it up for good,
 * and the other types keep whatever loads they have by then.
 */
module RebalanceExact {
  import opened Base
  import opened Loads
  import opened Rebalance
  import opened RebalanceTyped
  import opened RebalanceCounts

  // ---------- the loads of one type ----------

  ghost function LoadsIn(types: seq<ClientType>, l: seq<nat>, t: ClientType): multiset<nat>
    requires |types| == |l|
  {
    if l == [] then multiset{}
    else (if types[0] == t then multiset{l[0]} else multiset{}) + LoadsIn(types[1..], l[1..], t)
  }

  lemma {:induction false} LoadPresent(types: seq<ClientType>, l: seq<nat>, j: nat)
    requires |types| == |l| && j < |l|
    ensures l[j] in LoadsIn(types, l, types[j])
    decreases |l|
  {
    if j > 0 {
      LoadPresent(types[1..], l[1..], j - 1);
    }
  }

  lemma {:induction false} PlaceOfLoad(types: seq<ClientType>, l: seq<nat>, t: ClientType, x: nat) returns (j: nat)
    requires |types| == |l| && x in LoadsIn(types, l, t)
    ensures j < |l| && types[j] == t && l[j] == x
    decreases |l|
  {
    if types[0] == t && l[0] == x {
      j := 0;
    } else {
      j := PlaceOfLoad(types[1..], l[1..], t, x);
      j := j + 1;
    }
  }

  function One(b: bool): nat
  {
    if b then 1 else 0
  }

  // Endpoints of type t with load x.
  function Held(types: seq<ClientType>, l: seq<nat>, t: ClientType, x: nat): nat
    requires |types| == |l|
  {
    if l == [] then 0 else One(types[0] == t && l[0] == x) + Held(types[1..], l[1..], t, x)
  }

  lemma {:induction false} LoadsInHeld(types: seq<ClientType>, l: seq<nat>, t: ClientType, x: nat)
    requires |types| == |l|
    ensures LoadsIn(types, l, t)[x] == Held(types, l, t, x)
    decreases |l|
  {
    if l != [] {
      LoadsInHeld(types[1..], l[1..], t, x);
    }
  }

  lemma {:induction false} HeldChange(types: seq<ClientType>, l: seq<nat>, m: seq<nat>, t: ClientType, i: nat, x: nat)
    requires |types| == |l| == |m| && i < |l| && forall j :: 0 <= j < |l| && j != i ==> m[j] == l[j]
    ensures Held(types, m, t, x) - One(types[i] == t && m[i] == x)
         == Held(types, l, t, x) - One(types[i] == t && l[i] == x)
    decreases |l|
  {
    if i == 0 {
      assert m[1..] == l[1..];
    } else {
      HeldChange(types[1..], l[1..], m[1..], t, i - 1, x);
    }
  }

  ghost predicate IsTop(loads: multiset<nat>, x: nat)
  {
    x in loads && forall y :: y in loads ==> y <= x
  }

  ghost predicate IsBottom(loads: multiset<nat>, x: nat)
  {
    x in loads && forall y :: y in loads ==> x <= y
  }

  lemma {:induction false} ExtremesExist(loads: multiset<nat>)
    requires loads != multiset{}
    ensures (exists x :: IsBottom(loads, x)) && exists x :: IsTop(loads, x)
    decreases |loads|
  {
    var x :| x in loads;
    var lo, hi, rest := x, x, loads - multiset{x};
    assert forall y :: y in loads ==> y == x || y in rest;
    if rest != multiset{} {
      ExtremesExist(rest);
      var bottom :| IsBottom(rest, bottom);
      var top :| IsTop(rest, top);
      lo, hi := if x < bottom then x else bottom, if x > top then x else top;
    }
    assert IsBottom(loads, lo) && IsTop(loads, hi);
  }

  ghost function Top(loads: multiset<nat>): (x: nat)
    requires loads != multiset{}
    ensures IsTop(loads, x)
  {
    ExtremesExist(loads);
    var x :| IsTop(loads, x);
    x
  }

  ghost function Bottom(loads: multiset<nat>): (x: nat)
    requires loads != multiset{}
    ensures IsBottom(loads, x)
  {
    ExtremesExist(loads);
    var x :| IsBottom(loads, x);
    x
  }

  // One session moves from a heaviest to a lightest endpoint.
  ghost function Closer(loads: multiset<nat>): multiset<nat>
    requires loads != multiset{} && Bottom(loads) < Top(loads)
  {
    loads - multiset{Top(loads), Bottom(loads)} + multiset{Top(loads) - 1, Bottom(loads) + 1}
  }

  // Every load of a lies in the range of b.
  ghost predicate Inside(a: multiset<nat>, b: multiset<nat>)
  {
    a != multiset{} ==> b != multiset{} && Bottom(b) <= Bottom(a) && Top(a) <= Top(b)
  }

  lemma CloserCount(loads: multiset<nat>, x: nat)
    requires loads != multiset{} && Bottom(loads) < Top(loads)
    ensures var hi, lo := Top(loads), Bottom(loads);
            Closer(loads)[x] == loads[x] + Change(hi, lo, x)
  {
    PairCount(Top(loads), Bottom(loads), x);
    PairCount(Top(loads) - 1, Bottom(loads) + 1, x);
  }

  lemma PairCount(a: nat, b: nat, x: nat)
    ensures multiset{a, b}[x] == One(x == a) + One(x == b)
  {
  }

  lemma CloserInside(loads: multiset<nat>)
    requires loads != multiset{} && Bottom(loads) < Top(loads)
    ensures Closer(loads) != multiset{} && Inside(Closer(loads), loads)
    ensures Bottom(loads) + 1 < Top(loads) ==>
      var c := Closer(loads);
      Bottom(loads) <= Bottom(c) && Top(c) <= Top(loads)
      && (Bottom(c) == Bottom(loads) && Top(c) == Top(loads) ==> c[Top(loads)] < loads[Top(loads)])
  {
    var c, hi, lo := Closer(loads), Top(loads), Bottom(loads);
    assert hi - 1 in multiset{hi - 1, lo + 1};
    forall x | x in c
      ensures lo <= x <= hi
    {
      CloserCount(loads, x);
    }
    CloserCount(loads, hi);
  }

  // What is left of the loads once the loop is done with those above h.
  ghost function Levelled(loads: multiset<nat>, h: nat): (r: multiset<nat>)
    ensures Inside(r, loads) && (loads != multiset{} ==> r != multiset{})
    decreases if loads == multiset{} then 0 else Top(loads) - Bottom(loads),
              if loads == multiset{} then 0 else loads[Top(loads)]
  {
    if loads == multiset{} || Top(loads) <= h || Bottom(loads) + 1 >= Top(loads) then loads
    else
      CloserInside(loads);
      Levelled(Closer(loads), h)
  }

  // A move of the loop either is one of those above h, or happens inside what they leave.
  lemma LevelledByMove(loads: multiset<nat>, h: nat)
    requires loads != multiset{} && Bottom(loads) < Top(loads)
    ensures Inside(Levelled(Closer(loads), h), Levelled(loads, h))
    ensures Top(loads) > h && Bottom(loads) + 1 < Top(loads) ==>
      Inside(Levelled(loads, h), Levelled(Closer(loads), h))
  {
    CloserInside(loads);
  }

  // ---------- loads out of band ----------

  // OutOfBand, behind Look: its products are of no concern to most proofs.
  ghost predicate IsOut(cfg: Config, n: nat, k: nat, x: nat)
  {
    forall m {:trigger Look(BandSeal, m)} :: Look(BandSeal, m) ==> k > 0 && OutOfBand(cfg, n, k, x)
  }

  lemma WiderIsOut(cfg: Config, n: nat, k: nat, a: multiset<nat>, b: multiset<nat>, x: nat) returns (y: nat)
    requires Inside(a, b) && x in a && IsOut(cfg, n, k, x)
    ensures y in b && IsOut(cfg, n, k, y)
  {
    y := FurtherExtreme(cfg, n, k, Bottom(b), x, Top(b));
  }

  lemma FurtherExtreme(cfg: Config, n: nat, k: nat, lo: nat, x: nat, hi: nat) returns (y: nat)
    requires lo <= x <= hi && IsOut(cfg, n, k, x)
    ensures (y == lo || y == hi) && IsOut(cfg, n, k, y)
  {
    assert Look(BandSeal, 0);
    y := if x * k >= n then hi else lo;
    FurtherIsOut(cfg, n, k, x, y);
  }

  lemma TypeOfNeed(cfg: Config, types: seq<ClientType>, l: seq<nat>) returns (u: ClientType, x: nat)
    requires |types| == |l| && Needs(cfg, l)
    ensures x in LoadsIn(types, l, u) && IsOut(cfg, Sum(l), |l|, x)
  {
    var j :| 0 <= j < |l| && OutOfBand(cfg, Sum(l), |l|, l[j]);
    u, x := types[j], l[j];
    LoadPresent(types, l, j);
  }

  lemma NeedOfType(cfg: Config, types: seq<ClientType>, l: seq<nat>, u: ClientType, x: nat)
    requires |types| == |l| && x in LoadsIn(types, l, u) && IsOut(cfg, Sum(l), |l|, x)
    ensures Needs(cfg, l)
  {
    assert Look(BandSeal, 0);
    var j := PlaceOfLoad(types, l, u, x);
  }

  // ---------- the test ----------

  function Floor(types: seq<ClientType>, l: seq<nat>, t: ClientType): nat
    requires |types| == |l| && EndpointsOf(types, t) > 0
  {
    SessionsOf(types, l, t) / EndpointsOf(types, t)
  }

  // The loads of type u while the loop swaps sessions of type t between loads q and q + 1: t is spread evenly, and
  // the others are levelled down to the heavier of these, as far as they go.
  ghost function LoadsAtSwap(types: seq<ClientType>, l: seq<nat>, t: ClientType, q: nat, u: ClientType): multiset<nat>
    requires |types| == |l|
  {
    if u == t then multiset{q, q + 1} else Levelled(LoadsIn(types, l, u), q + 1)
  }

  // Of the types that do not divide, t has the heaviest endpoint when spread evenly.
  ghost predicate HoldsUp(types: seq<ClientType>, l: seq<nat>, t: ClientType)
    requires |types| == |l|
  {
    && !Divides(types, l, t)
    && forall u :: !Divides(types, l, u) ==> Floor(types, l, u) <= Floor(types, l, t)
  }

  // A load of type u that is out of band at the swap.
  ghost predicate OutAtSwap(cfg: Config, types: seq<ClientType>, l: seq<nat>, t: ClientType, q: nat, u: ClientType,
                            x: nat)
    requires |types| == |l|
  {
    x in LoadsAtSwap(types, l, t, q, u) && IsOut(cfg, Sum(l), |l|, x)
  }

  // The test on the loads the loop starts from: t holds the loop up, and a load is out of band meanwhile.
  ghost predicate SwapsForEver(cfg: Config, types: seq<ClientType>, l: seq<nat>, t: ClientType)
    requires |types| == |l|
  {
    HoldsUp(types, l, t) && exists u, x: nat :: OutAtSwap(cfg, types, l, t, Floor(types, l, t), u, x)
  }

  // ---------- what a move of the loop does to the loads of its type ----------

  lemma ExtremesOfType(types: seq<ClientType>, l: seq<nat>, a: nat, b: nat)
    requires |types| == |l| && a < |l| && b < |l| && types[a] == types[b]
    requires forall c :: 0 <= c < |l| && types[c] == types[a] ==> l[b] <= l[c] <= l[a]
    ensures var loads := LoadsIn(types, l, types[a]);
            loads != multiset{} && Top(loads) == l[a] && Bottom(loads) == l[b]
  {
    var loads := LoadsIn(types, l, types[a]);
    LoadPresent(types, l, a);
    LoadPresent(types, l, b);
    var top := PlaceOfLoad(types, l, types[a], Top(loads));
    var bottom := PlaceOfLoad(types, l, types[a], Bottom(loads));
  }

  lemma MoveIsCloser(types: seq<ClientType>, s: Seating, i: nat, b: nat, u: ClientType)
    requires BoundAtHome(types, s) && Chosen(types, s, i, b)
    ensures var before := LoadsIn(types, LoadsOf(s, |types|), u);
            var after := LoadsIn(types, LoadsOf(Reseated(s, i, b), |types|), u);
            if u == s[i].prefix
            then before != multiset{} && Bottom(before) == LoadsOf(s, |types|)[b]
                 && Top(before) == LoadsOf(s, |types|)[s[i].at.value]
                 && Bottom(before) < Top(before) && after == Closer(before)
            else after == before
  {
    var l, a := LoadsOf(s, |types|), s[i].at.value;
    MoveShiftsLoads(types, s, i, b);
    forall c | 0 <= c < |types| && types[c] == s[i].prefix
      ensures l[b] <= l[c] <= l[a]
    {
      ChosenIsTypeMax(types, s, i, b, c);
    }
    ExtremesOfType(types, l, a, b);
    ShiftIsCloser(types, l, a, b, u);
  }

  lemma ShiftIsCloser(types: seq<ClientType>, l: seq<nat>, a: nat, b: nat, u: ClientType)
    requires |types| == |l| && a < |l| && b < |l| && types[a] == types[b] && l[b] < l[a]
    requires var loads := LoadsIn(types, l, types[a]);
             loads != multiset{} && Top(loads) == l[a] && Bottom(loads) == l[b]
    ensures LoadsIn(types, Shift(l, a, b), u)
         == if u == types[a] then Closer(LoadsIn(types, l, u)) else LoadsIn(types, l, u)
  {
    forall x
      ensures LoadsIn(types, Shift(l, a, b), u)[x]
           == LoadsIn(types, l, u)[x] + if u == types[a] then Change(l[a], l[b], x) else 0
    {
      ShiftCount(types, l, a, b, u, x);
    }
    if u == types[a] {
      ChangeIsCloser(LoadsIn(types, l, u), LoadsIn(types, Shift(l, a, b), u));
    } else {
      SameMultiset(LoadsIn(types, l, u), LoadsIn(types, Shift(l, a, b), u));
    }
  }

  // By how much the number of loads x changes.
  function Change(hi: nat, lo: nat, x: nat): int
  {
    One(x == hi - 1) + One(x == lo + 1) - One(x == hi) - One(x == lo)
  }

  lemma ChangeIsCloser(before: multiset<nat>, after: multiset<nat>)
    requires before != multiset{} && Bottom(before) < Top(before)
    requires forall x: nat :: after[x] == before[x] + Change(Top(before), Bottom(before), x)
    ensures after == Closer(before)
  {
    forall x: nat
      ensures after[x] == Closer(before)[x]
    {
      CloserCount(before, x);
    }
    SameMultiset(after, Closer(before));
  }

  lemma SameMultiset(a: multiset<nat>, b: multiset<nat>)
    requires forall x: nat :: a[x] == b[x]
    ensures a == b
  {
  }

  lemma ShiftCount(types: seq<ClientType>, l: seq<nat>, a: nat, b: nat, u: ClientType, x: nat)
    requires |types| == |l| && a < |l| && b < |l| && types[a] == types[b] && l[b] < l[a]
    ensures LoadsIn(types, Shift(l, a, b), u)[x] == LoadsIn(types, l, u)[x]
         + if u == types[a] then Change(l[a], l[b], x) else 0
  {
    HeldChange(types, l, l[a := l[a] - 1], u, a, x);
    HeldChange(types, l[a := l[a] - 1], Shift(l, a, b), u, b, x);
    LoadsInHeld(types, l, u, x);
    LoadsInHeld(types, Shift(l, a, b), u, x);
  }

  // ---------- where t holds the loop up, it goes on ----------

  // Some move the loop makes starts from the endpoint of a heaviest mover.
  lemma MoveFrom(types: seq<ClientType>, s: Seating, i: nat, b: nat) returns (i': nat, b': nat)
    requires Legal(types, s, i, b)
    requires forall j: nat, c: nat :: Legal(types, s, j, c) ==>
      LoadsOf(s, |types|)[s[j].at.value] <= LoadsOf(s, |types|)[s[i].at.value]
    ensures Chosen(types, s, i', b') && s[i'].at == s[i].at
  {
    i' := i;
    if j :| 0 <= j < |s| && s[j].at == s[i].at && s[j].prefix == Unspecified {
      i' := j;
    }
    i' := Oldest(s, s[i].at.value, s[i'].prefix, i');
    b' := LightestTarget(types, LoadsOf(s, |types|), s[i'].prefix, b);
  }

  // A move above what t needs, or one of type t itself: the loop can always make one of these.
  lemma MoveWhileHeldUp(types: seq<ClientType>, s: Seating, t: ClientType) returns (i: nat, b: nat)
    requires BoundAtHome(types, s) && HoldsUp(types, LoadsOf(s, |types|), t)
    ensures Chosen(types, s, i, b)
    ensures s[i].prefix == t || LoadsOf(s, |types|)[s[i].at.value] > Floor(types, LoadsOf(s, |types|), t) + 1
  {
    var l := LoadsOf(s, |types|);
    var j, c := NeverStuckUndivided(types, s, t);
    i, b := RoundExists(types, s, j, c);
    if s[i].prefix != t && l[s[i].at.value] <= Floor(types, l, t) + 1 {
      i, b := MoveFrom(types, s, j, c);
    }
  }

  // A type that does not hold the loop up has no swap above what t needs.
  lemma GapAbove(types: seq<ClientType>, s: Seating, t: ClientType, i: nat, b: nat)
    requires BoundAtHome(types, s) && HoldsUp(types, LoadsOf(s, |types|), t) && Chosen(types, s, i, b)
    requires LoadsOf(s, |types|)[s[i].at.value] > Floor(types, LoadsOf(s, |types|), t) + 1
    ensures LoadsOf(s, |types|)[b] + 1 < LoadsOf(s, |types|)[s[i].at.value]
  {
    var l, a, u := LoadsOf(s, |types|), s[i].at.value, s[i].prefix;
    if l[a] == l[b] + 1 {
      forall c | 0 <= c < |types| && types[c] == u
        ensures l[b] <= l[c] <= l[a]
      {
        ChosenIsTypeMax(types, s, i, b, c);
      }
      NarrowDoesNotDivide(types, l, u, a, b);
      AroundAverage(types, l, u, a, b);
      assert false;
    }
  }

  lemma SameTests(types: seq<ClientType>, s: Seating, r: Seating, t: ClientType)
    requires SameCounts(types, s, r)
    ensures var l, m := LoadsOf(s, |types|), LoadsOf(r, |types|);
            (Divides(types, m, t) <==> Divides(types, l, t)) && (HoldsUp(types, m, t) <==> HoldsUp(types, l, t))
            && (EndpointsOf(types, t) > 0 ==> Floor(types, m, t) == Floor(types, l, t))
  {
    var l, m := LoadsOf(s, |types|), LoadsOf(r, |types|);
    assert forall u :: SessionsOf(types, m, u) == SessionsOf(types, l, u);
    assert forall u :: Divides(types, m, u) == Divides(types, l, u);
    assert forall u :: !Divides(types, l, u) ==> Floor(types, m, u) == Floor(types, l, u);
  }

  lemma SwapsOn(cfg: Config, types: seq<ClientType>, s: Seating, t: ClientType) returns (r: Seating)
    requires BoundAtHome(types, s) && SwapsForEver(cfg, types, LoadsOf(s, |types|), t)
    ensures Needs(cfg, LoadsOf(s, |types|)) && Round(types, s, r)
    ensures BoundAtHome(types, r) && SwapsForEver(cfg, types, LoadsOf(r, |types|), t)
  {
    var l := LoadsOf(s, |types|);
    SwapsNeed(cfg, types, l, t);
    var i, b := MoveWhileHeldUp(types, s, t);
    r := Reseated(s, i, b);
    MoveStaysInType(types, s, i, b);
    SameTests(types, s, r, t);
    if s[i].prefix != t {
      GapAbove(types, s, t, i, b);
    }
    var q := Floor(types, l, t);
    var u, x: nat :| OutAtSwap(cfg, types, l, t, q, u, x);
    if u != t {
      MoveLowers(types, s, i, b, t, q, u);
    }
    AtSwapKept(types, s, r, t, q, u);
    var y := StillOut(cfg, types, s, r, t, q, u, x);
  }

  // The loads of a type at the swap are no better in r than in s, behind Look.
  ghost predicate KeepsSwap(types: seq<ClientType>, s: Seating, r: Seating, t: ClientType, q: nat, u: ClientType)
  {
    forall k {:trigger Look(LevelSeal, k)} :: Look(LevelSeal, k) ==>
      Inside(LoadsAtSwap(types, LoadsOf(s, |types|), t, q, u), LoadsAtSwap(types, LoadsOf(r, |types|), t, q, u))
  }

  lemma StillOut(cfg: Config, types: seq<ClientType>, s: Seating, r: Seating, t: ClientType, q: nat, u: ClientType,
                 x: nat) returns (y: nat)
    requires Sum(LoadsOf(r, |types|)) == Sum(LoadsOf(s, |types|)) && KeepsSwap(types, s, r, t, q, u)
    requires OutAtSwap(cfg, types, LoadsOf(s, |types|), t, q, u, x)
    ensures OutAtSwap(cfg, types, LoadsOf(r, |types|), t, q, u, y)
  {
    assert Look(LevelSeal, 0);
    y := WiderIsOut(cfg, Sum(LoadsOf(s, |types|)), |types|, LoadsAtSwap(types, LoadsOf(s, |types|), t, q, u),
                    LoadsAtSwap(types, LoadsOf(r, |types|), t, q, u), x);
  }

  // The loads of a type in r are those in s, or those after a move above h that closes a gap; behind Look.
  ghost predicate Lowers(types: seq<ClientType>, s: Seating, r: Seating, u: ClientType, h: nat)
  {
    forall k {:trigger Look(LevelSeal, k)} :: Look(LevelSeal, k) ==>
      LowersLoads(LoadsIn(types, LoadsOf(s, |types|), u), LoadsIn(types, LoadsOf(r, |types|), u), h)
  }

  ghost predicate LowersLoads(before: multiset<nat>, after: multiset<nat>, h: nat)
  {
    || after == before
    || (before != multiset{} && Top(before) > h && Bottom(before) + 1 < Top(before) && after == Closer(before))
  }

  lemma MoveLowers(types: seq<ClientType>, s: Seating, i: nat, b: nat, t: ClientType, q: nat, u: ClientType)
    requires BoundAtHome(types, s) && Chosen(types, s, i, b) && u != t
    requires s[i].prefix == t || LoadsOf(s, |types|)[b] + 1 < LoadsOf(s, |types|)[s[i].at.value]
    requires s[i].prefix == t || LoadsOf(s, |types|)[s[i].at.value] > q + 1
    ensures Lowers(types, s, Reseated(s, i, b), u, q + 1)
  {
    MoveIsCloser(types, s, i, b, u);
    assert LowersLoads(LoadsIn(types, LoadsOf(s, |types|), u), LoadsIn(types, LoadsOf(Reseated(s, i, b), |types|), u),
                       q + 1);
  }

  lemma AtSwapKept(types: seq<ClientType>, s: Seating, r: Seating, t: ClientType, q: nat, u: ClientType)
    requires u != t ==> Lowers(types, s, r, u, q + 1)
    ensures KeepsSwap(types, s, r, t, q, u)
  {
    if u != t {
      assert Look(LevelSeal, 0);
      KeptBelow(LoadsIn(types, LoadsOf(s, |types|), u), LoadsIn(types, LoadsOf(r, |types|), u), q + 1);
    }
  }

  lemma KeptBelow(before: multiset<nat>, after: multiset<nat>, h: nat)
    requires LowersLoads(before, after, h)
    ensures Inside(Levelled(before, h), Levelled(after, h))
  {
    if after != before {
      LevelledByMove(before, h);
    }
  }

  // While t holds the loop up, the loads are no better than when it swaps.
  lemma SwapsNeed(cfg: Config, types: seq<ClientType>, l: seq<nat>, t: ClientType)
    requires |types| == |l| && SwapsForEver(cfg, types, l, t)
    ensures Needs(cfg, l)
  {
    var q := Floor(types, l, t);
    var u, x: nat :| OutAtSwap(cfg, types, l, t, q, u, x);
    if u == t {
      EvenInside(types, l, t);
    }
    var y := WiderIsOut(cfg, Sum(l), |l|, LoadsAtSwap(types, l, t, q, u), LoadsIn(types, l, u), x);
    NeedOfType(cfg, types, l, u, y);
  }

  lemma EvenInside(types: seq<ClientType>, l: seq<nat>, t: ClientType)
    requires |types| == |l| && !Divides(types, l, t)
    ensures var q := Floor(types, l, t); Inside(multiset{q, q + 1}, LoadsIn(types, l, t))
  {
    var a := TypeMax(types, l, t);
    var b := TypeMin(types, l, t);
    AroundAverage(types, l, t, a, b);
    ExtremesOfType(types, l, a, b);
    PairExtremes(Floor(types, l, t));
  }

  lemma PairExtremes(q: nat)
    ensures Bottom(multiset{q, q + 1}) == q && Top(multiset{q, q + 1}) == q + 1
  {
    assert q in multiset{q, q + 1} && q + 1 in multiset{q, q + 1};
  }

  lemma {:induction false} SwapsWithoutEnd(cfg: Config, types: seq<ClientType>, s: Seating, t: ClientType, m: nat)
    returns (tr: seq<Seating>)
    requires cfg.maxSweep <= 0 && BoundAtHome(types, s) && SwapsForEver(cfg, types, LoadsOf(s, |types|), t)
    ensures Trace(cfg, types, tr) && tr[0] == s && |tr| == m + 1
    ensures BoundAtHome(types, tr[m]) && SwapsForEver(cfg, types, LoadsOf(tr[m], |types|), t)
    decreases m
  {
    if m == 0 {
      tr := [s];
    } else {
      var before := SwapsWithoutEnd(cfg, types, s, t, m - 1);
      var next := SwapsOn(cfg, types, before[m - 1], t);
      TraceGrows(cfg, types, before, next);
      tr := before + [next];
    }
  }

  // ---------- a loop that does not stop is held up ----------

  // The levelled loads of a type in r are no wider than in s, behind Look.
  ghost predicate Narrower(types: seq<ClientType>, s: Seating, r: Seating, u: ClientType, h: nat)
  {
    forall k {:trigger Look(LevelSeal, k)} :: Look(LevelSeal, k) ==>
      Inside(Levelled(LoadsIn(types, LoadsOf(r, |types|), u), h), Levelled(LoadsIn(types, LoadsOf(s, |types|), u), h))
  }

  lemma NarrowerByRound(types: seq<ClientType>, s: Seating, i: nat, b: nat, u: ClientType, h: nat)
    requires BoundAtHome(types, s) && Chosen(types, s, i, b)
    ensures Narrower(types, s, Reseated(s, i, b), u, h)
  {
    MoveIsCloser(types, s, i, b, u);
    if u == s[i].prefix {
      LevelledByMove(LoadsIn(types, LoadsOf(s, |types|), u), h);
    }
  }

  lemma NarrowerTransitive(types: seq<ClientType>, p: Seating, q: Seating, r: Seating, u: ClientType, h: nat)
    requires Narrower(types, p, q, u, h) && Narrower(types, q, r, u, h)
    ensures Narrower(types, p, r, u, h)
  {
  }

  // Along a run the levelled loads of a type only narrow.
  lemma {:induction false} NarrowerOverTrace(cfg: Config, types: seq<ClientType>, tr: seq<Seating>, m: nat,
                                             u: ClientType, h: nat)
    requires Trace(cfg, types, tr) && BoundAtHome(types, tr[0]) && m < |tr|
    ensures Narrower(types, tr[0], tr[m], u, h)
    decreases m
  {
    if m > 0 {
      var p := tr[m - 1];
      NarrowerOverTrace(cfg, types, tr, m - 1, u, h);
      CountsOverTrace(cfg, types, tr, m - 1);
      assert Round(types, p, tr[m]);
      var i: nat, b: nat :| Chosen(types, p, i, b) && tr[m] == Reseated(p, i, b);
      NarrowerByRound(types, p, i, b, u, h);
      NarrowerTransitive(types, tr[0], p, tr[m], u, h);
    }
  }

  // At a swap of type t, no type that does not divide has a heavier ceiling, and no other type has a load above
  // that of t that could move.
  lemma SwapHoldsUp(types: seq<ClientType>, s: Seating, i: nat, b: nat)
    requires BoundAtHome(types, s) && SwapMove(types, s, i, b)
    ensures HoldsUp(types, LoadsOf(s, |types|), s[i].prefix)
    ensures LoadsOf(s, |types|)[b] == Floor(types, LoadsOf(s, |types|), s[i].prefix)
  {
    var l, t := LoadsOf(s, |types|), s[i].prefix;
    SwapRefuted(types, s, i, b);
    SwapIsEven(types, s, i, b);
    forall u | !Divides(types, l, u)
      ensures Floor(types, l, u) <= l[b]
    {
      var j, c := NeverStuckUndivided(types, s, u);
    }
  }

  lemma SwapIsEven(types: seq<ClientType>, s: Seating, i: nat, b: nat)
    requires BoundAtHome(types, s) && SwapMove(types, s, i, b)
    ensures var l, t := LoadsOf(s, |types|), s[i].prefix; var loads := LoadsIn(types, l, t);
            && EndpointsOf(types, t) > 0 && Floor(types, l, t) == l[b]
            && loads != multiset{} && Bottom(loads) == l[b] && Top(loads) == l[b] + 1
  {
    var l, a, t := LoadsOf(s, |types|), s[i].at.value, s[i].prefix;
    forall c | 0 <= c < |types| && types[c] == t
      ensures l[b] <= l[c] <= l[a]
    {
      ChosenIsTypeMax(types, s, i, b, c);
    }
    ExtremesOfType(types, l, a, b);
    SwapRefuted(types, s, i, b);
  }

  // No load of the type in s moves that is above h, behind Look.
  ghost predicate StaysLevel(types: seq<ClientType>, s: Seating, u: ClientType, h: nat)
  {
    forall k {:trigger Look(LevelSeal, k)} :: Look(LevelSeal, k) ==>
      Inside(LoadsIn(types, LoadsOf(s, |types|), u), Levelled(LoadsIn(types, LoadsOf(s, |types|), u), h))
  }

  lemma OthersAreLevelled(types: seq<ClientType>, s: Seating, i: nat, b: nat, h: nat, u: ClientType)
    requires BoundAtHome(types, s) && SwapMove(types, s, i, b) && h == LoadsOf(s, |types|)[b] + 1
    ensures StaysLevel(types, s, u, h)
  {
    var l, a := LoadsOf(s, |types|), s[i].at.value;
    var loads := LoadsIn(types, l, u);
    if loads != multiset{} && Top(loads) > l[a] && Bottom(loads) < Top(loads) {
      var x := PlaceOfLoad(types, l, u, Top(loads));
      var y := PlaceOfLoad(types, l, u, Bottom(loads));
      var j := SomeoneSits(s, x);
      TimesMonotone(l[a], l[x], |l|);
      assert Legal(types, s, j, y);
      assert false;
    }
  }

  // The loads of a type in last are within those that the test reads off s, behind Look.
  ghost predicate WithinSwap(types: seq<ClientType>, s: Seating, last: Seating, t: ClientType, q: nat, u: ClientType)
  {
    forall k {:trigger Look(LevelSeal, k)} :: Look(LevelSeal, k) ==>
      Inside(LoadsIn(types, LoadsOf(last, |types|), u), LoadsAtSwap(types, LoadsOf(s, |types|), t, q, u))
  }

  // At a swap of type t between loads q and q + 1: t has no other loads, and no other type moves one above.
  ghost predicate IsSwap(types: seq<ClientType>, s: Seating, t: ClientType, q: nat)
  {
    && (forall k {:trigger Look(LevelSeal, k)} :: Look(LevelSeal, k) ==>
          var loads := LoadsIn(types, LoadsOf(s, |types|), t);
          loads != multiset{} && q <= Bottom(loads) && Top(loads) <= q + 1)
    && forall u {:trigger LevelTest(u)} :: LevelTest(u) ==> StaysLevel(types, s, u, q + 1)
  }

  // A dummy for the types to be looked at.
  ghost predicate LevelTest(u: ClientType)
  {
    true
  }

  lemma SwapPointIs(types: seq<ClientType>, s: Seating) returns (t: ClientType, q: nat)
    requires BoundAtHome(types, s) && SwapPoint(types, s)
    ensures HoldsUp(types, LoadsOf(s, |types|), t) && Floor(types, LoadsOf(s, |types|), t) == q
    ensures IsSwap(types, s, t, q)
  {
    var i: nat, b: nat :| SwapMove(types, s, i, b);
    t, q := s[i].prefix, LoadsOf(s, |types|)[b];
    SwapHoldsUp(types, s, i, b);
    SwapMoveIs(types, s, i, b, t, q);
  }

  lemma SwapMoveIs(types: seq<ClientType>, s: Seating, i: nat, b: nat, t: ClientType, q: nat)
    requires BoundAtHome(types, s) && SwapMove(types, s, i, b)
    requires t == s[i].prefix && q == LoadsOf(s, |types|)[b]
    ensures IsSwap(types, s, t, q)
  {
    SwapIsEven(types, s, i, b);
    OthersStayLevel(types, s, i, b, q + 1);
  }

  lemma OthersStayLevel(types: seq<ClientType>, s: Seating, i: nat, b: nat, h: nat)
    requires BoundAtHome(types, s) && SwapMove(types, s, i, b) && h == LoadsOf(s, |types|)[b] + 1
    ensures forall u {:trigger LevelTest(u)} :: LevelTest(u) ==> StaysLevel(types, s, u, h)
  {
    forall u | LevelTest(u)
      ensures StaysLevel(types, s, u, h)
    {
      OthersAreLevelled(types, s, i, b, h, u);
    }
  }

  lemma TypeWithinSwap(types: seq<ClientType>, s: Seating, last: Seating, t: ClientType, q: nat, u: ClientType)
    requires IsSwap(types, last, t, q) && Narrower(types, s, last, u, q + 1)
    ensures WithinSwap(types, s, last, t, q, u)
  {
    if u == t {
      PairExtremes(q);
    } else {
      assert LevelTest(u);
    }
  }

  lemma OutFromStart(cfg: Config, types: seq<ClientType>, s: Seating, last: Seating, t: ClientType, q: nat,
                     u: ClientType, x: nat) returns (y: nat)
    requires WithinSwap(types, s, last, t, q, u)
    requires Sum(LoadsOf(last, |types|)) == Sum(LoadsOf(s, |types|))
    requires x in LoadsIn(types, LoadsOf(last, |types|), u)
    requires IsOut(cfg, Sum(LoadsOf(last, |types|)), |types|, x)
    ensures OutAtSwap(cfg, types, LoadsOf(s, |types|), t, q, u, y)
  {
    assert Look(LevelSeal, 0);
    y := WiderIsOut(cfg, Sum(LoadsOf(s, |types|)), |types|, LoadsIn(types, LoadsOf(last, |types|), u),
                    LoadsAtSwap(types, LoadsOf(s, |types|), t, q, u), x);
  }

  // What is out of band at a swap is so in the loads that the test reads off the start.
  lemma SwapOut(cfg: Config, types: seq<ClientType>, tr: seq<Seating>, t: ClientType, q: nat)
    returns (u: ClientType, y: nat)
    requires Trace(cfg, types, tr) && BoundAtHome(types, tr[0]) && SameCounts(types, tr[0], tr[|tr| - 1])
    requires IsSwap(types, tr[|tr| - 1], t, q) && Needs(cfg, LoadsOf(tr[|tr| - 1], |types|))
    ensures OutAtSwap(cfg, types, LoadsOf(tr[0], |types|), t, q, u, y)
  {
    var last: Seating := tr[|tr| - 1];
    var x;
    u, x := TypeOfNeed(cfg, types, LoadsOf(last, |types|));
    NarrowerOverTrace(cfg, types, tr, |tr| - 1, u, q + 1);
    TypeWithinSwap(types, tr[0], last, t, q, u);
    y := OutFromStart(cfg, types, tr[0], last, t, q, u, x);
  }

  lemma SwapPointHoldsUp(cfg: Config, types: seq<ClientType>, s: Seating) returns (t: ClientType)
    requires BoundAtHome(types, s) && ReachesSwapPoint(cfg, types, s)
    ensures SwapsForEver(cfg, types, LoadsOf(s, |types|), t)
  {
    var tr: seq<Seating> :| ArrivesAtSwapPoint(cfg, types, s, tr);
    var q;
    CountsOverTrace(cfg, types, tr, |tr| - 1);
    t, q := SwapPointIs(types, tr[|tr| - 1]);
    SameTests(types, s, tr[|tr| - 1], t);
    var u, y := SwapOut(cfg, types, tr, t, q);
  }

  // ---------- the theorem ----------

  // Without a sweep limit, with all sessions bound to and on their type, the loop stops, however ties are broken,
  // exactly if the loads it starts from do not lead to a swap with a load out of band.
  lemma TerminatesIffNoneSwaps(cfg: Config, types: seq<ClientType>, s: Seating)
    requires cfg.maxSweep <= 0 && BoundAtHome(types, s)
    ensures Terminates(cfg, types, s) <==> !exists t :: SwapsForEver(cfg, types, LoadsOf(s, |types|), t)
  {
    TerminatesIffNoSwapPoint(cfg, types, s);
    if ReachesSwapPoint(cfg, types, s) {
      var t := SwapPointHoldsUp(cfg, types, s);
    }
    if t :| SwapsForEver(cfg, types, LoadsOf(s, |types|), t) {
      SwapsRefuteBound(cfg, types, s, t);
    }
  }

  lemma SwapsRefuteBound(cfg: Config, types: seq<ClientType>, s: Seating, t: ClientType)
    requires cfg.maxSweep <= 0 && BoundAtHome(types, s) && SwapsForEver(cfg, types, LoadsOf(s, |types|), t)
    ensures !Terminates(cfg, types, s)
  {
    if Terminates(cfg, types, s) {
      var moves: nat :| BoundedBy(cfg, types, s, moves);
      var tr := SwapsWithoutEnd(cfg, types, s, t, moves + 1);
      assert false;
    }
  }
}
