/**
 * When the rebalance loop stops, for sessions that are all bound to a type and sit on endpoints of it: a test
 * on nothing but the number of sessions and endpoints of each type.
 */
module RebalanceCounts {
  import opened Base
  import opened Loads
  import opened Rebalance
  import opened RebalanceTyped

  // Every session on a ready endpoint is bound to that endpoint's type.
  ghost predicate BoundAtHome(types: seq<ClientType>, s: Seating)
  {
    forall i :: 0 <= i < |s| && s[i].at.Some? && s[i].at.value < |types| ==>
      s[i].prefix != Unspecified && s[i].prefix == types[s[i].at.value]
  }

  // Sessions on the endpoints of type t, and those endpoints.
  function SessionsOf(types: seq<ClientType>, l: seq<nat>, t: ClientType): nat
    requires |types| == |l|
  {
    if l == [] then 0 else (if types[0] == t then l[0] else 0) + SessionsOf(types[1..], l[1..], t)
  }

  function EndpointsOf(types: seq<ClientType>, t: ClientType): nat
  {
    if types == [] then 0 else (if types[0] == t then 1 else 0) + EndpointsOf(types[1..], t)
  }

  // The sessions of the type divide evenly among its endpoints, or none of these need be overloaded.
  predicate Divides(types: seq<ClientType>, l: seq<nat>, t: ClientType)
    requires |types| == |l|
  {
    var n, k := SessionsOf(types, l, t), EndpointsOf(types, t);
    k == 0 || n % k == 0 || (n / k + 1) * |l| <= Sum(l)
  }

  function Ceiling(n: nat, k: nat): nat
    requires k > 0
  {
    if n % k == 0 then n / k else n / k + 1
  }

  // Of n sessions on k endpoints, m are spread evenly over j of these: one of the j is still out of band.
  predicate OutWhenEven(cfg: Config, n: nat, k: nat, m: nat, j: nat)
    requires k > 0 && j > 0
  {
    || (Ceiling(m, j) * k >= n && OutOfBand(cfg, n, k, Ceiling(m, j)))
    || (m / j * k <= n && OutOfBand(cfg, n, k, m / j))
  }

  // Spread as evenly as they can be, the sessions of the type still leave an endpoint out of band.
  predicate Lopsided(cfg: Config, types: seq<ClientType>, l: seq<nat>, t: ClientType)
    requires |types| == |l|
  {
    && l != [] && EndpointsOf(types, t) > 0
    && OutWhenEven(cfg, Sum(l), |l|, SessionsOf(types, l, t), EndpointsOf(types, t))
  }

  // ---------- loads of one type ----------

  lemma {:induction false} TypeMax(types: seq<ClientType>, l: seq<nat>, t: ClientType) returns (a: nat)
    requires |types| == |l| && EndpointsOf(types, t) > 0
    ensures a < |l| && types[a] == t && forall j :: 0 <= j < |l| && types[j] == t ==> l[j] <= l[a]
    decreases |l|
  {
    if EndpointsOf(types[1..], t) > 0 {
      a := TypeMax(types[1..], l[1..], t);
      a := a + 1;
      if types[0] == t && l[0] > l[a] {
        a := 0;
      }
    } else {
      a := 0;
      NoneOf(types[1..], t);
    }
  }

  lemma {:induction false} TypeMin(types: seq<ClientType>, l: seq<nat>, t: ClientType) returns (b: nat)
    requires |types| == |l| && EndpointsOf(types, t) > 0
    ensures b < |l| && types[b] == t && forall j :: 0 <= j < |l| && types[j] == t ==> l[b] <= l[j]
    decreases |l|
  {
    if EndpointsOf(types[1..], t) > 0 {
      b := TypeMin(types[1..], l[1..], t);
      b := b + 1;
      if types[0] == t && l[0] < l[b] {
        b := 0;
      }
    } else {
      b := 0;
      NoneOf(types[1..], t);
    }
  }

  lemma {:induction false} NoneOf(types: seq<ClientType>, t: ClientType)
    ensures EndpointsOf(types, t) == 0 <==> t !in types
    decreases |types|
  {
    if types != [] {
      NoneOf(types[1..], t);
    }
  }

  lemma {:induction false} TypeAbove(types: seq<ClientType>, l: seq<nat>, t: ClientType, lo: nat)
    requires |types| == |l|
    requires forall j :: 0 <= j < |l| && types[j] == t ==> lo <= l[j]
    ensures lo * EndpointsOf(types, t) <= SessionsOf(types, l, t)
    ensures (exists j :: 0 <= j < |l| && types[j] == t && lo < l[j]) ==>
      lo * EndpointsOf(types, t) < SessionsOf(types, l, t)
    decreases |l|
  {
    if l != [] {
      TypeAbove(types[1..], l[1..], t, lo);
      Distribute(lo, EndpointsOf(types[1..], t));
      if j :| 0 < j < |l| && types[j] == t && lo < l[j] {
        assert types[1..][j - 1] == t && lo < l[1..][j - 1];
      }
    }
  }

  lemma {:induction false} TypeBelow(types: seq<ClientType>, l: seq<nat>, t: ClientType, hi: nat)
    requires |types| == |l|
    requires forall j :: 0 <= j < |l| && types[j] == t ==> l[j] <= hi
    ensures SessionsOf(types, l, t) <= hi * EndpointsOf(types, t)
    ensures (exists j :: 0 <= j < |l| && types[j] == t && l[j] < hi) ==>
      SessionsOf(types, l, t) < hi * EndpointsOf(types, t)
    decreases |l|
  {
    if l != [] {
      TypeBelow(types[1..], l[1..], t, hi);
      Distribute(hi, EndpointsOf(types[1..], t));
      if j :| 0 < j < |l| && types[j] == t && l[j] < hi {
        assert types[1..][j - 1] == t && l[1..][j - 1] < hi;
      }
    }
  }

  lemma Distribute(x: nat, k: nat)
    ensures x * (k + 1) == x * k + x
  {
  }

  lemma {:induction false} TypeChange(types: seq<ClientType>, l: seq<nat>, m: seq<nat>, t: ClientType, i: nat)
    requires |types| == |l| == |m| && i < |l| && forall j :: 0 <= j < |l| && j != i ==> m[j] == l[j]
    ensures types[i] == t ==> SessionsOf(types, m, t) - m[i] == SessionsOf(types, l, t) - l[i]
    ensures types[i] != t ==> SessionsOf(types, m, t) == SessionsOf(types, l, t)
    decreases |l|
  {
    if i == 0 {
      assert m[1..] == l[1..];
    } else {
      TypeChange(types[1..], l[1..], m[1..], t, i - 1);
    }
  }

  // The heaviest endpoint of a type has at least the ceiling of the average, the lightest at most the floor.
  lemma AroundAverage(types: seq<ClientType>, l: seq<nat>, t: ClientType, a: nat, b: nat)
    requires |types| == |l| && EndpointsOf(types, t) > 0 && a < |l| && b < |l|
    requires forall j :: 0 <= j < |l| && types[j] == t ==> l[b] <= l[j] <= l[a]
    ensures var n, k := SessionsOf(types, l, t), EndpointsOf(types, t);
            l[b] <= n / k && Ceiling(n, k) <= l[a]
  {
    TypeAbove(types, l, t, l[b]);
    TypeBelow(types, l, t, l[a]);
    QuotientBetween(SessionsOf(types, l, t), EndpointsOf(types, t), l[b], l[a]);
  }

  lemma QuotientBetween(n: nat, k: nat, lo: nat, hi: nat)
    requires k > 0 && lo * k <= n <= hi * k
    ensures lo <= n / k && Ceiling(n, k) <= hi
  {
    var q := n / k;
    assert n == q * k + n % k;
    assert (q - lo) * k == q * k - lo * k;
    assert (hi - q) * k == hi * k - q * k;
    SmallMultiple(q - lo, k);
    SmallMultiple(hi - q, k);
  }

  // ---------- what a move keeps ----------

  // Same counts, so the same answers to the tests on counts.
  ghost predicate SameCounts(types: seq<ClientType>, s: Seating, t: Seating)
  {
    var l, m := LoadsOf(s, |types|), LoadsOf(t, |types|);
    Sum(m) == Sum(l) && forall c :: SessionsOf(types, m, c) == SessionsOf(types, l, c)
  }

  lemma ShiftInType(types: seq<ClientType>, l: seq<nat>, a: nat, b: nat, t: ClientType)
    requires |types| == |l| && a < |l| && b < |l| && l[b] < l[a] && types[a] == types[b]
    ensures SessionsOf(types, Shift(l, a, b), t) == SessionsOf(types, l, t)
  {
    var m := l[a := l[a] - 1];
    TypeChange(types, l, m, t, a);
    TypeChange(types, m, Shift(l, a, b), t, b);
  }

  lemma MoveStaysInType(types: seq<ClientType>, s: Seating, i: nat, b: nat)
    requires BoundAtHome(types, s) && Legal(types, s, i, b)
    ensures BoundAtHome(types, Reseated(s, i, b)) && SameCounts(types, s, Reseated(s, i, b))
  {
    var a, l := s[i].at.value, LoadsOf(s, |types|);
    MoveShiftsLoads(types, s, i, b);
    ShiftSum(l, a, b);
    forall t
      ensures SessionsOf(types, Shift(l, a, b), t) == SessionsOf(types, l, t)
    {
      ShiftInType(types, l, a, b, t);
    }
  }

  lemma {:induction false} CountsOverTrace(cfg: Config, types: seq<ClientType>, tr: seq<Seating>, m: nat)
    requires Trace(cfg, types, tr) && BoundAtHome(types, tr[0]) && m < |tr|
    ensures BoundAtHome(types, tr[m]) && SameCounts(types, tr[0], tr[m])
    decreases m
  {
    if m > 0 {
      CountsOverTrace(cfg, types, tr, m - 1);
      assert Round(types, tr[m - 1], tr[m]);
      var i: nat, b: nat :| Chosen(types, tr[m - 1], i, b) && tr[m] == Reseated(tr[m - 1], i, b);
      MoveStaysInType(types, tr[m - 1], i, b);
    }
  }

  // ---------- where the sessions divide there is no swap point ----------

  // The loop takes a session off the heaviest endpoint of its type.
  lemma ChosenIsTypeMax(types: seq<ClientType>, s: Seating, i: nat, b: nat, c: nat)
    requires BoundAtHome(types, s) && Chosen(types, s, i, b) && c < |types| && types[c] == s[i].prefix
    ensures LoadsOf(s, |types|)[b] <= LoadsOf(s, |types|)[c] <= LoadsOf(s, |types|)[s[i].at.value]
  {
    var l, a := LoadsOf(s, |types|), s[i].at.value;
    if l[c] > l[a] {
      var j := SomeoneSits(s, c);
      TimesMonotone(l[a], l[c], |l|);
      assert Legal(types, s, j, b);
    }
  }

  lemma NoSwapWhereDivided(types: seq<ClientType>, s: Seating)
    requires BoundAtHome(types, s) && forall t :: Divides(types, LoadsOf(s, |types|), t)
    ensures !SwapPoint(types, s)
  {
    forall i: nat, b: nat
      ensures !SwapMove(types, s, i, b)
    {
      if SwapMove(types, s, i, b) {
        SwapRefuted(types, s, i, b);
      }
    }
  }

  lemma SwapRefuted(types: seq<ClientType>, s: Seating, i: nat, b: nat)
    requires BoundAtHome(types, s) && SwapMove(types, s, i, b)
    ensures !Divides(types, LoadsOf(s, |types|), s[i].prefix)
    ensures LoadsOf(s, |types|)[b]
         == SessionsOf(types, LoadsOf(s, |types|), s[i].prefix) / EndpointsOf(types, s[i].prefix)
  {
    forall c | 0 <= c < |types| && types[c] == s[i].prefix
      ensures LoadsOf(s, |types|)[b] <= LoadsOf(s, |types|)[c] <= LoadsOf(s, |types|)[s[i].at.value]
    {
      ChosenIsTypeMax(types, s, i, b, c);
    }
    NarrowDoesNotDivide(types, LoadsOf(s, |types|), s[i].prefix, s[i].at.value, b);
  }

  // Loads q and q + 1 with q + 1 overloaded: the average is not a whole number, and its ceiling is overloaded.
  lemma NarrowDoesNotDivide(types: seq<ClientType>, l: seq<nat>, t: ClientType, a: nat, b: nat)
    requires |types| == |l| && a < |l| && b < |l| && types[a] == types[b] == t
    requires l[a] == l[b] + 1 && Overloaded(l, a)
    requires forall c :: 0 <= c < |l| && types[c] == t ==> l[b] <= l[c] <= l[a]
    ensures !Divides(types, l, t) && l[b] == SessionsOf(types, l, t) / EndpointsOf(types, t)
  {
    NoneOf(types, t);
    TypeAbove(types, l, t, l[b]);
    TypeBelow(types, l, t, l[a]);
    var n, k := SessionsOf(types, l, t), EndpointsOf(types, t);
    Deviations(n, k, l[b]);
    BetweenMultiples(n, k, l[b]);
  }

  lemma BetweenMultiples(n: nat, k: nat, q: nat)
    requires q * k < n < (q + 1) * k
    ensures n / k == q
  {
    Distribute(k, q);
    DivUnique(n, k, q, n - q * k);
  }

  // If the sessions of every type divide, the loop settles.
  lemma SettlesWhereDivided(cfg: Config, types: seq<ClientType>, s: Seating)
    requires BoundAtHome(types, s) && forall t :: Divides(types, LoadsOf(s, |types|), t)
    ensures BoundedBy(cfg, types, s, Potential(types, s))
  {
    forall tr | Trace(cfg, types, tr) && tr[0] == s
      ensures !ArrivesAtSwapPoint(cfg, types, s, tr)
    {
      var last := tr[|tr| - 1];
      CountsOverTrace(cfg, types, tr, |tr| - 1);
      assert forall t :: Divides(types, LoadsOf(last, |types|), t) == Divides(types, LoadsOf(s, |types|), t);
      NoSwapWhereDivided(types, last);
    }
    BoundedWithoutSwapPoint(cfg, types, s);
  }

  // ---------- where they do not there is always a move ----------

  lemma HeaviestMover(types: seq<ClientType>, s: Seating, i: nat, b: nat) returns (i': nat, b': nat)
    requires Legal(types, s, i, b)
    ensures Legal(types, s, i', b')
    ensures forall j: nat, c: nat :: Legal(types, s, j, c) ==>
      LoadsOf(s, |types|)[s[j].at.value] <= LoadsOf(s, |types|)[s[i'].at.value]
  {
    var l := LoadsOf(s, |types|);
    i', b' := i, b;
    for n := 0 to |s|
      invariant Legal(types, s, i', b')
      invariant forall j: nat, c: nat :: j < n && Legal(types, s, j, c) ==> l[s[j].at.value] <= l[s[i'].at.value]
    {
      if c: nat :| Legal(types, s, n, c) && l[s[n].at.value] > l[s[i'].at.value] {
        i', b' := n, c;
      }
    }
  }

  lemma LightestTarget(types: seq<ClientType>, l: seq<nat>, prefix: ClientType, b: nat) returns (b': nat)
    requires |types| == |l| && b < |l| && MayUse(prefix, types[b])
    ensures b' < |l| && MayUse(prefix, types[b']) && l[b'] <= l[b]
    ensures forall c :: 0 <= c < |l| && MayUse(prefix, types[c]) ==> l[b'] <= l[c]
  {
    b' := b;
    for n := 0 to |l|
      invariant b' < |l| && MayUse(prefix, types[b']) && l[b'] <= l[b]
      invariant forall c :: 0 <= c < n && MayUse(prefix, types[c]) ==> l[b'] <= l[c]
    {
      if MayUse(prefix, types[n]) && l[n] < l[b'] {
        b' := n;
      }
    }
  }

  // Whatever the sessions: where some move is legal the loop makes one.
  lemma RoundExists(types: seq<ClientType>, s: Seating, i: nat, b: nat) returns (i': nat, b': nat)
    requires Legal(types, s, i, b)
    ensures Chosen(types, s, i', b')
  {
    i', b' := HeaviestMover(types, s, i, b);
    var a := s[i'].at.value;
    if j :| 0 <= j < |s| && SitsAt(s[j], a) && s[j].prefix == Unspecified {
      i' := j;
    }
    i' := Oldest(s, a, s[i'].prefix, i');
    b' := LightestTarget(types, LoadsOf(s, |types|), s[i'].prefix, b');
  }

  // Sessions that do not divide leave one of their type a move from its heaviest to its lightest endpoint.
  lemma NeverStuckUndivided(types: seq<ClientType>, s: Seating, t: ClientType) returns (i: nat, b: nat)
    requires BoundAtHome(types, s) && !Divides(types, LoadsOf(s, |types|), t)
    ensures Legal(types, s, i, b) && s[i].prefix == t
    ensures LoadsOf(s, |types|)[s[i].at.value] > SessionsOf(types, LoadsOf(s, |types|), t) / EndpointsOf(types, t)
  {
    var l := LoadsOf(s, |types|);
    var a := TypeMax(types, l, t);
    b := TypeMin(types, l, t);
    AroundAverage(types, l, t, a, b);
    TimesMonotone(SessionsOf(types, l, t) / EndpointsOf(types, t) + 1, l[a], |l|);
    i := SomeoneSits(s, a);
  }

  lemma FurtherIsOut(cfg: Config, n: nat, k: nat, load: nat, further: nat)
    requires k > 0 && OutOfBand(cfg, n, k, load)
    requires (load * k >= n && further >= load) || (load * k <= n && further <= load)
    ensures OutOfBand(cfg, n, k, further)
  {
    if further >= load {
      TimesMonotone(load, further, k);
    } else {
      TimesMonotone(further, load, k);
    }
    QuotientMonotone(Abs(load * k - n), Abs(further * k - n), k);
  }

  lemma QuotientMonotone(x: nat, y: nat, k: nat)
    requires k > 0 && x <= y
    ensures x / k <= y / k
  {
    QuotientBetween(y, k, x / k, y);
  }

  lemma FurtherThanEven(cfg: Config, n: nat, k: nat, m: nat, j: nat, lo: nat, hi: nat)
    requires k > 0 && j > 0 && OutWhenEven(cfg, n, k, m, j) && lo <= m / j && Ceiling(m, j) <= hi
    ensures OutOfBand(cfg, n, k, lo) || OutOfBand(cfg, n, k, hi)
  {
    var floor, ceiling := m / j, Ceiling(m, j);
    if ceiling * k >= n && OutOfBand(cfg, n, k, ceiling) {
      FurtherIsOut(cfg, n, k, ceiling, hi);
    } else {
      FurtherIsOut(cfg, n, k, floor, lo);
    }
  }

  lemma LopsidedNeeds(cfg: Config, types: seq<ClientType>, l: seq<nat>, t: ClientType)
    requires |types| == |l| && Lopsided(cfg, types, l, t)
    ensures Needs(cfg, l)
  {
    var a := TypeMax(types, l, t);
    var b := TypeMin(types, l, t);
    AroundAverage(types, l, t, a, b);
    FurtherThanEven(cfg, Sum(l), |l|, SessionsOf(types, l, t), EndpointsOf(types, t), l[b], l[a]);
  }

  lemma {:induction false} EndlessUndivided(cfg: Config, types: seq<ClientType>, s: Seating, t: ClientType,
                                            u: ClientType, m: nat) returns (tr: seq<Seating>)
    requires cfg.maxSweep <= 0 && BoundAtHome(types, s)
    requires !Divides(types, LoadsOf(s, |types|), t) && Lopsided(cfg, types, LoadsOf(s, |types|), u)
    ensures Trace(cfg, types, tr) && tr[0] == s && |tr| == m + 1
    decreases m
  {
    if m == 0 {
      tr := [s];
    } else {
      tr := EndlessUndivided(cfg, types, s, t, u, m - 1);
      var last := tr[m - 1];
      CountsOverTrace(cfg, types, tr, m - 1);
      LopsidedNeeds(cfg, types, LoadsOf(last, |types|), u);
      var i, b := NeverStuckUndivided(types, last, t);
      i, b := RoundExists(types, last, i, b);
      TraceGrows(cfg, types, tr, Reseated(last, i, b));
      tr := tr + [Reseated(last, i, b)];
    }
  }

  // A special case of the exact criterion in RebalanceExact, on counts alone.
  // Where the sessions of some type are bound to leave a load out of band, the loop stops, however ties are
  // broken, exactly if the sessions of every type divide among its endpoints.
  lemma TerminatesIffDivided(cfg: Config, types: seq<ClientType>, s: Seating)
    requires cfg.maxSweep <= 0 && BoundAtHome(types, s)
    requires exists u :: Lopsided(cfg, types, LoadsOf(s, |types|), u)
    ensures Terminates(cfg, types, s) <==> forall t :: Divides(types, LoadsOf(s, |types|), t)
  {
    if t :| !Divides(types, LoadsOf(s, |types|), t) {
      var u :| Lopsided(cfg, types, LoadsOf(s, |types|), u);
      if Terminates(cfg, types, s) {
        var moves: nat :| BoundedBy(cfg, types, s, moves);
        var tr := EndlessUndivided(cfg, types, s, t, u, moves + 1);
        assert false;
      }
    } else {
      SettlesWhereDivided(cfg, types, s);
    }
  }
}
