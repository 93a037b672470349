/**
 * Session rebalancing as a transition system on values: who sits where, which moves one round may
 * make, and when the loop is bound to stop.
 */
module Rebalance {
  import opened Base
  import opened Loads

  // A session: its prefix, when it was created, and its place among the ready endpoints, if it has one.
  datatype Seat = Seat(prefix: ClientType, since: int, at: Option<nat>)

  type Seating = seq<Seat>

  datatype Config = Config(threshold: real, absThreshold: int, maxSweep: int)

  predicate SitsAt(seat: Seat, place: nat)
  {
    seat.at == Some(place)
  }

  function CountAt(s: Seating, place: nat): nat
  {
    if s == [] then 0 else (if SitsAt(s[0], place) then 1 else 0) + CountAt(s[1..], place)
  }

  // The load of each of the k ready endpoints.
  function LoadsOf(s: Seating, k: nat): (l: seq<nat>)
    ensures |l| == k && forall j :: 0 <= j < k ==> l[j] == CountAt(s, j)
  {
    seq(k, j requires 0 <= j < k => CountAt(s, j))
  }

  function Abs(x: int): nat
  {
    if x < 0 then -x else x
  }

  // One load deviates from the ideal n/k by more than both thresholds (cross-multiplied by k and n).
  predicate OutOfBand(cfg: Config, n: nat, k: nat, load: nat)
    requires k > 0
  {
    && Abs(load * k - n) as real > cfg.threshold * n as real
    && Abs(load * k - n) / k > cfg.absThreshold
  }

  ghost predicate Needs(cfg: Config, l: seq<nat>)
  {
    exists j :: 0 <= j < |l| && OutOfBand(cfg, Sum(l), |l|, l[j])
  }

  predicate Overloaded(l: seq<nat>, a: nat)
    requires a < |l|
  {
    l[a] * |l| > Sum(l)
  }

  // Sessions without a prefix may use any endpoint, the others only endpoints of their type.
  predicate MayUse(prefix: ClientType, clientType: ClientType)
  {
    prefix == Unspecified || prefix == clientType
  }

  // Session i sits on an overloaded endpoint and may use the less loaded endpoint b.
  predicate Legal(types: seq<ClientType>, s: Seating, i: nat, b: nat)
  {
    var l := LoadsOf(s, |types|);
    && i < |s| && s[i].at.Some? && s[i].at.value < |types| && b < |types|
    && Overloaded(l, s[i].at.value)
    && l[b] < l[s[i].at.value]
    && MayUse(s[i].prefix, types[b])
  }

  function Reseated(s: Seating, i: nat, b: nat): Seating
    requires i < |s|
  {
    s[i := s[i].(at := Some(b))]
  }

  // The move a round makes: off the most loaded endpoint any session may leave, to the least loaded one
  // the session may use; a session without prefix first, and the oldest of its kind.
  ghost predicate Chosen(types: seq<ClientType>, s: Seating, i: nat, b: nat)
  {
    var l := LoadsOf(s, |types|);
    && Legal(types, s, i, b)
    && (forall i': nat, b': nat :: Legal(types, s, i', b') ==> l[s[i'].at.value] <= l[s[i].at.value])
    && (forall b' :: 0 <= b' < |types| && MayUse(s[i].prefix, types[b']) ==> l[b] <= l[b'])
    && (forall i' :: 0 <= i' < |s| && s[i'].at == s[i].at ==>
          && (s[i'].prefix == Unspecified ==> s[i].prefix == Unspecified)
          && (s[i'].prefix == s[i].prefix ==> s[i].since <= s[i'].since))
  }

  ghost predicate Round(types: seq<ClientType>, s: Seating, t: Seating)
  {
    exists i: nat, b: nat :: Chosen(types, s, i, b) && t == Reseated(s, i, b)
  }

  // No session on an overloaded endpoint has anywhere better to go.
  ghost predicate Stuck(types: seq<ClientType>, s: Seating)
  {
    forall i: nat, b: nat :: !Legal(types, s, i, b)
  }

  // The deviation as the source computes it: relative to the ideal load, and truncated to sessions.
  lemma OutOfBandIsDeviation(cfg: Config, n: nat, k: nat, load: nat)
    requires n > 0 && k > 0
    ensures var ideal := n as real / k as real;
            var dev := if load as real >= ideal then load as real - ideal else ideal - load as real;
            OutOfBand(cfg, n, k, load) <==> dev / ideal > cfg.threshold && dev.Floor > cfg.absThreshold
  {
    var ideal := n as real / k as real;
    var dev := if load as real >= ideal then load as real - ideal else ideal - load as real;
    ScaledDeviation(load, n, k, ideal, dev);
    RelativeDeviation(dev, ideal, n as real, k as real, Abs(load * k - n) as real, cfg.threshold);
    FloorOfQuotient(Abs(load * k - n), k, dev);
  }

  lemma ScaledDeviation(load: nat, n: nat, k: nat, ideal: real, dev: real)
    requires k > 0 && ideal == n as real / k as real
    requires dev == if load as real >= ideal then load as real - ideal else ideal - load as real
    ensures dev * k as real == Abs(load * k - n) as real
  {
    DifferenceTimes(load as real, n as real, k as real);
    assert (load * k) as real == load as real * k as real;
  }

  lemma DifferenceTimes(c: real, n: real, k: real)
    requires k > 0.0
    ensures (c - n / k) * k == c * k - n
    ensures c >= n / k <==> c * k >= n
  {
    assert n / k * k == n;
    Scale(c, n / k, k);
    Scale(n / k, c, k);
  }

  lemma Scale(a: real, b: real, k: real)
    requires k > 0.0
    ensures a > b <==> a * k > b * k
  {
    if a > b {
      assert (a - b) * k > 0.0;
    } else {
      assert (b - a) * k >= 0.0;
    }
  }

  lemma RelativeDeviation(dev: real, ideal: real, n: real, k: real, x: real, threshold: real)
    requires n > 0.0 && k > 0.0 && ideal == n / k && dev * k == x
    ensures ideal > 0.0 && (dev / ideal > threshold <==> x > threshold * n)
  {
    assert ideal * k == n;
    assert dev / ideal * ideal == dev;
    assert dev / ideal * n == dev / ideal * (ideal * k) == (dev / ideal * ideal) * k == x;
    Scale(dev / ideal, threshold, n);
  }

  lemma FloorOfQuotient(x: nat, k: nat, dev: real)
    requires k > 0 && dev * k as real == x as real
    ensures dev.Floor == x / k
  {
    FloorBounds(x, k, dev.Floor, dev);
    QuotientFromBounds(dev.Floor, x, k);
  }

  lemma FloorBounds(x: nat, k: nat, f: int, dev: real)
    requires k > 0 && dev * k as real == x as real && f as real <= dev < (f + 1) as real
    ensures f * k <= x < (f + 1) * k
  {
    var lo := ProductAsReal(f, k);
    var hi := ProductAsReal(f + 1, k);
    Scale(f as real, dev, k as real);
    Scale((f + 1) as real, dev, k as real);
    assert lo <= x as real < hi;
  }

  lemma ProductAsReal(a: int, k: int) returns (p: real)
    ensures p == (a * k) as real == a as real * k as real
  {
    p := (a * k) as real;
  }

  lemma QuotientFromBounds(f: int, x: nat, k: nat)
    requires f * k <= x < (f + 1) * k
    ensures f == x / k
  {
    assert (f + 1) * k == f * k + k;
    SmallMultiple(f, k);
    SmallMultiple(f + 1, k);
    DivUnique(x, k, f, x - f * k);
  }

  // ---------- what a move does to the loads ----------

  lemma {:induction false} CountReseated(s: Seating, i: nat, b: nat, j: nat)
    requires i < |s|
    ensures CountAt(Reseated(s, i, b), j)
         == CountAt(s, j) - (if SitsAt(s[i], j) then 1 else 0) + (if b == j then 1 else 0)
    decreases |s|
  {
    if i > 0 {
      assert Reseated(s, i, b)[1..] == Reseated(s[1..], i - 1, b);
      CountReseated(s[1..], i - 1, b, j);
    } else {
      assert Reseated(s, i, b)[1..] == s[1..];
    }
  }

  lemma MoveShiftsLoads(types: seq<ClientType>, s: Seating, i: nat, b: nat)
    requires Legal(types, s, i, b)
    ensures LoadsOf(Reseated(s, i, b), |types|) == Shift(LoadsOf(s, |types|), s[i].at.value, b)
  {
    var l, m := LoadsOf(s, |types|), LoadsOf(Reseated(s, i, b), |types|);
    forall j | 0 <= j < |types|
      ensures m[j] == Shift(l, s[i].at.value, b)[j]
    {
      CountReseated(s, i, b, j);
    }
  }

  // Every move, constrained or not, keeps the total, stays within the old extremes, and lowers the
  // sum of squares by 2 * (gap - 1).
  lemma MoveNeverWorsens(types: seq<ClientType>, s: Seating, i: nat, b: nat, lo: nat, hi: nat)
    requires Legal(types, s, i, b) && Within(LoadsOf(s, |types|), lo, hi)
    ensures var l := LoadsOf(s, |types|); var m := LoadsOf(Reseated(s, i, b), |types|);
            && Sum(m) == Sum(l)
            && Within(m, lo, hi)
            && SumSq(m) == SumSq(l) - 2 * (l[s[i].at.value] - l[b] - 1)
            && SumSq(m) <= SumSq(l)
  {
    var l := LoadsOf(s, |types|);
    MoveShiftsLoads(types, s, i, b);
    ShiftSum(l, s[i].at.value, b);
    ShiftSumSq(l, s[i].at.value, b);
    ShiftWithin(l, s[i].at.value, b, lo, hi);
  }

  // ---------- when every session may use every ready endpoint ----------

  ghost predicate Flexible(types: seq<ClientType>, s: Seating)
  {
    forall i, b :: 0 <= i < |s| && s[i].at.Some? && s[i].at.value < |types| && 0 <= b < |types| ==>
      MayUse(s[i].prefix, types[b])
  }

  lemma {:induction false} SomeoneSits(s: Seating, place: nat) returns (i: nat)
    requires CountAt(s, place) > 0
    ensures i < |s| && SitsAt(s[i], place)
    decreases |s|
  {
    if SitsAt(s[0], place) {
      i := 0;
    } else {
      i := SomeoneSits(s[1..], place);
      i := i + 1;
    }
  }

  // The oldest session of a prefix at a place.
  lemma Oldest(s: Seating, place: nat, prefix: ClientType, start: nat) returns (i: nat)
    requires start < |s| && SitsAt(s[start], place) && s[start].prefix == prefix
    ensures i < |s| && SitsAt(s[i], place) && s[i].prefix == prefix
    ensures forall j :: 0 <= j < |s| && SitsAt(s[j], place) && s[j].prefix == prefix ==> s[i].since <= s[j].since
  {
    i := start;
    for m := 0 to |s|
      invariant i < |s| && SitsAt(s[i], place) && s[i].prefix == prefix
      invariant forall j :: 0 <= j < m && SitsAt(s[j], place) && s[j].prefix == prefix ==> s[i].since <= s[j].since
    {
      if SitsAt(s[m], place) && s[m].prefix == prefix && s[m].since < s[i].since {
        i := m;
      }
    }
  }

  lemma HeaviestIsOverloaded(l: seq<nat>, a: nat, b: nat)
    requires IsMax(l, a) && b < |l| && l[b] < l[a]
    ensures Overloaded(l, a)
  {
    SumBelow(l, l[a]);
  }

  // Flexible sessions always have a move from the heaviest to the lightest endpoint.
  lemma MoveExists(types: seq<ClientType>, s: Seating, a: nat, b: nat) returns (i: nat)
    requires Flexible(types, s)
    requires var l := LoadsOf(s, |types|); IsMax(l, a) && IsMin(l, b) && l[b] < l[a]
    ensures Chosen(types, s, i, b) && SitsAt(s[i], a)
  {
    var l := LoadsOf(s, |types|);
    HeaviestIsOverloaded(l, a, b);
    i := SomeoneSits(s, a);
    if j :| 0 <= j < |s| && SitsAt(s[j], a) && s[j].prefix == Unspecified {
      i := j;
    }
    i := Oldest(s, a, s[i].prefix, i);
  }

  // ... and that is the only kind of move the loop makes.
  lemma ChosenIsExtreme(types: seq<ClientType>, s: Seating, i: nat, b: nat)
    requires Flexible(types, s) && Chosen(types, s, i, b)
    ensures IsMax(LoadsOf(s, |types|), s[i].at.value) && IsMin(LoadsOf(s, |types|), b)
  {
    var l := LoadsOf(s, |types|);
    assert IsMin(l, b);
    var a := MaxExists(l);
    var j := MoveExists(types, s, a, b);
    assert Legal(types, s, j, b);
  }

  lemma FlexibleKept(types: seq<ClientType>, s: Seating, i: nat, b: nat)
    requires Flexible(types, s) && Legal(types, s, i, b)
    ensures Flexible(types, Reseated(s, i, b))
  {
    var t := Reseated(s, i, b);
    forall j, c | 0 <= j < |t| && t[j].at.Some? && t[j].at.value < |types| && 0 <= c < |types|
      ensures MayUse(t[j].prefix, types[c])
    {
      assert MayUse(s[j].prefix, types[c]);
    }
  }

  // ---------- exactly when the loop settles ----------

  // The caller can tell from the configuration and the two counts: a negative absolute threshold makes
  // the loop insist on a remainder that cannot be spread evenly.
  predicate Settles(cfg: Config, n: nat, k: nat)
    requires k > 0
  {
    var r := n % k;
    || cfg.absThreshold >= 0
    || r == 0
    || (r as real <= cfg.threshold * n as real && (k - r) as real <= cfg.threshold * n as real)
  }

  lemma DivUnique(n: nat, k: nat, q: nat, r: nat)
    requires n == q * k + r && r < k
    ensures n / k == q && n % k == r
  {
    var d := n / k - q;
    assert d * k == r - n % k by {
      assert n == (n / k) * k + n % k;
      assert (n / k - q) * k == (n / k) * k - q * k;
    }
    SmallMultiple(d, k);
  }

  lemma SmallMultiple(d: int, k: int)
    requires k >= 0
    ensures d > 0 ==> d * k >= k
    ensures d < 0 ==> d * k <= -k
  {
  }

  // Loads that differ by one at most are q or q + 1, at distance r or k - r from the ideal.
  lemma NarrowLoads(l: seq<nat>, a: nat, b: nat)
    requires IsMax(l, a) && IsMin(l, b) && l[a] == l[b] + 1
    ensures var n, k := Sum(l), |l|;
            && 0 < n % k < k
            && forall j :: 0 <= j < k ==> Abs(l[j] * k - n) == n % k || Abs(l[j] * k - n) == k - n % k
  {
    var n, k, q := Sum(l), |l|, l[b];
    SumAbove(l, q);
    SumBelow(l, q + 1);
    Deviations(n, k, q);
    assert forall j :: 0 <= j < k ==> l[j] == q || l[j] == q + 1;
  }

  lemma Deviations(n: nat, k: nat, q: nat)
    requires q * k < n < (q + 1) * k
    ensures n % k == Abs(q * k - n) != 0 && k - n % k == Abs((q + 1) * k - n)
  {
    assert (q + 1) * k == q * k + k;
    DivUnique(n, k, q, n - q * k);
  }

  lemma NarrowNeedsNothing(cfg: Config, l: seq<nat>, a: nat, b: nat)
    requires IsMax(l, a) && IsMin(l, b) && l[a] == l[b] + 1
    requires Settles(cfg, Sum(l), |l|)
    ensures !Needs(cfg, l)
  {
    var n, k := Sum(l), |l|;
    NarrowLoads(l, a, b);
    forall j | 0 <= j < k
      ensures !OutOfBand(cfg, n, k, l[j])
    {
      NarrowInBand(cfg, n, k, l[j], Abs(l[j] * k - n));
    }
  }

  lemma NarrowInBand(cfg: Config, n: nat, k: nat, load: nat, dev: nat)
    requires k > 0 && Settles(cfg, n, k) && n % k != 0
    requires dev == Abs(load * k - n) && (dev == n % k || dev == k - n % k) && dev < k
    ensures !OutOfBand(cfg, n, k, load)
  {
    DivUnique(dev, k, 0, dev);
  }

  lemma EvenLoads(cfg: Config, l: seq<nat>, a: nat)
    requires a < |l| && forall j :: 0 <= j < |l| ==> l[j] == l[a]
    ensures Sum(l) % |l| == 0
    ensures cfg.absThreshold >= 0 ==> !Needs(cfg, l)
  {
    SumBelow(l, l[a]);
    SumAbove(l, l[a]);
    DivUnique(Sum(l), |l|, l[a], 0);
  }

  // Whatever the seating, some load is out of band and there is a move.
  lemma NeverInBand(cfg: Config, l: seq<nat>) returns (a: nat, b: nat)
    requires l != [] && !Settles(cfg, Sum(l), |l|)
    ensures Needs(cfg, l) && IsMax(l, a) && IsMin(l, b) && l[b] < l[a]
  {
    a := MaxExists(l);
    b := MinExists(l);
    if l[a] == l[b] {
      EvenLoads(cfg, l, a);
      assert false;
    }
    SumBelow(l, l[a]);
    SumAbove(l, l[b]);
    ExtremeOutOfBand(cfg, Sum(l), |l|, l[b], l[a]);
  }

  lemma ExtremeOutOfBand(cfg: Config, n: nat, k: nat, lo: nat, hi: nat)
    requires k > 0 && lo * k < n < hi * k && !Settles(cfg, n, k)
    ensures OutOfBand(cfg, n, k, lo) || OutOfBand(cfg, n, k, hi)
  {
    Extremes(n, k, lo, hi);
    QuotientNonNegative(Abs(lo * k - n), k);
    QuotientNonNegative(Abs(hi * k - n), k);
  }

  lemma QuotientNonNegative(x: nat, k: nat)
    requires k > 0
    ensures x / k >= 0
  {
  }

  lemma Extremes(n: nat, k: nat, lo: nat, hi: nat)
    requires k > 0 && lo * k < n < hi * k
    ensures Abs(lo * k - n) >= n % k && Abs(hi * k - n) >= k - n % k
  {
    var q := n / k;
    assert n == q * k + n % k;
    assert (q - lo) * k == q * k - lo * k;
    assert (hi - q - 1) * k == hi * k - q * k - k;
    SmallMultiple(q - lo, k);
    SmallMultiple(hi - q - 1, k);
  }

  // ---------- runs of the loop ----------

  // The loop goes for another round after moved moves.
  ghost predicate Goes(cfg: Config, types: seq<ClientType>, s: Seating, moved: nat)
  {
    Needs(cfg, LoadsOf(s, |types|)) && (cfg.maxSweep <= 0 || moved < cfg.maxSweep)
  }

  ghost predicate Trace(cfg: Config, types: seq<ClientType>, tr: seq<Seating>)
  {
    && tr != []
    && forall m :: 0 <= m < |tr| - 1 ==> Goes(cfg, types, tr[m], m) && Round(types, tr[m], tr[m + 1])
  }

  ghost predicate BoundedBy(cfg: Config, types: seq<ClientType>, s: Seating, moves: nat)
  {
    forall tr :: Trace(cfg, types, tr) && tr[0] == s ==> |tr| - 1 <= moves
  }

  // However ties are broken, the loop stops.
  ghost predicate Terminates(cfg: Config, types: seq<ClientType>, s: Seating)
  {
    exists moves: nat :: BoundedBy(cfg, types, s, moves)
  }

  // With a sweep limit the loop makes at most that many moves, whatever the sessions.
  lemma SweepLimits(cfg: Config, types: seq<ClientType>, s: Seating)
    requires cfg.maxSweep > 0
    ensures BoundedBy(cfg, types, s, cfg.maxSweep)
  {
    forall tr | Trace(cfg, types, tr) && tr[0] == s
      ensures |tr| - 1 <= cfg.maxSweep
    {
      if |tr| > 1 {
        assert Goes(cfg, types, tr[|tr| - 2], |tr| - 2);
      }
    }
  }

  // A round of flexible sessions closes a gap of two at least, so the potential drops.
  lemma RoundProgresses(cfg: Config, types: seq<ClientType>, s: Seating, t: Seating)
    requires types != [] && Flexible(types, s) && Needs(cfg, LoadsOf(s, |types|)) && Round(types, s, t)
    requires Settles(cfg, Sum(LoadsOf(s, |types|)), |types|)
    ensures var l, m := LoadsOf(s, |types|), LoadsOf(t, |types|);
            Flexible(types, t) && Sum(m) == Sum(l) && SumSq(m) + 2 <= SumSq(l)
  {
    var l := LoadsOf(s, |types|);
    var i: nat, b: nat :| Chosen(types, s, i, b) && t == Reseated(s, i, b);
    var a := s[i].at.value;
    ChosenIsExtreme(types, s, i, b);
    FlexibleKept(types, s, i, b);
    MoveNeverWorsens(types, s, i, b, l[b], l[a]);
    if l[a] == l[b] + 1 {
      NarrowNeedsNothing(cfg, l, a, b);
    }
  }

  lemma {:induction false} PotentialBound(cfg: Config, types: seq<ClientType>, tr: seq<Seating>, m: nat)
    requires types != [] && Trace(cfg, types, tr) && Flexible(types, tr[0]) && m < |tr|
    requires Settles(cfg, Sum(LoadsOf(tr[0], |types|)), |types|)
    ensures Flexible(types, tr[m]) && Sum(LoadsOf(tr[m], |types|)) == Sum(LoadsOf(tr[0], |types|))
    ensures SumSq(LoadsOf(tr[m], |types|)) + 2 * m <= SumSq(LoadsOf(tr[0], |types|))
    decreases m
  {
    if m > 0 {
      PotentialBound(cfg, types, tr, m - 1);
      assert Goes(cfg, types, tr[m - 1], m - 1);
      RoundProgresses(cfg, types, tr[m - 1], tr[m]);
    }
  }

  // An unlimited sweep of flexible sessions makes at most half the initial sum of squares moves.
  lemma SettlingBound(cfg: Config, types: seq<ClientType>, s: Seating)
    requires types != [] && Flexible(types, s) && Settles(cfg, Sum(LoadsOf(s, |types|)), |types|)
    ensures BoundedBy(cfg, types, s, SumSq(LoadsOf(s, |types|)) / 2)
  {
    forall tr | Trace(cfg, types, tr) && tr[0] == s
      ensures |tr| - 1 <= SumSq(LoadsOf(s, |types|)) / 2
    {
      PotentialBound(cfg, types, tr, |tr| - 1);
    }
  }

  lemma TraceGrows(cfg: Config, types: seq<ClientType>, tr: seq<Seating>, t: Seating)
    requires Trace(cfg, types, tr) && Goes(cfg, types, tr[|tr| - 1], |tr| - 1) && Round(types, tr[|tr| - 1], t)
    ensures Trace(cfg, types, tr + [t])
  {
    var longer := tr + [t];
    forall m | 0 <= m < |longer| - 1
      ensures Goes(cfg, types, longer[m], m) && Round(types, longer[m], longer[m + 1])
    {
      if m < |tr| - 1 {
        assert Goes(cfg, types, tr[m], m) && Round(types, tr[m], tr[m + 1]);
      }
    }
  }

  lemma {:induction false} EndlessTrace(cfg: Config, types: seq<ClientType>, s: Seating, m: nat)
    returns (tr: seq<Seating>)
    requires types != [] && cfg.maxSweep <= 0 && Flexible(types, s)
    requires !Settles(cfg, Sum(LoadsOf(s, |types|)), |types|)
    ensures Trace(cfg, types, tr) && tr[0] == s && |tr| == m + 1
    ensures var last := tr[m];
            Flexible(types, last) && Sum(LoadsOf(last, |types|)) == Sum(LoadsOf(s, |types|))
    decreases m
  {
    if m == 0 {
      tr := [s];
    } else {
      var before := EndlessTrace(cfg, types, s, m - 1);
      var next := EndlessRound(cfg, types, before[m - 1]);
      TraceGrows(cfg, types, before, next);
      tr := before + [next];
    }
  }

  lemma EndlessRound(cfg: Config, types: seq<ClientType>, s: Seating) returns (t: Seating)
    requires types != [] && Flexible(types, s) && !Settles(cfg, Sum(LoadsOf(s, |types|)), |types|)
    ensures Needs(cfg, LoadsOf(s, |types|)) && Round(types, s, t)
    ensures Flexible(types, t) && Sum(LoadsOf(t, |types|)) == Sum(LoadsOf(s, |types|))
  {
    var l := LoadsOf(s, |types|);
    var a, b := NeverInBand(cfg, l);
    var i := MoveExists(types, s, a, b);
    FlexibleKept(types, s, i, b);
    MoveNeverWorsens(types, s, i, b, l[b], l[a]);
    t := Reseated(s, i, b);
  }

  // Without a sweep limit, flexible sessions are settled in finitely many rounds exactly under Settles.
  lemma TerminationExact(cfg: Config, types: seq<ClientType>, s: Seating)
    requires types != [] && cfg.maxSweep <= 0 && Flexible(types, s)
    ensures Terminates(cfg, types, s) <==> Settles(cfg, Sum(LoadsOf(s, |types|)), |types|)
  {
    if Settles(cfg, Sum(LoadsOf(s, |types|)), |types|) {
      SettlingBound(cfg, types, s);
    } else if Terminates(cfg, types, s) {
      var moves: nat :| BoundedBy(cfg, types, s, moves);
      var tr := EndlessTrace(cfg, types, s, moves + 1);
      assert false;
    }
  }

  // With the thresholds non-negative the loop never gives up: while a load is out of band there is a move.
  lemma NeverStuckOutOfBand(cfg: Config, types: seq<ClientType>, s: Seating)
    requires Flexible(types, s) && cfg.absThreshold >= 0 && Needs(cfg, LoadsOf(s, |types|))
    ensures !Stuck(types, s)
  {
    var l := LoadsOf(s, |types|);
    var a := MaxExists(l);
    var b := MinExists(l);
    if l[a] == l[b] {
      EvenLoads(cfg, l, a);
      assert false;
    }
    var i := MoveExists(types, s, a, b);
    assert Legal(types, s, i, b);
  }

  // A run of flexible sessions that has come to its end, with the thresholds non-negative and no sweep
  // limit, has brought every endpoint inside the thresholds.
  lemma EndsInBand(cfg: Config, types: seq<ClientType>, tr: seq<Seating>)
    requires types != [] && Trace(cfg, types, tr) && Flexible(types, tr[0])
    requires cfg.maxSweep <= 0 && cfg.absThreshold >= 0
    requires var last := tr[|tr| - 1]; !Goes(cfg, types, last, |tr| - 1) || Stuck(types, last)
    ensures !Needs(cfg, LoadsOf(tr[|tr| - 1], |types|))
  {
    PotentialBound(cfg, types, tr, |tr| - 1);
    if Needs(cfg, LoadsOf(tr[|tr| - 1], |types|)) {
      NeverStuckOutOfBand(cfg, types, tr[|tr| - 1]);
    }
  }
}
