/**
 * When the rebalance loop stops, for sessions of any prefix: exactly if no run of it reaches a point where
 * it starts to swap one session back and forth between two loads that differ by one.
 */
module RebalanceTyped {
  import opened Base
  import opened Loads
  import opened Rebalance

  // Some session without prefix is at the place.
  ghost predicate HasFree(s: Seating, place: nat)
  {
    exists j :: 0 <= j < |s| && SitsAt(s[j], place) && s[j].prefix == Unspecified
  }

  // The move only swaps two loads.
  predicate Swaps(types: seq<ClientType>, s: Seating, i: nat, b: nat)
    requires Legal(types, s, i, b)
  {
    CountAt(s, s[i].at.value) == CountAt(s, b) + 1
  }

  // The loop may swap here and later swap back: the session may return to where it sits, and nothing at the
  // target will tell the loop to do better.
  ghost predicate SwapMove(types: seq<ClientType>, s: Seating, i: nat, b: nat)
  {
    && Chosen(types, s, i, b)
    && Swaps(types, s, i, b)
    && MayUse(s[i].prefix, types[s[i].at.value])
    && (s[i].prefix == Unspecified || !HasFree(s, b))
  }

  ghost predicate SwapPoint(types: seq<ClientType>, s: Seating)
  {
    exists i: nat, b: nat :: SwapMove(types, s, i, b)
  }

  // ---------- a swap can be undone, and is again a swap ----------

  lemma SwappedLoads(types: seq<ClientType>, s: Seating, i: nat, b: nat)
    requires Legal(types, s, i, b) && Swaps(types, s, i, b)
    ensures var l, m := LoadsOf(s, |types|), LoadsOf(Reseated(s, i, b), |types|); var a := s[i].at.value;
            a != b && m == l[a := l[b]][b := l[a]] && Sum(m) == Sum(l)
  {
    MoveShiftsLoads(types, s, i, b);
    ShiftSum(LoadsOf(s, |types|), s[i].at.value, b);
  }

  // After a swap no endpoint heavier than its target has a legal move: it would have had it before.
  lemma NothingHeavier(types: seq<ClientType>, s: Seating, i: nat, b: nat, i': nat, b': nat)
    requires Chosen(types, s, i, b) && Swaps(types, s, i, b)
    requires Legal(types, Reseated(s, i, b), i', b')
    ensures var m := LoadsOf(Reseated(s, i, b), |types|);
            m[Reseated(s, i, b)[i'].at.value] <= m[b]
  {
    SwappedLoads(types, s, i, b);
    var m := LoadsOf(Reseated(s, i, b), |types|);
    if m[Reseated(s, i, b)[i'].at.value] > m[b] {
      assert i' != i && Legal(types, s, i', b');
    }
  }

  // The session that goes back: the oldest of the same prefix at the target.
  lemma SwapBack(types: seq<ClientType>, s: Seating, i: nat, b: nat) returns (i': nat)
    requires SwapMove(types, s, i, b)
    ensures SwapMove(types, Reseated(s, i, b), i', s[i].at.value)
  {
    var t, a := Reseated(s, i, b), s[i].at.value;
    SwappedLoads(types, s, i, b);
    i' := Oldest(t, b, s[i].prefix, i);
    assert Legal(types, t, i', a);
    forall j: nat, c: nat | Legal(types, t, j, c)
      ensures LoadsOf(t, |types|)[t[j].at.value] <= LoadsOf(t, |types|)[t[i'].at.value]
    {
      NothingHeavier(types, s, i, b, j, c);
    }
    if s[i].prefix != Unspecified {
      NoFreeAfter(types, s, i, b);
    }
    assert Chosen(types, t, i', a);
  }

  lemma NoFreeAfter(types: seq<ClientType>, s: Seating, i: nat, b: nat)
    requires SwapMove(types, s, i, b) && s[i].prefix != Unspecified
    ensures !HasFree(Reseated(s, i, b), b) && !HasFree(Reseated(s, i, b), s[i].at.value)
  {
    var t, a := Reseated(s, i, b), s[i].at.value;
    forall j | 0 <= j < |t| && t[j].prefix == Unspecified
      ensures !SitsAt(t[j], b) && !SitsAt(t[j], a)
    {
      assert t[j] == s[j];
    }
  }

  // Swapping two loads leaves the same loads out of band.
  lemma NeedsAfterSwap(cfg: Config, l: seq<nat>, a: nat, b: nat)
    requires a < |l| && b < |l| && a != b && Needs(cfg, l)
    requires Sum(l[a := l[b]][b := l[a]]) == Sum(l)
    ensures Needs(cfg, l[a := l[b]][b := l[a]])
  {
    var m := l[a := l[b]][b := l[a]];
    var j :| 0 <= j < |l| && OutOfBand(cfg, Sum(l), |l|, l[j]);
    var j' := if j == a then b else if j == b then a else j;
    assert m[j'] == l[j];
  }

  lemma {:induction false} EndlessSwaps(cfg: Config, types: seq<ClientType>, s: Seating, m: nat)
    returns (tr: seq<Seating>)
    requires cfg.maxSweep <= 0 && SwapPoint(types, s) && Needs(cfg, LoadsOf(s, |types|))
    ensures Trace(cfg, types, tr) && tr[0] == s && |tr| == m + 1
    ensures SwapPoint(types, tr[m]) && Needs(cfg, LoadsOf(tr[m], |types|))
    decreases m
  {
    if m == 0 {
      tr := [s];
    } else {
      var before := EndlessSwaps(cfg, types, s, m - 1);
      var next := SwapRound(cfg, types, before[m - 1]);
      TraceGrows(cfg, types, before, next);
      tr := before + [next];
    }
  }

  // From a swap point with a load out of band the loop may go on to another one.
  lemma SwapRound(cfg: Config, types: seq<ClientType>, s: Seating) returns (t: Seating)
    requires SwapPoint(types, s) && Needs(cfg, LoadsOf(s, |types|))
    ensures Round(types, s, t) && SwapPoint(types, t) && Needs(cfg, LoadsOf(t, |types|))
  {
    var i: nat, b: nat :| SwapMove(types, s, i, b);
    t := Reseated(s, i, b);
    var i' := SwapBack(types, s, i, b);
    SwappedLoads(types, s, i, b);
    NeedsAfterSwap(cfg, LoadsOf(s, |types|), s[i].at.value, b);
  }

  // ---------- away from swap points every round makes progress ----------

  // Loads of the endpoints that serve no session without prefix, and 0 for the others.
  ghost function TiedLoads(s: Seating, k: nat): (l: seq<nat>)
    ensures |l| == k && forall c :: 0 <= c < k ==> l[c] == if HasFree(s, c) then 0 else CountAt(s, c)
  {
    seq(k, c requires 0 <= c < k => if HasFree(s, c) then 0 else CountAt(s, c))
  }

  // Sessions on ready endpoints that their prefix does not allow.
  function OffType(types: seq<ClientType>, s: Seating): nat
  {
    if s == [] then 0 else (if IsOff(types, s[0]) then 1 else 0) + OffType(types, s[1..])
  }

  predicate IsOff(types: seq<ClientType>, seat: Seat)
  {
    seat.at.Some? && seat.at.value < |types| && !MayUse(seat.prefix, types[seat.at.value])
  }

  // The sum of squares and the sessions off their type first, neither of which ever rises; then the sessions
  // on endpoints without a free session.
  ghost function Potential(types: seq<ClientType>, s: Seating): nat
  {
    var l := LoadsOf(s, |types|);
    (SumSq(l) + OffType(types, s)) * (Sum(l) + 1) + Sum(TiedLoads(s, |types|))
  }

  // A move takes a session to a place it may use.
  lemma {:induction false} MoveComesHome(types: seq<ClientType>, s: Seating, i: nat, b: nat)
    requires i < |s| && b < |types| && MayUse(s[i].prefix, types[b])
    ensures OffType(types, Reseated(s, i, b)) + (if IsOff(types, s[i]) then 1 else 0) == OffType(types, s)
    decreases |s|
  {
    if i > 0 {
      assert Reseated(s, i, b)[1..] == Reseated(s[1..], i - 1, b);
      MoveComesHome(types, s[1..], i - 1, b);
    } else {
      assert Reseated(s, i, b)[1..] == s[1..];
    }
  }

  lemma {:induction false} SumBounded(l: seq<nat>, m: seq<nat>)
    requires |l| == |m| && forall i :: 0 <= i < |l| ==> l[i] <= m[i]
    ensures Sum(l) <= Sum(m)
    decreases |l|
  {
    if l != [] {
      SumBounded(l[1..], m[1..]);
    }
  }

  lemma FreeElsewhere(s: Seating, i: nat, b: nat, c: nat)
    requires i < |s| && s[i].at.Some? && s[i].prefix != Unspecified
    ensures HasFree(Reseated(s, i, b), c) <==> HasFree(s, c)
  {
    var t := Reseated(s, i, b);
    if HasFree(s, c) {
      var j :| 0 <= j < |s| && SitsAt(s[j], c) && s[j].prefix == Unspecified;
      assert t[j] == s[j];
    }
    if HasFree(t, c) {
      var j :| 0 <= j < |t| && SitsAt(t[j], c) && t[j].prefix == Unspecified;
      assert t[j] == s[j];
    }
  }

  // A swap to an endpoint with a free session, off one without, lowers the tied load by one.
  lemma TiedLoadDrops(types: seq<ClientType>, s: Seating, i: nat, b: nat)
    requires Legal(types, s, i, b) && s[i].prefix != Unspecified && HasFree(s, b) && !HasFree(s, s[i].at.value)
    ensures Sum(TiedLoads(Reseated(s, i, b), |types|)) + 1 == Sum(TiedLoads(s, |types|))
  {
    var t, a := Reseated(s, i, b), s[i].at.value;
    var l, m := TiedLoads(s, |types|), TiedLoads(t, |types|);
    forall c | 0 <= c < |types|
      ensures m[c] == if c == a then l[c] - 1 else l[c]
    {
      FreeElsewhere(s, i, b, c);
      CountReseated(s, i, b, c);
    }
    SumChange(l, m, a);
  }

  lemma RoundLowersPotential(types: seq<ClientType>, s: Seating, t: Seating)
    requires Round(types, s, t) && !SwapPoint(types, s)
    ensures Potential(types, t) < Potential(types, s)
  {
    var i: nat, b: nat :| Chosen(types, s, i, b) && t == Reseated(s, i, b);
    if Swaps(types, s, i, b) && !IsOff(types, s[i]) {
      assert !SwapMove(types, s, i, b);
      assert !HasFree(s, s[i].at.value);
      SwapLowersPotential(types, s, i, b);
    } else {
      GainLowersPotential(types, s, i, b);
    }
  }

  lemma SwapLowersPotential(types: seq<ClientType>, s: Seating, i: nat, b: nat)
    requires Legal(types, s, i, b) && Swaps(types, s, i, b) && !IsOff(types, s[i])
    requires s[i].prefix != Unspecified && HasFree(s, b) && !HasFree(s, s[i].at.value)
    ensures Potential(types, Reseated(s, i, b)) < Potential(types, s)
  {
    var l := LoadsOf(s, |types|);
    var hi := MaxExists(l);
    MoveNeverWorsens(types, s, i, b, 0, l[hi]);
    MoveComesHome(types, s, i, b);
    TiedLoadDrops(types, s, i, b);
  }

  // A move that closes a gap of two or more, or brings a session home.
  lemma GainLowersPotential(types: seq<ClientType>, s: Seating, i: nat, b: nat)
    requires Legal(types, s, i, b) && (!Swaps(types, s, i, b) || IsOff(types, s[i]))
    ensures Potential(types, Reseated(s, i, b)) < Potential(types, s)
  {
    var t := Reseated(s, i, b);
    var l, m := LoadsOf(s, |types|), LoadsOf(t, |types|);
    var hi := MaxExists(l);
    MoveNeverWorsens(types, s, i, b, 0, l[hi]);
    MoveComesHome(types, s, i, b);
    SumBounded(TiedLoads(t, |types|), m);
    LexDrop(SumSq(m) + OffType(types, t), SumSq(l) + OffType(types, s), Sum(l), Sum(TiedLoads(t, |types|)));
  }

  lemma LexDrop(low: nat, high: nat, n: nat, rest: nat)
    requires low < high && rest <= n
    ensures low * (n + 1) + rest < high * (n + 1)
  {
    var k := n + 1;
    TimesMonotone(low + 1, high, k);
    assert (low + 1) * k == low * k + k;
  }

  // ---------- the theorem ----------

  // The loop, started from s, can get to a swap point with loads still out of band.
  ghost predicate ReachesSwapPoint(cfg: Config, types: seq<ClientType>, s: Seating)
  {
    exists tr :: ArrivesAtSwapPoint(cfg, types, s, tr)
  }

  ghost predicate ArrivesAtSwapPoint(cfg: Config, types: seq<ClientType>, s: Seating, tr: seq<Seating>)
  {
    && Trace(cfg, types, tr) && tr[0] == s
    && Needs(cfg, LoadsOf(tr[|tr| - 1], |types|)) && SwapPoint(types, tr[|tr| - 1])
  }

  lemma {:induction false} PotentialFalls(cfg: Config, types: seq<ClientType>, s: Seating, tr: seq<Seating>, m: nat)
    requires Trace(cfg, types, tr) && tr[0] == s && m < |tr| && !ReachesSwapPoint(cfg, types, s)
    ensures Potential(types, tr[m]) + m <= Potential(types, s)
    decreases m
  {
    if m > 0 {
      PotentialFalls(cfg, types, s, tr, m - 1);
      var prefix := tr[..m];
      assert Goes(cfg, types, tr[m - 1], m - 1) && Round(types, tr[m - 1], tr[m]);
      assert Trace(cfg, types, prefix) && prefix[|prefix| - 1] == tr[m - 1];
      assert !ArrivesAtSwapPoint(cfg, types, s, prefix);
      RoundLowersPotential(types, tr[m - 1], tr[m]);
    }
  }

  lemma BoundedWithoutSwapPoint(cfg: Config, types: seq<ClientType>, s: Seating)
    requires !ReachesSwapPoint(cfg, types, s)
    ensures BoundedBy(cfg, types, s, Potential(types, s))
  {
    forall tr | Trace(cfg, types, tr) && tr[0] == s
      ensures |tr| - 1 <= Potential(types, s)
    {
      PotentialFalls(cfg, types, s, tr, |tr| - 1);
    }
  }

  lemma EndlessAfterSwapPoint(cfg: Config, types: seq<ClientType>, s: Seating)
    requires cfg.maxSweep <= 0 && ReachesSwapPoint(cfg, types, s)
    ensures !Terminates(cfg, types, s)
  {
    if Terminates(cfg, types, s) {
      var moves: nat :| BoundedBy(cfg, types, s, moves);
      var tr :| ArrivesAtSwapPoint(cfg, types, s, tr);
      var tail := EndlessSwaps(cfg, types, tr[|tr| - 1], moves + 1);
      var all := Joined(cfg, types, tr, tail);
      assert false;
    }
  }

  lemma Joined(cfg: Config, types: seq<ClientType>, tr: seq<Seating>, tail: seq<Seating>) returns (all: seq<Seating>)
    requires cfg.maxSweep <= 0 && Trace(cfg, types, tr) && Trace(cfg, types, tail) && tr[|tr| - 1] == tail[0]
    ensures Trace(cfg, types, all) && all[0] == tr[0] && |all| == |tr| + |tail| - 1
  {
    all := tr + tail[1..];
    forall m | 0 <= m < |all| - 1
      ensures Goes(cfg, types, all[m], m) && Round(types, all[m], all[m + 1])
    {
      if m < |tr| - 1 {
        assert Goes(cfg, types, tr[m], m) && Round(types, tr[m], tr[m + 1]);
      } else {
        var n := m - (|tr| - 1);
        assert Goes(cfg, types, tail[n], n) && Round(types, tail[n], tail[n + 1]);
        assert all[m] == tail[n] && all[m + 1] == tail[n + 1];
      }
    }
  }

  // Without a sweep limit, whatever the sessions, the loop stops, however ties are broken, exactly if none of
  // its runs comes to a swap point while a load is out of band.
  lemma TerminatesIffNoSwapPoint(cfg: Config, types: seq<ClientType>, s: Seating)
    requires cfg.maxSweep <= 0
    ensures Terminates(cfg, types, s) <==> !ReachesSwapPoint(cfg, types, s)
  {
    if ReachesSwapPoint(cfg, types, s) {
      EndlessAfterSwapPoint(cfg, types, s);
    } else {
      BoundedWithoutSwapPoint(cfg, types, s);
    }
  }

  // ---------- non-negative thresholds do not rule swap points out ----------

  // Two Lighthouse endpoints with 2 and 1 Lighthouse sessions, and an idle Teku endpoint.
  const CYCLE_CONFIG := Config(0.1, 0, 0)
  const CYCLE_TYPES := [Lighthouse, Lighthouse, Teku]
  const AT_0 := Seat(Lighthouse, 0, Some(0))
  const AT_1 := Seat(Lighthouse, 0, Some(1))
  const CYCLE_SEATS: Seating := [AT_0, AT_0, AT_1]

  lemma CycleLoads()
    ensures LoadsOf(CYCLE_SEATS, 3) == [2, 1, 0] && Sum([2, 1, 0]) == 3
  {
    assert CYCLE_SEATS[1..] == [AT_0, AT_1] && [AT_0, AT_1][1..] == [AT_1];
    forall j: nat
      ensures CountAt(CYCLE_SEATS, j) == if j == 0 then 2 else if j == 1 then 1 else 0
    {
      assert CountAt([AT_1], j) == if j == 1 then 1 else 0;
      assert CountAt([AT_0, AT_1], j) == (if j == 0 then 1 else 0) + CountAt([AT_1], j);
    }
  }

  // The two endpoints swap a session for ever, while the third stays out of band.
  lemma TypedSessionsCanCycle()
    ensures CYCLE_CONFIG.absThreshold >= 0 && CYCLE_CONFIG.threshold >= 0.0
    ensures !Terminates(CYCLE_CONFIG, CYCLE_TYPES, CYCLE_SEATS)
  {
    CycleLoads();
    assert OutOfBand(CYCLE_CONFIG, 3, 3, [2, 1, 0][0]);
    assert SwapMove(CYCLE_TYPES, CYCLE_SEATS, 0, 1);
    assert ArrivesAtSwapPoint(CYCLE_CONFIG, CYCLE_TYPES, CYCLE_SEATS, [CYCLE_SEATS]);
    EndlessAfterSwapPoint(CYCLE_CONFIG, CYCLE_TYPES, CYCLE_SEATS);
  }
}
