/** The rebalancing loop of proxy/beaconproxy.go, over sessions and ready endpoints. */
module Rebalancing {
  import opened Base
  import opened Loads
  import opened Pools
  import opened Rebalance
  import opened Sessions

  // ---------- sessions and endpoints as seats ----------

  ghost function PlaceIn(ready: seq<Client>, client: Client?): Option<nat>
  {
    if client != null && client in ready then
      var j :| 0 <= j < |ready| && ready[j] == client;
      Some(j)
    else
      None
  }

  // s is the seating of the sessions among the ready endpoints.
  ghost predicate Seated(ready: seq<Client>, all: seq<Session>, s: Seating)
    reads all
  {
    && |s| == |all|
    && forall i :: 0 <= i < |all| ==>
         s[i] == Seat(all[i].prefix, all[i].lastRebalance, PlaceIn(ready, all[i].lastPoolClient))
  }

  ghost predicate Typed(ready: seq<Client>, types: seq<ClientType>)
    reads ready
  {
    |types| == |ready| && forall j :: 0 <= j < |ready| ==> types[j] == ready[j].clientType
  }

  // The shadow counters hold one load per ready endpoint.
  ghost predicate Counted(ready: seq<Client>, totals: map<Client, nat>, l: seq<nat>)
  {
    && |l| == |ready|
    && (forall c :: c in totals ==> c in ready)
    && (forall c :: c in ready ==> c in totals)
    && forall j :: 0 <= j < |ready| ==> totals[ready[j]] == l[j]
  }

  // Every key once, by descending total.
  ghost predicate SortedLoads(loads: seq<Client>, totals: map<Client, nat>)
  {
    && (forall c :: c in loads ==> c in totals)
    && (forall c :: c in totals ==> c in loads)
    && forall i, j :: 0 <= i < j < |loads| ==> totals[loads[i]] >= totals[loads[j]]
  }

  method SortLoads(totals: map<Client, nat>) returns (loads: seq<Client>)
    ensures SortedLoads(loads, totals)
  {
    loads := [];
    var todo := totals.Keys;
    while todo != {}
      invariant todo <= totals.Keys
      invariant forall c :: c in loads <==> c in totals && c !in todo
      invariant forall i, j :: 0 <= i < j < |loads| ==> totals[loads[i]] >= totals[loads[j]]
      decreases |todo|
    {
      var client :| client in todo;
      todo := todo - {client};
      var at := 0;
      while at < |loads| && totals[loads[at]] >= totals[client]
        invariant at <= |loads|
        invariant forall i :: 0 <= i < at ==> totals[loads[i]] >= totals[client]
      {
        at := at + 1;
      }
      loads := loads[..at] + [client] + loads[at..];
    }
  }

  // The least loaded endpoint below the source that the prefix allows.
  method FindTarget(loads: seq<Client>, totals: map<Client, nat>, srcIdx: nat, prefix: ClientType)
    returns (target: Client?)
    requires SortedLoads(loads, totals) && srcIdx < |loads|
    ensures target == null ==>
      forall c :: c in loads && MayUse(prefix, c.clientType) ==> totals[c] >= totals[loads[srcIdx]]
    ensures target != null ==>
      && target in loads && MayUse(prefix, target.clientType) && totals[target] < totals[loads[srcIdx]]
      && forall c :: c in loads && MayUse(prefix, c.clientType) ==> totals[target] <= totals[c]
  {
    var tIdx := |loads| - 1;
    while tIdx > srcIdx
      invariant srcIdx <= tIdx < |loads|
      invariant forall i :: tIdx < i < |loads| && MayUse(prefix, loads[i].clientType) ==>
        totals[loads[i]] >= totals[loads[srcIdx]]
    {
      if (prefix == Unspecified || loads[tIdx].clientType == prefix) && totals[loads[tIdx]] < totals[loads[srcIdx]] {
        return loads[tIdx];
      }
      tIdx := tIdx - 1;
    }
    target := null;
  }

  // The sessions on src, without a prefix and by prefix.
  method Partition(all: seq<Session>, src: Client)
    returns (unconstrained: seq<Session>, constrained: map<ClientType, seq<Session>>)
    ensures forall x :: x in unconstrained <==> x in all && x.lastPoolClient == src && x.prefix == Unspecified
    ensures forall t :: t in constrained ==> t != Unspecified && constrained[t] != []
    ensures forall x :: x in all && x.lastPoolClient == src && x.prefix != Unspecified ==>
      x.prefix in constrained && x in constrained[x.prefix]
    ensures forall t, x :: t in constrained && x in constrained[t] ==>
      x in all && x.lastPoolClient == src && x.prefix == t
  {
    unconstrained, constrained := [], map[];
    for n := 0 to |all|
      invariant forall x :: x in unconstrained <==> x in all[..n] && x.lastPoolClient == src && x.prefix == Unspecified
      invariant forall t :: t in constrained ==> t != Unspecified && constrained[t] != []
      invariant forall x :: x in all[..n] && x.lastPoolClient == src && x.prefix != Unspecified ==>
        x.prefix in constrained && x in constrained[x.prefix]
      invariant forall t, x :: t in constrained && x in constrained[t] ==>
        x in all && x.lastPoolClient == src && x.prefix == t
    {
      var session := all[n];
      if session.lastPoolClient != src {
        continue;
      }
      if session.prefix == Unspecified {
        unconstrained := unconstrained + [session];
      } else {
        var candidates := if session.prefix in constrained then constrained[session.prefix] else [];
        constrained := constrained[session.prefix := candidates + [session]];
      }
    }
  }

  method OldestOf(candidates: seq<Session>) returns (session: Session)
    requires candidates != []
    ensures session in candidates
    ensures forall x :: x in candidates ==> session.lastRebalance <= x.lastRebalance
  {
    session := candidates[0];
    for n := 1 to |candidates|
      invariant session in candidates
      invariant forall i :: 0 <= i < n ==> session.lastRebalance <= candidates[i].lastRebalance
    {
      if candidates[n].lastRebalance < session.lastRebalance {
        session := candidates[n];
      }
    }
  }

  // session may leave src for target, the best place it is allowed.
  ghost predicate Improves(loads: seq<Client>, totals: map<Client, nat>, src: Client, session: Session, target: Client)
    requires SortedLoads(loads, totals) && src in loads
    reads session, loads
  {
    && session.lastPoolClient == src
    && target in loads && MayUse(session.prefix, target.clientType) && totals[target] < totals[src]
    && forall c :: c in loads && MayUse(session.prefix, c.clientType) ==> totals[target] <= totals[c]
  }

  // What the loop finds on one source: nothing to move, or the session that goes first and its target.
  method PickFrom(all: seq<Session>, loads: seq<Client>, totals: map<Client, nat>, srcIdx: nat)
    returns (session: Session?, target: Client?)
    requires SortedLoads(loads, totals) && srcIdx < |loads|
    ensures session == null ==>
      forall x, c :: x in all && x.lastPoolClient == loads[srcIdx] && c in loads && MayUse(x.prefix, c.clientType) ==>
        totals[c] >= totals[loads[srcIdx]]
    ensures session != null ==>
      && session in all && target != null && Improves(loads, totals, loads[srcIdx], session, target)
      && GoesFirst(all, loads[srcIdx], session)
  {
    var unconstrained, constrained := Partition(all, loads[srcIdx]);
    if |unconstrained| > 0 {
      target := FindTarget(loads, totals, srcIdx, Unspecified);
      if target != null {
        session := OldestOf(unconstrained);
        return;
      }
    }
    session, target := PickConstrained(loads, totals, srcIdx, constrained);
  }

  // The first prefix, in whatever order the map yields them, that has a target.
  method PickConstrained(loads: seq<Client>, totals: map<Client, nat>, srcIdx: nat,
                         constrained: map<ClientType, seq<Session>>)
    returns (session: Session?, target: Client?)
    requires SortedLoads(loads, totals) && srcIdx < |loads|
    requires forall t :: t in constrained ==> constrained[t] != []
    ensures session == null ==>
      forall t, c :: t in constrained && c in loads && MayUse(t, c.clientType) ==> totals[c] >= totals[loads[srcIdx]]
    ensures session != null ==>
      exists t :: t in constrained && session in constrained[t] && target != null
        && target in loads && MayUse(t, target.clientType) && totals[target] < totals[loads[srcIdx]]
        && (forall c :: c in loads && MayUse(t, c.clientType) ==> totals[target] <= totals[c])
        && (forall x :: x in constrained[t] ==> session.lastRebalance <= x.lastRebalance)
  {
    var todo := constrained.Keys;
    while todo != {}
      invariant todo <= constrained.Keys
      invariant forall t, c :: t in constrained && t !in todo && c in loads && MayUse(t, c.clientType) ==>
        totals[c] >= totals[loads[srcIdx]]
      decreases |todo|
    {
      var clientType :| clientType in todo;
      todo := todo - {clientType};
      target := FindTarget(loads, totals, srcIdx, clientType);
      if target == null {
        continue;
      }
      session := OldestOf(constrained[clientType]);
      return;
    }
    return null, null;
  }

  // ---------- one round ----------

  // No session on c has a less loaded place to go.
  ghost predicate NowhereBetter(all: seq<Session>, loads: seq<Client>, totals: map<Client, nat>, c: Client)
    requires SortedLoads(loads, totals) && c in loads
    reads all, loads
  {
    forall x, d :: x in all && x.lastPoolClient == c && d in loads && MayUse(x.prefix, d.clientType) ==>
      totals[d] >= totals[c]
  }

  ghost predicate Matches(ready: seq<Client>, all: seq<Session>, loads: seq<Client>, totals: map<Client, nat>,
                          types: seq<ClientType>, s: Seating)
    reads ready, all
  {
    && IndexAscending(ready) && ready != []
    && Seated(ready, all, s)
    && Typed(ready, types)
    && Counted(ready, totals, LoadsOf(s, |types|))
    && SortedLoads(loads, totals)
  }

  lemma PlaceOfReady(ready: seq<Client>, j: nat)
    requires IndexAscending(ready) && j < |ready|
    ensures PlaceIn(ready, ready[j]) == Some(j)
  {
  }

  // A legal move in terms of objects: source, session and target.
  lemma LegalMeans(ready: seq<Client>, all: seq<Session>, loads: seq<Client>, totals: map<Client, nat>,
                   types: seq<ClientType>, s: Seating, i: nat, b: nat) returns (src: Client)
    requires Matches(ready, all, loads, totals, types, s) && Legal(types, s, i, b)
    ensures src == ready[s[i].at.value] && src in loads && all[i] in all && all[i].lastPoolClient == src
    ensures ready[b] in loads && MayUse(all[i].prefix, ready[b].clientType) && totals[ready[b]] < totals[src]
  {
    src := ready[s[i].at.value];
  }

  lemma NothingMoves(ready: seq<Client>, all: seq<Session>, loads: seq<Client>, totals: map<Client, nat>,
                     types: seq<ClientType>, s: Seating, upTo: nat)
    requires Matches(ready, all, loads, totals, types, s) && upTo <= |loads|
    requires forall e :: 0 <= e < upTo ==> NowhereBetter(all, loads, totals, loads[e])
    requires upTo < |loads| ==> totals[loads[upTo]] * |types| <= Sum(LoadsOf(s, |types|))
    ensures Stuck(types, s)
  {
    forall i: nat, b: nat
      ensures !Legal(types, s, i, b)
    {
      if Legal(types, s, i, b) {
        var src := LegalMeans(ready, all, loads, totals, types, s, i, b);
        var e :| 0 <= e < |loads| && loads[e] == src;
        if e >= upTo {
          TimesMonotone(totals[src], totals[loads[upTo]], |types|);
        }
        assert false;
      }
    }
  }

  // Every legal move starts at loads[srcIdx] or further down the list.
  lemma HeavierAreSettled(ready: seq<Client>, all: seq<Session>, loads: seq<Client>, totals: map<Client, nat>,
                          types: seq<ClientType>, s: Seating, srcIdx: nat, i: nat, b: nat)
    requires Matches(ready, all, loads, totals, types, s) && srcIdx < |loads| && Legal(types, s, i, b)
    requires forall e :: 0 <= e < srcIdx ==> NowhereBetter(all, loads, totals, loads[e])
    ensures LoadsOf(s, |types|)[s[i].at.value] <= totals[loads[srcIdx]]
  {
    var other := LegalMeans(ready, all, loads, totals, types, s, i, b);
    var e :| 0 <= e < |loads| && loads[e] == other;
  }

  lemma MoveIsChosen(ready: seq<Client>, all: seq<Session>, loads: seq<Client>, totals: map<Client, nat>,
                     types: seq<ClientType>, s: Seating, srcIdx: nat, i: nat, b: nat)
    requires Matches(ready, all, loads, totals, types, s) && srcIdx < |loads| && i < |all| && b < |ready|
    requires forall e :: 0 <= e < srcIdx ==> NowhereBetter(all, loads, totals, loads[e])
    requires totals[loads[srcIdx]] * |types| > Sum(LoadsOf(s, |types|))
    requires Improves(loads, totals, loads[srcIdx], all[i], ready[b]) && GoesFirst(all, loads[srcIdx], all[i])
    ensures Chosen(types, s, i, b) && loads[srcIdx] == ready[s[i].at.value]
  {
    var l, src := LoadsOf(s, |types|), loads[srcIdx];
    var a :| 0 <= a < |ready| && ready[a] == src;
    PlaceOfReady(ready, a);
    assert Legal(types, s, i, b);
    forall i': nat, b': nat | Legal(types, s, i', b')
      ensures l[s[i'].at.value] <= l[a]
    {
      HeavierAreSettled(ready, all, loads, totals, types, s, srcIdx, i', b');
    }
    forall i' | 0 <= i' < |s| && s[i'].at == s[i].at
      ensures (s[i'].prefix == Unspecified ==> s[i].prefix == Unspecified)
           && (s[i'].prefix == s[i].prefix ==> s[i].since <= s[i'].since)
    {
      assert all[i'] in all && all[i'].lastPoolClient == src;
    }
  }

  // What rebalancing may do to a session: nothing at all, or take it from a ready endpoint to one it may
  // use, with every connection it had cancelled once.
  ghost predicate Handled(ready: seq<Client>, x: Session, before: Holding)
    reads x, ready
  {
    || x.Now() == before
    || (&& before.client in ready && x.lastPoolClient in ready
        && MayUse(x.prefix, x.lastPoolClient.clientType)
        && x.contexts == map[]
        && x.cancelled == before.cancelled + multiset(before.contexts.Items))
  }

  ghost predicate EachHandled(ready: seq<Client>, all: seq<Session>, before: seq<Holding>)
    requires |before| == |all|
    reads all, ready
  {
    forall i :: 0 <= i < |all| ==> Handled(ready, all[i], before[i])
  }

  ghost predicate AllHandled(ready: seq<Client>, all: seq<Session>, before: seq<Holding>)
    reads all, ready
  {
    && |before| == |all|
    && forall k {:trigger Look(HandledSeal, k)} :: Look(HandledSeal, k) ==> EachHandled(ready, all, before)
  }

  // The session has left src for target: its connections were cancelled, and nothing else changed.
  twostate predicate MovedOnly(all: seq<Session>, i: nat, target: Client)
    reads all
  {
    && i < |all|
    && all[i].lastPoolClient == target
    && all[i].contexts == map[]
    && all[i].cancelled == old(all[i].cancelled) + multiset(old(all[i].contexts).Items)
    && forall j :: 0 <= j < |all| && j != i ==> unchanged(all[j])
  }

  method MoveSession(ghost ready: seq<Client>, ghost all: seq<Session>, ghost i: nat, session: Session, target: Client,
                     ghost s: Seating, ghost b: nat, ghost before: seq<Holding>)
    requires IndexAscending(ready) && b < |ready| && ready[b] == target
    requires AllHandled(ready, all, before)
    requires session.lastPoolClient in ready && MayUse(session.prefix, target.clientType)
    requires Distinct(all) && i < |all| && all[i] == session && Seated(ready, all, s)
    requires session.lastPoolClient != target
    modifies session
    ensures Seated(ready, all, Reseated(s, i, b)) && MovedOnly(all, i, target) && AllHandled(ready, all, before)
  {
    assert Look(HandledSeal, 0);
    PlaceOfReady(ready, b);
    session.SetLastPoolClient(target);
  }

  lemma CountersFollow(ready: seq<Client>, totals: map<Client, nat>, counters: map<Client, nat>,
                       types: seq<ClientType>, s: Seating, i: nat, b: nat)
    requires IndexAscending(ready) && |types| == |ready| && Legal(types, s, i, b)
    requires Counted(ready, totals, LoadsOf(s, |types|))
    requires var src := ready[s[i].at.value];
             counters == totals[src := totals[src] - 1][ready[b] := totals[ready[b]] + 1]
    ensures Counted(ready, counters, LoadsOf(Reseated(s, i, b), |types|))
  {
    MoveShiftsLoads(types, s, i, b);
  }

  // session goes first among those on src.
  ghost predicate GoesFirst(all: seq<Session>, src: Client, session: Session)
    reads all
  {
    forall x :: x in all && x.lastPoolClient == src ==>
      && (x.prefix == Unspecified ==> session.prefix == Unspecified)
      && (x.prefix == session.prefix ==> session.lastRebalance <= x.lastRebalance)
  }

  // From the heaviest endpoint down to the ideal load, the first with a session to move.
  method FindSource(all: seq<Session>, loads: seq<Client>, totals: map<Client, nat>, k: nat, n: nat)
    returns (srcIdx: nat, session: Session?, target: Client?)
    requires SortedLoads(loads, totals)
    ensures srcIdx <= |loads| && forall e :: 0 <= e < srcIdx ==> NowhereBetter(all, loads, totals, loads[e])
    ensures session == null ==> srcIdx < |loads| ==> totals[loads[srcIdx]] * k <= n
    ensures session != null ==>
      && srcIdx < |loads| && totals[loads[srcIdx]] * k > n
      && session in all && target != null && Improves(loads, totals, loads[srcIdx], session, target)
      && GoesFirst(all, loads[srcIdx], session)
  {
    srcIdx := 0;
    while srcIdx < |loads|
      invariant srcIdx <= |loads|
      invariant forall e :: 0 <= e < srcIdx ==> NowhereBetter(all, loads, totals, loads[e])
    {
      if totals[loads[srcIdx]] * k <= n {
        break;
      }
      session, target := PickFrom(all, loads, totals, srcIdx);
      if session != null {
        return;
      }
      srcIdx := srcIdx + 1;
    }
    session, target := null, null;
  }

  // The search of a round: the move Chosen allows, or none because the sessions are Stuck.
  method FindMove(ready: seq<Client>, all: seq<Session>, totals: map<Client, nat>, totalSessions: nat,
                  ghost types: seq<ClientType>, ghost s: Seating)
    returns (src: Client?, session: Session?, target: Client?, ghost i: nat, ghost b: nat)
    requires IndexAscending(ready) && ready != []
    requires Seated(ready, all, s) && Typed(ready, types) && Counted(ready, totals, LoadsOf(s, |types|))
    requires totalSessions == Sum(LoadsOf(s, |types|))
    ensures session == null ==> Stuck(types, s)
    ensures session != null ==>
      && Chosen(types, s, i, b) && all[i] == session
      && src != null && src == ready[s[i].at.value] && target != null && target == ready[b]
  {
    var loads := SortLoads(totals);
    var srcIdx;
    srcIdx, session, target := FindSource(all, loads, totals, |ready|, totalSessions);
    if session == null {
      NothingMoves(ready, all, loads, totals, types, s, srcIdx);
      src := null;
      i, b := 0, 0;
    } else {
      src := loads[srcIdx];
      i :| 0 <= i < |all| && all[i] == session;
      b :| 0 <= b < |ready| && ready[b] == target;
      MoveIsChosen(ready, all, loads, totals, types, s, srcIdx, i, b);
    }
  }

  // One round of the loop: Stuck, or the chosen move, with the counters kept in step.
  method RebalanceOne(ready: seq<Client>, all: seq<Session>, totals: map<Client, nat>, totalSessions: nat,
                      ghost types: seq<ClientType>, ghost s: Seating, ghost before: seq<Holding>)
    returns (moved: bool, counters: map<Client, nat>, ghost i: nat, ghost b: nat)
    requires IndexAscending(ready) && ready != [] && Distinct(all) && AllHandled(ready, all, before)
    requires Seated(ready, all, s) && Typed(ready, types) && Counted(ready, totals, LoadsOf(s, |types|))
    requires totalSessions == Sum(LoadsOf(s, |types|))
    modifies all
    ensures AllHandled(ready, all, before)
    ensures !moved ==> Stuck(types, s) && counters == totals && Seated(ready, all, s)
    ensures moved ==>
      && Chosen(types, s, i, b) && MovedOnly(all, i, ready[b])
      && Seated(ready, all, Reseated(s, i, b)) && Counted(ready, counters, LoadsOf(Reseated(s, i, b), |types|))
  {
    var src, session, target;
    src, session, target, i, b := FindMove(ready, all, totals, totalSessions, types, s);
    moved, counters := session != null, totals;
    if moved {
      counters := totals[src := totals[src] - 1][target := totals[target] + 1];
      CountersFollow(ready, totals, counters, types, s, i, b);
      MoveSession(ready, all, i, session, target, s, b, before);
    }
  }

  // ---------- counting ----------

  lemma {:induction false} CountOne(s: Seating, n: nat, j: nat)
    requires n < |s|
    ensures CountAt(s[..n + 1], j) == CountAt(s[..n], j) + (if SitsAt(s[n], j) then 1 else 0)
    decreases n
  {
    var t := s[1..];
    if n > 0 {
      assert s[..n + 1][1..] == t[..n] && s[..n][1..] == t[..n - 1];
      CountOne(t, n - 1, j);
    } else {
      assert s[..1][1..] == [] && s[..0] == [];
    }
  }

  lemma {:induction false} ZeroSum(l: seq<nat>)
    requires forall j :: 0 <= j < |l| ==> l[j] == 0
    ensures Sum(l) == 0
    decreases |l|
  {
    if l != [] {
      ZeroSum(l[1..]);
    }
  }

  // One more session changes the load of its own place only, if it has one.
  lemma LoadsOne(s: Seating, n: nat, k: nat)
    requires n < |s|
    ensures var before, after := LoadsOf(s[..n], k), LoadsOf(s[..n + 1], k);
            if s[n].at.Some? && s[n].at.value < k
            then after == before[s[n].at.value := before[s[n].at.value] + 1] && Sum(after) == Sum(before) + 1
            else after == before
  {
    var before, after := LoadsOf(s[..n], k), LoadsOf(s[..n + 1], k);
    forall j: nat | j < k
      ensures after[j] == before[j] + (if SitsAt(s[n], j) then 1 else 0)
    {
      CountOne(s, n, j);
    }
    if s[n].at.Some? && s[n].at.value < k {
      SumChange(before, after, s[n].at.value);
    } else {
      assert after == before;
    }
  }

  method ZeroTotals(ready: seq<Client>) returns (totals: map<Client, nat>)
    ensures forall c :: c in totals <==> c in ready
    ensures forall c :: c in totals ==> totals[c] == 0
  {
    totals := map[];
    for n := 0 to |ready|
      invariant forall c :: c in totals ==> c in ready && totals[c] == 0
      invariant forall j :: 0 <= j < n ==> ready[j] in totals
    {
      totals := totals[ready[n] := 0];
    }
  }

  // ---------- what a round does, in numbers of sessions ----------

  // The sessions at a place, and those at any of the first k places.
  function Sitters(s: Seating, place: nat): set<nat>
  {
    set i: nat | i < |s| && s[i].at == Some(place)
  }

  function Sitting(s: Seating, k: nat): set<nat>
  {
    set i: nat | i < |s| && s[i].at.Some? && s[i].at.value < k
  }

  lemma {:induction false} LoadIsSitters(s: Seating, n: nat, j: nat)
    requires n <= |s|
    ensures CountAt(s[..n], j) == |Sitters(s[..n], j)|
    decreases n
  {
    if n > 0 {
      LoadIsSitters(s, n - 1, j);
      CountOne(s, n - 1, j);
      assert Sitters(s[..n], j) == Sitters(s[..n - 1], j) + (if SitsAt(s[n - 1], j) then {n - 1} else {});
    } else {
      assert Sitters(s[..0], j) == {};
    }
  }

  lemma {:induction false} SumIsSitting(s: Seating, n: nat, k: nat)
    requires n <= |s|
    ensures Sum(LoadsOf(s[..n], k)) == |Sitting(s[..n], k)|
    decreases n
  {
    if n > 0 {
      SumIsSitting(s, n - 1, k);
      LoadsOne(s, n - 1, k);
      assert Sitting(s[..n], k)
          == Sitting(s[..n - 1], k) + (if s[n - 1].at.Some? && s[n - 1].at.value < k then {n - 1} else {});
    } else {
      ZeroSum(LoadsOf(s[..0], k));
      assert Sitting(s[..0], k) == {};
    }
  }

  lemma LoadsAreCounts(s: Seating, k: nat)
    ensures forall j :: 0 <= j < k ==> LoadsOf(s, k)[j] == |Sitters(s, j)|
    ensures Sum(LoadsOf(s, k)) == |Sitting(s, k)|
  {
    assert s[..|s|] == s;
    SumIsSitting(s, |s|, k);
    forall j | 0 <= j < k
      ensures LoadsOf(s, k)[j] == |Sitters(s, j)|
    {
      LoadIsSitters(s, |s|, j);
    }
  }

  // Which session goes where: off an endpoint above the ideal, to an allowed one with the fewest sessions, fewer
  // than here; nobody on a fuller endpoint could do so; and here those without prefix, then the oldest of a
  // prefix, go first.
  lemma ChosenInNumbers(types: seq<ClientType>, s: Seating, i: nat, b: nat)
    requires Chosen(types, s, i, b)
    ensures i < |s| && b < |types| && s[i].at.Some? && s[i].at.value < |types|
    ensures var here := |Sitters(s, s[i].at.value)|;
            && here * |types| > |Sitting(s, |types|)|
            && |Sitters(s, b)| < here
            && (s[i].prefix == Unspecified || s[i].prefix == types[b])
            && (forall c :: 0 <= c < |types| && (s[i].prefix == Unspecified || s[i].prefix == types[c]) ==>
                  |Sitters(s, b)| <= |Sitters(s, c)|)
            && (forall j, a, c ::
                  && 0 <= j < |s| && 0 <= a < |types| && s[j].at == Some(a) && |Sitters(s, a)| > here
                  && 0 <= c < |types| && (s[j].prefix == Unspecified || s[j].prefix == types[c])
                  ==> |Sitters(s, c)| >= |Sitters(s, a)|)
    ensures forall j :: 0 <= j < |s| && s[j].at == s[i].at ==>
      && (s[j].prefix == Unspecified ==> s[i].prefix == Unspecified)
      && (s[j].prefix == s[i].prefix ==> s[i].since <= s[j].since)
  {
    var l, k := LoadsOf(s, |types|), |types|;
    LoadsAreCounts(s, k);
    forall j, a, c | 0 <= j < |s| && 0 <= a < k && s[j].at == Some(a) && |Sitters(s, a)| > |Sitters(s, s[i].at.value)|
      && 0 <= c < k && (s[j].prefix == Unspecified || s[j].prefix == types[c])
      ensures |Sitters(s, c)| >= |Sitters(s, a)|
    {
      TimesMonotone(l[s[i].at.value], l[a], k);
      assert l[c] < l[a] ==> Legal(types, s, j, c);
    }
  }

  // The sessions are stuck exactly if none of those above the ideal has an allowed endpoint with fewer sessions.
  lemma StuckInNumbers(types: seq<ClientType>, s: Seating)
    ensures Stuck(types, s) <==>
              forall j, a, c ::
                && 0 <= j < |s| && 0 <= a < |types| && s[j].at == Some(a)
                && |Sitters(s, a)| * |types| > |Sitting(s, |types|)|
                && 0 <= c < |types| && (s[j].prefix == Unspecified || s[j].prefix == types[c])
                ==> |Sitters(s, c)| >= |Sitters(s, a)|
  {
    LoadsAreCounts(s, |types|);
    if !Stuck(types, s) {
      var i: nat, b: nat :| Legal(types, s, i, b);
      assert s[i].at == Some(s[i].at.value);
    }
    forall j, a, c | Stuck(types, s) && 0 <= j < |s| && 0 <= a < |types| && s[j].at == Some(a)
      && |Sitters(s, a)| * |types| > |Sitting(s, |types|)|
      && 0 <= c < |types| && (s[j].prefix == Unspecified || s[j].prefix == types[c])
      ensures |Sitters(s, c)| >= |Sitters(s, a)|
    {
      assert !Legal(types, s, j, c);
    }
  }

  // A load is out of band exactly if the number of sessions on some endpoint is so, relative to all on endpoints.
  lemma NeedsInNumbers(cfg: Config, s: Seating, k: nat)
    requires k > 0
    ensures Needs(cfg, LoadsOf(s, k)) <==>
              Sitting(s, k) != {} && exists j :: 0 <= j < k && OutOfBand(cfg, |Sitting(s, k)|, k, |Sitters(s, j)|)
  {
    var l := LoadsOf(s, k);
    LoadsAreCounts(s, k);
    if j :| 0 <= j < k && OutOfBand(cfg, |Sitting(s, k)|, k, |Sitters(s, j)|) {
      assert OutOfBand(cfg, Sum(l), |l|, l[j]);
      assert Sitters(s, j) <= Sitting(s, k);
    }
    if j :| 0 <= j < |l| && OutOfBand(cfg, Sum(l), |l|, l[j]) {
      assert OutOfBand(cfg, |Sitting(s, k)|, k, |Sitters(s, j)|);
      assert Sitters(s, j) <= Sitting(s, k);
    }
  }

  // The counters start as a recount: one load per ready endpoint, and their sum.
  method CountSessions(ready: seq<Client>, all: seq<Session>, ghost s: Seating)
    returns (totals: map<Client, nat>, totalSessions: nat)
    requires IndexAscending(ready) && Seated(ready, all, s)
    ensures Counted(ready, totals, LoadsOf(s, |ready|)) && totalSessions == Sum(LoadsOf(s, |ready|))
  {
    totals := ZeroTotals(ready);
    totalSessions := 0;
    assert s[..0] == [];
    ZeroSum(LoadsOf(s[..0], |ready|));
    for n := 0 to |all|
      invariant Counted(ready, totals, LoadsOf(s[..n], |ready|)) && totalSessions == Sum(LoadsOf(s[..n], |ready|))
    {
      LoadsOne(s, n, |ready|);
      var client := all[n].lastPoolClient;
      if client != null && client in ready {
        totals := totals[client := totals[client] + 1];
        totalSessions := totalSessions + 1;
      }
    }
    assert s[..|all|] == s;
  }

  method NeedsRebalance(cfg: Config, ready: seq<Client>, totals: map<Client, nat>, totalSessions: nat,
                        ghost l: seq<nat>, ghost all: seq<Session>, ghost s: Seating, ghost before: seq<Holding>)
    returns (needs: bool)
    requires ready != [] && Counted(ready, totals, l) && totalSessions == Sum(l)
    requires Seated(ready, all, s) && AllHandled(ready, all, before)
    ensures needs <==> Needs(cfg, l)
    ensures Seated(ready, all, s) && AllHandled(ready, all, before)
  {
    var todo := totals.Keys;
    while todo != {}
      invariant todo <= totals.Keys
      invariant forall c :: c in totals && c !in todo ==> !OutOfBand(cfg, totalSessions, |ready|, totals[c])
      decreases |todo|
    {
      var client :| client in todo;
      todo := todo - {client};
      if OutOfBand(cfg, totalSessions, |ready|, totals[client]) {
        ghost var j :| 0 <= j < |ready| && ready[j] == client;
        assert OutOfBand(cfg, Sum(l), |l|, l[j]);
        return true;
      }
    }
    needs := false;
  }

  // ---------- the loop ----------

  // tr is the run so far, the sessions sit as its last state says, and the counters count them.
  ghost predicate Running(cfg: Config, ready: seq<Client>, all: seq<Session>, totals: map<Client, nat>,
                          totalSessions: nat, types: seq<ClientType>, tr: seq<Seating>)
    reads all
  {
    && Trace(cfg, types, tr)
    && Seated(ready, all, tr[|tr| - 1])
    && Counted(ready, totals, LoadsOf(tr[|tr| - 1], |types|))
    && totalSessions == Sum(LoadsOf(tr[|tr| - 1], |types|))
  }

  // A round and the two tests after it. again tells whether the loop goes on.
  method RebalanceRound(cfg: Config, ready: seq<Client>, all: seq<Session>, totals: map<Client, nat>,
                        totalSessions: nat, moves: nat,
                        ghost types: seq<ClientType>, ghost tr: seq<Seating>, ghost before: seq<Holding>)
    returns (moved: bool, again: bool, counters: map<Client, nat>, ghost longer: seq<Seating>)
    requires IndexAscending(ready) && ready != [] && Distinct(all)
    requires Running(cfg, ready, all, totals, totalSessions, types, tr) && Typed(ready, types)
    requires |tr| == moves + 1 && Goes(cfg, types, tr[moves], moves) && AllHandled(ready, all, before)
    modifies all
    ensures AllHandled(ready, all, before)
    ensures !moved ==> !again && longer == tr && Stuck(types, tr[moves])
    ensures moved ==> |longer| == |tr| + 1 && longer[0] == tr[0]
    ensures again <==> moved && Goes(cfg, types, longer[moves + 1], moves + 1)
    ensures again <==>
      moved && Needs(cfg, LoadsOf(longer[moves + 1], |types|)) && (cfg.maxSweep <= 0 || moves + 1 < cfg.maxSweep)
    ensures Running(cfg, ready, all, counters, totalSessions, types, longer)
  {
    longer, again := tr, false;
    ghost var i, b;
    moved, counters, i, b := RebalanceOne(ready, all, totals, totalSessions, types, tr[moves], before);
    if moved {
      longer := NextRound(cfg, types, tr, i, b);
      var needs := NeedsRebalance(cfg, ready, counters, totalSessions, LoadsOf(longer[moves + 1], |types|), all,
                                longer[moves + 1], before);
      again := needs && !(cfg.maxSweep > 0 && moves + 1 >= cfg.maxSweep);
    }
  }

  // tr is a run of the loop, followed for at most the given number of rounds. It has finished if nothing is out
  // of band, the sweep is used up, or nothing can move; and it has if its runs are bounded by fewer rounds.
  ghost predicate Ran(cfg: Config, types: seq<ClientType>, tr: seq<Seating>, rounds: nat, finished: bool)
    requires tr != []
  {
    var moves, last := |tr| - 1, tr[|tr| - 1];
    && Trace(cfg, types, tr)
    && (if finished then !Goes(cfg, types, last, moves) || Stuck(types, last)
        else moves == rounds && Goes(cfg, types, last, moves))
    && (!finished ==> Needs(cfg, LoadsOf(last, |types|)) && (cfg.maxSweep <= 0 || moves < cfg.maxSweep))
    && (finished ==>
          || !Needs(cfg, LoadsOf(last, |types|))
          || Stuck(types, last)
          || (cfg.maxSweep > 0 && moves >= cfg.maxSweep))
    && (forall bound: nat :: BoundedBy(cfg, types, tr[0], bound) && bound < rounds ==> finished)
    && Balances(cfg, types, tr, rounds, finished)
  }

  // Where every session may use every endpoint, the thresholds are non-negative and sweeps unlimited, enough
  // rounds bring every endpoint inside the thresholds.
  ghost predicate Balances(cfg: Config, types: seq<ClientType>, tr: seq<Seating>, rounds: nat, finished: bool)
    requires tr != []
  {
    Flexible(types, tr[0]) && cfg.maxSweep <= 0 && cfg.absThreshold >= 0
    && SumSq(LoadsOf(tr[0], |types|)) / 2 < rounds
    ==> finished && !Needs(cfg, LoadsOf(tr[|tr| - 1], |types|))
  }

  // Ran, behind Look.
  ghost predicate Followed(cfg: Config, types: seq<ClientType>, tr: seq<Seating>, rounds: nat, finished: bool)
    requires tr != []
  {
    forall k {:trigger Look(LoopSeal, k)} :: Look(LoopSeal, k) ==> Ran(cfg, types, tr, rounds, finished)
  }

  method RebalanceLoop(cfg: Config, ready: seq<Client>, all: seq<Session>, rounds: nat,
                       ghost types: seq<ClientType>, ghost s: Seating, ghost before: seq<Holding>)
    returns (moves: nat, finished: bool, ghost tr: seq<Seating>)
    requires IndexAscending(ready) && ready != [] && Distinct(all)
    requires Seated(ready, all, s) && Typed(ready, types) && AllHandled(ready, all, before)
    modifies all
    ensures |tr| == moves + 1 && tr[0] == s && Seated(ready, all, tr[moves])
    ensures Followed(cfg, types, tr, rounds, finished)
    ensures AllHandled(ready, all, before)
  {
    moves, finished, tr := 0, true, [s];
    var totals, totalSessions := CountSessions(ready, all, s);
    var again := NeedsRebalance(cfg, ready, totals, totalSessions, LoadsOf(s, |types|), all, s, before);
    while again && moves < rounds
      invariant |tr| == moves + 1 && tr[0] == s && moves <= rounds
      invariant again ==> Goes(cfg, types, tr[moves], moves)
      invariant !again ==> !Goes(cfg, types, tr[moves], moves) || Stuck(types, tr[moves])
      invariant Running(cfg, ready, all, totals, totalSessions, types, tr)
      invariant AllHandled(ready, all, before)
      decreases rounds - moves, again
    {
      var moved;
      moved, again, totals, tr := RebalanceRound(cfg, ready, all, totals, totalSessions, moves, types, tr, before);
      if moved {
        moves := moves + 1;
      }
    }
    finished := !again;
    EnoughRounds(cfg, types, tr, rounds, finished);
  }

  lemma EnoughRounds(cfg: Config, types: seq<ClientType>, tr: seq<Seating>, rounds: nat, finished: bool)
    requires types != [] && Trace(cfg, types, tr)
    requires if finished then !Goes(cfg, types, tr[|tr| - 1], |tr| - 1) || Stuck(types, tr[|tr| - 1])
             else |tr| - 1 == rounds
    requires finished || Goes(cfg, types, tr[|tr| - 1], |tr| - 1)
    ensures Ran(cfg, types, tr, rounds, finished)
  {
    if Flexible(types, tr[0]) && cfg.maxSweep <= 0 && cfg.absThreshold >= 0 {
      SettlingBound(cfg, types, tr[0]);
      if finished {
        EndsInBand(cfg, types, tr);
      }
    }
  }

  lemma NextRound(cfg: Config, types: seq<ClientType>, tr: seq<Seating>, i: nat, b: nat) returns (longer: seq<Seating>)
    requires Trace(cfg, types, tr) && Goes(cfg, types, tr[|tr| - 1], |tr| - 1)
    requires Chosen(types, tr[|tr| - 1], i, b)
    ensures longer == tr + [Reseated(tr[|tr| - 1], i, b)] && Trace(cfg, types, longer)
    ensures Sum(LoadsOf(longer[|tr|], |types|)) == Sum(LoadsOf(tr[|tr| - 1], |types|))
  {
    var s := tr[|tr| - 1];
    var l := LoadsOf(s, |types|);
    longer := tr + [Reseated(s, i, b)];
    var a := MaxExists(l);
    MoveNeverWorsens(types, s, i, b, 0, l[a]);
  }
}
