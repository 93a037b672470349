/**
 * Round-robin selection over a changing set of eligible clients, with one cursor per client type:
 * nobody eligible waits longer than one call per pool client, and a fixed set is served evenly.
 */
module Scheduler {
  import opened Base

  // p is the eligible index that follows the cursor, wrapping around after the highest one.
  ghost predicate IsNext(eligible: set<nat>, cursor: nat, p: nat)
  {
    && p in eligible
    && if exists x :: x in eligible && x > cursor
       then p > cursor && forall x :: x in eligible && x > cursor ==> p <= x
       else forall x :: x in eligible ==> p <= x
  }

  type Cursors = map<ClientType, nat>

  // A type that was never served counts from index 0.
  function CursorOf(cursors: Cursors, t: ClientType): nat
  {
    if t in cursors then cursors[t] else 0
  }

  // One call of the scheduler: the type asked for, who is eligible, and who was picked.
  datatype Call = Call(clientType: ClientType, eligible: set<nat>, pick: Option<nat>)

  ghost predicate Answers(cursors: Cursors, call: Call)
  {
    IsPick(call.eligible, CursorOf(cursors, call.clientType), call.pick)
  }

  ghost predicate IsPick(eligible: set<nat>, cursor: nat, pick: Option<nat>)
  {
    if eligible == {} then pick.None? else pick.Some? && IsNext(eligible, cursor, pick.value)
  }

  function After(cursors: Cursors, call: Call): Cursors
  {
    if call.pick.None? then cursors else cursors[call.clientType := call.pick.value]
  }

  // Every call of the sequence is answered from the cursors its predecessors left.
  ghost predicate Schedule(cursors: Cursors, calls: seq<Call>)
    decreases |calls|
  {
    calls == [] || (Answers(cursors, calls[0]) && Schedule(After(cursors, calls[0]), calls[1..]))
  }

  // The clients picked by the calls for type t, in order.
  function Picks(calls: seq<Call>, t: ClientType): seq<nat>
    decreases |calls|
  {
    if calls == [] then []
    else
      (if calls[0].clientType == t && calls[0].pick.Some? then [calls[0].pick.value] else [])
      + Picks(calls[1..], t)
  }

  function CallsFor(calls: seq<Call>, t: ClientType): nat
    decreases |calls|
  {
    if calls == [] then 0
    else (if calls[0].clientType == t then 1 else 0) + CallsFor(calls[1..], t)
  }

  // ---------- bounded wait ----------

  // x lies in the cyclic interval after the cursor, up to c.
  predicate Ahead(cursor: nat, x: nat, c: nat)
  {
    if cursor < c then cursor < x <= c else x > cursor || x <= c
  }

  function AheadSet(pool: set<nat>, cursor: nat, c: nat): set<nat>
  {
    set x | x in pool && Ahead(cursor, x, c)
  }

  lemma {:induction false} SubsetSize(a: set<nat>, b: set<nat>)
    requires a <= b
    ensures |a| <= |b|
    ensures a < b ==> |a| < |b|
    decreases |a|
  {
    if a != {} {
      var x :| x in a;
      SubsetSize(a - {x}, b - {x});
      if a < b {
        var y :| y in b && y !in a;
        assert y in b - {x};
      }
    } else if a < b {
      var y :| y in b;
    }
  }

  // A pick other than c moves the cursor closer to c.
  lemma PickGetsCloser(pool: set<nat>, eligible: set<nat>, cursor: nat, c: nat, p: nat)
    requires c in eligible && eligible <= pool && IsNext(eligible, cursor, p) && p != c
    ensures |AheadSet(pool, p, c)| < |AheadSet(pool, cursor, c)|
  {
    assert p in AheadSet(pool, cursor, c) && p !in AheadSet(pool, p, c);
    SubsetSize(AheadSet(pool, p, c), AheadSet(pool, cursor, c));
  }

  lemma {:induction false} WaitShrinks(pool: set<nat>, cursors: Cursors, calls: seq<Call>, t: ClientType, c: nat)
    requires Schedule(cursors, calls)
    requires forall call :: call in calls && call.clientType == t ==> c in call.eligible && call.eligible <= pool
    requires c !in Picks(calls, t) && c in pool
    ensures CallsFor(calls, t) < |AheadSet(pool, CursorOf(cursors, t), c)|
    decreases |calls|
  {
    var cursor := CursorOf(cursors, t);
    assert c in AheadSet(pool, cursor, c);
    if calls != [] {
      WaitShrinks(pool, After(cursors, calls[0]), calls[1..], t, c);
      if calls[0].clientType == t {
        PickGetsCloser(pool, calls[0].eligible, cursor, c, calls[0].pick.value);
      }
    }
  }

  // A client eligible for every call of a type is picked within as many of these calls as the pool has
  // clients, whatever else becomes eligible or not in between, and whatever other types are asked for.
  lemma BoundedWait(pool: set<nat>, cursors: Cursors, calls: seq<Call>, t: ClientType, c: nat)
    requires Schedule(cursors, calls)
    requires forall call :: call in calls && call.clientType == t ==> c in call.eligible && call.eligible <= pool
    requires CallsFor(calls, t) >= |pool| && pool != {}
    ensures c in Picks(calls, t)
  {
    if c !in Picks(calls, t) {
      if c in pool {
        WaitShrinks(pool, cursors, calls, t, c);
        SubsetSize(AheadSet(pool, CursorOf(cursors, t), c), pool);
      } else {
        NoCalls(pool, calls, t, c);
        SubsetSize({}, pool);
      }
    }
  }

  lemma {:induction false} NoCalls(pool: set<nat>, calls: seq<Call>, t: ClientType, c: nat)
    requires forall call :: call in calls && call.clientType == t ==> c in call.eligible && call.eligible <= pool
    requires c !in pool
    ensures CallsFor(calls, t) == 0
    decreases |calls|
  {
    if calls != [] {
      assert calls[0].clientType != t;
      NoCalls(pool, calls[1..], t, c);
    }
  }

  // ---------- fairness ----------

  function Elements(e: seq<nat>): set<nat>
  {
    set x | x in e
  }

  function Succ(i: nat, k: nat): nat
  {
    if i + 1 < k then i + 1 else 0
  }

  // Steps around a ring of k places from s to i.
  function Turns(s: nat, i: nat, k: nat): int
  {
    if s <= i then i - s else i - s + k
  }

  function Count(s: seq<nat>, x: nat): nat
  {
    if s == [] then 0 else (if s[0] == x then 1 else 0) + Count(s[1..], x)
  }

  lemma NextIsUnique(eligible: set<nat>, cursor: nat, p: nat, q: nat)
    requires IsNext(eligible, cursor, p) && IsNext(eligible, cursor, q)
    ensures p == q
  {
  }

  // From a member of the list the next one is its successor around the ring.
  lemma NextInList(e: seq<nat>, i: nat)
    requires Ascending(e) && i < |e|
    ensures IsNext(Elements(e), e[i], e[Succ(i, |e|)])
  {
    var s := Succ(i, |e|);
    forall x | x in Elements(e) && x > e[i]
      ensures s == i + 1 && e[s] <= x
    {
      var j :| 0 <= j < |e| && e[j] == x;
      assert j > i;
    }
    if s == i + 1 {
      assert e[s] in Elements(e) && e[s] > e[i];
    }
  }

  // The picks walk around the ring e, starting at place s.
  ghost predicate Ring(picks: seq<nat>, e: seq<nat>, s: nat)
    requires s < |e|
  {
    picks == [] || (picks[0] == e[s] && Ring(picks[1..], e, Succ(s, |e|)))
  }

  lemma {:induction false} PicksWalkTheRing(e: seq<nat>, cursors: Cursors, calls: seq<Call>, t: ClientType, s: nat)
    requires Ascending(e) && s < |e| && Schedule(cursors, calls)
    requires forall call :: call in calls && call.clientType == t ==> call.eligible == Elements(e)
    requires IsNext(Elements(e), CursorOf(cursors, t), e[s])
    ensures Ring(Picks(calls, t), e, s)
    decreases |calls|
  {
    if calls != [] {
      var rest := After(cursors, calls[0]);
      if calls[0].clientType != t {
        assert Picks(calls, t) == Picks(calls[1..], t);
        PicksWalkTheRing(e, rest, calls[1..], t, s);
      } else {
        assert e[s] in Elements(e);
        NextIsUnique(Elements(e), CursorOf(cursors, t), e[s], calls[0].pick.value);
        NextInList(e, s);
        assert Picks(calls, t) == [e[s]] + Picks(calls[1..], t);
        PicksWalkTheRing(e, rest, calls[1..], t, Succ(s, |e|));
      }
    }
  }

  // Of q times k + r picks around a ring of k, everyone gets q, and the r places from s on one more.
  lemma {:induction false} RingCount(picks: seq<nat>, e: seq<nat>, s: nat, q: nat, r: nat, i: nat)
    requires Ascending(e) && s < |e| && i < |e| && Ring(picks, e, s)
    requires r < |e| && |picks| == Times(q, |e|) + r
    ensures Count(picks, e[i]) == q + (if Turns(s, i, |e|) < r then 1 else 0)
    decreases |picks|
  {
    var k := |e|;
    if picks != [] {
      TurnsStep(s, i, k);
      assert i != s ==> e[i] != e[s];
      if r > 0 {
        RingCount(picks[1..], e, Succ(s, k), q, r - 1, i);
      } else {
        RingCount(picks[1..], e, Succ(s, k), q - 1, k - 1, i);
      }
    }
  }

  lemma TurnsStep(s: nat, i: nat, k: nat)
    requires s < k && i < k
    ensures Turns(Succ(s, k), i, k) == if i == s then k - 1 else Turns(s, i, k) - 1
    ensures 0 <= Turns(s, i, k) < k && (Turns(s, i, k) == 0 <==> i == s)
  {
  }

  // q times k, by addition.
  function Times(q: nat, k: nat): nat
  {
    if q == 0 then 0 else Times(q - 1, k) + k
  }

  lemma {:induction false} TimesIsProduct(q: nat, k: nat)
    ensures Times(q, k) == q * k
  {
    if q > 0 {
      TimesIsProduct(q - 1, k);
    }
  }

  lemma {:induction false} FirstNext(e: seq<nat>, cursors: Cursors, calls: seq<Call>, t: ClientType) returns (s: nat)
    requires Ascending(e) && e != [] && Schedule(cursors, calls)
    requires forall call :: call in calls && call.clientType == t ==> call.eligible == Elements(e)
    ensures s < |e| && IsNext(Elements(e), CursorOf(cursors, t), e[s])
  {
    var cursor := CursorOf(cursors, t);
    s := 0;
    while s < |e| && e[s] <= cursor
      invariant 0 <= s <= |e|
      invariant forall j :: 0 <= j < s ==> e[j] <= cursor
    {
      s := s + 1;
    }
    if s == |e| {
      s := 0;
    } else {
      assert e[s] in Elements(e);
    }
  }

  // Every call for the type picks someone, so the picks are as many as the calls.
  lemma {:induction false} EveryCallPicks(e: seq<nat>, cursors: Cursors, calls: seq<Call>, t: ClientType)
    requires e != [] && Schedule(cursors, calls)
    requires forall call :: call in calls && call.clientType == t ==> call.eligible == Elements(e)
    ensures |Picks(calls, t)| == CallsFor(calls, t)
    decreases |calls|
  {
    if calls != [] {
      assert e[0] in Elements(e);
      EveryCallPicks(e, After(cursors, calls[0]), calls[1..], t);
    }
  }

  // While the eligible list stays e, any n calls for a type pick each of its k clients n/k times,
  // rounded down or up; calls for other types in between do not disturb this.
  lemma RoundRobinFair(e: seq<nat>, cursors: Cursors, calls: seq<Call>, t: ClientType, x: nat)
    requires Ascending(e) && x in e && Schedule(cursors, calls)
    requires forall call :: call in calls && call.clientType == t ==> call.eligible == Elements(e)
    ensures var n := CallsFor(calls, t); var c := Count(Picks(calls, t), x);
            c == n / |e| || (n % |e| != 0 && c == n / |e| + 1)
  {
    var n, k := |Picks(calls, t)|, |e|;
    EveryCallPicks(e, cursors, calls, t);
    var s := FirstNext(e, cursors, calls, t);
    var i :| 0 <= i < |e| && e[i] == x;
    var q, r := DivMod(n, k);
    TimesIsProduct(q, k);
    PicksWalkTheRing(e, cursors, calls, t, s);
    RingCount(Picks(calls, t), e, s, q, r, i);
  }

  lemma DivMod(n: nat, k: nat) returns (q: nat, r: nat)
    requires k > 0
    ensures q == n / k && r == n % k && r < k && n == q * k + r
  {
    q, r := n / k, n % k;
  }
}
