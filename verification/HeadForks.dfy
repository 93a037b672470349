/**
 * What a caller of GetHeadForks may rely on, however ties are sorted, and when two block caches give
 * the same forks.
 */
module HeadForks {
  import opened Base
  import opened Ancestry
  import opened Forks

  // ---------- readiness ----------

  lemma ReadyOne(d: Dag, clients: seq<ClientState>, root: Root, maxDist: nat, all: seq<nat>, n: nat)
    requires n < |all|
    ensures ReadyOf(d, clients, root, maxDist, all[..n + 1])
         == ReadyOf(d, clients, root, maxDist, all[..n])
            + (if IsReady(d, clients, root, maxDist, all[n]) then [all[n]] else [])
  {
    assert all[..n + 1][..n] == all[..n];
  }

  lemma {:induction false} ReadyOfIs(d: Dag, clients: seq<ClientState>, root: Root, maxDist: nat, all: seq<nat>, m: nat)
    ensures m in ReadyOf(d, clients, root, maxDist, all) <==> m in all && IsReady(d, clients, root, maxDist, m)
    decreases |all|
  {
    if all != [] {
      var n := |all| - 1;
      ReadyOfIs(d, clients, root, maxDist, all[..n], m);
      assert all == all[..n] + [all[n]];
    }
  }

  lemma {:induction false} ReadyOfAscending(d: Dag, clients: seq<ClientState>, root: Root, maxDist: nat, all: seq<nat>)
    requires Ascending(all)
    ensures Ascending(ReadyOf(d, clients, root, maxDist, all))
    decreases |all|
  {
    if all != [] {
      var n := |all| - 1;
      var before := ReadyOf(d, clients, root, maxDist, all[..n]);
      ReadyOfAscending(d, clients, root, maxDist, all[..n]);
      forall i | 0 <= i < |before|
        ensures before[i] < all[n]
      {
        ReadyOfIs(d, clients, root, maxDist, all[..n], before[i]);
      }
    }
  }

  // Client m is online and at most maxDist parent steps behind the fork's root, on its chain.
  ghost predicate Follows(d: Dag, clients: seq<ClientState>, f: Fork, maxDist: nat, m: nat)
  {
    && m < |clients|
    && clients[m].online && !clients[m].syncing && !clients[m].optimistic
    && exists n: nat :: n <= maxDist && PathTo(d, clients[m].headRoot, f.root, n)
  }

  ghost predicate ReadyExact(d: Dag, clients: seq<ClientState>, f: Fork, maxDist: nat)
  {
    && Ascending(f.ready)
    && forall m :: m in f.ready <==> m in f.all && Follows(d, clients, f, maxDist, m)
  }

  // Readiness is sound although a missing path counts as distance 0: no member lacks a path.
  lemma ReadyIsExact(d: Dag, clients: seq<ClientState>, maxDist: nat, f: Fork)
    requires Descending(d) && WellFormed(d, clients, f)
    requires f.ready == ReadyOf(d, clients, f.root, maxDist, f.all)
    ensures ReadyExact(d, clients, f, maxDist)
  {
    ReadyOfAscending(d, clients, f.root, maxDist, f.all);
    forall m: nat
      ensures m in f.ready <==> m in f.all && Follows(d, clients, f, maxDist, m)
    {
      ReadyOfIs(d, clients, f.root, maxDist, f.all, m);
      if m in f.all {
        var n: nat :| PathTo(d, clients[m].headRoot, f.root, n);
        DistanceIs(d, clients[m].headRoot, f.root, n);
        if Follows(d, clients, f, maxDist, m) {
          var k: nat :| k <= maxDist && PathTo(d, clients[m].headRoot, f.root, k);
          PathUnique(d, clients[m].headRoot, f.root, n, k);
        }
      }
    }
  }

  // ---------- sorting ----------

  lemma {:induction false} OccursOnce<T>(s: seq<T>, x: T)
    requires Distinct(s)
    ensures multiset(s)[x] <= 1
    decreases |s|
  {
    if s != [] {
      var n := |s| - 1;
      assert s == s[..n] + [s[n]];
      OccursOnce(s[..n], x);
      assert x == s[n] ==> x !in s[..n];
    }
  }

  lemma OccursTwice<T>(s: seq<T>, i: nat, j: nat)
    requires i < j < |s| && s[i] == s[j]
    ensures multiset(s)[s[i]] >= 2
  {
    assert s == s[..j] + [s[j]] + s[j + 1..];
    assert s[i] in s[..j];
  }

  lemma ReorderedIndex<T>(s: seq<T>, t: seq<T>, i: nat) returns (k: nat)
    requires multiset(s) == multiset(t) && i < |t|
    ensures k < |s| && s[k] == t[i]
  {
    assert t[i] in multiset(t);
    assert t[i] in s;
    k :| 0 <= k < |s| && s[k] == t[i];
  }

  lemma GroupedDistinct(d: Dag, clients: seq<ClientState>, s: seq<Fork>)
    requires Grouped(d, clients, s)
    ensures Distinct(s)
  {
    forall i, j | 0 <= i < j < |s|
      ensures s[i] != s[j]
    {
      CanonicalReflexive(d, s[i].root);
    }
  }

  lemma GroupedReordered(d: Dag, clients: seq<ClientState>, s: seq<Fork>, t: seq<Fork>)
    requires Grouped(d, clients, s) && multiset(s) == multiset(t)
    ensures Grouped(d, clients, t)
  {
    GroupedDistinct(d, clients, s);
    forall i, j | 0 <= i < |t| && 0 <= j < |t| && i != j
      ensures !Comparable(d, t[i].root, t[j].root)
    {
      var k := ReorderedIndex(s, t, i);
      var l := ReorderedIndex(s, t, j);
      if k == l {
        OccursOnce(s, t[i]);
        OccursTwice(t, if i < j then i else j, if i < j then j else i);
      }
    }
    forall i | 0 <= i < |t|
      ensures WellFormed(d, clients, t[i])
    {
      var k := ReorderedIndex(s, t, i);
    }
    forall m | 0 <= m < |clients|
      ensures Placed(t, m)
    {
      assert Placed(s, m);
      var k :| 0 <= k < |s| && m in s[k].all;
      var i := ReorderedIndex(t, s, k);
    }
    forall i, j, m | 0 <= i < |t| && 0 <= j < |t| && m in t[i].all && m in t[j].all
      ensures i == j
    {
      var k := ReorderedIndex(s, t, i);
      var l := ReorderedIndex(s, t, j);
      CanonicalReflexive(d, t[i].root);
    }
  }

  lemma RecomputedGrouped(d: Dag, clients: seq<ClientState>, maxDist: nat)
    ensures Grouped(d, clients, Recomputed(d, clients, maxDist))
  {
    GroupGrouped(d, clients);
    var g := Group(d, clients);
    var r := Recomputed(d, clients, maxDist);
    forall k | 0 <= k < |r|
      ensures WellFormed(d, clients, r[k])
    {
      assert WellFormed(d, clients, g[k]);
    }
    forall m | 0 <= m < |clients|
      ensures Placed(r, m)
    {
      assert Placed(g, m);
      var k :| 0 <= k < |g| && m in g[k].all;
      assert m in r[k].all;
    }
  }

  // The head forks, in any order the sort may leave them in: they partition the clients by their
  // maximal heads, know exactly who follows them, and the first has the most ready clients.
  lemma HeadForksSound(d: Dag, clients: seq<ClientState>, maxDist: nat, forks: seq<Fork>)
    requires Descending(d) && IsHeadForks(d, clients, maxDist, forks)
    ensures Grouped(d, clients, forks)
    ensures forall r :: IsRoot(forks, r) <==> IsMaximalHead(d, clients, r)
    ensures forall k :: 0 <= k < |forks| ==> ReadyExact(d, clients, forks[k], maxDist)
    ensures forall k :: 0 <= k < |forks| ==> |forks[0].ready| >= |forks[k].ready|
  {
    RecomputedGrouped(d, clients, maxDist);
    GroupedReordered(d, clients, Recomputed(d, clients, maxDist), forks);
    forall r
      ensures IsRoot(forks, r) <==> IsMaximalHead(d, clients, r)
    {
      RootsAreMaximalHeads(d, clients, forks, r);
    }
    forall k | 0 <= k < |forks|
      ensures ReadyExact(d, clients, forks[k], maxDist)
    {
      var i := ReorderedIndex(Recomputed(d, clients, maxDist), forks, k);
      assert WellFormed(d, clients, forks[k]);
      ReadyIsExact(d, clients, maxDist, forks[k]);
    }
  }

  // ---------- two caches with the same order among the heads ----------

  ghost predicate SamePaths(d: Dag, e: Dag, a: Root, b: Root)
  {
    forall n: nat :: PathTo(d, a, b, n) <==> PathTo(e, a, b, n)
  }

  ghost predicate SameOrder(d: Dag, e: Dag, clients: seq<ClientState>)
  {
    forall a, b :: IsHead(clients, a) && IsHead(clients, b) ==> SamePaths(d, e, a, b)
  }

  lemma SameCanonical(d: Dag, e: Dag, a: Root, b: Root)
    requires SamePaths(d, e, a, b)
    ensures Canonical(d, a, b) <==> Canonical(e, a, b)
  {
    if Canonical(d, a, b) {
      var n: nat :| PathTo(d, a, b, n);
      assert PathTo(e, a, b, n);
    }
    if Canonical(e, a, b) {
      var n: nat :| PathTo(e, a, b, n);
      assert PathTo(d, a, b, n);
    }
  }

  lemma SameDistance(d: Dag, e: Dag, a: Root, b: Root)
    requires Descending(d) && Descending(e) && SamePaths(d, e, a, b)
    ensures Distance(d, a, b) == Distance(e, a, b)
  {
    SameCanonical(d, e, a, b);
    if Canonical(d, a, b) {
      DistanceIs(e, a, b, Distance(d, a, b));
    }
  }

  lemma SamePlace(d: Dag, e: Dag, clients: seq<ClientState>, forks: seq<Fork>, i: nat, c: ClientState)
    requires SameOrder(d, e, clients) && IsHead(clients, c.headRoot)
    requires forall k :: 0 <= k < |forks| ==> IsHead(clients, forks[k].root)
    ensures Place(d, forks, i, c) == Place(e, forks, i, c)
  {
    forall k | 0 <= k < |forks|
      ensures Canonical(d, c.headRoot, forks[k].root) <==> Canonical(e, c.headRoot, forks[k].root)
      ensures Canonical(d, forks[k].root, c.headRoot) <==> Canonical(e, forks[k].root, c.headRoot)
    {
      SameCanonical(d, e, c.headRoot, forks[k].root);
      SameCanonical(d, e, forks[k].root, c.headRoot);
    }
    assert FirstMatch(d, forks, c.headRoot) == FirstMatch(e, forks, c.headRoot);
  }

  lemma RootsAreHeads(d: Dag, clients: seq<ClientState>)
    ensures forall k :: 0 <= k < |Group(d, clients)| ==> IsHead(clients, Group(d, clients)[k].root)
  {
    GroupGrouped(d, clients);
    forall k | 0 <= k < |Group(d, clients)|
      ensures IsHead(clients, Group(d, clients)[k].root)
    {
      assert WellFormed(d, clients, Group(d, clients)[k]);
    }
  }

  // Stated for a prefix of the clients, so that the order is fixed while the induction shortens it.
  lemma {:induction false} SameGroup(d: Dag, e: Dag, clients: seq<ClientState>, n: nat)
    requires SameOrder(d, e, clients) && n <= |clients|
    ensures Group(d, clients[..n]) == Group(e, clients[..n])
    decreases n
  {
    if n > 0 {
      SameGroup(d, e, clients, n - 1);
      assert clients[..n][..n - 1] == clients[..n - 1];
      var forks := Group(d, clients[..n - 1]);
      RootsAreHeads(d, clients[..n - 1]);
      forall k | 0 <= k < |forks|
        ensures IsHead(clients, forks[k].root)
      {
        assert IsHead(clients[..n - 1], forks[k].root);
        var i :| 0 <= i < n - 1 && clients[..n - 1][i].headRoot == forks[k].root;
        assert clients[i].headRoot == forks[k].root;
      }
      assert IsHead(clients, clients[n - 1].headRoot);
      SamePlace(d, e, clients, forks, n - 1, clients[n - 1]);
    }
  }

  lemma {:induction false} SameReady(d: Dag, e: Dag, clients: seq<ClientState>, root: Root, maxDist: nat, all: seq<nat>)
    requires Descending(d) && Descending(e) && SameOrder(d, e, clients) && IsHead(clients, root)
    ensures ReadyOf(d, clients, root, maxDist, all) == ReadyOf(e, clients, root, maxDist, all)
    decreases |all|
  {
    if all != [] {
      var m := all[|all| - 1];
      SameReady(d, e, clients, root, maxDist, all[..|all| - 1]);
      if m < |clients| {
        assert IsHead(clients, clients[m].headRoot);
        SameDistance(d, e, clients[m].headRoot, root);
      }
    }
  }

  // Caches that order the heads alike, with the same distances, give the same forks.
  lemma SameForks(d: Dag, e: Dag, clients: seq<ClientState>, maxDist: nat)
    requires Descending(d) && Descending(e) && SameOrder(d, e, clients)
    ensures Recomputed(d, clients, maxDist) == Recomputed(e, clients, maxDist)
  {
    SameGroup(d, e, clients, |clients|);
    assert clients[..|clients|] == clients;
    RootsAreHeads(d, clients);
    var g := Group(d, clients);
    forall k | 0 <= k < |g|
      ensures ReadyOf(d, clients, g[k].root, maxDist, g[k].all) == ReadyOf(e, clients, g[k].root, maxDist, g[k].all)
    {
      SameReady(d, e, clients, g[k].root, maxDist, g[k].all);
    }
    assert Recomputed(d, clients, maxDist) == Recomputed(e, clients, maxDist);
  }
}
