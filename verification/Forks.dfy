/**
 * The grouping of client heads into forks, as a value: each client joins the first fork its head is
 * comparable with, and carries that fork's root forward when its head is newer.
 */
module Forks {
  import opened Base
  import opened Ancestry

  datatype ClientState = ClientState(
    online: bool,
    syncing: bool,
    optimistic: bool,
    headRoot: Root,
    headSlot: Slot)
  {
    function Status(): ClientStatus
    {
      if syncing then Synchronizing
      else if optimistic then Optimistic
      else if online then Online
      else Offline
    }
  }

  // Members are positions in the client list.
  datatype Fork = Fork(root: Root, slot: Slot, all: seq<nat>, ready: seq<nat>)

  ghost predicate Comparable(d: Dag, a: Root, b: Root)
  {
    Canonical(d, a, b) || Canonical(d, b, a)
  }

  // The first fork whose root is comparable with h; |forks| if there is none.
  ghost function FirstMatch(d: Dag, forks: seq<Fork>, h: Root): (j: nat)
    ensures j <= |forks|
    ensures j < |forks| ==> Comparable(d, h, forks[j].root)
    ensures forall i :: 0 <= i < j ==> !Comparable(d, h, forks[i].root)
  {
    if forks == [] then 0
    else if Comparable(d, h, forks[0].root) then 0
    else 1 + FirstMatch(d, forks[1..], h)
  }

  ghost function Join(d: Dag, f: Fork, i: nat, c: ClientState): Fork
  {
    if Canonical(d, c.headRoot, f.root) then f.(all := f.all + [i])
    else f.(root := c.headRoot, slot := c.headSlot, all := f.all + [i])
  }

  ghost function Place(d: Dag, forks: seq<Fork>, i: nat, c: ClientState): seq<Fork>
  {
    var j := FirstMatch(d, forks, c.headRoot);
    if j < |forks| then forks[j := Join(d, forks[j], i, c)]
    else forks + [Fork(c.headRoot, c.headSlot, [i], [])]
  }

  ghost function Group(d: Dag, clients: seq<ClientState>): seq<Fork>
  {
    if clients == [] then []
    else
      var n := |clients| - 1;
      Place(d, Group(d, clients[..n]), n, clients[n])
  }

  lemma GroupOne(d: Dag, clients: seq<ClientState>, i: nat)
    requires i < |clients|
    ensures Group(d, clients[..i + 1]) == Place(d, Group(d, clients[..i]), i, clients[i])
  {
    assert clients[..i + 1][..i] == clients[..i];
  }

  // Whether client i is close enough to the root; the distance counts as 0 when there is no path.
  ghost predicate IsReady(d: Dag, clients: seq<ClientState>, root: Root, maxDist: nat, i: nat)
  {
    && i < |clients|
    && clients[i].Status() == Online
    && Distance(d, clients[i].headRoot, root) <= maxDist
  }

  ghost function ReadyOf(d: Dag, clients: seq<ClientState>, root: Root, maxDist: nat, all: seq<nat>): seq<nat>
  {
    if all == [] then []
    else
      var n := |all| - 1;
      ReadyOf(d, clients, root, maxDist, all[..n])
      + (if IsReady(d, clients, root, maxDist, all[n]) then [all[n]] else [])
  }

  ghost function WithReady(d: Dag, clients: seq<ClientState>, maxDist: nat, forks: seq<Fork>): (r: seq<Fork>)
    ensures |r| == |forks|
    ensures forall k :: 0 <= k < |forks| ==>
      r[k] == forks[k].(ready := ReadyOf(d, clients, forks[k].root, maxDist, forks[k].all))
  {
    seq(|forks|, k requires 0 <= k < |forks| =>
      forks[k].(ready := ReadyOf(d, clients, forks[k].root, maxDist, forks[k].all)))
  }

  // A recomputation from scratch, before the forks are sorted.
  ghost function Recomputed(d: Dag, clients: seq<ClientState>, maxDist: nat): seq<Fork>
  {
    WithReady(d, clients, maxDist, Group(d, clients))
  }

  predicate ByReadyCount(forks: seq<Fork>)
  {
    forall i, j :: 0 <= i < j < |forks| ==> |forks[i].ready| >= |forks[j].ready|
  }

  // forks is a recomputation in some order by descending ready count: ties may fall either way.
  ghost predicate IsHeadForks(d: Dag, clients: seq<ClientState>, maxDist: nat, forks: seq<Fork>)
  {
    multiset(forks) == multiset(Recomputed(d, clients, maxDist)) && ByReadyCount(forks)
  }

  // ---------- what grouping keeps ----------

  // No two fork roots lie on one chain.
  ghost predicate Incomparable(d: Dag, forks: seq<Fork>)
  {
    forall i, j :: 0 <= i < |forks| && 0 <= j < |forks| && i != j ==> !Comparable(d, forks[i].root, forks[j].root)
  }

  // Every member's head is the fork's root or one of its ancestors, and some member's head is the root.
  ghost predicate WellFormed(d: Dag, clients: seq<ClientState>, f: Fork)
  {
    && Ascending(f.all)
    && (forall m :: m in f.all ==> m < |clients| && Canonical(d, clients[m].headRoot, f.root))
    && (exists m :: m in f.all && m < |clients| && clients[m].headRoot == f.root && clients[m].headSlot == f.slot)
  }

  ghost predicate Placed(forks: seq<Fork>, m: nat)
  {
    exists k :: 0 <= k < |forks| && m in forks[k].all
  }

  ghost predicate Covers(forks: seq<Fork>, n: nat)
  {
    forall m :: 0 <= m < n ==> Placed(forks, m)
  }

  ghost predicate Disjoint(forks: seq<Fork>)
  {
    forall j, k, m :: 0 <= j < |forks| && 0 <= k < |forks| && m in forks[j].all && m in forks[k].all ==> j == k
  }

  ghost predicate Grouped(d: Dag, clients: seq<ClientState>, forks: seq<Fork>)
  {
    && Incomparable(d, forks)
    && (forall k :: 0 <= k < |forks| ==> WellFormed(d, clients, forks[k]))
    && Covers(forks, |clients|)
    && Disjoint(forks)
  }

  lemma PlaceIncomparable(d: Dag, forks: seq<Fork>, i: nat, c: ClientState)
    requires Incomparable(d, forks)
    ensures Incomparable(d, Place(d, forks, i, c))
  {
    var h := c.headRoot;
    var j := FirstMatch(d, forks, h);
    if j < |forks| && !Canonical(d, h, forks[j].root) {
      // the root of fork j moves up to h
      var r := forks[j].root;
      forall k | 0 <= k < |forks| && k != j
        ensures !Comparable(d, h, forks[k].root)
      {
        if Canonical(d, h, forks[k].root) {
          CanonicalTransitive(d, r, h, forks[k].root);
        } else if Canonical(d, forks[k].root, h) {
          CanonicalComparable(d, r, forks[k].root, h);
        }
      }
    }
  }

  lemma JoinWellFormed(d: Dag, clients: seq<ClientState>, f: Fork, c: ClientState)
    requires WellFormed(d, clients, f) && Comparable(d, c.headRoot, f.root)
    ensures WellFormed(d, clients + [c], Join(d, f, |clients|, c))
  {
    var g := Join(d, f, |clients|, c);
    var longer := clients + [c];
    CanonicalReflexive(d, c.headRoot);
    assert forall i :: 0 <= i < |f.all| ==> f.all[i] in f.all;
    forall m | m in g.all
      ensures m < |longer| && Canonical(d, longer[m].headRoot, g.root)
    {
      if m in f.all {
        if g.root != f.root {
          CanonicalTransitive(d, clients[m].headRoot, f.root, c.headRoot);
        }
      } else {
        assert m == |clients|;
      }
    }
    if Canonical(d, c.headRoot, f.root) {
      var w :| w in f.all && w < |clients| && clients[w].headRoot == f.root && clients[w].headSlot == f.slot;
      assert w in g.all && longer[w] == clients[w];
    } else {
      assert |clients| in g.all && longer[|clients|] == c;
    }
  }

  lemma PlaceWellFormed(d: Dag, clients: seq<ClientState>, forks: seq<Fork>, c: ClientState)
    requires forall k :: 0 <= k < |forks| ==> WellFormed(d, clients, forks[k])
    ensures var after := Place(d, forks, |clients|, c);
            forall k :: 0 <= k < |after| ==> WellFormed(d, clients + [c], after[k])
  {
    var n := |clients|;
    var after := Place(d, forks, n, c);
    var j := FirstMatch(d, forks, c.headRoot);
    forall k | 0 <= k < |after|
      ensures WellFormed(d, clients + [c], after[k])
    {
      if k == j < |forks| {
        JoinWellFormed(d, clients, forks[j], c);
      } else if k < |forks| {
        WellFormedLonger(d, clients, forks[k], c);
      } else {
        CanonicalReflexive(d, c.headRoot);
        assert n in after[k].all && (clients + [c])[n] == c;
      }
    }
  }

  lemma PlaceCovers(d: Dag, n: nat, forks: seq<Fork>, c: ClientState)
    requires Covers(forks, n)
    ensures Covers(Place(d, forks, n, c), n + 1)
  {
    var after := Place(d, forks, n, c);
    var j := FirstMatch(d, forks, c.headRoot);
    assert n in after[j].all;
    forall m | 0 <= m < n + 1
      ensures Placed(after, m)
    {
      if m < n {
        assert Placed(forks, m);
        var k :| 0 <= k < |forks| && m in forks[k].all;
        assert m in after[k].all;
      }
    }
  }

  lemma PlaceDisjoint(d: Dag, n: nat, forks: seq<Fork>, c: ClientState)
    requires Disjoint(forks) && forall k, m :: 0 <= k < |forks| && m in forks[k].all ==> m < n
    ensures Disjoint(Place(d, forks, n, c))
  {
    var after := Place(d, forks, n, c);
    forall j, k, m | 0 <= j < |after| && 0 <= k < |after| && m in after[j].all && m in after[k].all
      ensures j == k
    {
      if m == n {
        assert j == FirstMatch(d, forks, c.headRoot) == k;
      } else {
        assert m in forks[j].all && m in forks[k].all;
      }
    }
  }

  lemma PlaceGrouped(d: Dag, clients: seq<ClientState>, forks: seq<Fork>, c: ClientState)
    requires Grouped(d, clients, forks)
    ensures Grouped(d, clients + [c], Place(d, forks, |clients|, c))
  {
    PlaceIncomparable(d, forks, |clients|, c);
    PlaceWellFormed(d, clients, forks, c);
    PlaceCovers(d, |clients|, forks, c);
    forall k, m | 0 <= k < |forks| && m in forks[k].all
      ensures m < |clients|
    {
      assert WellFormed(d, clients, forks[k]);
    }
    PlaceDisjoint(d, |clients|, forks, c);
  }

  lemma WellFormedLonger(d: Dag, clients: seq<ClientState>, f: Fork, c: ClientState)
    requires WellFormed(d, clients, f)
    ensures WellFormed(d, clients + [c], f)
  {
    var longer := clients + [c];
    var w :| w in f.all && w < |clients| && clients[w].headRoot == f.root && clients[w].headSlot == f.slot;
    assert longer[w] == clients[w];
    assert forall m :: m in f.all ==> longer[m] == clients[m];
  }

  // The grouping partitions the clients, and its roots stay incomparable while they move.
  lemma {:induction false} GroupGrouped(d: Dag, clients: seq<ClientState>)
    ensures Grouped(d, clients, Group(d, clients))
    decreases |clients|
  {
    if clients != [] {
      var n := |clients| - 1;
      GroupGrouped(d, clients[..n]);
      PlaceGrouped(d, clients[..n], Group(d, clients[..n]), clients[n]);
      assert clients[..n] + [clients[n]] == clients;
    }
  }

  // ---------- the roots are the maximal heads ----------

  ghost predicate IsRoot(forks: seq<Fork>, r: Root)
  {
    exists k :: 0 <= k < |forks| && forks[k].root == r
  }

  ghost predicate IsHead(clients: seq<ClientState>, r: Root)
  {
    exists i :: 0 <= i < |clients| && clients[i].headRoot == r
  }

  // Some client is on r, and no client is on a proper descendant of r.
  ghost predicate IsMaximalHead(d: Dag, clients: seq<ClientState>, r: Root)
  {
    && IsHead(clients, r)
    && forall j :: 0 <= j < |clients| && Canonical(d, r, clients[j].headRoot) ==> clients[j].headRoot == r
  }

  lemma RootIsMaximal(d: Dag, clients: seq<ClientState>, forks: seq<Fork>, k: nat)
    requires Descending(d) && Grouped(d, clients, forks) && k < |forks|
    ensures IsMaximalHead(d, clients, forks[k].root)
  {
    var r := forks[k].root;
    assert WellFormed(d, clients, forks[k]);
    forall j | 0 <= j < |clients| && Canonical(d, r, clients[j].headRoot)
      ensures clients[j].headRoot == r
    {
      var h := clients[j].headRoot;
      assert Placed(forks, j);
      var l :| 0 <= l < |forks| && j in forks[l].all;
      assert WellFormed(d, clients, forks[l]);
      CanonicalTransitive(d, r, h, forks[l].root);
      assert Comparable(d, r, forks[l].root);
      assert l == k;
      CanonicalAntisymmetric(d, h, r);
    }
  }

  lemma MaximalIsRoot(d: Dag, clients: seq<ClientState>, forks: seq<Fork>, r: Root)
    requires Grouped(d, clients, forks) && IsMaximalHead(d, clients, r)
    ensures IsRoot(forks, r)
  {
    var i :| 0 <= i < |clients| && clients[i].headRoot == r;
    assert Placed(forks, i);
    var k :| 0 <= k < |forks| && i in forks[k].all;
    assert WellFormed(d, clients, forks[k]);
    var w :| w in forks[k].all && w < |clients| && clients[w].headRoot == forks[k].root;
    assert forks[k].root == r;
  }

  // The fork roots are exactly the maximal client heads.
  lemma RootsAreMaximalHeads(d: Dag, clients: seq<ClientState>, forks: seq<Fork>, r: Root)
    requires Descending(d) && Grouped(d, clients, forks)
    ensures IsRoot(forks, r) <==> IsMaximalHead(d, clients, r)
  {
    if IsRoot(forks, r) {
      var k :| 0 <= k < |forks| && forks[k].root == r;
      RootIsMaximal(d, clients, forks, k);
    }
    if IsMaximalHead(d, clients, r) {
      MaximalIsRoot(d, clients, forks, r);
    }
  }

  // The roots depend on the set of heads only: not on the order of the clients, nor on how many share a head.
  lemma RootsIgnoreClientOrder(d: Dag, clients: seq<ClientState>, others: seq<ClientState>, r: Root)
    requires Descending(d)
    requires forall h :: IsHead(clients, h) <==> IsHead(others, h)
    ensures IsRoot(Group(d, clients), r) <==> IsRoot(Group(d, others), r)
  {
    GroupGrouped(d, clients);
    GroupGrouped(d, others);
    RootsAreMaximalHeads(d, clients, Group(d, clients), r);
    RootsAreMaximalHeads(d, others, Group(d, others), r);
    if IsMaximalHead(d, clients, r) {
      MaximalSameHeads(d, clients, others, r);
    }
    if IsMaximalHead(d, others, r) {
      MaximalSameHeads(d, others, clients, r);
    }
  }

  lemma MaximalSameHeads(d: Dag, clients: seq<ClientState>, others: seq<ClientState>, r: Root)
    requires forall h :: IsHead(clients, h) <==> IsHead(others, h)
    requires IsMaximalHead(d, clients, r)
    ensures IsMaximalHead(d, others, r)
  {
    forall j | 0 <= j < |others| && Canonical(d, r, others[j].headRoot)
      ensures others[j].headRoot == r
    {
      assert IsHead(others, others[j].headRoot);
      var i :| 0 <= i < |clients| && clients[i].headRoot == others[j].headRoot;
      assert Canonical(d, r, clients[i].headRoot);
    }
  }
}
