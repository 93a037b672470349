/**
 * The block DAG as a value, and the ancestor relation the pool orders client heads by: a chain of
 * parent steps, each out of a cached block that has its header.
 */
module Ancestry {
  import opened Base

  // A cached block: its slot and, once its header is loaded, the root of its parent.
  datatype Node = Node(slot: Slot, parent: Option<Root>)

  type Dag = map<Root, Node>

  // Parents that are cached lie in strictly earlier slots.
  ghost predicate Descending(d: Dag)
  {
    forall r :: r in d && d[r].parent.Some? && d[r].parent.value in d ==> d[d[r].parent.value].slot < d[r].slot
  }

  predicate HasHeader(d: Dag, r: Root)
  {
    r in d && d[r].parent.Some?
  }

  // The root reached from head by n parent steps, if every step leaves a cached block with a header.
  function Ancestor(d: Dag, head: Root, n: nat): Option<Root>
    decreases n
  {
    if n == 0 then Some(head)
    else if HasHeader(d, head) then Ancestor(d, d[head].parent.value, n - 1)
    else None
  }

  // n parent steps lead from head to block, and a block other than the head itself is cached.
  ghost predicate PathTo(d: Dag, block: Root, head: Root, n: nat)
  {
    Ancestor(d, head, n) == Some(block) && (n > 0 ==> block in d)
  }

  // The order on roots: block is head or one of its cached ancestors.
  ghost predicate Canonical(d: Dag, block: Root, head: Root)
  {
    exists n: nat :: PathTo(d, block, head, n)
  }

  // The length of the path, and 0 where there is none.
  ghost function Distance(d: Dag, block: Root, head: Root): nat
  {
    if Canonical(d, block, head) then
      var n: nat :| PathTo(d, block, head, n);
      n
    else
      0
  }

  // ---------- walking ----------

  lemma {:induction false} AncestorAdds(d: Dag, head: Root, n: nat, m: nat)
    requires Ancestor(d, head, n).Some?
    ensures Ancestor(d, head, n + m) == Ancestor(d, Ancestor(d, head, n).value, m)
    decreases n
  {
    if n > 0 {
      AncestorAdds(d, d[head].parent.value, n - 1, m);
    }
  }

  // Slots drop by at least one per step.
  lemma {:induction false} PathDescends(d: Dag, block: Root, head: Root, n: nat)
    requires Descending(d) && PathTo(d, block, head, n) && n > 0
    ensures HasHeader(d, head) && block in d && d[block].slot + n <= d[head].slot
    decreases n
  {
    var p := d[head].parent.value;
    assert Ancestor(d, p, n - 1) == Some(block);
    if n > 1 {
      PathDescends(d, block, p, n - 1);
    }
  }

  // ---------- chains of blocks ----------

  // From head to block, every root but the last is cached with a header that names the next as its parent.
  ghost predicate Links(d: Dag, roots: seq<Root>, head: Root, block: Root)
  {
    && roots != [] && roots[0] == head && roots[|roots| - 1] == block
    && forall i :: 0 <= i < |roots| - 1 ==> roots[i] in d && d[roots[i]].parent == Some(roots[i + 1])
  }

  lemma {:induction false} LinksOf(d: Dag, block: Root, head: Root, n: nat) returns (roots: seq<Root>)
    requires Ancestor(d, head, n) == Some(block)
    ensures |roots| == n + 1 && Links(d, roots, head, block)
    decreases n
  {
    if n == 0 {
      roots := [head];
    } else {
      var rest := LinksOf(d, block, d[head].parent.value, n - 1);
      roots := [head] + rest;
    }
  }

  lemma {:induction false} AncestorByLinks(d: Dag, roots: seq<Root>, head: Root, block: Root)
    requires Links(d, roots, head, block)
    ensures Ancestor(d, head, |roots| - 1) == Some(block)
    decreases |roots|
  {
    if |roots| > 1 {
      assert roots[0] in d && d[roots[0]].parent == Some(roots[1]);
      assert Links(d, roots[1..], roots[1], block) by {
        forall i | 0 <= i < |roots[1..]| - 1
          ensures roots[1..][i] in d && d[roots[1..][i]].parent == Some(roots[1..][i + 1])
        {
          assert roots[i + 1] in d && d[roots[i + 1]].parent == Some(roots[i + 2]);
        }
      }
      AncestorByLinks(d, roots[1..], roots[1], block);
    }
  }

  // There is a path of n steps exactly if that many parent links lead there, to the head itself or a cached block.
  lemma PathIsLinks(d: Dag, block: Root, head: Root, n: nat)
    ensures PathTo(d, block, head, n) <==>
              (n == 0 || block in d) && exists roots :: |roots| == n + 1 && Links(d, roots, head, block)
  {
    if PathTo(d, block, head, n) {
      var roots := LinksOf(d, block, head, n);
    }
    if roots :| |roots| == n + 1 && Links(d, roots, head, block) {
      AncestorByLinks(d, roots, head, block);
    }
  }

  // The distance is the number of links, and 0 where no links lead there.
  lemma DistanceIsLinks(d: Dag, block: Root, head: Root)
    requires Descending(d)
    ensures forall roots :: Links(d, roots, head, block) && (block == head || block in d) ==>
      Distance(d, block, head) == |roots| - 1
    ensures (block != head && (block !in d || !exists roots :: Links(d, roots, head, block))) ==>
      Distance(d, block, head) == 0
  {
    forall roots | Links(d, roots, head, block) && (block == head || block in d)
      ensures Distance(d, block, head) == |roots| - 1
    {
      var n := |roots| - 1;
      AncestorByLinks(d, roots, head, block);
      if block == head {
        CanonicalReflexive(d, head);
        PathUnique(d, head, head, 0, Distance(d, head, head));
      }
      DistanceIs(d, block, head, n);
    }
    if Canonical(d, block, head) {
      var n: nat :| PathTo(d, block, head, n);
      PathIsLinks(d, block, head, n);
    }
  }

  // ---------- order laws ----------

  lemma CanonicalReflexive(d: Dag, block: Root)
    ensures Canonical(d, block, block) && PathTo(d, block, block, 0)
  {
    assert PathTo(d, block, block, 0);
  }

  // Distances add along a chain; in particular the order is transitive.
  lemma PathsCompose(d: Dag, a: Root, b: Root, c: Root, n: nat, m: nat)
    requires PathTo(d, a, b, n) && PathTo(d, b, c, m)
    ensures PathTo(d, a, c, m + n)
  {
    AncestorAdds(d, c, m, n);
  }

  lemma CanonicalTransitive(d: Dag, a: Root, b: Root, c: Root)
    requires Canonical(d, a, b) && Canonical(d, b, c)
    ensures Canonical(d, a, c)
  {
    var n: nat :| PathTo(d, a, b, n);
    var m: nat :| PathTo(d, b, c, m);
    PathsCompose(d, a, b, c, n, m);
  }

  // A root has at most one distance from a head.
  lemma PathUnique(d: Dag, block: Root, head: Root, n: nat, m: nat)
    requires Descending(d) && PathTo(d, block, head, n) && PathTo(d, block, head, m)
    ensures n == m
  {
    if n < m {
      AncestorAdds(d, head, n, m - n);
      PathDescends(d, block, block, m - n);
    } else if m < n {
      AncestorAdds(d, head, m, n - m);
      PathDescends(d, block, block, n - m);
    }
  }

  lemma CanonicalAntisymmetric(d: Dag, a: Root, b: Root)
    requires Descending(d) && Canonical(d, a, b) && Canonical(d, b, a)
    ensures a == b
  {
    var n: nat :| PathTo(d, a, b, n);
    var m: nat :| PathTo(d, b, a, m);
    PathsCompose(d, a, b, a, n, m);
    PathUnique(d, a, a, m + n, 0);
  }

  // Two ancestors of one head lie on one chain, at the difference of their distances.
  lemma AncestorsComparable(d: Dag, a: Root, b: Root, head: Root, n: nat, m: nat)
    requires PathTo(d, a, head, n) && PathTo(d, b, head, m) && m <= n
    ensures PathTo(d, a, b, n - m)
  {
    AncestorAdds(d, head, m, n - m);
  }

  lemma CanonicalComparable(d: Dag, a: Root, b: Root, head: Root)
    requires Canonical(d, a, head) && Canonical(d, b, head)
    ensures Canonical(d, a, b) || Canonical(d, b, a)
  {
    var n: nat :| PathTo(d, a, head, n);
    var m: nat :| PathTo(d, b, head, m);
    if m <= n {
      AncestorsComparable(d, a, b, head, n, m);
    } else {
      AncestorsComparable(d, b, a, head, m, n);
    }
  }

  lemma DistanceIs(d: Dag, block: Root, head: Root, n: nat)
    requires Descending(d) && PathTo(d, block, head, n)
    ensures Distance(d, block, head) == n
  {
    PathUnique(d, block, head, n, Distance(d, block, head));
  }

  // ---------- how the order reacts to changes of the cache ----------

  // The cache without the blocks below minSlot.
  function From(d: Dag, minSlot: int): Dag
  {
    map r | r in d && d[r].slot >= minSlot :: d[r]
  }

  lemma {:induction false} PathSurvivesEviction(d: Dag, minSlot: int, block: Root, head: Root, n: nat)
    requires Descending(d) && PathTo(d, block, head, n) && block in From(d, minSlot)
    ensures PathTo(From(d, minSlot), block, head, n)
    decreases n
  {
    if n > 0 {
      PathDescends(d, block, head, n);
      PathSurvivesEviction(d, minSlot, block, d[head].parent.value, n - 1);
    }
  }

  lemma {:induction false} SubDagPath(d: Dag, e: Dag, block: Root, head: Root, n: nat)
    requires forall r :: r in d ==> r in e && (d[r].parent.Some? ==> e[r] == d[r])
    requires PathTo(d, block, head, n)
    ensures PathTo(e, block, head, n)
    decreases n
  {
    if n > 0 {
      SubDagPath(d, e, block, d[head].parent.value, n - 1);
    }
  }

  // Eviction is transparent: no distance to a surviving block changes, whatever the head.
  lemma EvictionTransparent(d: Dag, minSlot: int, block: Root, head: Root, n: nat)
    requires Descending(d) && block in From(d, minSlot)
    ensures PathTo(d, block, head, n) <==> PathTo(From(d, minSlot), block, head, n)
  {
    if PathTo(d, block, head, n) {
      PathSurvivesEviction(d, minSlot, block, head, n);
    }
    if PathTo(From(d, minSlot), block, head, n) {
      SubDagPath(From(d, minSlot), d, block, head, n);
    }
  }

  // A newly added block without a header changes no path except those that end in it.
  lemma {:induction false} NewBlockTransparent(d: Dag, root: Root, slot: Slot, block: Root, head: Root, n: nat)
    requires root !in d && block != root
    ensures PathTo(d, block, head, n) <==> PathTo(d[root := Node(slot, None)], block, head, n)
    decreases n
  {
    if n > 0 && HasHeader(d, head) {
      NewBlockTransparent(d, root, slot, block, d[head].parent.value, n - 1);
    }
  }
}
