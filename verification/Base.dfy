/** Names and value types shared by the whole model. */
module Base {

  datatype Option<+T> = None | Some(value: T)

  // Block roots are opaque 32-byte strings: only equality matters, and only the zero root is special.
  type Root = nat
  const ZERO_ROOT: Root := 0

  type Slot = nat

  datatype ClientType =
    | Unspecified
    | Unknown
    | Lighthouse
    | Lodestar
    | Nimbus
    | Prysm
    | Teku
    | Grandine
    | Caplin

  datatype ClientStatus = Online | Offline | Synchronizing | Optimistic

  // What a block's header fixes: its slot and the root of its parent.
  datatype Link = Link(slot: Slot, parent: Root)

  /**
   * The blocks that exist, whether cached or not. The consensus specification orders them: a block's
   * slot is strictly greater than its parent's (process_block_header, phase0 beacon-chain document).
   * No block has the zero root; the genesis block's parent is not a block.
   */
  type Chain = imap<Root, Link>

  ghost predicate Ordered(chain: Chain)
  {
    && ZERO_ROOT !in chain
    && forall r :: r in chain && chain[r].parent in chain ==> chain[chain[r].parent].slot < chain[r].slot
  }

  // What a predicate may be put behind: a method that only passes it on need not carry what it says, and
  // asserting Look of its seal brings that in.
  datatype Seal =
    | CacheSeal
    | PoolSeal
    | SessionSeal
    | HandledSeal
    | ListSeal
    | LoopSeal
    | QuerySeal
    | CallSeal
    | SweepSeal
    | StepSeal
    | LevelSeal
    | BandSeal

  ghost predicate Look(seal: Seal, k: int)
  {
    true
  }

  predicate Ascending(s: seq<nat>)
  {
    forall i, j :: 0 <= i < j < |s| ==> s[i] < s[j]
  }

  ghost predicate Distinct<T>(s: seq<T>)
  {
    forall i, j :: 0 <= i < j < |s| ==> s[i] != s[j]
  }

  lemma DistinctAppend<T>(s: seq<T>, t: seq<T>)
    requires Distinct(s) && Distinct(t)
    requires forall x :: x in t ==> x !in s
    ensures Distinct(s + t)
  {
    assert forall j :: 0 <= j < |t| ==> t[j] in t;
  }
}
