/**
 * Depth of a distro (`Distro.leaf_level`): the number of parent hops from the
 * distro to a root. The hop count is only defined when the chain of parents is
 * finite, acyclic and fully linked; on any other chain the source loops forever
 * or fails on a raw label, so the model only asks for the depth of resolved
 * distros.
 */
module Levels {
  import opened Wrappers
  import opened Records

  /** The hop count from `i` to a root when the root is reached within `fuel`
      hops through links that stay inside the collection; `None` otherwise. */
  function LevelWithin(ds: seq<Distro>, i: nat, fuel: nat): Option<nat>
    requires i < |ds|
    decreases fuel
  {
    match ds[i].basedOn
    case NoParent => Some(0)
    case Raw(_) => None
    case Link(p) =>
      if fuel == 0 || p >= |ds| then None
      else
        match LevelWithin(ds, p, fuel - 1)
        case None => None
        case Some(d) => Some(d + 1)
  }

  /** The parent chain from `i` ends at a root within as many hops as there
      are distros: it is finite, acyclic and fully linked. */
  predicate Resolved(ds: seq<Distro>, i: nat)
  {
    i < |ds| && LevelWithin(ds, i, |ds|).Some?
  }

  predicate AllResolved(ds: seq<Distro>)
  {
    forall i :: 0 <= i < |ds| ==> Resolved(ds, i)
  }

  function Depth(ds: seq<Distro>, i: nat): nat
    requires Resolved(ds, i)
  {
    LevelWithin(ds, i, |ds|).value
  }

  /** More fuel never changes a hop count already found, and a hop count never
      exceeds the fuel. */
  lemma {:induction false} LevelWithinMonotone(ds: seq<Distro>, i: nat, fuel: nat, more: nat)
    requires i < |ds| && fuel <= more
    requires LevelWithin(ds, i, fuel).Some?
    ensures LevelWithin(ds, i, more) == LevelWithin(ds, i, fuel)
    ensures LevelWithin(ds, i, fuel).value <= fuel
    decreases fuel
  {
    if ds[i].basedOn.Link? {
      LevelWithinMonotone(ds, ds[i].basedOn.parent, fuel - 1, more - 1);
    }
  }

  /** A root has depth 0; a distro linked to `p` is one hop deeper than `p`,
      whose chain is then resolved too. */
  lemma DepthStep(ds: seq<Distro>, i: nat)
    requires Resolved(ds, i)
    ensures ds[i].basedOn.NoParent? ==> Depth(ds, i) == 0
    ensures ds[i].basedOn.Link? ==>
      var p := ds[i].basedOn.parent;
      p < |ds| && p != i && Resolved(ds, p) && Depth(ds, i) == Depth(ds, p) + 1
    ensures Depth(ds, i) <= |ds|
    ensures !ds[i].basedOn.Raw?
  {
    LevelWithinMonotone(ds, i, |ds|, |ds|);
    if ds[i].basedOn.Link? {
      var p := ds[i].basedOn.parent;
      LevelWithinMonotone(ds, p, |ds| - 1, |ds|);
    }
  }

  /** The ancestor `k` hops up from `i`, if the chain gets that far. */
  function Ancestor(ds: seq<Distro>, i: nat, k: nat): Option<nat>
    requires i < |ds|
    decreases k
  {
    if k == 0 then Some(i)
    else match ds[i].basedOn
      case Link(p) => if p < |ds| then Ancestor(ds, p, k - 1) else None
      case _ => None
  }

  /** Along a resolved chain every ancestor is exactly as many levels shallower
      as it is hops away; so no distro is its own ancestor. */
  lemma {:induction false} AncestorShallower(ds: seq<Distro>, i: nat, k: nat)
    requires Resolved(ds, i)
    requires Ancestor(ds, i, k).Some?
    ensures Resolved(ds, Ancestor(ds, i, k).value)
    ensures Depth(ds, Ancestor(ds, i, k).value) + k == Depth(ds, i)
    ensures k > 0 ==> Ancestor(ds, i, k).value != i
    decreases k
  {
    if k > 0 {
      DepthStep(ds, i);
      AncestorShallower(ds, ds[i].basedOn.parent, k - 1);
    }
  }

  /** `Distro.leaf_level`: walk the parent links, counting hops. */
  method LeafLevel(ds: array<Distro>, i: nat) returns (level: nat)
    requires Resolved(ds[..], i)
    ensures level == Depth(ds[..], i)
  {
    ghost var s := ds[..];
    DepthStep(s, i);
    level := 0;
    var basedOn := ds[i].basedOn;
    while !basedOn.NoParent?
      invariant basedOn.NoParent? ==> level == Depth(s, i)
      invariant !basedOn.NoParent? ==>
        basedOn.Link? && basedOn.parent < |s| && Resolved(s, basedOn.parent) &&
        level + 1 + Depth(s, basedOn.parent) == Depth(s, i)
      decreases if basedOn.Link? && basedOn.parent < |s| && Resolved(s, basedOn.parent)
        then Depth(s, basedOn.parent) + 1 else 0
    {
      var p := basedOn.parent;
      DepthStep(s, p);
      level := level + 1;
      basedOn := ds[p].basedOn;
    }
  }
}
