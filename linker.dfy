/**
 * The lineage linker: `fix_based_on` turns each distro's raw "based on" label
 * into a link to another distro of the collection (or marks the distro a root),
 * and `add_children` derives every distro's children and leaf flag.
 * Both passes update the collection in place; each is specified by a function
 * of the collection as it was before the pass.
 */
module Linker {
  import opened Wrappers
  import opened Text
  import opened Alias
  import opened Records

  function Names(ds: seq<Distro>): (r: seq<string>)
    ensures |r| == |ds|
    ensures forall k :: 0 <= k < |ds| ==> r[k] == ds[k].name
  {
    seq(|ds|, k requires 0 <= k < |ds| => ds[k].name)
  }

  predicate DistinctNames(ds: seq<Distro>)
  {
    forall a, b :: 0 <= a < b < |ds| ==> ds[a].name != ds[b].name
  }

  /** The linking pass reads `based_on` while it is still a scraped label or
      nothing; a distro not yet marked as a parent must not hold a link. */
  predicate Linkable(ds: seq<Distro>)
  {
    forall k :: 0 <= k < |ds| ==> !ds[k].isParent ==> !ds[k].basedOn.Link?
  }

  /** The scraped label a `based_on` holds, if any. */
  function RawLabel(b: BasedOn): Option<string>
  {
    match b
    case Raw(s) => Some(s)
    case _ => None
  }

  // ---------------------------------------------------------------------------
  // fix_based_on
  // ---------------------------------------------------------------------------

  /** The inner loop of the linking pass, from position `j` on: skip the distro
      itself, stop at the first other distro named `target`; when
      `stopAfterFirst` (the distro was just made a root) the loop gives up after
      looking at one other distro. */
  function Scan(names: seq<string>, i: nat, target: Option<string>, stopAfterFirst: bool, j: nat): (r: Option<nat>)
    ensures r.Some? ==> j <= r.value < |names| && r.value != i && target == Some(names[r.value])
    decreases |names| - j
  {
    if j >= |names| then None
    else if j == i then Scan(names, i, target, stopAfterFirst, j + 1)
    else if target == Some(names[j]) then Some(j)
    else if stopAfterFirst then None
    else Scan(names, i, target, stopAfterFirst, j + 1)
  }

  /** `j` is the first distro other than `i`, in list order, named `c`. */
  predicate IsFirstOther(names: seq<string>, i: nat, c: string, j: nat)
  {
    j < |names| && j != i && names[j] == c &&
    forall m :: 0 <= m < j && m != i ==> names[m] != c
  }

  /** An unstopped scan finds exactly the first other distro with the name,
      and finds nothing exactly when no other distro has it. */
  lemma {:induction false} ScanFindsFirst(names: seq<string>, i: nat, c: string, j: nat)
    requires forall m :: 0 <= m < j && m < |names| && m != i ==> names[m] != c
    ensures Scan(names, i, Some(c), false, j).Some? ==>
      IsFirstOther(names, i, c, Scan(names, i, Some(c), false, j).value)
    ensures Scan(names, i, Some(c), false, j).None? ==>
      forall m :: 0 <= m < |names| && m != i ==> names[m] != c
    decreases |names| - j
  {
    if j < |names| && (j == i || names[j] != c) {
      ScanFindsFirst(names, i, c, j + 1);
    }
  }

  /** A stopped scan looks at one other distro only: the first one in the list. */
  lemma ScanAfterRoot(names: seq<string>, i: nat, target: Option<string>)
    requires i < |names|
    ensures Scan(names, i, target, true, 0).Some? ==>
      Scan(names, i, target, true, 0).value == (if i == 0 then 1 else 0)
  {
  }

  /** The effect of the linking pass on the distro at position `i`. */
  function FixOne(names: seq<string>, i: nat, d: Distro): (r: Distro)
    requires !d.isParent ==> !d.basedOn.Link?
    ensures d.isParent ==> r == d
    ensures r == d.(isParent := r.isParent, basedOn := r.basedOn)
    ensures !d.isParent ==> r.basedOn != Link(i)
    ensures !d.isParent && r.basedOn.Link? ==>
      r.basedOn.parent < |names| && Canonical(RawLabel(d.basedOn)) == Some(names[r.basedOn.parent])
  {
    if d.isParent then d
    else
      var target := Canonical(RawLabel(d.basedOn));
      var root := target == Some(d.name) || target == Some("") || target.None?;
      var d' := if root then d.(isParent := true, basedOn := NoParent) else d;
      match Scan(names, i, target, root, 0)
      case Some(j) => d'.(basedOn := Link(j))
      case None => d'
  }

  /** The collection after the linking pass: each distro fixed against the
      names of the whole collection (the pass never changes a name). */
  function FixedAll(ds: seq<Distro>): (r: seq<Distro>)
    requires Linkable(ds)
    ensures |r| == |ds|
  {
    seq(|ds|, k requires 0 <= k < |ds| => FixOne(Names(ds), k, ds[k]))
  }

  /** The pass leaves distro `x` unresolved: not a parent, yet still holding its
      scraped label. */
  predicate Unresolved(ds: seq<Distro>, x: nat)
    requires Linkable(ds)
  {
    x < |ds| && !ds[x].isParent && FixOne(Names(ds), x, ds[x]).basedOn.Raw?
  }

  /** The positions among the first `k` whose flag is set, in increasing order. */
  function Where(flags: seq<bool>, k: nat): seq<nat>
    requires k <= |flags|
  {
    if k == 0 then []
    else Where(flags, k - 1) + (if flags[k - 1] then [k - 1] else [])
  }

  lemma {:induction false} WhereSpec(flags: seq<bool>, k: nat)
    requires k <= |flags|
    ensures forall x :: x in Where(flags, k) <==> 0 <= x < k && flags[x]
    ensures forall a, b :: 0 <= a < b < |Where(flags, k)| ==> Where(flags, k)[a] < Where(flags, k)[b]
  {
    if k > 0 {
      WhereSpec(flags, k - 1);
      var prev := Where(flags, k - 1);
      forall m | 0 <= m < |prev| ensures prev[m] < k - 1 {
        assert prev[m] in prev;
      }
    }
  }

  /** For each distro, whether the pass leaves it unresolved. */
  function UnresolvedFlags(ds: seq<Distro>): (r: seq<bool>)
    requires Linkable(ds)
    ensures |r| == |ds|
  {
    seq(|ds|, x requires 0 <= x < |ds| => Unresolved(ds, x))
  }

  /** The unresolved distros among the first `k`, in list order. */
  function UnresolvedUpTo(ds: seq<Distro>, k: nat): seq<nat>
    requires Linkable(ds) && k <= |ds|
  {
    Where(UnresolvedFlags(ds), k)
  }

  /** The names of the array are `names`. */
  predicate NamedAs(ds: array<Distro>, names: seq<string>)
    reads ds
  {
    |names| == ds.Length && forall k :: 0 <= k < ds.Length ==> ds[k].name == names[k]
  }

  /** The inner loop of `fix_based_on`: look through the other distros for the
      target name. */
  method ScanOthers(ds: array<Distro>, i: nat, target: Option<string>, stopAfterFirst: bool, ghost names: seq<string>)
    returns (found: Option<nat>)
    requires i < ds.Length && NamedAs(ds, names)
    ensures found == Scan(names, i, target, stopAfterFirst, 0)
  {
    found := None;
    var j := 0;
    while j < ds.Length
      invariant 0 <= j <= ds.Length
      invariant Scan(names, i, target, stopAfterFirst, 0) == Scan(names, i, target, stopAfterFirst, j)
    {
      if j == i {
        j := j + 1;
        continue;
      }
      if target == Some(ds[j].name) {
        found := Some(j);
        break;
      }
      if stopAfterFirst {
        break;
      }
      j := j + 1;
    }
  }

  /** The body of the outer loop of `fix_based_on` for the distro at `i`: its
      fixed record, and whether it goes into the unresolved list. */
  method FixEntry(ds: array<Distro>, i: nat, ghost names: seq<string>) returns (d: Distro, unresolved: bool)
    requires i < ds.Length && NamedAs(ds, names) && (!ds[i].isParent ==> !ds[i].basedOn.Link?)
    ensures d == FixOne(names, i, ds[i])
    ensures unresolved <==> !ds[i].isParent && d.basedOn.Raw?
  {
    d := ds[i];
    unresolved := false;
    if d.isParent {
      return;
    }
    var target := Canonical(RawLabel(d.basedOn));
    var itWasSet := false;
    if target == Some(d.name) || target == Some("") || target.None? {
      itWasSet := true;
      d := d.(isParent := true, basedOn := NoParent);
    }
    var found := ScanOthers(ds, i, target, itWasSet, names);
    if found.Some? {
      d := d.(basedOn := Link(found.value));
      itWasSet := true;
    }
    unresolved := !itWasSet;
  }

  /** One round of the outer loop of `fix_based_on`: the distro at `i` is
      replaced by its fixed record, nothing else changes, and the distro is
      added to the unresolved list exactly when the pass leaves it unresolved. */
  method FixAt(ds: array<Distro>, i: nat, ghost orig: seq<Distro>, ghost names: seq<string>, toFix: seq<nat>)
    returns (toFix': seq<nat>)
    requires i < ds.Length == |orig| && Linkable(orig) && names == Names(orig)
    requires ds[i] == orig[i] && NamedAs(ds, names)
    requires toFix == UnresolvedUpTo(orig, i)
    modifies ds
    ensures ds[i] == FixedAll(orig)[i]
    ensures forall k :: 0 <= k < ds.Length && k != i ==> ds[k] == old(ds[k])
    ensures NamedAs(ds, names)
    ensures toFix' == UnresolvedUpTo(orig, i + 1)
  {
    var d, unresolved := FixEntry(ds, i, names);
    toFix' := toFix;
    if unresolved {
      toFix' := toFix' + [i];
    }
    ds[i] := d;
  }

  /** `fix_based_on`. Returns the distros it could not resolve, in list order
      (the source collects them in a local list and drops it). */
  method FixBasedOn(ds: array<Distro>) returns (toFix: seq<nat>)
    requires Linkable(ds[..])
    modifies ds
    ensures ds[..] == FixedAll(old(ds[..]))
    ensures toFix == UnresolvedUpTo(old(ds[..]), ds.Length)
  {
    ghost var orig := ds[..];
    ghost var names := Names(orig);
    ghost var fixed := FixedAll(orig);
    toFix := [];
    for i := 0 to ds.Length
      invariant forall k :: 0 <= k < i ==> ds[k] == fixed[k]
      invariant forall k :: i <= k < ds.Length ==> ds[k] == orig[k]
      invariant NamedAs(ds, names)
      invariant toFix == UnresolvedUpTo(orig, i)
    {
      toFix := FixAt(ds, i, orig, names, toFix);
    }
  }

  /** Parents are skipped; a distro whose label resolves to nothing or to its
      own name becomes a root, provided no other distro shares its name. */
  lemma FixMakesRoots(ds: seq<Distro>, k: nat)
    requires Linkable(ds) && DistinctNames(ds) && k < |ds|
    requires !ds[k].isParent
    requires Canonical(RawLabel(ds[k].basedOn)) in {None, Some(ds[k].name)}
    ensures FixedAll(ds)[k].isParent && FixedAll(ds)[k].basedOn == NoParent
  {
  }

  /** Any other label links the distro to the first other distro, in list
      order, with that name; when there is none the distro is left exactly as
      it was: not a parent, its scraped label untouched. */
  lemma FixLinksFirstMatch(ds: seq<Distro>, k: nat)
    requires Linkable(ds) && k < |ds|
    requires !ds[k].isParent
    requires Canonical(RawLabel(ds[k].basedOn)).Some?
    requires Canonical(RawLabel(ds[k].basedOn)).value != ds[k].name
    ensures var c := Canonical(RawLabel(ds[k].basedOn)).value;
      && !FixedAll(ds)[k].isParent
      && (forall j :: FixedAll(ds)[k].basedOn == Link(j) <==> IsFirstOther(Names(ds), k, c, j))
      && (FixedAll(ds)[k].basedOn.Link? || FixedAll(ds)[k] == ds[k])
      && (FixedAll(ds)[k] == ds[k] ==> ds[k].basedOn.Raw? && forall m :: 0 <= m < |ds| && m != k ==> ds[m].name != c)
  {
    var c := Canonical(RawLabel(ds[k].basedOn)).value;
    ScanFindsFirst(Names(ds), k, c, 0);
    var s := Scan(Names(ds), k, Some(c), false, 0);
  }

  /** The diagnostic list holds, in list order, exactly the unresolved distros. */
  lemma UnresolvedSpec(ds: seq<Distro>, k: nat)
    requires Linkable(ds) && k <= |ds|
    ensures forall x :: x in UnresolvedUpTo(ds, k) <==> 0 <= x < k && Unresolved(ds, x)
    ensures forall a, b :: 0 <= a < b < |UnresolvedUpTo(ds, k)| ==>
      UnresolvedUpTo(ds, k)[a] < UnresolvedUpTo(ds, k)[b]
  {
    WhereSpec(UnresolvedFlags(ds), k);
  }

  /** An unresolved distro is left exactly as it was. */
  lemma UnresolvedUntouched(ds: seq<Distro>, x: nat)
    requires Linkable(ds) && x < |ds| && Unresolved(ds, x)
    ensures FixedAll(ds)[x] == ds[x] && ds[x].basedOn.Raw?
  {
  }

  // ---------------------------------------------------------------------------
  // add_children
  // ---------------------------------------------------------------------------

  /** The distros among the first `k` that link to `p`, other than `p` itself, in list order. */
  function ChildrenOf(ds: seq<Distro>, p: nat, k: nat): seq<nat>
    requires k <= |ds|
  {
    if k == 0 then []
    else ChildrenOf(ds, p, k - 1) + (if k - 1 != p && ds[k - 1].basedOn == Link(p) then [k - 1] else [])
  }

  lemma {:induction false} ChildrenOfSpec(ds: seq<Distro>, p: nat, k: nat)
    requires k <= |ds|
    ensures forall c :: c in ChildrenOf(ds, p, k) <==> 0 <= c < k && c != p && ds[c].basedOn == Link(p)
    ensures forall a, b :: 0 <= a < b < |ChildrenOf(ds, p, k)| ==> ChildrenOf(ds, p, k)[a] < ChildrenOf(ds, p, k)[b]
  {
    if k > 0 {
      ChildrenOfSpec(ds, p, k - 1);
      var prev := ChildrenOf(ds, p, k - 1);
      assert forall m :: 0 <= m < |prev| ==> prev[m] < k - 1 by {
        forall m | 0 <= m < |prev| ensures prev[m] < k - 1 {
          assert prev[m] in prev;
        }
      }
    }
  }

  /** Children depend on the links alone. */
  lemma {:induction false} ChildrenOfSameLinks(ds: seq<Distro>, es: seq<Distro>, p: nat, k: nat)
    requires k <= |ds| == |es|
    requires forall m :: 0 <= m < |ds| ==> ds[m].basedOn == es[m].basedOn
    ensures ChildrenOf(ds, p, k) == ChildrenOf(es, p, k)
  {
    if k > 0 {
      ChildrenOfSameLinks(ds, es, p, k - 1);
    }
  }

  /** The effect of `add_children` on the distro at position `p`: the distros
      linking to it are appended to its children, and it becomes a leaf if it
      then has none. */
  function WithChildren(ds: seq<Distro>, p: nat): (r: Distro)
    requires p < |ds|
    ensures r == ds[p].(children := r.children, isLeaf := r.isLeaf)
  {
    var kids := ds[p].children + ChildrenOf(ds, p, |ds|);
    ds[p].(children := kids, isLeaf := ds[p].isLeaf || |kids| == 0)
  }

  function AddedChildren(ds: seq<Distro>): (r: seq<Distro>)
    ensures |r| == |ds|
  {
    seq(|ds|, p requires 0 <= p < |ds| => WithChildren(ds, p))
  }

  /** One round of the outer loop of `add_children`: the distros linking to
      `p` are appended to its children and its leaf flag is set; nothing else
      changes. */
  method CollectChildren(ds: array<Distro>, p: nat, ghost orig: seq<Distro>)
    requires p < ds.Length == |orig| && ds[p] == orig[p]
    requires forall k :: 0 <= k < ds.Length ==> ds[k].basedOn == orig[k].basedOn
    modifies ds
    ensures ds[p] == WithChildren(orig, p)
    ensures forall k :: 0 <= k < ds.Length && k != p ==> ds[k] == old(ds[k])
  {
    for j := 0 to ds.Length
      invariant ds[p] == orig[p].(children := orig[p].children + ChildrenOf(orig, p, j))
      invariant forall k :: 0 <= k < ds.Length && k != p ==> ds[k] == old(ds[k])
    {
      if j == p {
        continue;
      }
      if ds[j].basedOn == Link(p) {
        ds[p] := ds[p].(children := ds[p].children + [j]);
      }
    }
    if |ds[p].children| == 0 {
      ds[p] := ds[p].(isLeaf := true);
    }
  }

  /** `add_children`. */
  method AddChildren(ds: array<Distro>)
    modifies ds
    ensures ds[..] == AddedChildren(old(ds[..]))
  {
    ghost var orig := ds[..];
    for p := 0 to ds.Length
      invariant forall k :: 0 <= k < p ==> ds[k] == WithChildren(orig, k)
      invariant forall k :: p <= k < ds.Length ==> ds[k] == orig[k]
      invariant forall k :: 0 <= k < ds.Length ==> ds[k].basedOn == orig[k].basedOn
    {
      CollectChildren(ds, p, orig);
    }
  }

  /** Children and leaf flags agree with the links: each distro's children are
      exactly the other distros linking to it, in list order, and it is a leaf
      exactly when it has none. */
  ghost predicate ChildrenAgree(ds: seq<Distro>)
  {
    forall p :: 0 <= p < |ds| ==>
      ds[p].children == ChildrenOf(ds, p, |ds|) && (ds[p].isLeaf <==> ds[p].children == [])
  }

  /** On distros as built (no children, not leaves), `add_children` makes
      children and leaf flags agree with the links, changes no link, and makes no
      distro with an unresolved label anybody's child. */
  lemma AddChildrenAgrees(ds: seq<Distro>)
    requires forall k :: 0 <= k < |ds| ==> ds[k].children == [] && !ds[k].isLeaf
    ensures forall k :: 0 <= k < |ds| ==> AddedChildren(ds)[k].basedOn == ds[k].basedOn
    ensures ChildrenAgree(AddedChildren(ds))
    ensures forall p, c :: 0 <= p < |ds| && 0 <= c < |ds| && ds[c].basedOn.Raw? ==>
      c !in AddedChildren(ds)[p].children
  {
    var r := AddedChildren(ds);
    forall p | 0 <= p < |ds|
      ensures r[p].children == ChildrenOf(r, p, |r|) && (r[p].isLeaf <==> r[p].children == [])
      ensures forall c :: 0 <= c < |ds| && ds[c].basedOn.Raw? ==> c !in r[p].children
    {
      ChildrenOfSameLinks(ds, r, p, |ds|);
      ChildrenOfSpec(ds, p, |ds|);
    }
  }

  /** The linking passes as the program runs them on freshly built distros:
      nobody is linked to itself, the unresolved distros keep their labels, and
      children and leaf flags agree with the links. */
  lemma LinkPipeline(bs: seq<Builder>)
    ensures var ds := AddedChildren(FixedAll(BuildAll(bs)));
      && ChildrenAgree(ds)
      && (forall k :: 0 <= k < |ds| ==> ds[k].basedOn != Link(k))
      && (forall k :: 0 <= k < |ds| ==> ds[k].name == Capitalize(bs[k].name))
  {
    var built := BuildAll(bs);
    assert Linkable(built);
    var fixed := FixedAll(built);
    AddChildrenAgrees(fixed);
    forall k | 0 <= k < |bs| ensures fixed[k].basedOn != Link(k) {
      if built[k].isParent {
        assert fixed[k] == built[k];
      }
    }
  }
}
