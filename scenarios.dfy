/**
 * Worked examples of the whole lineage engine on small collections: linking a
 * child to its parent, a self-referencing label, an alias from the table, and
 * the attachment order of a chain of clusters.
 */
module Scenarios {
  import opened Wrappers
  import opened Text
  import opened Alias
  import opened Records
  import opened Linker
  import opened Levels
  import opened Layout

  function Fresh(name: string, basedOn: Option<string>): Builder
  {
    Builder(name, "", false, basedOn, "")
  }

  /** Building the pair "a" based on "b" and "b" keeps the raw label and
      capitalises the names; the label "b" resolves to "B". */
  lemma PairBuilt()
    ensures var built := BuildAll([Fresh("a", Some("b")), Fresh("b", None)]);
      && built[0] == Distro("A", "", Raw("b"), false, "", [], false)
      && built[1] == Distro("B", "", NoParent, false, "", [], false)
    ensures Canonical(Some("b")) == Some("B")
  {
    assert Capitalize("a") == "A" && Capitalize("b") == "B";
    ShortLabelsUnmapped("b");
  }

  /** The linking pass on the pair: A links to B, and B, with no parent,
      becomes a root. */
  lemma PairFixed()
    ensures FixedAll(BuildAll([Fresh("a", Some("b")), Fresh("b", None)])) ==
      [Distro("A", "", Link(1), false, "", [], false), Distro("B", "", NoParent, true, "", [], false)]
  {
    var built := BuildAll([Fresh("a", Some("b")), Fresh("b", None)]);
    PairBuilt();
    var names := Names(built);
    assert names == ["A", "B"];
    assert Scan(names, 0, Some("B"), false, 0) == Some(1);
    var fixed := FixedAll(built);
    assert fixed[0] == built[0].(basedOn := Link(1));
    assert fixed[1] == built[1].(isParent := true);
  }

  /** "a" based on "b", and "b" based on nothing: A links to B, B becomes a root
      with A as its only child, A is a leaf one level below B. */
  lemma ChildLinksToParent()
    ensures var ds := AddedChildren(FixedAll(BuildAll([Fresh("a", Some("b")), Fresh("b", None)])));
      && ds[0].name == "A" && ds[1].name == "B"
      && ds[0].basedOn == Link(1) && ds[1].basedOn == NoParent && ds[1].isParent
      && ds[1].children == [0] && !ds[1].isLeaf
      && ds[0].children == [] && ds[0].isLeaf
      && Resolved(ds, 0) && Resolved(ds, 1) && Depth(ds, 0) == 1 && Depth(ds, 1) == 0
  {
    var fixed := FixedAll(BuildAll([Fresh("a", Some("b")), Fresh("b", None)]));
    PairFixed();
    var ds := AddedChildren(fixed);
    assert ChildrenOf(fixed, 1, 1) == [0];
    assert ChildrenOf(fixed, 1, 2) == [0];
    assert ChildrenOf(fixed, 0, 1) == [];
    assert ChildrenOf(fixed, 0, 2) == [];
    assert ds[0] == fixed[0].(isLeaf := true);
    assert ds[1] == fixed[1].(children := [0]);
    assert LevelWithin(ds, 1, 2) == Some(0);
    assert LevelWithin(ds, 1, 1) == Some(0);
    assert LevelWithin(ds, 0, 2) == Some(1);
  }

  /** "x" based on "x": after capitalisation the label names the distro itself,
      so it becomes a root instead of linking to itself. */
  lemma SelfReferenceIsRoot()
    ensures var ds := FixedAll(BuildAll([Fresh("x", Some("x"))]));
      ds[0].isParent && ds[0].basedOn == NoParent
  {
    var built := BuildAll([Fresh("x", Some("x"))]);
    assert Capitalize("x") == "X";
    assert built[0] == Distro("X", "", Raw("x"), false, "", [], false);
    ShortLabelsUnmapped("x");
    assert Canonical(Some("x")) == Some("X");
    assert Names(built) == ["X"];
    assert Scan(["X"], 0, Some("X"), true, 1) == None;
    assert Scan(["X"], 0, Some("X"), true, 0) == None;
    assert FixedAll(built)[0] == FixOne(Names(built), 0, built[0]);
  }

  /** A distro scraped as based on "ubuntu (lts)" links to the distro named
      "ubuntu", through the alias table. */
  lemma AliasLinksToUbuntu()
    ensures var ds := FixedAll(BuildAll([Fresh("lubuntu", Some("ubuntu (lts)")), Fresh("ubuntu", None)]));
      ds[0].basedOn == Link(1) && !ds[0].isParent
  {
    var built := BuildAll([Fresh("lubuntu", Some("ubuntu (lts)")), Fresh("ubuntu", None)]);
    UbuntuLtsResolves();
    UbuntuNames();
    assert Names(built) == ["Lubuntu", "Ubuntu"];
    assert Scan(Names(built), 0, Some("Ubuntu"), false, 0) == Some(1);
  }

  /** The two names of the alias example, capitalised. */
  lemma UbuntuNames()
    ensures Capitalize("lubuntu") == "Lubuntu" && Capitalize("ubuntu") == "Ubuntu"
  {
    assert Lower("ubuntu") == "ubuntu";
    assert Lower("buntu") == "buntu";
  }

  /** A chain A based on B based on C, as the linking passes leave it. */
  function Chain(): seq<Distro>
  {
    [Distro("A", "", Link(1), false, "", [], true),
     Distro("B", "", Link(2), false, "", [0], false),
     Distro("C", "", NoParent, true, "", [1], false)]
  }

  lemma ChainDepths()
    ensures AllResolved(Chain())
    ensures Depth(Chain(), 0) == 2 && Depth(Chain(), 1) == 1 && Depth(Chain(), 2) == 0
  {
    var s := Chain();
    assert LevelWithin(s, 2, 1) == Some(0);
    assert LevelWithin(s, 2, 3) == Some(0);
    assert LevelWithin(s, 1, 2) == Some(1);
    assert LevelWithin(s, 1, 3) == Some(1);
    assert LevelWithin(s, 0, 3) == Some(2);
  }

  lemma ChainReady()
    ensures Ready(Chain())
  {
    var s := Chain();
    ChainDepths();
    assert ChildrenOf(s, 0, 3) == [];
    assert ChildrenOf(s, 1, 1) == [0];
    assert ChildrenOf(s, 1, 3) == [0];
    assert ChildrenOf(s, 2, 2) == [1];
    assert ChildrenOf(s, 2, 3) == [1];
  }

  /** The chain's distros grouped by depth: C alone at depth 0, B at depth 1,
      and no non-leaf deeper. */
  lemma ChainBuckets()
    ensures Bucket(Chain(), 0, 3) == [2] && Bucket(Chain(), 1, 3) == [1]
    ensures Bucket(Chain(), 2, 3) == [] && Bucket(Chain(), 3, 3) == []
  {
    var s := Chain();
    ChainDepths();
    assert Bucket(s, 0, 1) == [] && Bucket(s, 0, 2) == [];
    assert Bucket(s, 1, 1) == [] && Bucket(s, 1, 2) == [1];
  }

  /** Attaching B's cluster and then C's: B's into C's, C's into the top level. */
  lemma ChainEmbeds()
    ensures EmbedOps(Chain(), [1, 2]) == [Embed(ClusterOf(1), ClusterOf(2)), Embed(ClusterOf(2), TopLevel)]
  {
    var s := Chain();
    assert [1, 2][..1] == [1];
    assert EmbedOps(s, [1]) == [Embed(ClusterOf(1), ClusterOf(2))];
  }

  /** B's cluster is attached into C's before C's is attached to the top-level
      graph. */
  lemma ChainAttachOrder()
    ensures AttachOrder(Chain()) == [1, 2]
    ensures EmbedOps(Chain(), AttachOrder(Chain())) ==
      [Embed(ClusterOf(1), ClusterOf(2)), Embed(ClusterOf(2), TopLevel)]
  {
    var s := Chain();
    ChainBuckets();
    assert Descending(s, 4, 3) == [];
    assert Descending(s, 4, 2) == [];
    assert Descending(s, 4, 1) == [1];
    ChainEmbeds();
  }

  /** B, with one child, gets font size 12 and width 0.80 in its own cluster;
      the leaf A goes, unsized, into B's cluster with a plain edge to B. */
  lemma ChainNodes()
    ensures AddNode(1, ClusterOf(1), Sized(12, 80)) in NonLeafOps(Chain(), 3)
    ensures LeafOps(Chain(), 3) == [AddNode(0, ClusterOf(1), Plain), AddEdge(0, 1, ClusterOf(1), false)]
  {
    var s := Chain();
    assert NonLeafOps(s, 2) == NonLeafStep(s, 1);
    assert LeafOps(s, 1) == [AddNode(0, ClusterOf(1), Plain), AddEdge(0, 1, ClusterOf(1), false)];
  }
}
