/**
 * Layout planning (`create_graph`), with the graph-rendering library replaced by
 * an abstract plan: the sequence of graph operations the function performs.
 * A graph is the top-level graph, the cluster of distros with no dependencies,
 * or the cluster of one non-leaf distro. The rendering library copies a
 * cluster's contents into its parent graph at the moment the cluster is
 * embedded, so the plan is checked by replaying it on a canvas that refuses
 * to touch a graph that does not exist yet or has already been embedded.
 */
module Layout {
  import opened Wrappers
  import opened Records
  import opened Linker
  import opened Levels

  datatype Target = TopLevel | NoDependencies | ClusterOf(owner: nat)

  /** Node sizing: non-leaf nodes grow with their fan-out, leaves keep the
      renderer's defaults. */
  datatype Style = Sized(fontSize: nat, widthHundredths: nat) | Plain

  datatype Op =
    | Open(graph: Target)
    | AddNode(distro: nat, into: Target, style: Style)
    | AddEdge(from: nat, to: nat, into: Target, emphasised: bool)
    | Embed(sub: Target, into: Target)

  /** `font_size`: 10 points plus 2 per child. */
  function FontSize(fanOut: nat): nat
  {
    10 + 2 * fanOut
  }

  /** `width` in hundredths of an inch: 0.75 plus 0.05 per child. */
  function WidthHundredths(fanOut: nat): nat
  {
    75 + 5 * fanOut
  }

  /** What `create_graph` needs of the collection: every parent chain resolved,
      and children and leaf flags as `add_children` leaves them. */
  ghost predicate Ready(s: seq<Distro>)
  {
    AllResolved(s) && ChildrenAgree(s)
  }

  /** The parent of a linked distro has a child, so it is not a leaf and has a
      cluster of its own. */
  lemma ParentNotLeaf(s: seq<Distro>, c: nat)
    requires Ready(s) && c < |s| && s[c].basedOn.Link?
    ensures s[c].basedOn.parent < |s| && s[c].basedOn.parent != c
    ensures !s[s[c].basedOn.parent].isLeaf
  {
    DepthStep(s, c);
    var p := s[c].basedOn.parent;
    ChildrenOfSpec(s, p, |s|);
    assert c in s[p].children;
  }

  /** Every link points at a distro of the collection that has a cluster. */
  predicate LinksToClusters(s: seq<Distro>)
  {
    forall i :: 0 <= i < |s| && s[i].basedOn.Link? ==>
      s[i].basedOn.parent < |s| && !s[s[i].basedOn.parent].isLeaf
  }

  lemma ReadyLinksToClusters(s: seq<Distro>)
    requires Ready(s)
    ensures LinksToClusters(s)
  {
    forall i | 0 <= i < |s| && s[i].basedOn.Link?
      ensures s[i].basedOn.parent < |s| && !s[s[i].basedOn.parent].isLeaf
    {
      ParentNotLeaf(s, i);
    }
  }

  // ---------------------------------------------------------------------------
  // The plan
  // ---------------------------------------------------------------------------

  /** One cluster per non-leaf distro among the first `k`, in list order. */
  function ClusterOps(s: seq<Distro>, k: nat): seq<Op>
    requires k <= |s|
  {
    if k == 0 then [] else ClusterOps(s, k - 1) + ClusterStep(s, k - 1)
  }

  function ClusterStep(s: seq<Distro>, i: nat): seq<Op>
    requires i < |s|
  {
    if s[i].isLeaf then [] else [Open(ClusterOf(i))]
  }

  function NonLeafStep(s: seq<Distro>, i: nat): seq<Op>
    requires i < |s|
  {
    if s[i].isLeaf then []
    else
      [AddNode(i, ClusterOf(i), Sized(FontSize(|s[i].children|), WidthHundredths(|s[i].children|)))] +
      match s[i].basedOn
      case Link(p) => [AddEdge(i, p, ClusterOf(p), true)]
      case _ => []
  }

  /** Nodes (and edges to their parents) of the non-leaf distros among the first `k`. */
  function NonLeafOps(s: seq<Distro>, k: nat): seq<Op>
    requires k <= |s|
  {
    if k == 0 then [] else NonLeafOps(s, k - 1) + NonLeafStep(s, k - 1)
  }

  function LeafStep(s: seq<Distro>, i: nat): seq<Op>
    requires i < |s|
  {
    if !s[i].isLeaf then []
    else
      match s[i].basedOn
      case Link(p) => [AddNode(i, ClusterOf(p), Plain), AddEdge(i, p, ClusterOf(p), false)]
      case _ => [AddNode(i, NoDependencies, Plain)]
  }

  /** Nodes (and edges to their parents) of the leaf distros among the first `k`. */
  function LeafOps(s: seq<Distro>, k: nat): seq<Op>
    requires k <= |s|
  {
    if k == 0 then [] else LeafOps(s, k - 1) + LeafStep(s, k - 1)
  }

  /** Distro `x` is a non-leaf at depth `level`. */
  predicate AtLevel(s: seq<Distro>, x: nat, level: nat)
  {
    x < |s| && !s[x].isLeaf && Resolved(s, x) && Depth(s, x) == level
  }

  /** The non-leaf distros at depth `level` among the first `k`, in list order:
      one entry of `graphs_by_level`. */
  function Bucket(s: seq<Distro>, level: nat, k: nat): seq<nat>
    requires k <= |s|
  {
    if k == 0 then []
    else Bucket(s, level, k - 1) + (if AtLevel(s, k - 1, level) then [k - 1] else [])
  }

  /** The buckets for the depths from `hi - 1` down to `lo`, deepest first. */
  function Descending(s: seq<Distro>, hi: nat, lo: nat): seq<nat>
    decreases hi - lo
  {
    if lo >= hi then [] else Descending(s, hi, lo + 1) + Bucket(s, lo, |s|)
  }

  /** The order in which `create_graph` attaches the non-leaf clusters. */
  function AttachOrder(s: seq<Distro>): seq<nat>
  {
    Descending(s, |s| + 1, 0)
  }

  /** Attaching the cluster of `x`: into its parent's cluster, or into the
      top-level graph when it has no parent. */
  function EmbedOf(s: seq<Distro>, x: nat): Op
  {
    Embed(ClusterOf(x), if x < |s| && s[x].basedOn.Link? then ClusterOf(s[x].basedOn.parent) else TopLevel)
  }

  function EmbedOps(s: seq<Distro>, xs: seq<nat>): seq<Op>
    decreases |xs|
  {
    if xs == [] then [] else EmbedOps(s, xs[..|xs| - 1]) + [EmbedOf(s, xs[|xs| - 1])]
  }

  lemma EmbedOpsSnoc(s: seq<Distro>, xs: seq<nat>, x: nat)
    ensures EmbedOps(s, xs + [x]) == EmbedOps(s, xs) + [EmbedOf(s, x)]
  {
    assert (xs + [x])[..|xs|] == xs;
  }

  lemma {:induction false} EmbedOpsConcat(s: seq<Distro>, xs: seq<nat>, ys: seq<nat>)
    ensures EmbedOps(s, xs + ys) == EmbedOps(s, xs) + EmbedOps(s, ys)
    decreases |ys|
  {
    if ys == [] {
      assert xs + ys == xs;
    } else {
      var init := ys[..|ys| - 1];
      var y := ys[|ys| - 1];
      assert ys == init + [y];
      assert xs + ys == (xs + init) + [y];
      EmbedOpsConcat(s, xs, init);
      EmbedOpsSnoc(s, xs + init, y);
      EmbedOpsSnoc(s, init, y);
    }
  }

  /** The operations before the clusters are attached: create the graphs, add
      the nodes and edges, attach the no-dependencies cluster. */
  function BuildOps(s: seq<Distro>): seq<Op>
  {
    [Open(TopLevel)] + ClusterOps(s, |s|) + NonLeafOps(s, |s|) + [Open(NoDependencies)] +
    LeafOps(s, |s|) + [Embed(NoDependencies, TopLevel)]
  }

  /** Every graph operation of `create_graph`, in order. */
  function GraphPlan(s: seq<Distro>): seq<Op>
  {
    BuildOps(s) + EmbedOps(s, AttachOrder(s))
  }

  /** No distro still holds an unresolved scraped label. */
  predicate NoRawLabels(s: seq<Distro>)
  {
    forall i :: 0 <= i < |s| ==> !s[i].basedOn.Raw?
  }

  lemma ReadyHasNoRawLabels(s: seq<Distro>)
    requires Ready(s)
    ensures NoRawLabels(s) && LinksToClusters(s)
  {
    forall i | 0 <= i < |s| ensures !s[i].basedOn.Raw? {
      DepthStep(s, i);
    }
    ReadyLinksToClusters(s);
  }

  /** The first pass of `create_graph`: a cluster for every non-leaf distro. */
  method PlanClusters(ds: array<Distro>) returns (ops: seq<Op>)
    ensures ops == ClusterOps(ds[..], ds.Length)
  {
    ops := [];
    for i := 0 to ds.Length
      invariant ops == ClusterOps(ds[..], i)
    {
      if !ds[i].isLeaf {
        ops := ops + [Open(ClusterOf(i))];
      }
    }
  }

  /** The second pass: the node of every non-leaf distro, sized by its
      fan-out, and its emphasised edge to its parent. */
  method PlanNonLeaves(ds: array<Distro>) returns (ops: seq<Op>)
    requires NoRawLabels(ds[..])
    ensures ops == NonLeafOps(ds[..], ds.Length)
  {
    ops := [];
    for i := 0 to ds.Length
      invariant ops == NonLeafOps(ds[..], i)
    {
      var step := PlanNonLeaf(ds, i);
      ops := ops + step;
    }
  }

  /** The operations of the second pass for distro `i`. */
  method PlanNonLeaf(ds: array<Distro>, i: nat) returns (step: seq<Op>)
    requires i < ds.Length && NoRawLabels(ds[..])
    ensures step == NonLeafStep(ds[..], i)
  {
    step := [];
    if !ds[i].isLeaf {
      var fanOut := |ds[i].children|;
      step := step + [AddNode(i, ClusterOf(i), Sized(FontSize(fanOut), WidthHundredths(fanOut)))];
      if !ds[i].basedOn.NoParent? {
        var p := ds[i].basedOn.parent;
        step := step + [AddEdge(i, p, ClusterOf(p), true)];
      }
    }
  }

  /** The third pass: the node of every leaf, in its parent's cluster with a
      plain edge to the parent, or in the no-dependencies cluster. */
  method PlanLeaves(ds: array<Distro>) returns (ops: seq<Op>)
    requires NoRawLabels(ds[..])
    ensures ops == LeafOps(ds[..], ds.Length)
  {
    ops := [];
    for i := 0 to ds.Length
      invariant ops == LeafOps(ds[..], i)
    {
      var step := PlanLeaf(ds, i);
      ops := ops + step;
    }
  }

  /** The operations of the third pass for distro `i`. */
  method PlanLeaf(ds: array<Distro>, i: nat) returns (step: seq<Op>)
    requires i < ds.Length && NoRawLabels(ds[..])
    ensures step == LeafStep(ds[..], i)
  {
    step := [];
    if ds[i].isLeaf {
      if !ds[i].basedOn.NoParent? {
        var p := ds[i].basedOn.parent;
        step := [AddNode(i, ClusterOf(p), Plain), AddEdge(i, p, ClusterOf(p), false)];
      } else {
        step := [AddNode(i, NoDependencies, Plain)];
      }
    }
  }

  /** `graphs_by_level`: the non-leaf distros grouped by depth, each group in
      list order; a depth with no non-leaf distro has no entry. */
  method GroupByLevel(ds: array<Distro>) returns (byLevel: map<nat, seq<nat>>)
    requires AllResolved(ds[..])
    ensures forall level :: level in byLevel ==> byLevel[level] == Bucket(ds[..], level, ds.Length)
    ensures forall level :: level !in byLevel ==> Bucket(ds[..], level, ds.Length) == []
    ensures forall level :: level in byLevel ==> byLevel[level] != []
  {
    byLevel := map[];
    for i := 0 to ds.Length
      invariant forall level :: level in byLevel ==> byLevel[level] == Bucket(ds[..], level, i)
      invariant forall level :: level !in byLevel ==> Bucket(ds[..], level, i) == []
      invariant forall level :: level in byLevel ==> byLevel[level] != []
    {
      if !ds[i].isLeaf {
        var level := LeafLevel(ds, i);
        var group := if level in byLevel then byLevel[level] else [];
        byLevel := byLevel[level := group + [i]];
      }
    }
  }

  /** Attaching the clusters of one depth group, in order. */
  method PlanGroup(ds: array<Distro>, group: seq<nat>) returns (ops: seq<Op>)
    requires NoRawLabels(ds[..])
    requires forall m :: 0 <= m < |group| ==> group[m] < ds.Length
    ensures ops == EmbedOps(ds[..], group)
  {
    ghost var s := ds[..];
    ops := [];
    for m := 0 to |group|
      invariant ops == EmbedOps(s, group[..m])
    {
      var x := group[m];
      var op;
      if !ds[x].basedOn.NoParent? {
        op := Embed(ClusterOf(x), ClusterOf(ds[x].basedOn.parent));
      } else {
        op := Embed(ClusterOf(x), TopLevel);
      }
      assert op == EmbedOf(s, x);
      EmbedOpsSnoc(s, group[..m], x);
      assert group[..m + 1] == group[..m] + [x];
      ops := ops + [op];
    }
    assert group[..|group|] == group;
  }

  /** The last pass: attach each non-leaf cluster, level by level from the
      deepest, to its parent's cluster or to the top-level graph. */
  method PlanAttach(ds: array<Distro>, byLevel: map<nat, seq<nat>>) returns (ops: seq<Op>)
    requires NoRawLabels(ds[..])
    requires forall level :: level in byLevel ==> byLevel[level] == Bucket(ds[..], level, ds.Length)
    requires forall level :: level !in byLevel ==> Bucket(ds[..], level, ds.Length) == []
    ensures ops == EmbedOps(ds[..], AttachOrder(ds[..]))
  {
    ghost var s := ds[..];
    var n := ds.Length;
    ops := [];
    var level: nat := n + 1;
    while level > 0
      invariant level <= n + 1
      invariant ops == EmbedOps(s, Descending(s, n + 1, level))
    {
      level := level - 1;
      ghost var done := Descending(s, n + 1, level + 1);
      assert Descending(s, n + 1, level) == done + Bucket(s, level, n);
      EmbedOpsConcat(s, done, Bucket(s, level, n));
      if level in byLevel {
        BucketSpec(s, level, n);
        forall m | 0 <= m < |byLevel[level]| ensures byLevel[level][m] < n {
          assert byLevel[level][m] in Bucket(s, level, n);
        }
        var attached := PlanGroup(ds, byLevel[level]);
        ops := ops + attached;
      }
    }
  }

  /** `create_graph` up to rendering: the sequence of graph operations it
      performs on a collection prepared by the linking passes. */
  method CreateGraph(ds: array<Distro>) returns (plan: seq<Op>)
    requires Ready(ds[..])
    ensures plan == GraphPlan(ds[..])
  {
    ReadyHasNoRawLabels(ds[..]);
    var clusters := PlanClusters(ds);
    var nonLeaves := PlanNonLeaves(ds);
    var leaves := PlanLeaves(ds);
    var byLevel := GroupByLevel(ds);
    var attach := PlanAttach(ds, byLevel);
    plan := [Open(TopLevel)] + clusters + nonLeaves + [Open(NoDependencies)] + leaves +
      [Embed(NoDependencies, TopLevel)] + attach;
  }

  // ---------------------------------------------------------------------------
  // Attachment order
  // ---------------------------------------------------------------------------

  lemma {:induction false} BucketSpec(s: seq<Distro>, level: nat, k: nat)
    requires k <= |s|
    ensures forall x :: x in Bucket(s, level, k) <==> 0 <= x < k && AtLevel(s, x, level)
    ensures forall a, b :: 0 <= a < b < |Bucket(s, level, k)| ==> Bucket(s, level, k)[a] < Bucket(s, level, k)[b]
  {
    if k > 0 {
      BucketSpec(s, level, k - 1);
      var prev := Bucket(s, level, k - 1);
      assert forall m :: 0 <= m < |prev| ==> prev[m] < k - 1 by {
        forall m | 0 <= m < |prev| ensures prev[m] < k - 1 {
          assert prev[m] in prev;
        }
      }
    }
  }

  /** Deeper distros come first; distros at the same depth keep list order. */
  ghost predicate DeepestFirst(s: seq<Distro>, xs: seq<nat>)
  {
    (forall a :: 0 <= a < |xs| ==> Resolved(s, xs[a])) &&
    forall a, b :: 0 <= a < b < |xs| && Resolved(s, xs[a]) && Resolved(s, xs[b]) ==>
      Depth(s, xs[a]) > Depth(s, xs[b]) || (Depth(s, xs[a]) == Depth(s, xs[b]) && xs[a] < xs[b])
  }

  lemma {:induction false} DescendingSpec(s: seq<Distro>, hi: nat, lo: nat)
    ensures forall x :: x in Descending(s, hi, lo) <==>
      0 <= x < |s| && !s[x].isLeaf && Resolved(s, x) && lo <= Depth(s, x) < hi
    ensures DeepestFirst(s, Descending(s, hi, lo))
    decreases hi - lo
  {
    if lo < hi {
      var deeper := Descending(s, hi, lo + 1);
      var bucket := Bucket(s, lo, |s|);
      assert Descending(s, hi, lo) == deeper + bucket;
      DescendingSpec(s, hi, lo + 1);
      BucketSpec(s, lo, |s|);
      assert forall a :: 0 <= a < |deeper| ==> Resolved(s, deeper[a]) && Depth(s, deeper[a]) > lo by {
        forall a | 0 <= a < |deeper| ensures Resolved(s, deeper[a]) && Depth(s, deeper[a]) > lo {
          assert deeper[a] in deeper;
        }
      }
      assert forall b :: 0 <= b < |bucket| ==> AtLevel(s, bucket[b], lo) by {
        forall b | 0 <= b < |bucket| ensures AtLevel(s, bucket[b], lo) {
          assert bucket[b] in bucket;
        }
      }
      DeepestFirstConcat(s, deeper, bucket, lo);
    }
  }

  /** Appending a bucket of distros at depth `lo`, in increasing order, to a
      deepest-first list of distros deeper than `lo` keeps it deepest-first. */
  lemma DeepestFirstConcat(s: seq<Distro>, deeper: seq<nat>, bucket: seq<nat>, lo: nat)
    requires DeepestFirst(s, deeper)
    requires forall a :: 0 <= a < |deeper| ==> Resolved(s, deeper[a]) && Depth(s, deeper[a]) > lo
    requires forall b :: 0 <= b < |bucket| ==> AtLevel(s, bucket[b], lo)
    requires forall a, b :: 0 <= a < b < |bucket| ==> bucket[a] < bucket[b]
    ensures DeepestFirst(s, deeper + bucket)
  {
    var xs := deeper + bucket;
    forall a, b | 0 <= a < b < |xs|
      ensures Resolved(s, xs[a]) && Resolved(s, xs[b])
      ensures Depth(s, xs[a]) > Depth(s, xs[b]) || (Depth(s, xs[a]) == Depth(s, xs[b]) && xs[a] < xs[b])
    {
      if b < |deeper| {
      } else if a >= |deeper| {
        assert xs[a] == bucket[a - |deeper|] && xs[b] == bucket[b - |deeper|];
      } else {
        assert xs[a] == deeper[a] && xs[b] == bucket[b - |deeper|];
      }
    }
  }

  /** The attachment order lists every non-leaf distro, and nothing else,
      grouped by depth from the deepest down, in list order within a depth.
      So a cluster is attached to its parent's cluster before that parent's
      cluster is attached anywhere. */
  lemma AttachOrderSpec(s: seq<Distro>)
    requires Ready(s)
    ensures forall x :: x in AttachOrder(s) <==> 0 <= x < |s| && !s[x].isLeaf
    ensures DeepestFirst(s, AttachOrder(s))
    ensures forall a, b ::
      (0 <= a < |AttachOrder(s)| && 0 <= b < |AttachOrder(s)| &&
       s[AttachOrder(s)[b]].basedOn == Link(AttachOrder(s)[a])) ==> b < a
  {
    var xs := AttachOrder(s);
    DescendingSpec(s, |s| + 1, 0);
    forall x | 0 <= x < |s| && !s[x].isLeaf ensures x in xs {
      DepthStep(s, x);
    }
    forall a, b | 0 <= a < |xs| && 0 <= b < |xs| && s[xs[b]].basedOn == Link(xs[a]) ensures b < a {
      assert xs[b] in xs;
      DepthStep(s, xs[b]);
    }
  }

  // ---------------------------------------------------------------------------
  // Replaying the plan
  // ---------------------------------------------------------------------------

  /** What the plan has built so far: the graphs created, the graphs already
      embedded into another, and the distros that have a node and an edge. */
  datatype Canvas = Canvas(created: set<Target>, embedded: set<Target>, nodes: set<nat>, edges: set<nat>)

  /** Something can still be added to a graph that exists and has not been embedded. */
  predicate Writable(c: Canvas, t: Target)
  {
    t in c.created && t !in c.embedded
  }

  /** One operation on the canvas; `None` when the operation is out of order:
      a graph created twice, written to before it exists or after it has been
      embedded, embedded twice or into itself, or a second node or parent edge
      for the same distro. */
  function Apply(c: Canvas, op: Op): Option<Canvas>
  {
    match op
    case Open(t) =>
      if t in c.created then None else Some(c.(created := c.created + {t}))
    case AddNode(i, t, _) =>
      if Writable(c, t) && i !in c.nodes then Some(c.(nodes := c.nodes + {i})) else None
    case AddEdge(i, _, t, _) =>
      if Writable(c, t) && i !in c.edges then Some(c.(edges := c.edges + {i})) else None
    case Embed(sub, t) =>
      if sub != t && Writable(c, sub) && Writable(c, t) then Some(c.(embedded := c.embedded + {sub})) else None
  }

  function Replay(c: Canvas, ops: seq<Op>): Option<Canvas>
    decreases |ops|
  {
    if ops == [] then Some(c)
    else
      match Apply(c, ops[0])
      case None => None
      case Some(c') => Replay(c', ops[1..])
  }

  /** Replaying `ops` after a replay that may have failed. */
  function Continue(r: Option<Canvas>, ops: seq<Op>): Option<Canvas>
  {
    match r
    case None => None
    case Some(c) => Replay(c, ops)
  }

  lemma {:induction false} ReplayConcat(c: Canvas, a: seq<Op>, b: seq<Op>)
    ensures Replay(c, a + b) == Continue(Replay(c, a), b)
    decreases |a|
  {
    if a == [] {
      assert a + b == b;
    } else {
      assert (a + b)[0] == a[0];
      assert (a + b)[1..] == a[1..] + b;
      match Apply(c, a[0])
      case None =>
      case Some(c') =>
        ReplayConcat(c', a[1..], b);
    }
  }

  function ClustersUpTo(s: seq<Distro>, k: nat): set<Target>
    requires k <= |s|
  {
    if k == 0 then {} else ClustersUpTo(s, k - 1) + (if s[k - 1].isLeaf then {} else {ClusterOf(k - 1)})
  }

  /** The distros among the first `k` whose leaf flag is `leaf`. */
  function NodesUpTo(s: seq<Distro>, k: nat, leaf: bool): set<nat>
    requires k <= |s|
  {
    if k == 0 then {} else NodesUpTo(s, k - 1, leaf) + (if s[k - 1].isLeaf == leaf then {k - 1} else {})
  }

  /** The linked distros among the first `k` whose leaf flag is `leaf`. */
  function EdgesUpTo(s: seq<Distro>, k: nat, leaf: bool): set<nat>
    requires k <= |s|
  {
    if k == 0 then {}
    else EdgesUpTo(s, k - 1, leaf) + (if s[k - 1].isLeaf == leaf && s[k - 1].basedOn.Link? then {k - 1} else {})
  }

  lemma {:induction false} ClustersUpToSpec(s: seq<Distro>, k: nat)
    requires k <= |s|
    ensures forall t :: t in ClustersUpTo(s, k) <==> t.ClusterOf? && t.owner < k && !s[t.owner].isLeaf
  {
    if k > 0 {
      ClustersUpToSpec(s, k - 1);
    }
  }

  lemma {:induction false} NodesUpToSpec(s: seq<Distro>, k: nat, leaf: bool)
    requires k <= |s|
    ensures forall i: nat :: i in NodesUpTo(s, k, leaf) <==> i < k && s[i].isLeaf == leaf
  {
    if k > 0 {
      NodesUpToSpec(s, k - 1, leaf);
      assert NodesUpTo(s, k, leaf) == NodesUpTo(s, k - 1, leaf) + (if s[k - 1].isLeaf == leaf then {k - 1} else {});
    }
  }

  lemma {:induction false} EdgesUpToSpec(s: seq<Distro>, k: nat, leaf: bool)
    requires k <= |s|
    ensures forall i: nat :: i in EdgesUpTo(s, k, leaf) <==> i < k && s[i].isLeaf == leaf && s[i].basedOn.Link?
  {
    if k > 0 {
      EdgesUpToSpec(s, k - 1, leaf);
      assert EdgesUpTo(s, k, leaf) ==
        EdgesUpTo(s, k - 1, leaf) + (if s[k - 1].isLeaf == leaf && s[k - 1].basedOn.Link? then {k - 1} else {});
    }
  }

  lemma UpToSpec(s: seq<Distro>, k: nat)
    requires k <= |s|
    ensures forall t :: t in ClustersUpTo(s, k) <==> t.ClusterOf? && t.owner < k && !s[t.owner].isLeaf
    ensures forall i: nat :: i in NodesUpTo(s, k, false) <==> i < k && !s[i].isLeaf
    ensures forall i: nat :: i in NodesUpTo(s, k, true) <==> i < k && s[i].isLeaf
    ensures forall i: nat :: i in EdgesUpTo(s, k, false) <==> i < k && !s[i].isLeaf && s[i].basedOn.Link?
    ensures forall i: nat :: i in EdgesUpTo(s, k, true) <==> i < k && s[i].isLeaf && s[i].basedOn.Link?
  {
    ClustersUpToSpec(s, k);
    NodesUpToSpec(s, k, false);
    NodesUpToSpec(s, k, true);
    EdgesUpToSpec(s, k, false);
    EdgesUpToSpec(s, k, true);
  }

  /** The embedded clusters of the distros in `xs`. */
  function ClusterSet(xs: seq<nat>): set<Target>
    decreases |xs|
  {
    if xs == [] then {} else ClusterSet(xs[..|xs| - 1]) + {ClusterOf(xs[|xs| - 1])}
  }

  lemma {:induction false} ClusterSetSpec(xs: seq<nat>)
    ensures forall t :: t in ClusterSet(xs) <==> t.ClusterOf? && t.owner in xs
    decreases |xs|
  {
    if xs != [] {
      var init := xs[..|xs| - 1];
      ClusterSetSpec(init);
      assert xs == init + [xs[|xs| - 1]];
    }
  }

  lemma ClusterStepReplay(s: seq<Distro>, c: Canvas, i: nat)
    requires i < |s| && ClusterOf(i) !in c.created
    ensures Replay(c, ClusterStep(s, i)) ==
      Some(c.(created := c.created + (if s[i].isLeaf then {} else {ClusterOf(i)})))
  {
    if s[i].isLeaf {
      assert ClusterStep(s, i) == [];
      assert c.created + {} == c.created;
    } else {
      var op := Open(ClusterOf(i));
      assert ClusterStep(s, i) == [op];
      assert [op][1..] == [];
      assert Apply(c, op) == Some(c.(created := c.created + {ClusterOf(i)}));
    }
  }

  lemma {:induction false} ClusterPhase(s: seq<Distro>, k: nat)
    requires k <= |s|
    ensures Replay(Canvas({TopLevel}, {}, {}, {}), ClusterOps(s, k)) ==
      Some(Canvas({TopLevel} + ClustersUpTo(s, k), {}, {}, {}))
  {
    if k > 0 {
      var i := k - 1;
      var added := if s[i].isLeaf then {} else {ClusterOf(i)};
      assert ClustersUpTo(s, k) == ClustersUpTo(s, i) + added;
      ClusterPhase(s, i);
      ClustersUpToSpec(s, i);
      var c := Canvas({TopLevel}, {}, {}, {});
      assert ClusterOps(s, k) == ClusterOps(s, i) + ClusterStep(s, i);
      ReplayConcat(c, ClusterOps(s, i), ClusterStep(s, i));
      var before := Canvas({TopLevel} + ClustersUpTo(s, i), {}, {}, {});
      assert Replay(c, ClusterOps(s, k)) == Replay(before, ClusterStep(s, i));
      assert ClusterOf(i) !in before.created;
      ClusterStepReplay(s, before, i);
      var after := before.(created := before.created + added);
      assert after.created == {TopLevel} + ClustersUpTo(s, k);
      assert Replay(c, ClusterOps(s, k)) == Some(after);
    } else {
      assert {TopLevel} + ClustersUpTo(s, 0) == {TopLevel};
    }
  }

  /** The graphs a distro's node and edge may go into exist and are open. */
  ghost predicate ClustersOpen(s: seq<Distro>, c: Canvas)
  {
    c.embedded == {} && forall i :: 0 <= i < |s| && !s[i].isLeaf ==> ClusterOf(i) in c.created
  }

  lemma NonLeafStepReplay(s: seq<Distro>, c: Canvas, i: nat)
    requires LinksToClusters(s) && i < |s| && ClustersOpen(s, c)
    requires !s[i].isLeaf ==> i !in c.nodes && i !in c.edges
    ensures Replay(c, NonLeafStep(s, i)) == Some(c.(
      nodes := c.nodes + (if !s[i].isLeaf then {i} else {}),
      edges := c.edges + (if !s[i].isLeaf && s[i].basedOn.Link? then {i} else {})))
  {
    if !s[i].isLeaf {
      var node := AddNode(i, ClusterOf(i), Sized(FontSize(|s[i].children|), WidthHundredths(|s[i].children|)));
      var c1 := c.(nodes := c.nodes + {i});
      assert Apply(c, node) == Some(c1);
      if s[i].basedOn.Link? {
        var p := s[i].basedOn.parent;
        var ops := [node, AddEdge(i, p, ClusterOf(p), true)];
        assert NonLeafStep(s, i) == ops;
        var c2 := c1.(edges := c.edges + {i});
        assert Apply(c1, ops[1]) == Some(c2);
        assert ops[1..][1..] == [];
        assert Replay(c1, ops[1..]) == Some(c2);
      } else {
        assert NonLeafStep(s, i) == [node];
        assert [node][1..] == [];
        assert c.edges + {} == c.edges;
      }
    } else {
      assert NonLeafStep(s, i) == [];
      assert c.nodes + {} == c.nodes && c.edges + {} == c.edges;
    }
  }

  lemma {:induction false} NonLeafPhase(s: seq<Distro>, created: set<Target>, k: nat)
    requires LinksToClusters(s) && k <= |s|
    requires forall i :: 0 <= i < |s| && !s[i].isLeaf ==> ClusterOf(i) in created
    ensures Replay(Canvas(created, {}, {}, {}), NonLeafOps(s, k)) ==
      Some(Canvas(created, {}, NodesUpTo(s, k, false), EdgesUpTo(s, k, false)))
  {
    if k > 0 {
      var i := k - 1;
      assert NodesUpTo(s, k, false) == NodesUpTo(s, i, false) + (if !s[i].isLeaf then {i} else {});
      assert EdgesUpTo(s, k, false) ==
        EdgesUpTo(s, i, false) + (if !s[i].isLeaf && s[i].basedOn.Link? then {i} else {});
      var c := Canvas(created, {}, {}, {});
      assert Replay(c, NonLeafOps(s, k)) == Replay(c, NonLeafOps(s, i) + NonLeafStep(s, i));
      NonLeafPhase(s, created, i);
      ReplayConcat(c, NonLeafOps(s, i), NonLeafStep(s, i));
      var mid := Canvas(created, {}, NodesUpTo(s, i, false), EdgesUpTo(s, i, false));
      assert !s[i].isLeaf ==> i !in mid.nodes && i !in mid.edges by {
        NodesUpToSpec(s, i, false);
        EdgesUpToSpec(s, i, false);
      }
      NonLeafStepReplay(s, mid, i);
    } else {
      assert NonLeafOps(s, 0) == [];
    }
  }

  lemma LeafStepReplay(s: seq<Distro>, c: Canvas, i: nat)
    requires LinksToClusters(s) && i < |s| && ClustersOpen(s, c) && NoDependencies in c.created
    requires s[i].isLeaf ==> i !in c.nodes && i !in c.edges
    ensures Replay(c, LeafStep(s, i)) == Some(c.(
      nodes := c.nodes + (if s[i].isLeaf then {i} else {}),
      edges := c.edges + (if s[i].isLeaf && s[i].basedOn.Link? then {i} else {})))
  {
    if s[i].isLeaf {
      if s[i].basedOn.Link? {
        var p := s[i].basedOn.parent;
        var ops := [AddNode(i, ClusterOf(p), Plain), AddEdge(i, p, ClusterOf(p), false)];
        assert LeafStep(s, i) == ops;
        var c1 := c.(nodes := c.nodes + {i});
        assert Apply(c, ops[0]) == Some(c1);
        var c2 := c1.(edges := c.edges + {i});
        assert Apply(c1, ops[1]) == Some(c2);
        assert ops[1..][1..] == [];
        assert Replay(c1, ops[1..]) == Some(c2);
      } else {
        var node := AddNode(i, NoDependencies, Plain);
        assert LeafStep(s, i) == [node];
        assert [node][1..] == [];
        assert c.edges + {} == c.edges;
      }
    } else {
      assert LeafStep(s, i) == [];
      assert c.nodes + {} == c.nodes && c.edges + {} == c.edges;
    }
  }

  lemma {:induction false} LeafPhase(s: seq<Distro>, c: Canvas, k: nat)
    requires LinksToClusters(s) && k <= |s|
    requires ClustersOpen(s, c) && NoDependencies in c.created
    requires forall i :: 0 <= i < |s| && s[i].isLeaf ==> i !in c.nodes && i !in c.edges
    ensures Replay(c, LeafOps(s, k)) ==
      Some(c.(nodes := c.nodes + NodesUpTo(s, k, true), edges := c.edges + EdgesUpTo(s, k, true)))
  {
    if k > 0 {
      var i := k - 1;
      var newNode := if s[i].isLeaf then {i} else {};
      var newEdge := if s[i].isLeaf && s[i].basedOn.Link? then {i} else {};
      assert NodesUpTo(s, k, true) == NodesUpTo(s, i, true) + newNode;
      assert EdgesUpTo(s, k, true) == EdgesUpTo(s, i, true) + newEdge;
      assert Replay(c, LeafOps(s, k)) == Replay(c, LeafOps(s, i) + LeafStep(s, i));
      LeafPhase(s, c, i);
      ReplayConcat(c, LeafOps(s, i), LeafStep(s, i));
      var mid := c.(nodes := c.nodes + NodesUpTo(s, i, true), edges := c.edges + EdgesUpTo(s, i, true));
      assert s[i].isLeaf ==> i !in mid.nodes && i !in mid.edges by {
        NodesUpToSpec(s, i, true);
        EdgesUpToSpec(s, i, true);
      }
      LeafStepReplay(s, mid, i);
      assert mid.nodes + newNode == c.nodes + NodesUpTo(s, k, true);
      assert mid.edges + newEdge == c.edges + EdgesUpTo(s, k, true);
    } else {
      assert LeafOps(s, 0) == [];
      assert c.nodes + NodesUpTo(s, 0, true) == c.nodes;
      assert c.edges + EdgesUpTo(s, 0, true) == c.edges;
    }
  }

  /** Attaching one cluster succeeds when it and the graph it goes into are both
      open for writing, and marks it embedded. */
  lemma EmbedStepReplay(s: seq<Distro>, c: Canvas, x: nat)
    requires Writable(c, ClusterOf(x)) && Writable(c, EmbedOf(s, x).into)
    requires EmbedOf(s, x).into != ClusterOf(x)
    ensures Replay(c, [EmbedOf(s, x)]) == Some(c.(embedded := c.embedded + {ClusterOf(x)}))
  {
    assert [EmbedOf(s, x)][1..] == [];
  }

  /** Attaching the clusters of `xs` in order succeeds when every one of them
      exists, none is listed twice, and none comes after its parent's cluster. */
  lemma {:induction false} AttachPhase(s: seq<Distro>, c: Canvas, xs: seq<nat>, m: nat)
    requires LinksToClusters(s) && m <= |xs|
    requires forall a :: 0 <= a < |xs| ==> xs[a] < |s| && !s[xs[a]].isLeaf
    requires forall a, b :: 0 <= a < b < |xs| ==> xs[a] != xs[b]
    requires forall a, b :: 0 <= a <= b < |xs| ==> s[xs[b]].basedOn != Link(xs[a])
    requires Writable(c, TopLevel)
    requires forall i :: 0 <= i < |s| && !s[i].isLeaf ==> Writable(c, ClusterOf(i))
    ensures Replay(c, EmbedOps(s, xs[..m])) == Some(c.(embedded := c.embedded + ClusterSet(xs[..m])))
    decreases m
  {
    if m > 0 {
      var init := xs[..m - 1];
      var x := xs[m - 1];
      assert xs[..m] == init + [x];
      assert ClusterSet(xs[..m]) == ClusterSet(init) + {ClusterOf(x)};
      AttachPhase(s, c, xs, m - 1);
      EmbedOpsSnoc(s, init, x);
      ReplayConcat(c, EmbedOps(s, init), [EmbedOf(s, x)]);
      var mid := c.(embedded := c.embedded + ClusterSet(init));
      var into := EmbedOf(s, x).into;
      assert Writable(mid, ClusterOf(x)) && Writable(mid, into) && into != ClusterOf(x) by {
        ClusterSetSpec(init);
        forall a | 0 <= a < m - 1 ensures xs[a] != x {
        }
        if s[x].basedOn.Link? {
          var p := s[x].basedOn.parent;
          forall a | 0 <= a < m ensures xs[a] != p {
            assert s[xs[m - 1]].basedOn != Link(xs[a]);
          }
          assert into == ClusterOf(p) && p != x;
        }
      }
      assert Replay(c, EmbedOps(s, xs[..m])) == Replay(mid, [EmbedOf(s, x)]);
      EmbedStepReplay(s, mid, x);
      assert mid.embedded + {ClusterOf(x)} == c.embedded + ClusterSet(xs[..m]);
    } else {
      assert xs[..0] == [];
      assert c.embedded + ClusterSet([]) == c.embedded;
    }
  }

  /** The canvas once the nodes and edges are in place. */
  function Built(s: seq<Distro>): Canvas
  {
    Canvas({TopLevel} + ClustersUpTo(s, |s|) + {NoDependencies}, {NoDependencies},
      NodesUpTo(s, |s|, false) + NodesUpTo(s, |s|, true), EdgesUpTo(s, |s|, false) + EdgesUpTo(s, |s|, true))
  }

  /** The first half of the plan: the top-level graph, the clusters, and the
      nodes and edges of the non-leaf distros. */
  lemma NonLeavesReplay(s: seq<Distro>, n: nat)
    requires LinksToClusters(s) && n == |s|
    ensures Replay(Canvas({}, {}, {}, {}), [Open(TopLevel)] + ClusterOps(s, n) + NonLeafOps(s, n)) ==
      Some(Canvas({TopLevel} + ClustersUpTo(s, n), {}, NodesUpTo(s, n, false), EdgesUpTo(s, n, false)))
  {
    var blank := Canvas({}, {}, {}, {});
    ClustersUpToSpec(s, n);
    var p0 := [Open(TopLevel)];
    var c0 := Canvas({TopLevel}, {}, {}, {});
    assert p0[1..] == [];
    assert {} + {TopLevel} == {TopLevel};
    assert Apply(blank, p0[0]) == Some(c0);
    assert Replay(blank, p0) == Some(c0);
    ClusterPhase(s, n);
    ReplayConcat(blank, p0, ClusterOps(s, n));
    NonLeafPhase(s, {TopLevel} + ClustersUpTo(s, n), n);
    ReplayConcat(blank, p0 + ClusterOps(s, n), NonLeafOps(s, n));
  }

  lemma BuildReplays(s: seq<Distro>)
    requires LinksToClusters(s)
    ensures Replay(Canvas({}, {}, {}, {}), BuildOps(s)) == Some(Built(s))
  {
    var n := |s|;
    var blank := Canvas({}, {}, {}, {});
    var front := [Open(TopLevel)] + ClusterOps(s, n) + NonLeafOps(s, n);
    var p3 := [Open(NoDependencies)];
    var p4 := LeafOps(s, n);
    var p5 := [Embed(NoDependencies, TopLevel)];
    var clusters := {TopLevel} + ClustersUpTo(s, n);
    var c2 := Canvas(clusters, {}, NodesUpTo(s, n, false), EdgesUpTo(s, n, false));
    var c3 := c2.(created := clusters + {NoDependencies});
    var c4 := c3.(nodes := c3.nodes + NodesUpTo(s, n, true), edges := c3.edges + EdgesUpTo(s, n, true));
    assert Replay(c4, p5) == Some(Built(s)) by {
      assert p5[1..] == [];
      assert {} + {NoDependencies} == {NoDependencies};
      assert Apply(c4, p5[0]) == Some(Built(s));
    }
    assert Replay(c2, p3) == Some(c3) by {
      ClustersUpToSpec(s, n);
      assert NoDependencies !in c2.created;
      assert p3[1..] == [];
    }
    NonLeavesReplay(s, n);
    ReplayConcat(blank, front, p3);
    ClustersUpToSpec(s, n);
    NodesUpToSpec(s, n, false);
    EdgesUpToSpec(s, n, false);
    LeafPhase(s, c3, n);
    ReplayConcat(blank, front + p3, p4);
    ReplayConcat(blank, front + p3 + p4, p5);
  }

  /** Replaying the whole plan succeeds: every graph is created once, before
      anything is put into it, and nothing is put into a graph after it has been
      embedded; each cluster is embedded at most once, never into itself. At the
      end every distro has exactly one node, every linked distro exactly one
      edge to its parent, and every non-leaf cluster and the no-dependencies
      cluster have been embedded. */
  lemma PlanReplays(s: seq<Distro>)
    requires Ready(s)
    ensures Replay(Canvas({}, {}, {}, {}), GraphPlan(s)).Some?
    ensures var c := Replay(Canvas({}, {}, {}, {}), GraphPlan(s)).value;
      && (forall i: nat :: i in c.nodes <==> i < |s|)
      && (forall i: nat :: i in c.edges <==> i < |s| && s[i].basedOn.Link?)
      && (forall t :: t in c.embedded <==>
            t == NoDependencies || (t.ClusterOf? && t.owner < |s| && !s[t.owner].isLeaf))
      && c.created == c.embedded + {TopLevel}
  {
    ReadyLinksToClusters(s);
    var order := AttachOrder(s);
    AttachOrderFacts(s, order);
    AttachAll(s, order);
    UpToSpec(s, |s|);
    AttachedClusters(s);
  }

  /** The attachment order, read position by position: it lists distinct
      non-leaf distros, and no distro comes after its own parent. */
  lemma AttachOrderFacts(s: seq<Distro>, order: seq<nat>)
    requires Ready(s) && order == AttachOrder(s)
    ensures forall a :: 0 <= a < |order| ==> order[a] < |s| && !s[order[a]].isLeaf
    ensures forall a, b :: 0 <= a < b < |order| ==> order[a] != order[b]
    ensures forall a, b :: 0 <= a <= b < |order| ==> s[order[b]].basedOn != Link(order[a])
  {
    AttachOrderSpec(s);
    forall a, b | 0 <= a < b < |order| ensures order[a] != order[b] {
      assert order[a] in order && order[b] in order;
    }
    forall a, b | 0 <= a <= b < |order| ensures s[order[b]].basedOn != Link(order[a]) {
      assert order[b] in order;
      DepthStep(s, order[b]);
    }
    forall a | 0 <= a < |order| ensures order[a] < |s| && !s[order[a]].isLeaf {
      assert order[a] in order;
    }
  }

  /** The clusters the plan attaches are exactly those of the non-leaf distros. */
  lemma AttachedClusters(s: seq<Distro>)
    requires Ready(s)
    ensures forall t :: t in ClusterSet(AttachOrder(s)) <==>
      t.ClusterOf? && t.owner < |s| && !s[t.owner].isLeaf
  {
    AttachOrderSpec(s);
    ClusterSetSpec(AttachOrder(s));
  }

  /** The plan's final canvas, given an attachment order with the properties
      `AttachOrderSpec` proves. */
  lemma AttachAll(s: seq<Distro>, order: seq<nat>)
    requires LinksToClusters(s) && order == AttachOrder(s)
    requires forall a :: 0 <= a < |order| ==> order[a] < |s| && !s[order[a]].isLeaf
    requires forall a, b :: 0 <= a < b < |order| ==> order[a] != order[b]
    requires forall a, b :: 0 <= a <= b < |order| ==> s[order[b]].basedOn != Link(order[a])
    ensures Replay(Canvas({}, {}, {}, {}), GraphPlan(s)) ==
      Some(Built(s).(embedded := {NoDependencies} + ClusterSet(order)))
  {
    var blank := Canvas({}, {}, {}, {});
    assert order[..|order|] == order;
    BuildReplays(s);
    ClustersUpToSpec(s, |s|);
    var b := Built(s);
    assert forall i :: 0 <= i < |s| && !s[i].isLeaf ==> Writable(b, ClusterOf(i));
    AttachPhase(s, b, order, |order|);
    ReplayConcat(blank, BuildOps(s), EmbedOps(s, order));
  }

  // ---------------------------------------------------------------------------
  // Where things go
  // ---------------------------------------------------------------------------

  /** The graph a distro's node belongs in: its own cluster for a non-leaf; its
      parent's cluster for a linked leaf; the no-dependencies cluster otherwise. */
  function Placement(s: seq<Distro>, i: nat): Target
    requires i < |s|
  {
    if !s[i].isLeaf then ClusterOf(i)
    else if s[i].basedOn.Link? then ClusterOf(s[i].basedOn.parent)
    else NoDependencies
  }

  /** An operation of the plan that puts the right thing in the right place. */
  predicate Placed(s: seq<Distro>, op: Op)
  {
    match op
    case Open(_) => true
    case AddNode(i, t, style) =>
      i < |s| && t == Placement(s, i) &&
      style == (if s[i].isLeaf then Plain else Sized(FontSize(|s[i].children|), WidthHundredths(|s[i].children|)))
    case AddEdge(i, p, t, emphasised) =>
      i < |s| && s[i].basedOn == Link(p) && t == ClusterOf(p) && emphasised == !s[i].isLeaf
    case Embed(sub, t) =>
      (sub == NoDependencies && t == TopLevel) ||
      (sub.ClusterOf? && sub.owner < |s| && !s[sub.owner].isLeaf &&
       t == if s[sub.owner].basedOn.Link? then ClusterOf(s[sub.owner].basedOn.parent) else TopLevel)
  }

  lemma {:induction false} ClusterOpsOpen(s: seq<Distro>, k: nat)
    requires k <= |s|
    ensures forall op :: op in ClusterOps(s, k) ==> op.Open? && op.graph.ClusterOf?
  {
    if k > 0 {
      ClusterOpsOpen(s, k - 1);
      assert ClusterOps(s, k) == ClusterOps(s, k - 1) + ClusterStep(s, k - 1);
    }
  }

  lemma NonLeafStepPlaced(s: seq<Distro>, i: nat)
    requires i < |s|
    ensures forall op :: op in NonLeafStep(s, i) ==> Placed(s, op)
  {
    if !s[i].isLeaf {
      var node := AddNode(i, ClusterOf(i), Sized(FontSize(|s[i].children|), WidthHundredths(|s[i].children|)));
      assert Placed(s, node);
      if s[i].basedOn.Link? {
        var p := s[i].basedOn.parent;
        assert NonLeafStep(s, i) == [node, AddEdge(i, p, ClusterOf(p), true)];
      } else {
        assert NonLeafStep(s, i) == [node];
      }
    }
  }

  /** Two lists of placed operations concatenate to a list of placed operations. */
  lemma PlacedConcat(s: seq<Distro>, a: seq<Op>, b: seq<Op>)
    requires forall op :: op in a ==> Placed(s, op)
    requires forall op :: op in b ==> Placed(s, op)
    ensures forall op :: op in a + b ==> Placed(s, op)
  {
  }

  lemma {:induction false} NonLeavesPlaced(s: seq<Distro>, k: nat)
    requires k <= |s|
    ensures forall op :: op in NonLeafOps(s, k) ==> Placed(s, op)
  {
    if k > 0 {
      NonLeavesPlaced(s, k - 1);
      NonLeafStepPlaced(s, k - 1);
      PlacedConcat(s, NonLeafOps(s, k - 1), NonLeafStep(s, k - 1));
    }
  }

  lemma LeafStepPlaced(s: seq<Distro>, i: nat)
    requires i < |s|
    ensures forall op :: op in LeafStep(s, i) ==> Placed(s, op)
  {
    if s[i].isLeaf {
      if s[i].basedOn.Link? {
        var p := s[i].basedOn.parent;
        assert LeafStep(s, i) == [AddNode(i, ClusterOf(p), Plain), AddEdge(i, p, ClusterOf(p), false)];
      } else {
        assert LeafStep(s, i) == [AddNode(i, NoDependencies, Plain)];
      }
    }
  }

  lemma {:induction false} LeavesPlaced(s: seq<Distro>, k: nat)
    requires k <= |s|
    ensures forall op :: op in LeafOps(s, k) ==> Placed(s, op)
  {
    if k > 0 {
      LeavesPlaced(s, k - 1);
      LeafStepPlaced(s, k - 1);
      PlacedConcat(s, LeafOps(s, k - 1), LeafStep(s, k - 1));
    }
  }

  lemma {:induction false} EmbedsPlaced(s: seq<Distro>, xs: seq<nat>)
    requires forall a :: 0 <= a < |xs| ==> xs[a] < |s| && !s[xs[a]].isLeaf
    ensures forall op :: op in EmbedOps(s, xs) ==> Placed(s, op)
    decreases |xs|
  {
    if xs != [] {
      EmbedsPlaced(s, xs[..|xs| - 1]);
    }
  }

  /** Placement of the whole plan, given the property of the attach order that
      `AttachOrderSpec` proves. */
  lemma PlacedGivenOrder(s: seq<Distro>, order: seq<nat>)
    requires order == AttachOrder(s)
    requires forall a :: 0 <= a < |order| ==> order[a] < |s| && !s[order[a]].isLeaf
    ensures forall op :: op in GraphPlan(s) ==> Placed(s, op)
  {
    var n := |s|;
    var front := [Open(TopLevel)] + ClusterOps(s, n) + NonLeafOps(s, n);
    var back := [Open(NoDependencies)] + LeafOps(s, n) + [Embed(NoDependencies, TopLevel)];
    assert GraphPlan(s) == front + back + EmbedOps(s, order);
    ClusterOpsOpen(s, n);
    NonLeavesPlaced(s, n);
    LeavesPlaced(s, n);
    EmbedsPlaced(s, order);
    forall op | op in GraphPlan(s) ensures Placed(s, op) {
      if op in front {
        assert op in [Open(TopLevel)] || op in ClusterOps(s, n) || op in NonLeafOps(s, n);
      } else if op in back {
        assert op in [Open(NoDependencies)] || op in LeafOps(s, n) || op in [Embed(NoDependencies, TopLevel)];
      }
    }
  }

  /** Every node goes into the graph its distro belongs in, sized by fan-out
      exactly when the distro is not a leaf; every edge joins a distro to its
      parent inside the parent's cluster; every cluster is attached to its
      parent's cluster, or to the top-level graph when it has no parent. */
  lemma PlanPlacement(s: seq<Distro>)
    requires Ready(s)
    ensures forall op :: op in GraphPlan(s) ==> Placed(s, op)
  {
    var order := AttachOrder(s);
    AttachOrderFacts(s, order);
    PlacedGivenOrder(s, order);
  }
}
