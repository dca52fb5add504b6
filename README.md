# Distro lineage engine — a Dafny model

distroscrapper scrapes DistroWatch and draws a graph of Linux
distributions. Each distribution sits inside the cluster of the
distribution it is based on. This project models the in-memory lineage
engine of `main.py` and proves properties of that model:

- **Records.** `DistroBuilder.build` capitalises a scraped name into a
  `Distro`. `to_dict` writes a builder to the parser cache, which a later
  run reads back.
- **Alias resolution.** The static `mapping` table turns noisy scraped
  "based on" labels into canonical parent names, with `mapping.get(label,
  label)` followed by `capitalize()`.
- **Linking (`fix_based_on`).** Each distro's label becomes a link to
  another distro of the list, a root mark, or stays a raw label.
- **Children (`add_children`).** Each distro's children list and leaf flag
  are derived from the links.
- **Depth (`Distro.leaf_level`).** The number of parent hops to a root.
- **Layout planning (`create_graph`).** The Graphviz calls become an
  abstract plan, a sequence of operations: create a graph, add a node, add
  an edge, embed a cluster into another graph. The plan records which
  cluster every node and edge goes into, the node sizes, and the order in
  which clusters are nested.
- **Output name.** The output path gets the format's extension unless its
  last dot-separated segment already equals the format.

The model is an arena: distros live in one `seq`/`array` and refer to
their parent by index. `based_on` is `NoParent`, `Raw(label)` (a scraped
label not yet resolved) or `Link(parent)`.

The in-place passes `fix_based_on`, `add_children`, `leaf_level` and
`create_graph` are methods over an `array<Distro>` with loops. Each one is
proved equal to a specification function of the input. The facts the
program relies on are proved about those functions.

Graphviz copies a cluster's body into the parent graph at the moment
`subgraph()` is called. The plan is therefore checked by replaying it on a
canvas that refuses any write to a graph that does not exist yet or has
already been embedded.

The code has no cycle detection: `leaf_level` loops forever on a cycle.
`fix_based_on` builds a list of the distros it could not resolve and then
drops it. A resolved parent chain is a precondition of depth and layout
(`Levels.Resolved`). `Linker.FixBasedOn` returns the unresolved list so
that it can be specified.

## Model

| member | source | states |
|---|---|---|
| Text.Capitalize | main.py:139 | `str.capitalize()` on ASCII text: the first character upper-cased, every later character lower-cased, the empty string left empty |
| Text.CapitalizeShape | main.py:139 | `capitalize()` keeps the length, yields a capitalised string (no lower-case first letter, no upper-case letter after it), and changes letters only in case |
| Text.CapitalizeFixes | main.py:139 | a string is unchanged by `capitalize()` exactly when it is already capitalised |
| Text.CapitalizeIdempotent | main.py:251 | capitalising twice equals capitalising once, and capitalising ignores the input's case |
| Alias.Lookup | main.py:215-250 | `mapping.get(label, label)` over the twenty-four-entry table: the table's entry for a known label (possibly "no parent"), the label itself for any other label, nothing for an absent label |
| Alias.Canonical | main.py:249-251 | the canonical label is present exactly when the looked-up label is present and non-empty; when present it is non-empty and capitalised |
| Alias.MappingTargets | main.py:215-240 | every table entry is "no parent" or one of the seventeen listed parent names |
| Alias.MappingKeys | main.py:215-240 | the table has exactly the twenty-four listed keys, including the misspelt "indpenendent" |
| Alias.TargetsUnknown | main.py:215-240 | no parent name is among the table's keys |
| Alias.TargetsAreNotKeys | main.py:215-240 | every alias resolves in one step: a parent name is never itself looked up again |
| Alias.TargetsAreLowerCase | main.py:215-240 | all parent names are lower-case, as scraped labels are |
| Alias.ShortLabelsUnmapped | main.py:215-240 | every key of the table has at least five characters, so a shorter label is never looked up to anything else |
| Alias.CanonicalPassThrough | main.py:250-251 | a label missing from the table resolves to itself capitalised; an absent or empty label resolves to no parent |
| Alias.CanonicalIdempotent | main.py:250-251 | for a lower-case label, resolving the lower-cased canonical name again gives the same canonical name |
| Alias.LowerCapitalize | main.py:251 | lower-casing a capitalised label gives the lower-cased label |
| Alias.UbuntuLtsResolves | main.py:216-239 | "ubuntu (lts)" resolves to "Ubuntu"; "indpenendent" resolves to no parent |
| Records.Build | main.py:137-146 | the built name is the builder's name capitalised; the raw label, URL, image and parent flag are carried over; no link, no children, not a leaf |
| Records.BuildAll | main.py:416 | one distro per builder, in the same order, each built from its builder |
| Records.ToDict | main.py:116-123 | the cache entry of a builder: its name, URL, parent flag, raw "based on" label and image file |
| Records.FromCache | main.py:399-414 | the builder rebuilt from a cache entry, with the same five fields set from the entry |
| Records.CacheRoundTrip | main.py:116-123 | a builder written to the parser cache and read back is the same builder, so it builds the same distro |
| Linker.Scan | main.py:259-268 | a match found by the inner loop lies at or after the start position, is not the distro itself, and carries the target name |
| Linker.ScanFindsFirst | main.py:259-268 | an unstopped scan finds exactly the first other distro, in list order, with the name, and finds nothing exactly when no other distro has it |
| Linker.ScanAfterRoot | main.py:254-268 | after a distro has been made a root, the scan looks only at the first other distro of the list |
| Linker.FixOne | main.py:243-268 | parents are left alone; only `is_parent` and `based_on` change; no distro is linked to itself; a link points to a distro whose name equals the canonical label |
| Linker.FixedAll | main.py:241-279 | the linking pass keeps the number of distros |
| Linker.ScanOthers | main.py:259-268 | the loop over the other distros returns what the scan specification returns |
| Linker.FixEntry | main.py:244-268 | the body of the outer loop for one distro computes exactly the specified fixed distro, and reports it unresolved exactly when it is not a parent and still holds a raw label |
| Linker.FixAt | main.py:243-279 | one step of the pass writes the fixed distro at its position, leaves every other position alone, and appends the position to the unresolved list exactly when it is unresolved |
| Linker.FixBasedOn | main.py:241-279 | the array after the pass is the specified fixed collection, and the returned list is exactly the distros left unresolved |
| Linker.FixMakesRoots | main.py:254-257 | a distro whose label resolves to nothing or to its own name becomes a root with no parent |
| Linker.FixLinksFirstMatch | main.py:259-279 | any other label links the distro to the first other distro in list order with that name; with no match the distro is left exactly as it was, keeping its raw label |
| Linker.UnresolvedSpec | main.py:278-279 | the unresolved list holds exactly the unresolved distros, in strictly increasing list order |
| Linker.WhereSpec | main.py:278-279 | a list collected by appending positions in increasing order holds exactly the positions whose flag is set, in strictly increasing order |
| Linker.UnresolvedUntouched | main.py:278-279 | an unresolved distro is unchanged by the pass and still holds its raw label |
| Linker.ChildrenOfSpec | main.py:283-289 | a distro's new children are exactly the other distros linking to it, in strictly increasing list order |
| Linker.ChildrenOfSameLinks | main.py:288 | children depend only on the links |
| Linker.WithChildren | main.py:283-291 | `add_children` changes only a distro's children and leaf flag |
| Linker.AddedChildren | main.py:282-291 | `add_children` keeps the number of distros |
| Linker.CollectChildren | main.py:283-289 | the inner loop for one distro appends exactly its specified children, sets its leaf flag from them, and changes no other distro |
| Linker.AddChildren | main.py:282-291 | the array after the pass is the specified collection with children appended and leaf flags set |
| Linker.AddChildrenAgrees | main.py:282-291 | on freshly built distros, links are unchanged, children and leaf flags agree with the links, and a distro with a raw label is nobody's child |
| Linker.LinkPipeline | main.py:416-418 | building, linking and adding children leaves no self-link, capitalised names, and children and leaf flags that agree with the links |
| Levels.Depth | main.py:92-101 | the depth of a distro with a resolved chain: the number of parent hops from it to a root |
| Levels.LevelWithinMonotone | main.py:92-101 | more fuel never changes a hop count already found, and a hop count never exceeds the fuel |
| Levels.DepthStep | main.py:92-101 | a root has depth 0; a distro linked to a parent is one deeper than that parent, whose chain is resolved; depth is at most the number of distros; a resolved distro holds no raw label |
| Levels.AncestorShallower | main.py:92-101 | the ancestor k hops up is exactly k levels shallower, so no distro is its own ancestor |
| Levels.LeafLevel | main.py:92-101 | the hop-counting loop returns the distro's depth |
| Layout.ParentNotLeaf | main.py:341-353 | the parent of a linked distro is another distro of the list and is not a leaf, so its cluster exists |
| Layout.ReadyLinksToClusters | main.py:341-353 | in a collection ready for layout, every link points to a distro that has a cluster |
| Layout.ReadyHasNoRawLabels | main.py:341-352 | in a collection ready for layout, no distro holds a raw label, so every truthy `based_on` is a link |
| Layout.FontSize | main.py:298-299 | the font size of a non-leaf node: 10 points plus 2 per child |
| Layout.WidthHundredths | main.py:301-302 | the width of a non-leaf node, in hundredths of an inch: 75 plus 5 per child |
| Layout.GraphPlan | main.py:294-371 | every graph operation of `create_graph`, in order: the top-level graph, one cluster per non-leaf, the non-leaf nodes and edges, the no-dependencies cluster, the leaf nodes and edges, its attachment, then the cluster attachments deepest first |
| Layout.PlanClusters | main.py:326-332 | the first loop creates one cluster per non-leaf distro, in list order |
| Layout.PlanNonLeaves | main.py:298-342 | the second loop adds each non-leaf node to its own cluster, sized 10 + 2n points and 0.75 + 0.05n inches wide for n children, with an emphasised edge into the parent's cluster |
| Layout.PlanNonLeaf | main.py:334-342 | for one distro, the second loop adds a sized node and, when it has a parent, an emphasised edge, exactly when it is not a leaf |
| Layout.PlanLeaves | main.py:344-355 | the third loop adds each leaf to its parent's cluster with a plain edge, or to the no-dependencies cluster |
| Layout.PlanLeaf | main.py:344-355 | for one distro, the third loop adds a node and edge in the parent's cluster or a node in the no-dependencies cluster, exactly when it is a leaf |
| Layout.GroupByLevel | main.py:359-364 | each entry of `graphs_by_level` is the non-leaf distros at that depth, in list order; a depth with none has no entry |
| Layout.PlanGroup | main.py:367-371 | attaching one depth group emits one attach per member, each into its parent's cluster or the top-level graph |
| Layout.PlanAttach | main.py:366-371 | the attach loop attaches the groups from the deepest depth down |
| Layout.CreateGraph | main.py:294-371 | `create_graph` performs exactly the specified plan |
| Layout.BucketSpec | main.py:359-364 | a depth group holds exactly the non-leaf distros at that depth, in strictly increasing list order |
| Layout.DescendingSpec | main.py:366-367 | the groups for a depth range hold exactly the non-leaf distros in that range, deeper ones first and list order within a depth |
| Layout.DeepestFirstConcat | main.py:366-367 | appending the group of one depth, in list order, after the deeper groups keeps the order deepest first |
| Layout.AttachOrderSpec | main.py:359-371 | the attach order lists every non-leaf distro and nothing else, deepest first, and a cluster always comes before its parent's cluster |
| Layout.AttachOrderFacts | main.py:359-371 | the attach order, position by position: distinct non-leaf distros, and none listed after its own parent |
| Layout.AttachedClusters | main.py:359-371 | the clusters attached by the last loop are exactly those of the non-leaf distros |
| Layout.ClustersUpToSpec | main.py:326-332 | the clusters created so far are those of the non-leaf distros seen |
| Layout.NodesUpToSpec | main.py:334-355 | the nodes added so far are those of the distros seen with the given leaf flag |
| Layout.EdgesUpToSpec | main.py:334-355 | the edges added so far are those of the linked distros seen with the given leaf flag |
| Layout.UpToSpec | main.py:326-355 | the clusters, nodes and edges of the first passes, for both leaf flags |
| Layout.ClusterSetSpec | main.py:366-371 | the clusters attached are exactly those of the distros in the attach order |
| Layout.ClusterStepReplay | main.py:326-332 | creating the cluster of one distro succeeds when it does not exist yet, and creates it exactly when the distro is not a leaf |
| Layout.ClusterPhase | main.py:326-332 | replaying the cluster pass creates each non-leaf cluster once |
| Layout.NonLeafStepReplay | main.py:338-342 | one non-leaf's node and edge go into graphs that exist and are still open |
| Layout.NonLeafPhase | main.py:334-342 | replaying the non-leaf pass adds one node per non-leaf and one edge per linked non-leaf |
| Layout.LeafStepReplay | main.py:350-355 | one leaf's node and edge go into graphs that exist and are still open |
| Layout.LeafPhase | main.py:346-355 | replaying the leaf pass adds one node per leaf and one edge per linked leaf |
| Layout.EmbedStepReplay | main.py:367-371 | attaching one cluster succeeds when it and its destination are open and distinct, and marks it embedded |
| Layout.AttachPhase | main.py:366-371 | attaching distinct clusters, each before its parent's, never writes to a cluster that is missing or already embedded |
| Layout.BuildReplays | main.py:294-357 | the plan up to the attach loop replays to the canvas with all graphs created, every node and edge added, and the no-dependencies cluster embedded |
| Layout.NonLeavesReplay | main.py:326-342 | the top-level graph, the cluster pass and the non-leaf pass replay to a canvas with every non-leaf cluster created and every non-leaf node and edge added |
| Layout.AttachAll | main.py:357-371 | the whole plan replays to that canvas with the attach order's clusters embedded |
| Layout.PlanReplays | main.py:294-371 | the whole plan replays without a write to a missing or already embedded graph; at the end every distro has exactly one node, every linked distro exactly one edge, and every cluster has been embedded exactly once |
| Layout.ClusterOpsOpen | main.py:326-332 | the first loop only creates clusters |
| Layout.NonLeafStepPlaced | main.py:338-342 | the node and edge of one non-leaf are placed as the plan specifies |
| Layout.NonLeavesPlaced | main.py:334-342 | every non-leaf node goes into its own cluster, sized by its number of children, and its edge joins it to its parent inside the parent's cluster, emphasised |
| Layout.LeafStepPlaced | main.py:350-355 | the node and edge of one leaf are placed as the plan specifies |
| Layout.LeavesPlaced | main.py:344-355 | every leaf node goes, unsized, into its parent's cluster with a plain edge to the parent, or into the no-dependencies cluster when it has no parent |
| Layout.EmbedsPlaced | main.py:366-371 | every attach puts a cluster into its parent's cluster, or into the top-level graph when it has no parent |
| Layout.PlacedGivenOrder | main.py:294-371 | given an attach order of non-leaf distros, every operation of the plan is placed as specified |
| Layout.PlanPlacement | main.py:294-371 | every operation of the plan puts the right thing in the right graph: nodes by leaf flag and parent, sized by fan-out only for non-leaves, edges into the parent's cluster, clusters into the parent's cluster or the top-level graph |
| OutputName.LastSegment | main.py:481 | the last dot-separated segment has no dot, is a suffix of the name, and is the whole name or follows a dot |
| OutputName.ChosenFormat | main.py:478-479 | a non-empty custom format replaces the standard format |
| OutputName.WithExtension | main.py:481-483 | the name is kept as a prefix; it is unchanged exactly when its last segment equals the format, otherwise "." and the format are appended |
| OutputName.LastSegmentAfterDot | main.py:481 | after a dot and a dot-free tail, the last segment is that tail |
| OutputName.WithExtensionEndsInFormat | main.py:481-483 | for a dot-free format the result's last segment is the format, and the given name is its prefix |
| OutputName.WithExtensionIdempotent | main.py:481-483 | for a dot-free format, applying the rule twice equals applying it once |
| OutputName.DottedFormatAlwaysAppends | main.py:481-483 | a format containing a dot is appended every time, even to a name that already ends in it |
| Scenarios.ChildLinksToParent | main.py:241-291 | "a" based on "b" and "b" based on nothing: A links to B, B is a root with children [A], A is a leaf, depths 1 and 0 |
| Scenarios.PairBuilt | main.py:137-146 | building "a" based on "b" and "b" keeps the raw label and capitalises the names; "b" resolves to "B" |
| Scenarios.PairFixed | main.py:241-279 | the linking pass on that pair links A to B and makes B a root |
| Scenarios.SelfReferenceIsRoot | main.py:254-257 | "x" based on "x" becomes a root rather than linking to itself |
| Scenarios.AliasLinksToUbuntu | main.py:250-268 | a distro based on "ubuntu (lts)" links to the distro "ubuntu" |
| Scenarios.UbuntuNames | main.py:139 | "lubuntu" and "ubuntu" capitalise to "Lubuntu" and "Ubuntu" |
| Scenarios.ChainDepths | main.py:92-101 | in the chain A to B to C the depths are 2, 1 and 0 |
| Scenarios.ChainReady | main.py:282-291 | the chain's children and leaf flags agree with its links |
| Scenarios.ChainBuckets | main.py:359-364 | the chain groups C alone at depth 0 and B alone at depth 1 |
| Scenarios.ChainEmbeds | main.py:366-371 | attaching B then C puts B's cluster into C's and C's into the top-level graph |
| Scenarios.ChainAttachOrder | main.py:359-371 | B's cluster is attached into C's before C's cluster is attached to the top-level graph |
| Scenarios.ChainNodes | main.py:298-355 | B, with one child, is sized 12 points and 0.80 inches wide; leaf A goes into B's cluster with a plain edge |

## Left out

- Fetching pages over HTTP, the page and image caches, and the shared client (main.py:17-64, 179-200): network and file I/O. The values they produce enter the model as the fields of `Records.Builder`.
- HTML extraction with BeautifulSoup (main.py:157-178) and the scraped-value handling in `parse_distros` (main.py:202-212): they wrap a library outside the model. Scraped labels are parameters.
- The thread pool that creates the page parsers (main.py:390-391): concurrency.
- util.py is not part of this model: it holds JSON and file I/O, plus an unused wrapper over `str.split`. The JSON cache is modelled only as the `Records.CacheEntry` value.
- Graphviz rendering, graph and node styling attributes, labels, URLs, images and `dot.render` (main.py:295-296, 311-323, 332, 345, 373-377): presentation. The plan keeps structure and sizes only.
- Layout.PlanNonLeaves: the node width is a float in the source (main.py:301-302). The model gives it in integer hundredths of an inch (75 + 5n). The font size is returned as text in the source and as a number here.
- Graphviz identifies nodes by name, so two distros with the same name would share one node. The plan identifies nodes by list position.
- The `graph` and `node` fields that `create_graph` stores on each distro: the plan's targets stand in for them.
- Layout.PlanAttach: the source visits the keys of `graphs_by_level` in descending sorted order. The model visits every depth from the number of distros down to 0 and skips absent ones. Every depth is at most the number of distros (`Levels.DepthStep`), so the order is the same.
- `Distro.subgraph` (main.py:85-90), which nothing calls, and the `__str__` methods: not part of the lineage logic.
- Argument parsing and cache-file deletion (main.py:426-499), except the format override and the extension rule (main.py:478-483).
- Text.CapitalizeShape: capitalisation is modelled on ASCII letters only. Python's `str.capitalize` also maps other Unicode letters.
- `is_parent` can be `None` in the source (builder default, JSON null). The model uses a boolean. `None` and `False` take the same branches.
- Levels.LeafLevel: requires a resolved parent chain. On a cycle the source loops forever; on a raw label it fails with an attribute error. Neither outcome is modelled.
- Layout.CreateGraph: requires every chain resolved and children agreeing with links (`Layout.Ready`), as `add_children` leaves them. On an unresolved chain the source fails or never terminates.
- Linker.FixMakesRoots: requires distinct names. With duplicate names the source links a distro that it has just made a root to the first other distro, if that one has the same name, and leaves `is_parent` true. `Linker.FixOne` models this behaviour as written.
- Linker.FixBasedOn: also returns the list of unresolved distros, which the source builds and then drops.
