/**
 * The records of the lineage engine: the builder that scraping (or the parser
 * cache) fills in, its cache form, and the distro record the linking passes
 * update. Distros live in one flat collection and refer to each other by index.
 */
module Records {
  import opened Wrappers
  import opened Text

  /** What a distro's `based_on` holds: nothing, the scraped label not yet
      resolved, or the index of the parent distro in the collection. */
  datatype BasedOn = NoParent | Raw(text: string) | Link(parent: nat)

  /** A distro. `children` lists indices into the same collection. */
  datatype Distro = Distro(
    name: string,
    url: string,
    basedOn: BasedOn,
    isParent: bool,
    imageFile: string,
    children: seq<nat>,
    isLeaf: bool)

  /** The fields a distro builder collects before `build`. The page markup and
      parser it also holds are not part of this model. */
  datatype Builder = Builder(
    name: string,
    url: string,
    isParent: bool,
    basedOn: Option<string>,
    imageFile: string)

  /** One entry of the parser cache document. */
  datatype CacheEntry = CacheEntry(
    name: string,
    url: string,
    isParent: bool,
    basedOn: Option<string>,
    imageFile: string)

  /** A distro as built: no link resolved yet, no children, not (yet) a leaf. */
  predicate Unlinked(d: Distro)
  {
    !d.basedOn.Link? && d.children == [] && !d.isLeaf
  }

  function AsBasedOn(scraped: Option<string>): BasedOn
  {
    match scraped
    case None => NoParent
    case Some(s) => Raw(s)
  }

  /** `DistroBuilder.build`: the distro's name is capitalised, everything else
      is carried over; children and the leaf flag start empty and false. */
  function Build(b: Builder): (d: Distro)
    ensures Unlinked(d) && IsCapitalized(d.name) && |d.name| == |b.name|
    ensures Capitalize(b.name) == d.name
    ensures d.basedOn.Raw? <==> b.basedOn.Some?
    ensures d.basedOn.Raw? ==> d.basedOn.text == b.basedOn.value
    ensures d.url == b.url && d.isParent == b.isParent && d.imageFile == b.imageFile
  {
    CapitalizeShape(b.name);
    Distro(Capitalize(b.name), b.url, AsBasedOn(b.basedOn), b.isParent, b.imageFile, [], false)
  }

  /** The list of distros built from the builders, in the same order. */
  function BuildAll(bs: seq<Builder>): (ds: seq<Distro>)
    ensures |ds| == |bs|
    ensures forall k :: 0 <= k < |bs| ==> ds[k] == Build(bs[k])
  {
    seq(|bs|, k requires 0 <= k < |bs| => Build(bs[k]))
  }

  /** `DistroBuilder.to_dict`: what the parser cache stores of a builder. */
  function ToDict(b: Builder): CacheEntry
  {
    CacheEntry(b.name, b.url, b.isParent, b.basedOn, b.imageFile)
  }

  /** Reloading a builder from a parser cache entry. */
  function FromCache(e: CacheEntry): Builder
  {
    Builder(e.name, e.url, e.isParent, e.basedOn, e.imageFile)
  }

  /** Writing a builder to the cache and reading it back loses nothing, so a run
      from the cache builds the same distros as the run that wrote it. */
  lemma CacheRoundTrip(b: Builder)
    ensures FromCache(ToDict(b)) == b
    ensures Build(FromCache(ToDict(b))) == Build(b)
  {
  }
}
