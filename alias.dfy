/**
 * Alias resolution: the static table that maps the "based on" labels scraped from
 * distribution pages (lower-case free text) to the canonical name of the parent
 * distribution, and the lookup-then-capitalise step of the linking pass.
 */
module Alias {
  import opened Wrappers
  import opened Text

  /** Known noisy labels. `None` marks a label that means "no parent"; the key
      "indpenendent" is spelled as the table spells it. */
  const Mapping: map<string, Option<string>> := map[
    "ubuntu (lts)" := Some("ubuntu"),
    "ubuntu lts" := Some("ubuntu"),
    "debian (testing)" := Some("debian"),
    "debian (unstable)" := Some("debian"),
    "debian (stable)" := Some("debian"),
    "debian (lts)" := Some("debian"),
    "red hat" := Some("redhat"),
    "lfs (formerly based on puppy)" := Some("puppy"),
    "damn small" := Some("damnsmall"),
    "lubuntu (lts)" := Some("lubuntu"),
    "mx linux" := Some("mx"),
    "raspbian" := Some("raspios"),
    "arch linux" := Some("arch"),
    "android" := Some("androidx86"),
    "mandrake" := Some("mandriva"),
    "lineageos" := Some("androidx86"),
    "red hat enterprise linux" := Some("redhat"),
    "m0n0wall" := Some("freebsd"),
    "peanut" := Some("alinux"),
    "caldera" := Some("sco"),
    "kde neon" := Some("kdeneon"),
    "sidux" := Some("aptosid"),
    "tiny core" := Some("tinycore"),
    "indpenendent" := None
  ]

  /** `mapping.get(label, label)`: a table entry if there is one, else the label itself. */
  function Lookup(raw: Option<string>): Option<string>
  {
    match raw
    case None => None
    case Some(l) => if l in Mapping then Mapping[l] else raw
  }

  /** The canonical parent name a raw label stands for: the looked-up label,
      capitalised; a missing or empty result is `None`. */
  function Canonical(raw: Option<string>): (r: Option<string>)
    ensures r.Some? ==> r.value != [] && IsCapitalized(r.value)
    ensures r.Some? <==> Lookup(raw).Some? && Lookup(raw).value != []
  {
    var looked := Lookup(raw);
    if looked.Some? && looked.value != [] then
      CapitalizeShape(looked.value);
      Some(Capitalize(looked.value))
    else None
  }

  /** The parent names the table maps to. */
  const Targets: set<string> := {"ubuntu", "debian", "redhat", "puppy", "damnsmall", "lubuntu", "mx",
    "raspios", "arch", "androidx86", "mandriva", "freebsd", "alinux", "sco", "kdeneon", "aptosid", "tinycore"}

  /** Every entry of the table is `None` or one of the listed parent names. */
  lemma MappingTargets()
    ensures forall l :: l in Mapping && Mapping[l].Some? ==> Mapping[l].value in Targets
  {
  }

  /** The labels the table knows. */
  const Known: set<string> := {"ubuntu (lts)", "ubuntu lts", "debian (testing)", "debian (unstable)",
    "debian (stable)", "debian (lts)", "red hat", "lfs (formerly based on puppy)", "damn small",
    "lubuntu (lts)", "mx linux", "raspbian", "arch linux", "android", "mandrake", "lineageos",
    "red hat enterprise linux", "m0n0wall", "peanut", "caldera", "kde neon", "sidux", "tiny core",
    "indpenendent"}

  lemma MappingKeys()
    ensures Mapping.Keys == Known
  {
  }

  /** Every label the table knows has at least five characters, so a shorter
      label always passes through unchanged. */
  lemma ShortLabelsUnmapped(l: string)
    requires |l| < 5
    ensures l !in Mapping
  {
    forall k | k in Mapping ensures |k| >= 5 {
    }
  }

  /** No parent name is itself a key of the table: aliases resolve in a single step. */
  lemma TargetsAreNotKeys()
    ensures forall v :: v in Targets ==> v !in Mapping
  {
    MappingKeys();
    TargetsUnknown();
  }

  lemma TargetsUnknown()
    ensures Targets !! Known
  {
  }

  /** Every parent name is lower-case, as scraped labels are. */
  lemma TargetsAreLowerCase()
    ensures forall v :: v in Targets ==> Lower(v) == v
  {
    forall v | v in Targets ensures Lower(v) == v {
      assert forall k :: 0 <= k < |v| ==> !IsUpper(v[k]);
    }
  }

  /** A label absent from the table resolves to itself, capitalised; an absent or
      empty label resolves to no parent. */
  lemma CanonicalPassThrough(raw: string)
    ensures raw !in Mapping && raw != [] ==> Canonical(Some(raw)) == Some(Capitalize(raw))
    ensures raw == [] ==> Canonical(Some(raw)) == None
    ensures Canonical(None) == None
  {
    assert "" !in Mapping;
  }

  /** Canonicalisation is a fixed point on lower-case labels: resolving the
      lower-cased canonical name again gives the same canonical name. */
  lemma CanonicalIdempotent(raw: string)
    requires Lower(raw) == raw
    ensures Canonical(Some(raw)).Some? ==>
      Canonical(Some(Lower(Canonical(Some(raw)).value))) == Canonical(Some(raw))
  {
    var r := Canonical(Some(raw));
    if r.Some? {
      var v := Lookup(Some(raw)).value;
      if raw in Mapping {
        MappingTargets();
        TargetsAreNotKeys();
        TargetsAreLowerCase();
      }
      assert Lower(v) == v;
      assert v !in Mapping;
      CapitalizeIdempotent(v);
      LowerCapitalize(v);
    }
  }

  /** Lower-casing undoes capitalisation. */
  lemma LowerCapitalize(s: string)
    ensures Lower(Capitalize(s)) == Lower(s)
  {
    CapitalizeShape(s);
    var c := Capitalize(s);
    forall k | 0 <= k < |s| ensures Lower(c)[k] == Lower(s)[k] {
      assert ToLower(c[k]) == ToLower(s[k]);
    }
  }

  /** The table's own example: an LTS edition raw resolves to its distribution. */
  lemma UbuntuLtsResolves()
    ensures Canonical(Some("ubuntu (lts)")) == Some("Ubuntu")
    ensures Canonical(Some("indpenendent")) == None
  {
    assert Lookup(Some("ubuntu (lts)")) == Some("ubuntu");
    assert Lower("buntu") == "buntu";
    assert Capitalize("ubuntu") == "Ubuntu";
  }
}
