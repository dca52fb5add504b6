/**
 * The output file name: the chosen graph format (a custom format overrides
 * the standard one) and the rule that appends `.<format>` unless the text
 * after the last dot of the name already equals the format.
 */
module OutputName {
  import opened Wrappers

  /** The text after the last '.' of `s`, or all of `s` when it has no dot:
      the last piece of splitting `s` at every '.'. */
  function LastSegment(s: string): (r: string)
    ensures '.' !in r
    ensures |r| <= |s| && r == s[|s| - |r|..]
    ensures r == s || s[|s| - |r| - 1] == '.'
    decreases |s|
  {
    if s == [] then []
    else if s[|s| - 1] == '.' then []
    else
      var init := s[..|s| - 1];
      var rest := LastSegment(init);
      assert s == init + [s[|s| - 1]];
      assert rest + [s[|s| - 1]] == s[|init| - |rest|..];
      rest + [s[|s| - 1]]
  }

  /** The format in effect: a non-empty custom format replaces the standard one. */
  function ChosenFormat(standard: string, custom: Option<string>): (r: string)
    ensures custom.Some? && custom.value != [] ==> r == custom.value
    ensures custom.None? || custom.value == [] ==> r == standard
  {
    match custom
    case Some(f) => if f != [] then f else standard
    case None => standard
  }

  /** The output name with the format's extension, unless it already has it. */
  function WithExtension(out: string, format: string): (r: string)
    ensures out <= r
    ensures r == out <==> LastSegment(out) == format
    ensures r != out ==> r[|out|..] == "." + format
  {
    if LastSegment(out) == format then out else out + "." + format
  }

  /** Appending a dot and a dot-free piece makes that piece the last segment. */
  lemma {:induction false} LastSegmentAfterDot(prefix: string, tail: string)
    requires '.' !in tail
    ensures LastSegment(prefix + "." + tail) == tail
    decreases |tail|
  {
    if tail == [] {
      assert prefix + "." + tail == prefix + ".";
    } else {
      var init := tail[..|tail| - 1];
      assert (prefix + "." + tail)[..|prefix + "." + tail| - 1] == prefix + "." + init;
      LastSegmentAfterDot(prefix, init);
      assert tail == init + [tail[|tail| - 1]];
    }
  }

  /** The output name always ends in the format's extension when the format
      has no dot, and the name given is kept as its prefix. */
  lemma WithExtensionEndsInFormat(out: string, format: string)
    requires '.' !in format
    ensures LastSegment(WithExtension(out, format)) == format
    ensures out <= WithExtension(out, format)
  {
    if LastSegment(out) != format {
      LastSegmentAfterDot(out, format);
    }
  }

  /** Applying the rule to its own result changes nothing. */
  lemma WithExtensionIdempotent(out: string, format: string)
    requires '.' !in format
    ensures WithExtension(WithExtension(out, format), format) == WithExtension(out, format)
  {
    WithExtensionEndsInFormat(out, format);
  }

  /** A format containing a dot can never equal a last segment, so the
      extension is appended every time, even to a name that already ends in it. */
  lemma DottedFormatAlwaysAppends(out: string, format: string)
    requires '.' in format
    ensures WithExtension(out, format) == out + "." + format
    ensures WithExtension(out + "." + format, format) == out + "." + format + "." + format
  {
  }
}
