/**
 * Version gating for the numpy brains: which numpy is installed, and whether
 * it is recent enough for class subscripts in type hints.
 *
 * Importing numpy and reading `numpy.version.version` are not modelled; the
 * outcome of that probe is an input: `Some(v)` when numpy imports and has a
 * version string `v`, `None` when the import or the attribute access fails.
 */
module NumpyVersion {
  import opened Wrappers
  import opened Strings

  /** The first numpy version with class subscripts: `("1", "20", "0")`. */
  const NumpyVersionTypeHintsSupport: seq<string> := ["1", "20", "0"]

  /** What the probe reports when numpy cannot be imported or has no version. */
  const UnknownVersion: seq<string> := ["0", "0", "0"]

  /**
   * `_get_numpy_version()`: the version string split on `"."`, or the
   * sentinel `("0", "0", "0")` when the probe failed. The tuple may have any
   * number of components, none of which contains a dot.
   */
  function GetNumpyVersion(probe: Option<string>): (v: seq<string>)
    ensures |v| >= 1 && forall i :: 0 <= i < |v| ==> '.' !in v[i]
    ensures probe.None? ==> v == UnknownVersion
    ensures probe.Some? ==> Join(v, '.') == probe.value
  {
    match probe
    case None => UnknownVersion
    case Some(version) =>
      JoinSplit(version, '.');
      Split(version, '.')
  }

  /**
   * `numpy_supports_type_hints()`: the version tuple is non-empty and
   * greater than `("1", "20", "0")` under Python's tuple order, which
   * compares the components as strings.
   */
  function NumpySupportsTypeHints(probe: Option<string>): (r: bool)
    ensures r <==> TupleLess(NumpyVersionTypeHintsSupport, GetNumpyVersion(probe))
  {
    var version := GetNumpyVersion(probe);
    |version| > 0 && TupleLess(NumpyVersionTypeHintsSupport, version)
  }

  /** A version tuple read back from the probe is exactly the dot-separated components of the string. */
  lemma VersionComponentsRoundTrip(parts: seq<string>)
    requires |parts| >= 1 && forall i :: 0 <= i < |parts| ==> '.' !in parts[i]
    ensures GetNumpyVersion(Some(Join(parts, '.'))) == parts
  {
    SplitJoin(parts, '.');
  }

  /** The threshold itself is not supported: the comparison is strict. */
  lemma ThresholdIsNotSupported()
    ensures !NumpySupportsTypeHints(Some("1.20.0"))
  {
  }

  /** A failed probe never enables type-hint support, and neither does an installed `0.0.0`. */
  lemma UnknownVersionIsNotSupported()
    ensures !NumpySupportsTypeHints(None)
    ensures !NumpySupportsTypeHints(Some("0.0.0"))
  {
  }

  /** Older versions are refused and newer ones accepted. */
  lemma VersionExamples()
    ensures !NumpySupportsTypeHints(Some("1.19.2"))
    ensures NumpySupportsTypeHints(Some("1.21.0"))
    ensures NumpySupportsTypeHints(Some("2.0"))
  {
    VersionComponentsRoundTrip(["1", "19", "2"]);
    assert StrLess("19", "20");
    TupleLessAsymmetric(["1", "19", "2"], NumpyVersionTypeHintsSupport);
    VersionComponentsRoundTrip(["1", "21", "0"]);
    assert StrLess("20", "21");
    VersionComponentsRoundTrip(["2", "0"]);
    assert StrLess("1", "2");
  }

  /**
   * Components are compared as strings, not as numbers: `1.3.0` counts as
   * newer than `1.20.0` and `1.100.0` as older.
   */
  lemma ComponentsCompareAsStrings()
    ensures NumpySupportsTypeHints(Some("1.3.0"))
    ensures !NumpySupportsTypeHints(Some("1.100.0"))
  {
    VersionComponentsRoundTrip(["1", "3", "0"]);
    assert StrLess("20", "3");
    VersionComponentsRoundTrip(["1", "100", "0"]);
    assert StrLess("100", "20");
    TupleLessAsymmetric(["1", "100", "0"], NumpyVersionTypeHintsSupport);
  }
}
