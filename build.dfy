/** The build identifier shown to clients (Engine.getBuildSha). */
module Build {
  import opened Wrappers
  import opened Text

  /** The version read from the client's version file, the short git hash when
      one was found, and the random hash generated in `--debug` mode. */
  datatype BuildInfo = BuildInfo(version: string, gitHash: Option<string>, debugHash: Option<string>)

  /** Reads a build identifier back: the text before the first `-`, and the
      text after it if there is one. */
  function SplitBuildSha(v: string): (string, Option<string>) {
    var i := FindAny(v, {'-'});
    if i == |v| then (v, None) else (v[..i], Some(v[i + 1..]))
  }

  /** A version without `-` is recovered from the identifier, and so is the git hash. */
  lemma SplitBuildShaRoundTrip(version: string, gitHash: Option<string>)
    requires '-' !in version
    ensures SplitBuildSha(version + (if gitHash.Some? then "-" + gitHash.value else "")) == (version, gitHash)
  {
    match gitHash
    case None =>
      FindAnyAfter(version, "", {'-'});
      assert version + "" == version;
    case Some(h) =>
      var v := version + ("-" + h);
      FindAnyAfter(version, "-" + h, {'-'});
      assert v[..|version|] == version;
      assert v[|version| + 1..] == h;
  }

  method GetBuildSha(b: BuildInfo) returns (v: string)
    ensures b.debugHash.Some? ==> v == b.debugHash.value
    ensures b.debugHash.None? && b.gitHash.None? ==> v == b.version
    ensures b.debugHash.None? && b.gitHash.Some? ==> v == b.version + "-" + b.gitHash.value
    ensures b.debugHash.None? && '-' !in b.version ==> SplitBuildSha(v) == (b.version, b.gitHash)
  {
    if b.debugHash.Some? {
      return b.debugHash.value;
    }
    v := b.version;
    if b.gitHash.Some? {
      v := v + "-" + b.gitHash.value;
    }
    if '-' !in b.version {
      SplitBuildShaRoundTrip(b.version, b.gitHash);
      if b.gitHash.Some? {
        assert v == b.version + ("-" + b.gitHash.value);
      } else {
        assert b.version + "" == v;
      }
    }
  }
}
