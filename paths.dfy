/**
 * lib/paths.ts: the base path of a static export and the resolver that
 * prefixes it to asset paths.
 */
module Paths {
  import opened Wrappers

  /** The base path used when the deployment configures none. */
  const DefaultBasePath: string := "/photos"

  /** A path starting with this is treated as an external URL. */
  const ExternalPrefix: string := "http"

  /** `s.startsWith(prefix)` */
  predicate StartsWith(s: string, prefix: string) {
    |prefix| <= |s| && s[..|prefix|] == prefix
  }

  /**
   * `process.env.NEXT_PUBLIC_BASE_PATH || '/photos'`: the variable is used
   * when it is set to a non-empty string, otherwise the default applies.
   */
  function ConfiguredBasePath(env: Option<string>): (basePath: string)
    ensures basePath != ""
    ensures env.Some? && env.value != "" ==> basePath == env.value
    ensures env.None? || env.value == "" ==> basePath == DefaultBasePath
  {
    if env.Some? && env.value != "" then env.value else DefaultBasePath
  }

  /**
   * `withBasePath(path)`: external URLs and paths that already start with
   * the base path are returned as they are; every other path gets the base
   * path in front.
   */
  function WithBasePath(basePath: string, path: string): (r: string)
    ensures StartsWith(r, basePath) || StartsWith(r, ExternalPrefix)
    ensures |path| <= |r| && r[|r| - |path|..] == path
    ensures StartsWith(path, ExternalPrefix) ==> r == path
    ensures StartsWith(path, basePath) ==> r == path
    ensures r != path ==> r == basePath + path
  {
    if StartsWith(path, ExternalPrefix) || StartsWith(path, basePath) then path
    else basePath + path
  }

  /** Resolving an already resolved path changes nothing. */
  lemma WithBasePathIdempotent(basePath: string, path: string)
    ensures WithBasePath(basePath, WithBasePath(basePath, path)) == WithBasePath(basePath, path)
  {
    var r := WithBasePath(basePath, path);
    if r != path {
      assert r[..|basePath|] == basePath;
    }
  }

  /** A path that is neither external nor prefixed gets exactly the base path in front. */
  lemma WithBasePathPrefixes(basePath: string, path: string)
    requires !StartsWith(path, ExternalPrefix) && !StartsWith(path, basePath)
    ensures WithBasePath(basePath, path) == basePath + path
    ensures WithBasePath(basePath, path) != path
  {
  }

  /** Every string starts with the empty string, so an empty base path resolves nothing. */
  lemma EmptyBasePathIsIdentity(path: string)
    ensures WithBasePath("", path) == path
  {
    assert path[..0] == "";
  }

  /**
   * The prefix test is on characters, not path segments: a sibling of the
   * base directory whose name extends it is left unresolved.
   */
  lemma SiblingOfBasePathIsNotResolved()
    ensures WithBasePath(DefaultBasePath, "/photos-2024.jpg") == "/photos-2024.jpg"
    ensures !StartsWith("/photos-2024.jpg", DefaultBasePath + "/")
  {
    assert "/photos-2024.jpg"[..7] == DefaultBasePath;
    assert "/photos-2024.jpg"[7] == '-';
  }

  /** Any leading `/` path is never taken for an external URL. */
  lemma SlashPathIsNotExternal(file: string)
    ensures !StartsWith("/" + file, ExternalPrefix)
  {
    assert ("/" + file)[0] == '/';
  }
}
