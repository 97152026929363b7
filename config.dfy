/** The API base address (src/libs/config.ts): the first of two environment
    variables that is set and non-empty, else the local default, with one
    trailing slash removed. */
module Config {

  import opened Text

  const DefaultBase: string := "http://localhost:5004/api/v1"

  /** `LIBRARY_API_BASE || NEXT_PUBLIC_LIBRARY_API_BASE || default`; an unset
      variable is passed as `""`, which is falsy like `undefined`. */
  function ServerBase(libraryApiBase: string, publicApiBase: string): (r: string)
    ensures r != ""
    ensures libraryApiBase != "" ==> r == libraryApiBase
    ensures libraryApiBase == "" && publicApiBase != "" ==> r == publicApiBase
    ensures libraryApiBase == "" && publicApiBase == "" ==> r == DefaultBase
  {
    if libraryApiBase != "" then libraryApiBase
    else if publicApiBase != "" then publicApiBase
    else DefaultBase
  }

  /** `s.replace(/\/$/, "")`: at most one slash is removed, from the end. */
  function StripTrailingSlash(s: string): (r: string)
    ensures |r| <= |s| && |s| - |r| <= 1
    ensures StartsWith(s, r)
  {
    if s != [] && s[|s| - 1] == '/' then s[..|s| - 1] else s
  }

  /** Removing the slash undoes appending one. */
  lemma StripUndoesSlash(s: string)
    ensures StripTrailingSlash(s + "/") == s
  {
    assert (s + "/")[..|s|] == s;
  }

  /** An address without a trailing slash is left alone. */
  lemma StripKeepsBare(s: string)
    requires s == [] || s[|s| - 1] != '/'
    ensures StripTrailingSlash(s) == s
  {
  }

  function ApiBaseUrl(libraryApiBase: string, publicApiBase: string): string {
    StripTrailingSlash(ServerBase(libraryApiBase, publicApiBase))
  }

  /** With neither variable set the base is the default itself. */
  lemma DefaultApiBase()
    ensures ApiBaseUrl("", "") == DefaultBase
  {
    assert DefaultBase[|DefaultBase| - 1] == '1';
  }

  /** A configured base written with one trailing slash means the same as
      without it. */
  lemma ConfiguredSlashIgnored(base: string, other: string)
    requires base != [] && base[|base| - 1] != '/'
    ensures ApiBaseUrl(base + "/", other) == ApiBaseUrl(base, other) == base
  {
    StripUndoesSlash(base);
  }
}
