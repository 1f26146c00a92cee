/** Resolving a static asset's path against the deployment's base path. */
module AssetUrl {
  import opened Strings

  predicate IsExternal(path: string) {
    StartsWith(path, "http://") || StartsWith(path, "https://")
  }

  /** The base path with a trailing slash (`BASE_URL || '/'`, then a `/` added if missing). */
  function CleanBase(baseEnv: string): (b: string)
    ensures EndsWith(b, "/")
    ensures baseEnv == [] ==> b == "/"
    ensures baseEnv != [] && EndsWith(baseEnv, "/") ==> b == baseEnv
    ensures baseEnv != [] && !EndsWith(baseEnv, "/") ==> b == baseEnv + "/"
  {
    var base := if baseEnv == [] then "/" else baseEnv;
    if EndsWith(base, "/") then base else base + "/"
  }

  /** The path with at most one leading `/` removed. */
  function CleanPath(path: string): (p: string)
    ensures StartsWith(path, "/") ==> path == "/" + p
    ensures !StartsWith(path, "/") ==> p == path
  {
    if StartsWith(path, "/") then path[1..] else path
  }

  /** `getAssetUrl(path)`, the build's `BASE_URL` being `baseEnv`. */
  function AssetUrl(path: string, baseEnv: string): string {
    if IsExternal(path) then path else CleanBase(baseEnv) + CleanPath(path)
  }

  /** External links come back as they are. */
  lemma ExternalUnchanged(path: string, baseEnv: string)
    requires IsExternal(path)
    ensures AssetUrl(path, baseEnv) == path
  {
  }

  /** Any other path is the base, with exactly one slash added when it lacked a trailing one,
      followed by the path with one leading slash removed. */
  lemma LocalResolved(path: string, baseEnv: string)
    requires !IsExternal(path)
    ensures var r := AssetUrl(path, baseEnv);
      && StartsWith(r, CleanBase(baseEnv))
      && (StartsWith(path, "/") ==> "/" + r[|CleanBase(baseEnv)|..] == path)
      && (!StartsWith(path, "/") ==> r[|CleanBase(baseEnv)|..] == path)
      && (baseEnv != [] ==> StartsWith(r, baseEnv))
  {
    var b := CleanBase(baseEnv);
    var r := b + CleanPath(path);
    assert r[..|b|] == b;
    assert r[|b|..] == CleanPath(path);
    if baseEnv != [] {
      assert b[..|baseEnv|] == baseEnv;
      assert r[..|baseEnv|] == b[..|baseEnv|];
    }
  }

  /** A path starting with two slashes loses only one of them. */
  lemma DoubleSlashKeepsOne(x: string, baseEnv: string)
    ensures AssetUrl("//" + x, baseEnv) == CleanBase(baseEnv) + "/" + x
    ensures EndsWith(AssetUrl("//" + x, baseEnv), "/" + x)
  {
    var path := "//" + x;
    assert path[..1] == "/";
    assert !IsExternal(path) by {
      if |path| >= 7 { assert path[..7] != "http://" by { assert path[0] != 'h'; } }
      if |path| >= 8 { assert path[..8] != "https://" by { assert path[0] != 'h'; } }
    }
    assert path[1..] == "/" + x;
    var r := CleanBase(baseEnv) + "/" + x;
    assert r[|r| - |"/" + x|..] == "/" + x;
  }

  /** With the base `/`, resolving a resolved path changes nothing. */
  lemma RootBaseIdempotent(path: string)
    ensures AssetUrl(AssetUrl(path, "/"), "/") == AssetUrl(path, "/")
  {
    if !IsExternal(path) {
      var r := "/" + CleanPath(path);
      assert CleanBase("/") == "/";
      assert !IsExternal(r) by {
        if |r| >= 7 { assert r[..7] != "http://" by { assert r[0] == '/'; } }
        if |r| >= 8 { assert r[..8] != "https://" by { assert r[0] == '/'; } }
      }
      assert StartsWith(r, "/") && r[1..] == CleanPath(path);
    }
  }
}
