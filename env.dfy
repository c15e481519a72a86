/** Reading the CI environment: `getEnv`, and how the pull-request number and the "is this a
    pull-request build" flag are derived from it. The environment is a map from variable names
    to values; a name absent from the map is unset. */
module Env {
  import opened Text
  import opened Types

  /** `getEnv`: the variable's value, except that an unset variable and the literal text
      `undefined` both give the default. */
  function GetEnv(env: map<string, string>, key: string, default: Option<string>): (r: Option<string>)
    ensures key in env && env[key] != "undefined" ==> r == Some(env[key])
    ensures key !in env || env[key] == "undefined" ==> r == default
  {
    if key in env && env[key] != "undefined" then Some(env[key]) else default
  }

  function Last<T>(s: seq<T>): T
    requires |s| > 0
  {
    s[|s| - 1]
  }

  /** The pull-request number as `processEnv` computes it: the number variable (defaulting to
      `false`), and when that is `false`, the last `/`-separated segment of the pull-request URL
      variable, provided the URL has a `/` at all; an empty last segment gives `false` again. */
  function PrNumber(env: map<string, string>, numberKey: string, urlKey: string): (n: string)
    ensures GetEnv(env, numberKey, Some("false")) != Some("false") ==> Some(n) == GetEnv(env, numberKey, Some("false"))
  {
    var fromVar := GetEnv(env, numberKey, Some("false")).value;
    if fromVar != "false" then fromVar
    else
      var parts := Split(GetEnv(env, urlKey, Some("")).value, '/');
      if |parts| > 1 then (if Last(parts) == "" then "false" else Last(parts))
      else fromVar
  }

  /** `isPr`: the build is a pull-request build exactly when a number was found. */
  function IsPr(env: map<string, string>, numberKey: string, urlKey: string): bool {
    PrNumber(env, numberKey, urlKey) != "false"
  }

  /** With the number variable unset, a URL ending in `/<segment>` names that segment as the
      pull request, and the build is a pull-request build unless the segment is `false`. */
  lemma NumberFromUrl(env: map<string, string>, numberKey: string, urlKey: string, base: string, segment: string)
    requires numberKey !in env
    requires urlKey in env && env[urlKey] == base + "/" + segment
    requires '/' !in segment && segment != ""
    ensures PrNumber(env, numberKey, urlKey) == segment
    ensures IsPr(env, numberKey, urlKey) <==> segment != "false"
  {
    assert env[urlKey] == base + ['/'] + segment;
    SplitConcat(base, '/', segment);
    SlashedIsDefined(env[urlKey], |base|);
  }

  /** Only a URL holding a `/` can supply the number: otherwise the build counts as a
      pull-request build exactly when the number variable says so. */
  lemma NoSlashNoNumber(env: map<string, string>, numberKey: string, urlKey: string)
    requires urlKey !in env || '/' !in env[urlKey]
    ensures PrNumber(env, numberKey, urlKey) == GetEnv(env, numberKey, Some("false")).value
    ensures IsPr(env, numberKey, urlKey) <==> GetEnv(env, numberKey, Some("false")) != Some("false")
  {
  }

  /** A value holding `/` is never the text `undefined`. */
  lemma SlashedIsDefined(s: string, i: nat)
    requires i < |s| && s[i] == '/'
    ensures s != "undefined"
  {
  }
}
