/** The pull-request record the bump stages thread through, the JSON record the logging stage
    writes, and the dotted-path lookup that reads values back out of it. */
module Info {
  import opened Text
  import opened Types

  /** `PrInfo`: what the stages know about the merged pull request and the bump. `author`,
      `authorUrl` and `version` may be absent; `version` is set once a manifest is bumped. */
  datatype PrInfo = PrInfo(
    author: Option<string>,
    authorUrl: Option<string>,
    changelog: string,
    modifiedFiles: seq<string>,
    number: int,
    scope: string,
    url: string,
    version: Option<string>)

  /** JSON values (numbers restricted to integers). */
  datatype Json =
    | JNull
    | JBool(b: bool)
    | JNumber(n: int)
    | JString(s: string)
    | JArray(items: seq<Json>)
    | JObject(members: seq<(string, Json)>)

  /** A member holding `value` when it is defined; serialisation drops undefined members. */
  function Member(key: string, value: Option<string>): seq<(string, Json)> {
    match value
    case None => []
    case Some(v) => [(key, JString(v))]
  }

  /** The record `maybeLogChanges` writes. */
  function LogRecord(info: PrInfo): Json {
    JObject(
      [("changelog", JString(info.changelog)),
       ("pr", JObject(PrRecord(info)))]
      + [("scope", JString(info.scope))]
      + Member("version", info.version))
  }

  /** The value of the first member named `key`. */
  function Field(members: seq<(string, Json)>, key: string): Option<Json> {
    if members == [] then None
    else if members[0].0 == key then Some(members[0].1)
    else Field(members[1..], key)
  }

  /** Following a path of member names from `j`; `None` plays the part of `undefined`. */
  function Get(j: Json, path: seq<string>): Option<Json>
    decreases |path|
  {
    if path == [] then Some(j)
    else
      match j
      case JObject(members) =>
        (match Field(members, path[0])
         case Some(v) => Get(v, path[1..])
         case None => None)
      case _ => None
  }

  /** lodash `get` with a dotted key. */
  function Lookup(j: Json, key: string): Option<Json> {
    Get(j, Split(key, '.'))
  }

  /** The JavaScript truthiness of a looked-up value. */
  predicate Truthy(v: Option<Json>) {
    match v
    case None => false
    case Some(JNull) => false
    case Some(JBool(b)) => b
    case Some(JNumber(n)) => n != 0
    case Some(JString(s)) => s != ""
    case Some(_) => true
  }

  function DefinedString(o: Option<string>): Option<Json> {
    match o
    case None => None
    case Some(s) => Some(JString(s))
  }

  /** Reading the logged record back gives what was logged: the scope, the version (undefined
      when absent) and the changelog. */
  lemma LogRecordRoundTrip(info: PrInfo)
    ensures Get(LogRecord(info), ["scope"]) == Some(JString(info.scope))
    ensures Get(LogRecord(info), ["version"]) == DefinedString(info.version)
    ensures Get(LogRecord(info), ["changelog"]) == Some(JString(info.changelog))
  {
    var rest := [("scope", JString(info.scope))] + Member("version", info.version);
    var top := [("changelog", JString(info.changelog)), ("pr", JObject(PrRecord(info)))] + rest;
    assert LogRecord(info) == JObject(top);
    assert top[1..][1..] == top[2..] == rest;
    assert rest[1..] == Member("version", info.version);
    assert Field(top, "scope") == Field(rest, "scope") == Some(JString(info.scope));
    assert Field(top, "version") == Field(rest, "version") == DefinedString(info.version);
  }

  /** The members of the logged `pr` object. */
  function PrRecord(info: PrInfo): seq<(string, Json)> {
    [("number", JNumber(info.number)),
     ("url", JString(info.url)),
     ("user", JObject(Member("login", info.author) + Member("url", info.authorUrl)))]
  }

  /** Reading the logged pull request back gives its number, URL and author. */
  lemma LogRecordPrRoundTrip(info: PrInfo)
    ensures Get(LogRecord(info), ["pr"]) == Some(JObject(PrRecord(info)))
    ensures Get(LogRecord(info), ["pr", "number"]) == Some(JNumber(info.number))
    ensures Get(LogRecord(info), ["pr", "url"]) == Some(JString(info.url))
    ensures Get(LogRecord(info), ["pr", "user", "login"]) == DefinedString(info.author)
    ensures Get(LogRecord(info), ["pr", "user", "url"]) == DefinedString(info.authorUrl)
  {
    var user := Member("login", info.author) + Member("url", info.authorUrl);
    var pr := PrRecord(info);
    var top := [("changelog", JString(info.changelog)), ("pr", JObject(pr))]
               + [("scope", JString(info.scope))] + Member("version", info.version);
    assert LogRecord(info) == JObject(top);
    assert Field(top, "pr") == Some(JObject(pr));
    assert pr[1..] == [("url", JString(info.url)), ("user", JObject(user))];
    assert pr[1..][1..] == [("user", JObject(user))];
    assert Field(pr, "url") == Some(JString(info.url));
    assert Field(pr[1..][1..], "user") == Some(JObject(user));
    assert Field(pr[1..], "user") == Some(JObject(user));
    assert Field(pr, "user") == Some(JObject(user));
    assert Field(user, "login") == DefinedString(info.author);
    assert Field(user, "url") == DefinedString(info.authorUrl);
    assert ["pr", "number"][1..] == ["number"];
    assert ["pr", "url"][1..] == ["url"];
    assert ["pr", "user", "login"][1..] == ["user", "login"] && ["user", "login"][1..] == ["login"];
    assert ["pr", "user", "url"][1..] == ["user", "url"] && ["user", "url"][1..] == ["url"];
  }

  /** A key without dots is a single member name. */
  lemma SplitWithoutDot(key: string)
    requires '.' !in key
    ensures Split(key, '.') == [key]
  {
  }

  /** A dotted key is the path of its parts. */
  lemma SplitDotted(a: string, b: string)
    requires '.' !in a && '.' !in b
    ensures Split(a + "." + b, '.') == [a, b]
  {
    assert a + "." + b == a + ['.'] + b;
    SplitAppend(a, '.', b);
  }
}
