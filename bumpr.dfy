/** The bump pipeline: the `Bumpr` commands (`bump`, `check`, `info`, `tag`, `log`, `publish`) and
    the feature-gated stages a merge build runs in order, each receiving the previous stage's
    `PrInfo`. Every action on the outside world (git, npm, the file system, the hosting service,
    Slack) is an `Effect` appended to a ghost trace when it is attempted; which effects fail, and
    with what message, is part of the `World` the pipeline runs in. Concurrent `Promise.all`
    batches run here one after another, and the first failure ends the batch. */
module Bumper {
  import opened Text
  import opened Types
  import opened Scopes
  import opened Changelog
  import opened Comments
  import opened Versions
  import opened Info
  import opened Expand

  /** The settings and computed CI values the pipeline reads. `isPr` and `prNumber` stand for the
      values `Env.IsPr` and `Env.PrNumber` compute from the CI environment. */
  datatype Config = Config(
    isPr: bool,
    prNumber: string,
    buildNumber: string,
    slackUrl: string,
    files: seq<string>,
    changelogEnabled: bool,
    changelogFile: string,
    changelogRequired: seq<Pattern>,
    commentsEnabled: bool,
    maxScopeEnabled: bool,
    maxScope: string,
    loggingEnabled: bool,
    logFile: string,
    releaseEnabled: bool,
    releaseArtifacts: string,
    releaseName: string,
    releaseDescription: string,
    tagEnabled: bool,
    tagName: string,
    slackEnabled: bool,
    slackChannels: seq<string>,
    /** The name of the bumping tool's own package, quoted in commit summaries. */
    toolName: string)

  /** An action on the outside world. */
  datatype Effect =
    | SetupGitEnv
    | Add(files: seq<string>)
    | Commit(summary: string, message: string)
    | Tag(name: string, message: string)
    | Push
    | WriteManifest(path: string, version: string)
    | ReplaceInFile(file: string, contents: string)
    | WriteLog(file: string, record: Json)
    | CreateRelease(tagName: string, name: string, description: string)
    | UploadAsset(url: string, contentType: string)
    | WriteNpmrc
    | Publish(pkg: string)
    | SlackPost(channel: Option<string>, text: string)
    | PostPrComment(comment: Comment)

  /** What reading the log file gives: no file, a read or parse failure, or its JSON. */
  datatype LogFile = NoFile | Unreadable(message: string) | Parsed(json: Json)

  /** The answers of the outside world. */
  datatype World = World(
    /** The pull request merged by the last merge commit, and the open one being checked. */
    lastPr: PullRequest,
    openPr: PullRequest,
    /** The workspace locations `npm query .workspace` lists. */
    workspaces: seq<string>,
    /** The manifest paths that exist, with the version each holds. */
    manifests: map<string, Version>,
    /** The current text of the changelog file. */
    changelogText: string,
    /** The date string in the configured zone and format. */
    date: string,
    /** The upload URL template the created release reports, the files in the artifacts
        directory, and the content type known for a file name. */
    uploadUrl: string,
    artifactFiles: seq<string>,
    contentTypes: map<string, string>,
    /** `name` and `version` of the `package.json` in the working directory. */
    packageName: string,
    packageVersion: string,
    log: LogFile,
    /** The effects that fail when attempted, with their error messages. */
    failing: map<Effect, string>)

  // ---------------------------------------------------------------------------------------
  // Attempting a batch of effects.

  /** The effects of `plan` that are attempted: all of them, or those up to the first failure. */
  function Attempted<E>(plan: seq<E>, failing: map<E, string>): (done: seq<E>)
    ensures done <= plan
  {
    if plan == [] then []
    else if plan[0] in failing then [plan[0]]
    else [plan[0]] + Attempted(plan[1..], failing)
  }

  /** How a batch ends: the error of its first failing effect, if any. */
  function RunOutcome<E>(plan: seq<E>, failing: map<E, string>): Result<()> {
    if plan == [] then Ok(())
    else if plan[0] in failing then Err(ActionFailed(failing[plan[0]]))
    else RunOutcome(plan[1..], failing)
  }

  /** A batch succeeds exactly when none of its effects fails, and then all of them were attempted;
      a failing batch stops right at its first failing effect. */
  lemma RunOutcomeMeaning<E>(plan: seq<E>, failing: map<E, string>)
    ensures RunOutcome(plan, failing).Ok? <==> forall k :: 0 <= k < |plan| ==> plan[k] !in failing
    ensures RunOutcome(plan, failing).Ok? ==> Attempted(plan, failing) == plan
    ensures RunOutcome(plan, failing).Err? ==>
              var n := |Attempted(plan, failing)|;
              n > 0 && plan[n - 1] in failing
              && RunOutcome(plan, failing) == Err(ActionFailed(failing[plan[n - 1]]))
              && forall k :: 0 <= k < n - 1 ==> plan[k] !in failing
  {
    RunSucceeds(plan, failing);
    RunStops(plan, failing);
  }

  lemma {:induction false} RunSucceeds<E>(plan: seq<E>, failing: map<E, string>)
    ensures RunOutcome(plan, failing) == Ok(()) <==> forall k :: 0 <= k < |plan| ==> plan[k] !in failing
    ensures RunOutcome(plan, failing).Ok? ==> Attempted(plan, failing) == plan
  {
    if plan != [] && plan[0] !in failing {
      RunSucceeds(plan[1..], failing);
      assert forall k :: 1 <= k < |plan| ==> plan[k] == plan[1..][k - 1];
      assert plan == [plan[0]] + plan[1..];
    }
  }

  lemma {:induction false} RunStops<E>(plan: seq<E>, failing: map<E, string>)
    ensures RunOutcome(plan, failing).Err? ==>
              var n := |Attempted(plan, failing)|;
              n > 0 && plan[n - 1] in failing
              && RunOutcome(plan, failing) == Err(ActionFailed(failing[plan[n - 1]]))
              && forall k :: 0 <= k < n - 1 ==> plan[k] !in failing
  {
    if plan != [] && plan[0] !in failing {
      RunStops(plan[1..], failing);
      assert forall k :: 1 <= k < |plan| ==> plan[k] == plan[1..][k - 1];
    }
  }

  /** When `plan[i]` is the first failing effect, the batch attempts up to it and fails with its error. */
  lemma {:induction false} FirstFailure<E>(plan: seq<E>, failing: map<E, string>, i: nat)
    requires i < |plan| && plan[i] in failing
    requires forall k :: 0 <= k < i ==> plan[k] !in failing
    ensures Attempted(plan, failing) == plan[..i + 1]
    ensures RunOutcome(plan, failing) == Err(ActionFailed(failing[plan[i]]))
  {
    if i > 0 {
      assert plan[0] !in failing;
      FirstFailure(plan[1..], failing, i - 1);
      assert plan[..i + 1] == [plan[0]] + plan[1..][..i];
    }
  }

  /** The loop that attempts the effects of `plan` one by one and stops at the first that fails. */
  method AttemptAll<E>(plan: seq<E>, failing: map<E, string>) returns (done: seq<E>, r: Result<()>)
    ensures done == Attempted(plan, failing)
    ensures r == RunOutcome(plan, failing)
  {
    var i := 0;
    while i < |plan| && plan[i] !in failing
      invariant i <= |plan|
      invariant forall k :: 0 <= k < i ==> plan[k] !in failing
    {
      i := i + 1;
    }
    if i == |plan| {
      RunSucceeds(plan, failing);
      done, r := plan, Ok(());
    } else {
      FirstFailure(plan, failing, i);
      done, r := plan[..i + 1], Err(ActionFailed(failing[plan[i]]));
    }
  }

  function AfterRun(o: Result<()>, info: PrInfo): (r: Result<PrInfo>)
    ensures r.Ok? <==> o.Ok?
  {
    match o
    case Ok(_) => Ok(info)
    case Err(e) => Err(e)
  }

  // ---------------------------------------------------------------------------------------
  // What each stage does.

  /** A later stage's record extends an earlier one's: same pull request, changelog and scope,
      and the modified files only grow; only the version may differ. */
  predicate Extends(a: PrInfo, b: PrInfo) {
    a.modifiedFiles <= b.modifiedFiles && b.(modifiedFiles := a.modifiedFiles, version := a.version) == a
  }

  lemma ExtendsTransitive(a: PrInfo, b: PrInfo, c: PrInfo)
    requires Extends(a, b) && Extends(b, c)
    ensures Extends(a, c)
  {
  }

  /** The ceiling the scope is validated against. */
  function MaxScope(config: Config): string {
    if config.maxScopeEnabled then config.maxScope else "major"
  }

  predicate GetsChangelog(config: Config, scope: string) {
    config.changelogEnabled && scope != "none"
  }

  /** `getMergedPrInfo`: the scope of the merged pull request and, when the changelog feature is on
      and the scope is not `none`, its changelog (with no required patterns). */
  function MergedPrInfo(config: Config, pr: PullRequest): (r: Result<PrInfo>)
    ensures ScopeForPr(pr, MaxScope(config)).Err? ==> r == Err(ScopeForPr(pr, MaxScope(config)).error)
    ensures r.Ok? ==>
              var scope := ScopeForPr(pr, MaxScope(config));
              scope.Ok? && r.value.scope == scope.value
              && IsScopeName(r.value.scope) && WithinCeiling(r.value.scope, MaxScope(config))
              && r.value.modifiedFiles == [] && r.value.version.None?
              && r.value.number == pr.number && r.value.url == pr.url
              && r.value.author == pr.author && r.value.authorUrl == pr.authorUrl
              && (GetsChangelog(config, r.value.scope) ==> Ok(r.value.changelog) == ChangelogForPr(pr, []))
              && (!GetsChangelog(config, r.value.scope) ==> r.value.changelog == "")
    ensures (ScopeForPr(pr, MaxScope(config)).Ok? && GetsChangelog(config, ScopeForPr(pr, MaxScope(config)).value)
             && ChangelogForPr(pr, []).Err?) ==> r == Err(ChangelogForPr(pr, []).error)
  {
    match ScopeForPr(pr, MaxScope(config))
    case Err(e) => Err(e)
    case Ok(scope) =>
      var changelog := if GetsChangelog(config, scope) then ChangelogForPr(pr, []) else Ok("");
      match changelog
      case Err(e) => Err(e)
      case Ok(text) => Ok(PrInfo(pr.author, pr.authorUrl, text, [], pr.number, scope, pr.url, None))
  }

  /** `getPackages`: the workspace locations, or just the root when there are none. */
  function WorkspacePackages(workspaces: seq<string>): (pkgs: seq<string>)
    ensures pkgs != []
    ensures workspaces == [] ==> pkgs == ["."]
    ensures workspaces != [] ==> pkgs == workspaces
  {
    if workspaces == [] then ["."] else workspaces
  }

  /** The packages whose manifests are bumped: those of `getPackages`, with the root always added. */
  function Packages(workspaces: seq<string>): (pkgs: seq<string>)
    ensures "." in pkgs
    ensures forall p :: p in workspaces ==> p in pkgs
    ensures WorkspacePackages(workspaces) <= pkgs
  {
    var listed := WorkspacePackages(workspaces);
    if "." in listed then listed else listed + ["."]
  }

  /** `path.join` of a package location and a file name. */
  function PathJoin(pkg: string, file: string): string {
    if pkg == "." then file else pkg + "/" + file
  }

  /** The existing manifests of one package, in the order of the configured file names. */
  function PackageManifests(pkg: string, files: seq<string>, manifests: map<string, Version>): (paths: seq<string>)
    ensures forall p :: p in paths ==> p in manifests
  {
    if files == [] then []
    else
      var init := files[..|files| - 1];
      var p := PathJoin(pkg, files[|files| - 1]);
      PackageManifests(pkg, init, manifests) + (if p in manifests then [p] else [])
  }

  /** The existing manifests of all packages, package by package. */
  function ManifestPaths(pkgs: seq<string>, files: seq<string>, manifests: map<string, Version>): (paths: seq<string>)
    ensures forall p :: p in paths ==> p in manifests
  {
    if pkgs == [] then []
    else ManifestPaths(pkgs[..|pkgs| - 1], files, manifests) + PackageManifests(pkgs[|pkgs| - 1], files, manifests)
  }

  /** A package's manifest list holds exactly the configured files of the package that exist. */
  lemma {:induction false} PackageManifestsMembers(pkg: string, files: seq<string>, manifests: map<string, Version>)
    ensures forall p :: p in PackageManifests(pkg, files, manifests) <==>
              exists f :: f in files && p == PathJoin(pkg, f) && p in manifests
  {
    if files != [] {
      var init := files[..|files| - 1];
      var last := files[|files| - 1];
      assert files == init + [last];
      PackageManifestsMembers(pkg, init, manifests);
    }
  }

  /** The gathered list holds exactly the configured files of every package that exist. */
  lemma {:induction false} ManifestPathsMembers(pkgs: seq<string>, files: seq<string>, manifests: map<string, Version>)
    ensures forall p :: p in ManifestPaths(pkgs, files, manifests) <==>
              exists pkg, f :: pkg in pkgs && f in files && p == PathJoin(pkg, f) && p in manifests
  {
    if pkgs != [] {
      var init := pkgs[..|pkgs| - 1];
      var last := pkgs[|pkgs| - 1];
      assert pkgs == init + [last];
      ManifestPathsMembers(init, files, manifests);
      PackageManifestsMembers(last, files, manifests);
    }
  }

  /** Every configured manifest that exists at the root is bumped, whatever the workspaces. */
  lemma RootManifestsBumped(workspaces: seq<string>, files: seq<string>, manifests: map<string, Version>, f: string)
    requires f in files && f in manifests
    ensures f in ManifestPaths(Packages(workspaces), files, manifests)
  {
    ManifestPathsMembers(Packages(workspaces), files, manifests);
    assert f == PathJoin(".", f);
  }

  /** The manifest writes of a bump, in path order. */
  function BumpPlan(paths: seq<string>, manifests: map<string, Version>, scope: string): (plan: seq<Effect>)
    requires IsBumpScope(scope)
    requires forall p :: p in paths ==> p in manifests
    ensures |plan| == |paths|
  {
    seq(|paths|, k requires 0 <= k < |paths| => ManifestWrite(paths[k], manifests, scope))
  }

  /** The write that stores the bumped version of manifest `p`. */
  function ManifestWrite(p: string, manifests: map<string, Version>, scope: string): Effect
    requires IsBumpScope(scope) && p in manifests
  {
    WriteManifest(p, Format(BumpVersion(manifests[p], scope).value))
  }

  /** Each manifest path gets one write, at its own position, holding its bumped version. */
  lemma BumpPlanWrites(paths: seq<string>, manifests: map<string, Version>, scope: string)
    requires IsBumpScope(scope)
    requires forall p :: p in paths ==> p in manifests
    ensures forall k :: 0 <= k < |paths| ==>
              BumpPlan(paths, manifests, scope)[k]
              == WriteManifest(paths[k], Format(BumpVersion(manifests[paths[k]], scope).value))
  {
  }

  /** One more path adds its write at the end. */
  lemma BumpPlanSnoc(paths: seq<string>, manifests: map<string, Version>, scope: string, i: nat)
    requires IsBumpScope(scope) && i < |paths|
    requires forall p :: p in paths ==> p in manifests
    ensures forall p :: p in paths[..i + 1] ==> p in manifests
    ensures BumpPlan(paths[..i + 1], manifests, scope)
            == BumpPlan(paths[..i], manifests, scope)
               + [WriteManifest(paths[i], Format(BumpVersion(manifests[paths[i]], scope).value))]
  {
    var prefix := paths[..i];
    var longer := BumpPlan(prefix + [paths[i]], manifests, scope);
    var shorter := BumpPlan(prefix, manifests, scope);
    var last := ManifestWrite(paths[i], manifests, scope);
    assert paths[..i + 1] == prefix + [paths[i]];
    forall k | 0 <= k < i + 1 ensures longer[k] == (shorter + [last])[k] {
      if k < i {
        assert (prefix + [paths[i]])[k] == prefix[k];
      }
    }
    assert longer == shorter + [last];
  }

  /** The version `PrInfo` carries after a bump: that of the last manifest written, or the old one
      when there is none. */
  function BumpedVersion(paths: seq<string>, manifests: map<string, Version>, scope: string, previous: Option<string>): Option<string>
    requires IsBumpScope(scope)
    requires forall p :: p in paths ==> p in manifests
  {
    if paths == [] then previous
    else Some(Format(BumpVersion(manifests[paths[|paths| - 1]], scope).value))
  }

  const ChangelogMarker := "<!-- bumpr -->"

  /** The text the changelog marker is replaced with: the marker again, a blank line, the version
      heading with the date and the pull-request link, and the changelog. */
  function ChangelogEntry(info: PrInfo, date: string): string {
    ChangelogMarker + "\n\n## [" + Show(info.version) + "] - " + date
    + " ([PR " + IntToString(info.number) + "](" + info.url + "))\n" + info.changelog
  }

  /** Replacing the first occurrence of `pat` by a text that starts with `pat` leaves the first
      occurrence where it was. */
  lemma ReplaceKeepsFirst(s: string, pat: string, rep: string)
    requires Contains(s, pat)
    requires |pat| <= |rep| && rep[..|pat|] == pat
    ensures IndexOf(ReplaceFirst(s, pat, rep), pat) == IndexOf(s, pat)
    ensures OccursAt(ReplaceFirst(s, pat, rep), rep, IndexOf(s, pat))
  {
    var i := IndexOf(s, pat);
    var updated := Splice(s, i, |pat|, rep);
    assert ReplaceFirst(s, pat, rep) == updated;
    SpliceKeepsPrefix(s, pat, rep, i);
    SamePrefixSameOccurrences(s, updated, pat, i + |pat|);
    IndexOfIs(updated, pat, i);
  }

  /** `s` with the `n` characters at `i` replaced by `rep`. */
  function Splice(s: string, i: nat, n: nat, rep: string): (r: string)
    requires i + n <= |s|
    ensures |r| == |s| - n + |rep|
    ensures OccursAt(r, rep, i)
  {
    var r := s[..i] + rep + s[i + n..];
    assert r[i..i + |rep|] == rep;
    r
  }

  /** Splicing a text that starts with the replaced occurrence keeps everything up to its end. */
  lemma SpliceKeepsPrefix(s: string, pat: string, rep: string, i: nat)
    requires OccursAt(s, pat, i)
    requires |pat| <= |rep| && rep[..|pat|] == pat
    ensures forall k :: 0 <= k < i + |pat| ==> Splice(s, i, |pat|, rep)[k] == s[k]
  {
    var updated := Splice(s, i, |pat|, rep);
    forall k | 0 <= k < i + |pat| ensures updated[k] == s[k] {
      if i <= k {
        assert updated[k] == rep[k - i] == pat[k - i];
        assert s[i..i + |pat|][k - i] == s[k];
      }
    }
  }

  /** The new entry goes where the first marker was and starts with the marker, so the marker stays
      first in the file and the next bump inserts above this one. */
  lemma ChangelogMarkerStays(text: string, info: PrInfo, date: string)
    requires Contains(text, ChangelogMarker)
    ensures var updated := ReplaceFirst(text, ChangelogMarker, ChangelogEntry(info, date));
            IndexOf(updated, ChangelogMarker) == IndexOf(text, ChangelogMarker)
            && OccursAt(updated, ChangelogEntry(info, date), IndexOf(text, ChangelogMarker))
  {
    var rest := "\n\n## [" + Show(info.version) + "] - " + date
                + " ([PR " + IntToString(info.number) + "](" + info.url + "))\n" + info.changelog;
    assert ChangelogEntry(info, date) == ChangelogMarker + rest;
    assert (ChangelogMarker + rest)[..|ChangelogMarker|] == ChangelogMarker;
    ReplaceKeepsFirst(text, ChangelogMarker, ChangelogEntry(info, date));
  }

  function CommitPlan(config: Config, info: PrInfo): seq<Effect> {
    [SetupGitEnv,
     Add(info.modifiedFiles),
     Commit("[ci skip] [" + config.toolName + "] Version bump to " + Show(info.version),
            "From CI build " + config.buildNumber)]
  }

  /** The content type an upload is labelled with. */
  function ContentType(types: map<string, string>, file: string): string {
    if file in types && types[file] != "" then types[file] else "application/octet-stream"
  }

  function UploadPlan(urlBase: string, files: seq<string>, types: map<string, string>): (plan: seq<Effect>)
    ensures |plan| == |files|
    ensures forall k :: 0 <= k < |files| ==>
              plan[k] == UploadAsset(urlBase + "?name=" + files[k], ContentType(types, files[k]))
  {
    if files == [] then []
    else [UploadAsset(urlBase + "?name=" + files[0], ContentType(types, files[0]))]
         + UploadPlan(urlBase, files[1..], types)
  }

  /** The release and, when an artifacts directory is configured, one upload per file in it. */
  function ReleasePlan(config: Config, world: World, tagName: string, name: string, description: string): seq<Effect> {
    [CreateRelease(tagName, name, description)]
    + (if config.releaseArtifacts != "" then
         UploadPlan(ReplaceFirst(world.uploadUrl, "{?name,label}", ""), world.artifactFiles, world.contentTypes)
       else [])
  }

  function PublishPlan(pkgs: seq<string>): (plan: seq<Effect>)
    ensures |plan| == |pkgs| && forall k :: 0 <= k < |pkgs| ==> plan[k] == Publish(pkgs[k])
  {
    if pkgs == [] then [] else [Publish(pkgs[0])] + PublishPlan(pkgs[1..])
  }

  /** How a template literal renders a JSON value read from the log (`undefined` when absent). */
  function Render(v: Option<Json>): string {
    match v
    case None => "undefined"
    case Some(j) => RenderValue(j)
  }

  /** `String(j)`: an array is its elements joined with `,`, each `null` element left empty. */
  function RenderValue(j: Json): string
    decreases j, 1
  {
    match j
    case JNull => "null"
    case JBool(b) => if b then "true" else "false"
    case JNumber(n) => IntToString(n)
    case JString(s) => s
    case JArray(items) => Join(RenderItems(items), ",")
    case JObject(_) => "[object Object]"
  }

  /** The array elements as `Array.prototype.join` converts them. */
  function RenderItems(items: seq<Json>): (parts: seq<string>)
    decreases items, 0
    ensures |parts| == |items|
    ensures forall k :: 0 <= k < |items| && items[k].JNull? ==> parts[k] == ""
    ensures forall k :: 0 <= k < |items| && !items[k].JNull? ==> parts[k] == RenderValue(items[k])
  {
    if items == [] then []
    else [if items[0].JNull? then "" else RenderValue(items[0])] + RenderItems(items[1..])
  }

  /** An array of one non-null element renders as that element; an empty array renders empty. */
  lemma SingletonArrayRendersItsElement(x: Json)
    ensures Render(Some(JArray([]))) == ""
    ensures !x.JNull? ==> Render(Some(JArray([x]))) == Render(Some(x))
    ensures x.JNull? ==> Render(Some(JArray([x]))) == ""
  {
  }

  /** A `null` element between two others leaves an empty field between two commas. */
  lemma ArrayWithNullExample()
    ensures Render(Some(JArray([JString("a"), JNull, JBool(true)]))) == "a,,true"
  {
    var parts := RenderItems([JString("a"), JNull, JBool(true)]);
    assert parts == ["a", "", "true"];
  }

  /** The Slack message announcing a publish, or the error raised when the log lacks the pull
      request or its user. */
  function SlackMessage(packageName: string, log: Json): Result<string> {
    var pr := Get(log, ["pr"]);
    if pr.None? then Err(MalformedLog("Cannot destructure property 'number' of 'pr' as it is undefined."))
    else if pr == Some(JNull) then Err(MalformedLog("Cannot destructure property 'number' of 'pr' as it is null."))
    else
      var user := Get(pr.value, ["user"]);
      if user.None? then Err(MalformedLog("Cannot read properties of undefined (reading 'url')"))
      else if user == Some(JNull) then Err(MalformedLog("Cannot read properties of null (reading 'url')"))
      else
        Ok("Published `" + packageName + "@" + Render(Get(log, ["version"])) + "` ("
           + Render(Get(log, ["scope"])) + ") from <" + Render(Get(pr.value, ["url"])) + "|PR #"
           + Render(Get(pr.value, ["number"])) + "> by <" + Render(Get(user.value, ["url"])) + "|"
           + Render(Get(user.value, ["login"])) + ">")
  }

  /** One post per configured channel, or a single post to the hook's default channel. */
  function SlackPlan(channels: seq<string>, text: string): (plan: seq<Effect>)
    ensures channels == [] ==> plan == [SlackPost(None, text)]
    ensures channels != [] ==>
              |plan| == |channels| && forall k :: 0 <= k < |channels| ==> plan[k] == SlackPost(Some(channels[k]), text)
  {
    if channels == [] then [SlackPost(None, text)] else ChannelPosts(channels, text)
  }

  function ChannelPosts(channels: seq<string>, text: string): (plan: seq<Effect>)
    ensures |plan| == |channels|
    ensures forall k :: 0 <= k < |channels| ==> plan[k] == SlackPost(Some(channels[k]), text)
  {
    if channels == [] then [] else [SlackPost(Some(channels[0]), text)] + ChannelPosts(channels[1..], text)
  }

  /** Reading `scope` off a log that is JSON `null` throws. */
  const NullLogScope := MalformedLog("Cannot read properties of null (reading 'scope')")

  /** `publish` goes ahead only for a log whose scope is set and is not `none`. */
  predicate PublishesFor(log: Json) {
    Truthy(Get(log, ["scope"])) && Get(log, ["scope"]) != Some(JString("none"))
  }

  /** A log written by the pipeline leads to a publish exactly when its scope is a real bump. */
  lemma PublishesForLoggedBump(info: PrInfo)
    ensures PublishesFor(LogRecord(info)) <==> info.scope != "" && info.scope != "none"
  {
    LogRecordRoundTrip(info);
  }

  /** What `bump` leaves behind for a `none` scope: only the log write, when logging is on. */
  function LogPlan(config: Config, info: PrInfo): seq<Effect> {
    if config.loggingEnabled then [WriteLog(config.logFile, LogRecord(info))] else []
  }

  /** The record of an open pull request that `check` computes. */
  datatype OpenPrInfo = OpenPrInfo(changelog: string, number: int, scope: string, url: string)

  // ---------------------------------------------------------------------------------------

  class Bumpr {
    const config: Config
    const world: World
    /** The effects attempted so far, oldest first. */
    ghost var trace: seq<Effect>

    constructor(config: Config, world: World)
      ensures this.config == config && this.world == world && trace == []
    {
      this.config := config;
      this.world := world;
      trace := [];
    }

    /** Attempting the effects of `plan` in order, stopping at the first failure. */
    method Run(plan: seq<Effect>) returns (r: Result<()>)
      modifies this
      ensures trace == old(trace) + Attempted(plan, world.failing)
      ensures r == RunOutcome(plan, world.failing)
    {
      var done;
      done, r := AttemptAll(plan, world.failing);
      trace := trace + done;
    }

    /** `expandVariables`: each placeholder's first occurrence replaced, key by key. */
    method ExpandVariables(src: string, info: PrInfo) returns (expanded: string)
      ensures expanded == ExpandAll(src, Replacements(info, world.date))
    {
      var pairs := Replacements(info, world.date);
      expanded := src;
      var i := 0;
      while i < |pairs|
        invariant i <= |pairs|
        invariant expanded == ExpandAll(src, pairs[..i])
      {
        ExpandAllSnoc(src, pairs, i);
        expanded := ReplaceFirst(expanded, pairs[i].0, pairs[i].1);
        i := i + 1;
      }
      assert pairs[..i] == pairs;
    }

    /** `maybeBumpVersion`: for a scope other than `none`, bump every existing manifest of every
        package and record the paths as modified; `PrInfo` takes the last version written. */
    method MaybeBumpVersion(info: PrInfo) returns (r: Result<PrInfo>)
      modifies this
      ensures info.scope == "none" ==> r == Ok(info) && trace == old(trace)
      ensures info.scope != "none" && !IsBumpScope(info.scope)
              && ManifestPaths(Packages(world.workspaces), config.files, world.manifests) != [] ==>
                r == Err(InvalidBumpScope(info.scope)) && trace == old(trace)
      ensures info.scope != "none" && !IsBumpScope(info.scope)
              && ManifestPaths(Packages(world.workspaces), config.files, world.manifests) == [] ==>
                r == Ok(info) && trace == old(trace)
      ensures IsBumpScope(info.scope) ==>
                var paths := ManifestPaths(Packages(world.workspaces), config.files, world.manifests);
                var plan := BumpPlan(paths, world.manifests, info.scope);
                trace == old(trace) + Attempted(plan, world.failing)
                && r == AfterRun(RunOutcome(plan, world.failing),
                                 info.(modifiedFiles := info.modifiedFiles + paths,
                                       version := BumpedVersion(paths, world.manifests, info.scope, info.version)))
      ensures r.Ok? ==> Extends(info, r.value)
    {
      if info.scope == "none" {
        return Ok(info);
      }
      var pkgs := Packages(world.workspaces);
      var allFiles := CollectManifests(pkgs);
      if !IsBumpScope(info.scope) {
        if allFiles != [] {
          return Err(InvalidBumpScope(info.scope));
        }
        return Ok(info);
      }
      var writes, version := ManifestWrites(allFiles, info.scope, info.version);
      var o := Run(writes);
      r := AfterRun(o, info.(modifiedFiles := info.modifiedFiles + allFiles, version := version));
    }

    /** The `bumpVersion` calls of `maybeBumpVersion`, one per manifest path: the manifest write
        each will attempt, and the version the last of them leaves in `PrInfo`. */
    method ManifestWrites(paths: seq<string>, scope: string, previous: Option<string>)
      returns (writes: seq<Effect>, version: Option<string>)
      requires IsBumpScope(scope)
      requires forall p :: p in paths ==> p in world.manifests
      ensures writes == BumpPlan(paths, world.manifests, scope)
      ensures version == BumpedVersion(paths, world.manifests, scope, previous)
    {
      writes := [];
      version := previous;
      var i := 0;
      while i < |paths|
        invariant i <= |paths|
        invariant writes == BumpPlan(paths[..i], world.manifests, scope)
        invariant version == BumpedVersion(paths[..i], world.manifests, scope, previous)
      {
        var newVersion := Format(BumpVersion(world.manifests[paths[i]], scope).value);
        BumpPlanSnoc(paths, world.manifests, scope, i);
        writes := writes + [WriteManifest(paths[i], newVersion)];
        version := Some(newVersion);
        i := i + 1;
      }
      assert paths[..i] == paths;
    }

    /** The outer loop of `maybeBumpVersion` that gathers the existing manifest paths. */
    method CollectManifests(pkgs: seq<string>) returns (allFiles: seq<string>)
      ensures allFiles == ManifestPaths(pkgs, config.files, world.manifests)
    {
      allFiles := [];
      var i := 0;
      while i < |pkgs|
        invariant i <= |pkgs|
        invariant allFiles == ManifestPaths(pkgs[..i], config.files, world.manifests)
      {
        var forPkg := ManifestsOf(pkgs[i]);
        allFiles := allFiles + forPkg;
        assert pkgs[..i + 1][..i] == pkgs[..i];
        i := i + 1;
      }
      assert pkgs[..i] == pkgs;
    }

    /** The inner loop of `maybeBumpVersion`: the configured files of one package that exist. */
    method ManifestsOf(pkg: string) returns (forPkg: seq<string>)
      ensures forPkg == PackageManifests(pkg, config.files, world.manifests)
    {
      var files := config.files;
      forPkg := [];
      var k := 0;
      while k < |files|
        invariant k <= |files|
        invariant forPkg == PackageManifests(pkg, files[..k], world.manifests)
      {
        var fullPath := PathJoin(pkg, files[k]);
        if fullPath in world.manifests {
          forPkg := forPkg + [fullPath];
        }
        assert files[..k + 1][..k] == files[..k];
        k := k + 1;
      }
      assert files[..k] == files;
    }

    /** `maybeUpdateChangelog`: with the feature on and a scope other than `none`, put the new entry
        in place of the first marker and record the changelog file as modified. */
    method MaybeUpdateChangelog(info: PrInfo) returns (r: Result<PrInfo>)
      modifies this
      ensures !config.changelogEnabled || info.scope == "none" ==> r == Ok(info) && trace == old(trace)
      ensures config.changelogEnabled && info.scope != "none" ==>
                var write := ReplaceInFile(config.changelogFile,
                                           ReplaceFirst(world.changelogText, ChangelogMarker, ChangelogEntry(info, world.date)));
                trace == old(trace) + [write]
                && r == AfterRun(RunOutcome([write], world.failing),
                                 info.(modifiedFiles := info.modifiedFiles + [config.changelogFile]))
      ensures r.Ok? ==> Extends(info, r.value)
    {
      if !config.changelogEnabled || info.scope == "none" {
        return Ok(info);
      }
      var data := ChangelogEntry(info, world.date);
      var o := Run([ReplaceInFile(config.changelogFile, ReplaceFirst(world.changelogText, ChangelogMarker, data))]);
      r := AfterRun(o, info.(modifiedFiles := info.modifiedFiles + [config.changelogFile]));
    }

    /** `maybeCommitChanges`: with modified files, set up git, add exactly those files and commit. */
    method MaybeCommitChanges(info: PrInfo) returns (r: Result<PrInfo>)
      modifies this
      ensures info.modifiedFiles == [] ==> r == Ok(info) && trace == old(trace)
      ensures info.modifiedFiles != [] ==>
                trace == old(trace) + Attempted(CommitPlan(config, info), world.failing)
                && r == AfterRun(RunOutcome(CommitPlan(config, info), world.failing), info)
      ensures r.Ok? ==> r.value == info
    {
      if info.modifiedFiles == [] {
        return Ok(info);
      }
      var o := Run(CommitPlan(config, info));
      r := AfterRun(o, info);
    }

    /** `maybeCreateTag`: with the feature on and a scope other than `none`, tag with the expanded
        tag-name template. */
    method MaybeCreateTag(info: PrInfo) returns (r: Result<PrInfo>)
      modifies this
      ensures old(trace) <= trace
      ensures !config.tagEnabled || info.scope == "none" ==> r == Ok(info) && trace == old(trace)
      ensures config.tagEnabled && info.scope != "none" ==>
                var tag := Tag(ExpandAll(config.tagName, Replacements(info, world.date)),
                               "Generated tag from CI build " + config.buildNumber);
                trace == old(trace) + [tag] && r == AfterRun(RunOutcome([tag], world.failing), info)
      ensures r.Ok? ==> r.value == info
    {
      if !config.tagEnabled || info.scope == "none" {
        return Ok(info);
      }
      var tagName := ExpandVariables(config.tagName, info);
      var o := Run([Tag(tagName, "Generated tag from CI build " + config.buildNumber)]);
      r := AfterRun(o, info);
    }

    /** `maybePushChanges`: push when there are modified files. */
    method MaybePushChanges(info: PrInfo) returns (r: Result<PrInfo>)
      modifies this
      ensures old(trace) <= trace
      ensures info.modifiedFiles == [] ==> r == Ok(info) && trace == old(trace)
      ensures info.modifiedFiles != [] ==>
                trace == old(trace) + [Push] && r == AfterRun(RunOutcome([Push], world.failing), info)
      ensures r.Ok? ==> r.value == info
    {
      if info.modifiedFiles == [] {
        return Ok(info);
      }
      var o := Run([Push]);
      r := AfterRun(o, info);
    }

    /** `maybeCreateRelease`: with the feature on and a scope other than `none`, create the release
        named by the expanded templates and upload the artifacts. */
    method MaybeCreateRelease(info: PrInfo) returns (r: Result<PrInfo>)
      modifies this
      ensures old(trace) <= trace
      ensures !config.releaseEnabled || info.scope == "none" ==> r == Ok(info) && trace == old(trace)
      ensures config.releaseEnabled && info.scope != "none" ==>
                var plan := ReleasePlan(config, world,
                                        ExpandAll(config.tagName, Replacements(info, world.date)),
                                        ExpandAll(config.releaseName, Replacements(info, world.date)),
                                        ExpandAll(config.releaseDescription, Replacements(info, world.date)));
                trace == old(trace) + Attempted(plan, world.failing)
                && r == AfterRun(RunOutcome(plan, world.failing), info)
      ensures r.Ok? ==> r.value == info
    {
      if !config.releaseEnabled || info.scope == "none" {
        return Ok(info);
      }
      var tagName := ExpandVariables(config.tagName, info);
      var releaseName := ExpandVariables(config.releaseName, info);
      var releaseDescription := ExpandVariables(config.releaseDescription, info);
      var o := Run(ReleasePlan(config, world, tagName, releaseName, releaseDescription));
      r := AfterRun(o, info);
    }

    /** `maybeLogChanges`: with logging on, write the log record. */
    method MaybeLogChanges(info: PrInfo) returns (r: Result<PrInfo>)
      modifies this
      ensures trace == old(trace) + Attempted(LogPlan(config, info), world.failing)
      ensures r == AfterRun(RunOutcome(LogPlan(config, info), world.failing), info)
      ensures !config.loggingEnabled ==> r == Ok(info) && trace == old(trace)
    {
      var o := Run(LogPlan(config, info));
      r := AfterRun(o, info);
    }

    /** `bump`: nothing on a pull-request build; otherwise the merged pull request's record through
        every stage in order. */
    method Bump() returns (r: Result<Option<PrInfo>>)
      modifies this
      ensures config.isPr ==> r == Ok(None) && trace == old(trace)
      ensures !config.isPr && MergedPrInfo(config, world.lastPr).Err? ==>
                r == Err(MergedPrInfo(config, world.lastPr).error) && trace == old(trace)
      ensures !config.isPr && r.Ok? ==>
                MergedPrInfo(config, world.lastPr).Ok? && r.value.Some?
                && Extends(MergedPrInfo(config, world.lastPr).value, r.value.value)
      ensures !config.isPr && MergedPrInfo(config, world.lastPr).Ok?
              && MergedPrInfo(config, world.lastPr).value.scope == "none" ==>
                var info := MergedPrInfo(config, world.lastPr).value;
                trace == old(trace) + Attempted(LogPlan(config, info), world.failing)
                && r == (match RunOutcome(LogPlan(config, info), world.failing)
                         case Ok(_) => Ok(Some(info))
                         case Err(e) => Err(e))
    {
      if config.isPr {
        return Ok(None);
      }
      var merged := MergedPrInfo(config, world.lastPr);
      if merged.Err? {
        return Err(merged.error);
      }
      var staged := RunStages(merged.value);
      if staged.Err? {
        return Err(staged.error);
      }
      return Ok(Some(staged.value));
    }

    /** The stages of `bump`, each given the record the previous one resolved with. A `none` scope
        on a record without modified files passes every stage untouched but the log. */
    method RunStages(info: PrInfo) returns (r: Result<PrInfo>)
      modifies this
      ensures r.Ok? ==> Extends(info, r.value)
      ensures info.scope == "none" && info.modifiedFiles == [] ==>
                trace == old(trace) + Attempted(LogPlan(config, info), world.failing)
                && r == AfterRun(RunOutcome(LogPlan(config, info), world.failing), info)
    {
      var next := EditStages(info);
      if next.Err? {
        return next;
      }
      r := PublishStages(next.value);
      if r.Ok? {
        ExtendsTransitive(info, next.value, r.value);
      }
    }

    /** `maybeBumpVersion` then `maybeUpdateChangelog`. */
    method EditStages(info: PrInfo) returns (r: Result<PrInfo>)
      modifies this
      ensures r.Ok? ==> Extends(info, r.value)
      ensures info.scope == "none" ==> r == Ok(info) && trace == old(trace)
    {
      var next := MaybeBumpVersion(info);
      if next.Err? {
        return next;
      }
      r := MaybeUpdateChangelog(next.value);
      if r.Ok? {
        ExtendsTransitive(info, next.value, r.value);
      }
    }

    /** `maybeCommitChanges`, `maybeCreateTag`, `maybePushChanges`, `maybeCreateRelease` and
        `maybeLogChanges`: none of them changes the record. */
    method PublishStages(info: PrInfo) returns (r: Result<PrInfo>)
      modifies this
      ensures r.Ok? ==> r.value == info
      ensures info.scope == "none" && info.modifiedFiles == [] ==>
                trace == old(trace) + Attempted(LogPlan(config, info), world.failing)
                && r == AfterRun(RunOutcome(LogPlan(config, info), world.failing), info)
    {
      var next := MaybeCommitChanges(info);
      if next.Err? { return next; }
      next := MaybeCreateTag(next.value);
      if next.Err? { return next; }
      next := MaybePushChanges(next.value);
      if next.Err? { return next; }
      next := MaybeCreateRelease(next.value);
      if next.Err? { return next; }
      r := MaybeLogChanges(next.value);
    }

    /** `info`: nothing on a pull-request build; otherwise log the merged pull request's record. */
    method Info() returns (r: Result<Option<PrInfo>>)
      modifies this
      ensures config.isPr ==> r == Ok(None) && trace == old(trace)
      ensures !config.isPr && MergedPrInfo(config, world.lastPr).Err? ==>
                r == Err(MergedPrInfo(config, world.lastPr).error) && trace == old(trace)
      ensures !config.isPr && MergedPrInfo(config, world.lastPr).Ok? ==>
                var info := MergedPrInfo(config, world.lastPr).value;
                trace == old(trace) + Attempted(LogPlan(config, info), world.failing)
                && r == (match RunOutcome(LogPlan(config, info), world.failing)
                         case Ok(_) => Ok(Some(info))
                         case Err(e) => Err(e))
    {
      if config.isPr {
        return Ok(None);
      }
      var merged := MergedPrInfo(config, world.lastPr);
      if merged.Err? {
        return Err(merged.error);
      }
      var logged := MaybeLogChanges(merged.value);
      if logged.Err? {
        return Err(logged.error);
      }
      return Ok(Some(logged.value));
    }

    /** Whether an attempted effect fails, and with what message. */
    function FailureOf(e: Effect): Option<string>
      reads this
    {
      if e in world.failing then Some(world.failing[e]) else None
    }

    /** The `## ERROR` comment that mirrors failure `e` onto this pipeline's pull request. */
    function ErrorPost(e: Error): Effect
      reads this
    {
      PostPrComment(Comment(config.prNumber, ErrorHeading + Message(e)))
    }

    /** The effects `maybePostCommentOnError` attempts for `outcome`: the error comment, or nothing. */
    function ErrorTrace<T>(outcome: Result<T>): seq<Effect>
      reads this
    {
      if PostsOnError(config.isPr, config.commentsEnabled, outcome) then [ErrorPost(outcome.error)] else []
    }

    /** The error a failed step raises once `maybePostCommentOnError` has mirrored it. */
    function MirroredError<T>(outcome: Result<T>): Error
      reads this
      requires outcome.Err?
    {
      PostCommentOnError(config.isPr, config.commentsEnabled, config.prNumber, outcome,
                         FailureOf(ErrorPost(outcome.error))).result.error
    }

    /** `maybePostCommentOnError` against this pipeline's pull request and hosting service. */
    method MaybePostCommentOnError<T>(outcome: Result<T>) returns (r: Result<T>)
      modifies this
      ensures !PostsOnError(config.isPr, config.commentsEnabled, outcome) ==> r == outcome && trace == old(trace)
      ensures PostsOnError(config.isPr, config.commentsEnabled, outcome) ==>
                var post := PostPrComment(Comment(config.prNumber, ErrorHeading + Message(outcome.error)));
                trace == old(trace) + [post]
                && r == PostCommentOnError(config.isPr, config.commentsEnabled, config.prNumber, outcome, FailureOf(post)).result
    {
      if !PostsOnError(config.isPr, config.commentsEnabled, outcome) {
        return outcome;
      }
      var post := PostPrComment(Comment(config.prNumber, ErrorHeading + Message(outcome.error)));
      trace := trace + [post];
      r := PostCommentOnError(config.isPr, config.commentsEnabled, config.prNumber, outcome, FailureOf(post)).result;
    }

    /** `getOpenPrInfo`: the open pull request's scope and (when the changelog feature is on and the
        scope is not `none`) its changelog checked against the required patterns, each step
        mirroring its error onto the pull request. */
    method GetOpenPrInfo() returns (r: Result<OpenPrInfo>)
      modifies this
      ensures var pr := world.openPr;
              var scope := ScopeForPr(pr, MaxScope(config));
              (r.Ok? <==> scope.Ok? && (GetsChangelog(config, scope.value) ==> ChangelogForPr(pr, config.changelogRequired).Ok?))
              && (scope.Err? ==> r.Err? && (r.error == scope.error
                                             || (r.error.CommentAboutErrorFailed? && r.error.original == Message(scope.error))))
              && (r.Ok? ==> r.value.scope == scope.value && r.value.number == pr.number && r.value.url == pr.url
                            && r.value.changelog == (if GetsChangelog(config, scope.value)
                                                     then ChangelogForPr(pr, config.changelogRequired).value else ""))
      ensures var scope := ScopeForPr(world.openPr, MaxScope(config));
              scope.Err? ==> r == Err(MirroredError(scope)) && trace == old(trace) + ErrorTrace(scope)
      ensures var scope := ScopeForPr(world.openPr, MaxScope(config));
              var changelog := ChangelogForPr(world.openPr, config.changelogRequired);
              scope.Ok? && GetsChangelog(config, scope.value) && changelog.Err? ==>
                r == Err(MirroredError(changelog)) && trace == old(trace) + ErrorTrace(changelog)
      ensures r.Ok? ==> trace == old(trace)
      ensures !config.isPr || !config.commentsEnabled ==> trace == old(trace)
    {
      var pr := world.openPr;
      var scope := MaybePostCommentOnError(ScopeForPr(pr, MaxScope(config)));
      if scope.Err? {
        return Err(scope.error);
      }
      if GetsChangelog(config, scope.value) {
        var changelog := MaybePostCommentOnError(ChangelogForPr(pr, config.changelogRequired));
        if changelog.Err? {
          return Err(changelog.error);
        }
        return Ok(OpenPrInfo(changelog.value, pr.number, scope.value, pr.url));
      }
      return Ok(OpenPrInfo("", pr.number, scope.value, pr.url));
    }

    /** `check`: nothing outside pull-request builds; otherwise the open pull request's info. */
    method Check() returns (r: Result<()>)
      modifies this
      ensures !config.isPr ==> r == Ok(()) && trace == old(trace)
      ensures config.isPr ==>
                (r.Ok? <==> ScopeForPr(world.openPr, MaxScope(config)).Ok?
                            && (GetsChangelog(config, ScopeForPr(world.openPr, MaxScope(config)).value)
                                ==> ChangelogForPr(world.openPr, config.changelogRequired).Ok?))
      ensures var scope := ScopeForPr(world.openPr, MaxScope(config));
              config.isPr && scope.Err? ==> r == Err(MirroredError(scope)) && trace == old(trace) + ErrorTrace(scope)
      ensures var scope := ScopeForPr(world.openPr, MaxScope(config));
              var changelog := ChangelogForPr(world.openPr, config.changelogRequired);
              config.isPr && scope.Ok? && GetsChangelog(config, scope.value) && changelog.Err? ==>
                r == Err(MirroredError(changelog)) && trace == old(trace) + ErrorTrace(changelog)
      ensures r.Ok? ==> trace == old(trace)
    {
      if !config.isPr {
        return Ok(());
      }
      var info := GetOpenPrInfo();
      if info.Err? {
        return Err(info.error);
      }
      return Ok(());
    }

    /** `tag`: nothing on a pull-request build; otherwise tag, push and release the current version,
        using the record from the info file or a stand-in with scope `patch`. */
    method TagCommand(infoFile: Option<PrInfo>) returns (r: Result<Option<PrInfo>>)
      modifies this
      ensures config.isPr ==> r == Ok(None) && trace == old(trace)
      ensures !config.isPr ==> old(trace) + [SetupGitEnv] <= trace
      ensures !config.isPr && r.Ok? ==>
                r.value.Some? && r.value.value.version == Some(world.packageVersion)
                && r.value.value.modifiedFiles == ["CHANGELOG.md", "package.json"]
                && r.value.value.scope == (if infoFile.Some? then infoFile.value.scope else "patch")
    {
      if config.isPr {
        return Ok(None);
      }
      var prInfo := PrInfo(Some(""), Some(""), "", [], -1, "patch", "", None);
      if infoFile.Some? {
        prInfo := infoFile.value;
      }
      var initial := prInfo.(modifiedFiles := ["CHANGELOG.md", "package.json"], version := Some(world.packageVersion));
      var setup := Run([SetupGitEnv]);
      if setup.Err? {
        return Err(setup.error);
      }
      var tagged := TagStages(initial);
      if tagged.Err? {
        return Err(tagged.error);
      }
      return Ok(Some(tagged.value));
    }

    /** The stages of `tag` after the git setup: `maybeCreateTag`, `maybePushChanges` and
        `maybeCreateRelease`, each given the record the previous one resolved with. */
    method TagStages(info: PrInfo) returns (r: Result<PrInfo>)
      modifies this
      ensures old(trace) <= trace
      ensures r.Ok? ==> r.value == info
    {
      var next := MaybeCreateTag(info);
      if next.Err? { return next; }
      next := MaybePushChanges(next.value);
      if next.Err? { return next; }
      r := MaybeCreateRelease(next.value);
    }

    /** `getLog`: the parsed log file, the missing-file error, or the read failure. */
    function GetLog(): (r: Result<Json>)
      ensures world.log.NoFile? <==> r == Err(NoLogFile(config.logFile))
      ensures world.log.Unreadable? ==> r == Err(UnreadableLog(world.log.message))
      ensures r.Ok? <==> world.log.Parsed?
      ensures world.log.Parsed? ==> r == Ok(world.log.json)
    {
      match world.log
      case NoFile => Err(NoLogFile(config.logFile))
      case Unreadable(m) => Err(UnreadableLog(m))
      case Parsed(j) => Ok(j)
    }

    /** `log`: the value at a dotted key of the log, or the missing-key error. */
    function Log(key: string): (r: Result<Json>)
      ensures GetLog().Err? ==> r == Err(GetLog().error)
      ensures GetLog().Ok? && Lookup(GetLog().value, key).None? ==> r == Err(MissingKey(key, config.logFile))
      ensures GetLog().Ok? && Lookup(GetLog().value, key).Some? ==> r == Ok(Lookup(GetLog().value, key).value)
    {
      match GetLog()
      case Err(e) => Err(e)
      case Ok(j) =>
        match Lookup(j, key)
        case None => Err(MissingKey(key, config.logFile))
        case Some(v) => Ok(v)
    }

    /** `maybeSendSlackMessage`. */
    method MaybeSendSlackMessage(log: Json) returns (r: Result<()>)
      modifies this
      ensures !config.slackEnabled ==> r == Ok(()) && trace == old(trace)
      ensures config.slackEnabled && SlackMessage(world.packageName, log).Err? ==>
                r == Err(SlackMessage(world.packageName, log).error) && trace == old(trace)
      ensures config.slackEnabled && SlackMessage(world.packageName, log).Ok? ==>
                var plan := SlackPlan(config.slackChannels, SlackMessage(world.packageName, log).value);
                trace == old(trace) + Attempted(plan, world.failing) && r == RunOutcome(plan, world.failing)
    {
      if !config.slackEnabled {
        return Ok(());
      }
      var message := SlackMessage(world.packageName, log);
      if message.Err? {
        return Err(message.error);
      }
      r := Run(SlackPlan(config.slackChannels, message.value));
    }

    /** `publish`: skip without a log file or without a real scope in it; otherwise write `.npmrc`,
        publish every package `getPackages` lists and announce it. */
    method PublishCommand() returns (r: Result<()>)
      modifies this
      ensures world.log.NoFile? ==> r == Ok(()) && trace == old(trace)
      ensures world.log.Unreadable? ==> r == Err(UnreadableLog(world.log.message)) && trace == old(trace)
      ensures world.log == Parsed(JNull) ==> r == Err(NullLogScope) && trace == old(trace)
      ensures world.log.Parsed? && world.log.json != JNull && !PublishesFor(world.log.json) ==>
                r == Ok(()) && trace == old(trace)
      ensures world.log.Parsed? && PublishesFor(world.log.json) ==>
                var plan := [WriteNpmrc] + PublishPlan(WorkspacePackages(world.workspaces));
                old(trace) + Attempted(plan, world.failing) <= trace
                && (RunOutcome(plan, world.failing).Err? ==>
                      r == RunOutcome(plan, world.failing) && trace == old(trace) + Attempted(plan, world.failing))
    {
      var log := GetLog();
      if log.Err? {
        if log.error.NoLogFile? {
          return Ok(());
        }
        return Err(log.error);
      }
      if log.value == JNull {
        return Err(NullLogScope);
      }
      if !PublishesFor(log.value) {
        return Ok(());
      }
      var published := Run([WriteNpmrc] + PublishPlan(WorkspacePackages(world.workspaces)));
      if published.Err? {
        return published;
      }
      r := MaybeSendSlackMessage(log.value);
    }
  }

  /** After a logged bump, `log` reads back the scope that was bumped, and reports a missing key
      for the version when no manifest was bumped. */
  lemma LogReadsBackScope(b: Bumpr, info: PrInfo)
    requires b.world.log == Parsed(LogRecord(info))
    ensures b.Log("scope") == Ok(JString(info.scope))
    ensures info.version.None? ==> b.Log("version") == Err(MissingKey("version", b.config.logFile))
    ensures info.version.Some? ==> b.Log("version") == Ok(JString(info.version.value))
  {
    LogRecordRoundTrip(info);
    SplitWithoutDot("scope");
    SplitWithoutDot("version");
  }
}
