# bumpr, modelled in Dafny

bumpr is a release tool for CI builds. On a pull-request build (`check`) it reads the pull
request description and checks two things:

- the release scope, a `#none#`, `#patch#`, `#minor#` or `#major#` token, or a ticked task-list
  item when several tokens are present;
- the text under a `## CHANGELOG` header.

On a merge build (`bump`) it takes the last merged pull request through a fixed sequence of
stages, each switched on or off by the configuration:

1. bump the version in every package manifest;
2. splice a new entry into the changelog file;
3. commit, tag and push;
4. create a release on the hosting service;
5. write a JSON log.

`publish` reads that log back, publishes the packages to npm and announces the release on Slack.
`info`, `tag` and `log` are smaller commands built from the same stages.

The project models two parts of the repository:

- **The description interpreter of `src/utils.js`.** Scope extraction and validation, changelog
  extraction, the error-mirroring comment wrappers and the CI environment reads. These are
  functions from strings to a value or an error carrying its exact message.
- **The `Bumpr` class of `src/bumpr.js`.** It is modelled as a Dafny class holding the
  configuration and the answers of the outside world. Every action on the outside world (git,
  npm, the file system, the hosting service, Slack) is an `Effect` appended to a ghost `trace`
  when it is attempted. The effects that fail, and their error messages, are part of the world.
  Each stage's contract states the exact trace it appends and the record or error it resolves
  with.

Modules, one file each:

| file | module | contents |
|---|---|---|
| text.dfy | Text | JavaScript string operations the core relies on: `trim`, ASCII `toLowerCase`, `indexOf`, `split`, `join`, first-occurrence `replace`, number formatting |
| types.dfy | Types | `Result`, the errors the core raises with their message texts, the pull-request record, required-content patterns |
| scopes.dfy | Scopes | scope weights and validation, the `#word#` and task-list scans, `getScopeForPr` |
| changelog.dfy | Changelog | `getChangelogSectionIndex` (specification and loop), `getChangelogForPr` |
| comments.dfy | Comments | `maybePostCommentOnError`, `maybePostComment` |
| env.dfy | Env | `getEnv` and the pull-request number and `isPr` flag of `processEnv` |
| versions.dfy | Versions | versions, the npm `semver` increments the bump uses, `performPatch`, `bumpVersion`'s scope dispatch, precedence as in item 11 of Semantic Versioning 2.0.0 |
| info.dfy | Info | the `PrInfo` record, the JSON log record, lodash-style dotted lookup |
| expand.dfy | Expand | the Markdown-link scan and the placeholder expansion of `expandVariables` |
| bumpr.dfy | Bumper | configuration, world, effects, the `Bumpr` class and its commands and stages |

## Model

| member | source | states |
|---|---|---|
| Scopes.Weight | src/utils.js:253-258 | the weight table: positive exactly for the four scope names, at most 4 |
| Scopes.ValidatedScope | src/utils.js:252-272 | returns the scope unchanged iff it is a scope name within the ceiling; an unknown name gives the invalid-scope error; a name above a named ceiling gives the above-maximum error; a ceiling that is no scope name restricts nothing |
| Scopes.ValidatedScopeAsWritten | src/utils.js:260-271 | the lookup as written, on a plain object: anything it accepts is returned unchanged, and anything it rejects is not a scope name or is above the ceiling |
| Scopes.InheritedNameAcceptedAsWritten | src/utils.js:253-265 | the as-written lookup accepts `constructor`, which the corrected validation rejects as an invalid scope |
| Scopes.AsWrittenAgreesOffInheritedNames | src/utils.js:252-272 | for every name that is not an inherited object property, the as-written and corrected validations give the same result |
| Scopes.ScopeTokenAt | src/utils.js:292 | a match of `#[A-Za-z]+#` at a position is a `#`, one or more ASCII letters and a `#`; conversely, whenever a `#letters#` token starts at the position, that token is the match |
| Scopes.ScopeTokensFrom | src/utils.js:292 | every match of the global token pattern is a `#letters#` token |
| Scopes.NoTokensIffNoneAnywhere | src/utils.js:292-299 | the global scan finds no token exactly when no substring of the text is a `#letters#` token |
| Scopes.WordTokenAt | src/utils.js:12-13 | a `#(\w+)#` match starts and ends with `#` and holds one or more word characters between them |
| Scopes.LazyWordTokenFrom | src/utils.js:12-13 | the lazy `.*?#(\w+)#` stops at the first `#word#`: no earlier position starts one, and nothing before it ends the line |
| Scopes.CheckboxMatchShape | src/utils.js:12-13 | every match of a checkbox pattern is a `-` or `*`, white space, the box (`x` or `X` for checked, white space for unchecked), characters that do not end the line, then the `#word#` whose word it yields |
| Scopes.CheckboxShapeMatched | src/utils.js:12-13 | conversely, text with the shape of a checkbox match at a position is matched there, by a match ending no later, so the global scan cannot pass over it |
| Scopes.CollectCheckedScopes | src/utils.js:304-310 | the `exec` loop over the checked-checkbox pattern collects exactly the words of the checked items, in order |
| Scopes.ThrowIfInvalidScope | src/utils.js:74-86 | passes iff exactly one box is checked; with none checked and the unchecked boxes matching every token it raises the no-scope error without help text; otherwise too-many-scopes |
| Scopes.ScopeForPr | src/utils.js:281-323 | validation is the corrected `ValidatedScope` (see Findings); Dependabot descriptions give the validated `patch`; no token gives the no-scope error with the example and the link; one token gives its lower-cased word, validated; with several tokens, exactly one checked item gives its lower-cased word, validated, and any other count gives the error `throwIfInvalidScope` raises; every success is a scope name within the ceiling |
| Scopes.NoHashTokenNoScope | src/utils.js:292-299 | outside Dependabot descriptions, a text with no `#letters#` substring always gets the no-scope error with help |
| Scopes.TickedChecklistExample | src/utils.js:292-321 | the description `- [x] #minor#` / `- [ ] #major#` has two tokens, the checked items `[minor]` and one unchecked item, and gets scope `minor` |
| Changelog.SectionIndexNone | src/utils.js:42-57 | the section index is -1 iff no line trims and lower-cases to `##changelog` or `## changelog` |
| Changelog.SectionIndexSingle | src/utils.js:45-56 | a non-negative section index is a header line, and no other line is one |
| Changelog.SectionIndexMultiple | src/utils.js:49-51 | the multiple-sections error names, 1-based, the first header and the second header, with no other header before the second |
| Changelog.ChangelogSectionIndex | src/utils.js:42-57 | the scanning loop returns exactly the section index or multiple-sections error specified by the header positions |
| Changelog.SingleHeaderIndex | src/utils.js:42-57 | with exactly one header line, the section index is its position |
| Changelog.NoHeaderNoSection | src/utils.js:42-57 | lines without a header line have section index -1 |
| Changelog.CheckRequired | src/utils.js:355-359 | the required patterns pass iff every pattern matches; otherwise the error quotes the first pattern that fails |
| Changelog.SectionText | src/utils.js:332-344 | the text extraction fails exactly when the header scan does |
| Changelog.ChangelogForPr | src/utils.js:331-362 | errors in check order: the header scan's error, then the no-content error for an all-white-space text, then the first failing pattern; a success is the extracted text, not blank, matching every pattern |
| Changelog.SectionBodyRoundTrip | src/utils.js:339-344 | a description built as free text, a header line and a non-blank body yields exactly that body |
| Changelog.DependabotDefault | src/utils.js:335-337 | a Dependabot description without a header yields `### Security\n- [Dependabot] <name>` |
| Changelog.NoSectionNoContent | src/utils.js:346-353 | a description with neither a header nor the Dependabot marker always gets the no-content error |
| Comments.PostCommentOnError | src/utils.js:391-415 | a success passes through with nothing posted; a failure is posted as `## ERROR\n<message>` exactly on pull-request builds with comments on, then re-raised; if that post fails, the combined error is raised instead |
| Comments.OriginalMessageSurvives | src/utils.js:395-411 | every error coming out of the wrapper ends with the original message, and so does the posted comment's body |
| Comments.PostComment | src/utils.js:372-382 | posts exactly when comments are not skipped, the build is a pull-request build and comments are on; the body carries the `## ERROR` heading iff `isError`; a failed post raises the error quoting the comment |
| Env.GetEnv | src/utils.js:65-72 | a set value other than the text `undefined` is returned; an unset variable or `undefined` gives the default |
| Env.PrNumber | src/utils.js:95-104 | a number variable not equal to `false` is the pull-request number |
| Env.NumberFromUrl | src/utils.js:99-106 | with the number variable unset, the last segment of the pull-request URL is the number, and the build is a pull-request build unless that segment is `false` |
| Env.NoSlashNoNumber | src/utils.js:99-106 | a URL without `/` supplies nothing: the number and `isPr` come from the number variable alone |
| Versions.PerformPatch | src/bumpr.js:40-42 | a release moves to the next patch; a pre-release keeps major, minor and patch and gets a no shorter pre-release that follows the old one in precedence |
| Versions.BumpVersion | src/bumpr.js:52-77 | succeeds iff the scope is patch, minor or major; any other scope raises `Invalid scope [<scope>]`; on a release, patch, minor and major give M.m.(p+1), M.(m+1).0 and (M+1).0.0; minor and major always clear the lower fields and the pre-release; patch on a pre-release keeps M.m.p and moves the pre-release forward |
| Versions.IncMinor | src/bumpr.js:62-64 | keeps the major, zeroes the patch, drops the pre-release, and on a release raises the minor by one |
| Versions.IncMajor | src/bumpr.js:66-68 | zeroes minor and patch, drops the pre-release, and on a release raises the major by one |
| Versions.BumpIncreases | src/bumpr.js:56-71 | every successful bump yields a version of strictly higher precedence |
| Versions.PrereleaseIncreases | src/bumpr.js:40-42 | the pre-release increment yields a version of strictly higher precedence |
| Versions.TestedReleaseIncrements | src/bumpr.js:56-67 | 1.2.3 bumps to 1.2.4, 1.3.0 and 2.0.0 under patch, minor and major |
| Versions.TestedPrereleaseIncrement | src/bumpr.js:40-42 | 1.2.3-alpha.4 bumps to 1.2.3-alpha.5 under patch |
| Info.LogRecordRoundTrip | src/bumpr.js:550-568 | reading the written log record back gives the scope, the changelog and the version, the last undefined when absent |
| Info.LogRecordPrRoundTrip | src/bumpr.js:552-561 | reading the record back gives the `pr` object, its number and URL, and the user's login and URL |
| Info.SplitDotted | src/bumpr.js:165 | a dotted lookup key is the path of its two parts |
| Expand.LinksFrom | src/bumpr.js:269-270 | every link the scan returns starts with `[` and ends with `)` |
| Expand.CloseBeforeFinds | src/bumpr.js:269 | the backtracking over `[^[]+` finds a closing place exactly when one exists |
| Expand.CloseBeforeLast | src/bumpr.js:269 | the closing place found is the last one, as the greedy quantifier requires |
| Expand.WholeLink | src/bumpr.js:269-275 | a changelog that is exactly one link `[text](target)` yields that link |
| Expand.NoBracketNoLinks | src/bumpr.js:269-275 | a changelog without `[` has no links, so `{links}` is empty |
| Expand.ExpandAllSnoc | src/bumpr.js:284-287 | expanding one more placeholder replaces its first occurrence in the text expanded so far |
| Expand.PlainTemplateUnchanged | src/bumpr.js:284-289 | a template without `{` comes out unchanged |
| Expand.ExpandAbsent | src/bumpr.js:284-287 | placeholders that do not occur leave the text as it is |
| Expand.VersionOnlyTemplate | src/bumpr.js:266-289 | a template whose only `{` is one `{version}` gets the version in its place, the text around it kept |
| Text.ReplaceFirst | src/bumpr.js:285 | a string-pattern `replace` swaps the first occurrence, the one with no occurrence before it, for the replacement; without an occurrence the text is unchanged |
| Bumper.RunOutcomeMeaning | src/bumpr.js:437-440 | a batch succeeds iff none of its effects fails, having attempted all of them; a failing batch stops at its first failing effect with that effect's error |
| Bumper.AttemptAll | src/bumpr.js:437-440 | the sequential loop returns exactly the effects a batch attempts and its outcome |
| Bumper.FirstFailure | src/bumpr.js:437-440 | when one effect is the first to fail, the batch attempts everything up to it and fails with its error |
| Bumper.Bumpr.Run | src/bumpr.js:437-440 | appends the attempted effects to the trace and returns the batch's outcome |
| Bumper.Bumpr.constructor | src/bumpr.js:92-96 | the new instance holds the configuration and world, with an empty trace |
| Bumper.MergedPrInfo | src/bumpr.js:350-370 | the record carries the validated scope (ceiling `major` unless the max-scope feature is on), the pull request's number, URL and author, no modified files and no version; its changelog is extracted without patterns only when the feature is on and the scope is not `none`, else empty; scope and changelog errors propagate |
| Bumper.WorkspacePackages | src/bumpr.js:25-33 | the workspace locations, or the root alone when there are none |
| Bumper.Packages | src/bumpr.js:423-425 | the root is always among the bumped packages, as are all workspaces |
| Bumper.PackageManifestsMembers | src/bumpr.js:429-434 | a package's paths are exactly its configured files that exist |
| Bumper.ManifestPathsMembers | src/bumpr.js:427-435 | the gathered paths are exactly the configured files of every package that exist |
| Bumper.RootManifestsBumped | src/bumpr.js:422-425 | every configured manifest existing at the root is bumped, whatever the workspaces |
| Bumper.Bumpr.ManifestsOf | src/bumpr.js:429-434 | the inner loop gathers exactly the package's existing manifest paths |
| Bumper.Bumpr.CollectManifests | src/bumpr.js:427-435 | the nested loops gather exactly the existing manifest paths, package by package |
| Bumper.BumpPlanWrites | src/bumpr.js:437 | one manifest write per path, at the path's own position, each holding that manifest's bumped version |
| Bumper.Bumpr.ManifestWrites | src/bumpr.js:437 | the loop yields the manifest writes of the bump and the version the last one leaves in the record |
| Bumper.Bumpr.MaybeBumpVersion | src/bumpr.js:413-442 | scope `none` returns the record untouched with no effect; an invalid scope fails iff some manifest exists; otherwise every existing manifest is written, in order, and the record's modified files become the old list followed by those paths; the record only grows |
| Bumper.ChangelogMarkerStays | src/bumpr.js:587-597 | the new entry goes where the first marker was and begins with the marker, so the marker stays first |
| Bumper.Bumpr.MaybeUpdateChangelog | src/bumpr.js:576-601 | disabled or scope `none`: no effect, record unchanged; otherwise one write replacing the first marker with the entry, and the changelog file appended to the modified files |
| Bumper.Bumpr.MaybeCommitChanges | src/bumpr.js:449-466 | no modified files: no effect; otherwise git setup, add exactly the modified files, commit `[ci skip] [<tool>] Version bump to <version>`; the record is returned unchanged |
| Bumper.Bumpr.MaybeCreateTag | src/bumpr.js:522-538 | disabled or scope `none`: no effect; otherwise one tag named by the expanded tag template; the record is unchanged |
| Bumper.Bumpr.MaybePushChanges | src/bumpr.js:608-616 | no modified files: no effect; otherwise one push; the record is unchanged |
| Bumper.UploadPlan | src/bumpr.js:501-513 | one upload per artifact, to `<base>?name=<file>`, with its content type or `application/octet-stream` |
| Bumper.Bumpr.MaybeCreateRelease | src/bumpr.js:473-515 | disabled or scope `none`: no effect; otherwise the release named by the three expanded templates, then the uploads when an artifacts directory is set; the record is unchanged |
| Bumper.Bumpr.MaybeLogChanges | src/bumpr.js:545-569 | with logging on, one write of the log record to the log file; otherwise nothing |
| Bumper.Bumpr.ExpandVariables | src/bumpr.js:266-290 | the loop replaces, key by key in the nine-key order, the first occurrence of each placeholder |
| Bumper.Bumpr.EditStages | src/bumpr.js:111-112 | version bump then changelog update: a success only extends the record; scope `none` returns the record with no effect |
| Bumper.Bumpr.PublishStages | src/bumpr.js:113-117 | commit, tag, push, release and log: a success returns the record unchanged; a `none` record without modified files only writes the log |
| Bumper.Bumpr.RunStages | src/bumpr.js:110-117 | the stages in order: the record only grows, and a `none` record without modified files only writes the log |
| Bumper.Bumpr.Bump | src/bumpr.js:104-118 | a pull-request build does nothing; a failing merged-PR lookup fails with no effect; a success extends the merged record; scope `none` only writes the log |
| Bumper.Bumpr.Info | src/bumpr.js:141-148 | a pull-request build does nothing; otherwise the merged record is logged and returned, or its error raised |
| Bumper.Bumpr.MaybePostCommentOnError | src/bumpr.js:381-399 | posts the `## ERROR` comment exactly when the wrapper decides to, and resolves as the wrapper does with that post's outcome |
| Bumper.Bumpr.GetOpenPrInfo | src/bumpr.js:376-404 | succeeds iff the scope is valid and, when a changelog is needed, it passes the required patterns; a failing scope step, and a failing changelog step after a valid scope, each append exactly the `## ERROR` post the wrapper decides on and fail with the error the wrapper raises given that post's outcome; a success carries the scope, number, URL and the changelog or empty text; nothing is posted on success or off pull-request builds |
| Bumper.Bumpr.Check | src/bumpr.js:124-133 | outside pull-request builds nothing happens; otherwise succeeds iff the open pull request has a valid scope and a changelog that passes; a failing scope step, or a failing changelog step after a valid scope, appends exactly the `## ERROR` post the wrapper decides on and fails with the error the wrapper raises given that post's outcome; a success appends nothing |
| Bumper.Bumpr.TagCommand | src/bumpr.js:224-258 | a pull-request build does nothing; otherwise git setup comes first, and a success carries the package version, the two stand-in modified files and the info file's scope or `patch` |
| Bumper.Bumpr.TagStages | src/bumpr.js:253-257 | tag, push and release only append to the trace and leave the record unchanged |
| Bumper.Bumpr.GetLog | src/bumpr.js:316-329 | a missing file gives the no-log-file error, an unreadable one its read error, otherwise the parsed log |
| Bumper.Bumpr.Log | src/bumpr.js:163-173 | the value at the dotted key, the missing-key error when it is undefined, or the log's error |
| Bumper.LogReadsBackScope | src/bumpr.js:545-569 | after a logged bump, `log scope` reads the scope back, and `log version` the version, or the missing-key error when none was bumped |
| Bumper.PublishesForLoggedBump | src/bumpr.js:182-190 | a log the pipeline wrote leads to a publish iff its scope is neither empty nor `none` |
| Bumper.RenderItems | src/bumpr.js:631-632 | an array element renders as `Array.prototype.join` converts it: `null` as empty text, anything else as the value itself renders |
| Bumper.SingletonArrayRendersItsElement | src/bumpr.js:631-632 | an empty array renders empty; a one-element array renders as its element, or empty when that element is `null` |
| Bumper.ArrayWithNullExample | src/bumpr.js:631-632 | `["a", null, true]` renders as `a,,true` |
| Bumper.SlackPlan | src/bumpr.js:635-640 | one post per configured channel, or one post to the hook's default channel |
| Bumper.Bumpr.MaybeSendSlackMessage | src/bumpr.js:623-641 | disabled: nothing; a log without the `pr` object or its user raises the destructuring error; otherwise the message is posted per the Slack plan |
| Bumper.Bumpr.PublishCommand | src/bumpr.js:179-217 | no log file: skip quietly; an unreadable log fails; a `null` log fails on reading `scope`; a log without a real scope skips; otherwise `.npmrc` and one publish per `getPackages` entry are attempted, and their first failure is the result |

## Left out

- Network, git, npm and file-system I/O are effects in the trace. Their results are inputs: the
  pull requests, workspace list, manifests, changelog text, artifacts, content types, log file
  and the `package.json` name and version. Reading a manifest, `package.json` or the info file
  never fails in the model.
- `getLastPr` (the `git rev-list` call) and the hosting service's `getPr` are replaced by the
  pull requests held in the world. A failure of those calls is not modelled.
- `Promise.all` over manifests, packages, uploads and Slack channels runs its members one after
  another, and the first failure ends the batch. In the source the other promises keep running,
  and `info.version` takes the value of whichever bump finishes last. The model takes the last
  path's version.
- `getDateString` (moment-timezone) and the `mime-types` lookup are inputs.
- Versions are a datatype. Parsing version strings, build metadata and invalid versions (for
  which `semver` returns `null`) are not modelled.
- `trim` uses the ECMAScript white-space set. `toLowerCase` lowers ASCII letters only.
- `path.join` is modelled only for the package locations the tool produces: the root `.` or a
  relative directory. It does no normalisation.
- The `$` replacement patterns of `String.prototype.replace` and of `replace-in-file` are not
  modelled: the replacement text is inserted literally.
- Bumper.Bumpr.MaybeUpdateChangelog: always records the file write. `replace-in-file` skips
  writing a file whose text does not change.
- The configured required-changelog patterns are opaque predicates with their source text, not a
  regular-expression engine.
- The JSON text written to manifests and to the log (`JSON.stringify` with two-space indent) is
  not modelled. A manifest write carries the path and the new version; a log write carries the
  JSON value.
- JSON numbers are integers.
- lodash `get` is modelled for dotted keys only, not bracket or array-index paths. The JSON
  model has no prototype and no properties of strings or arrays, so `log constructor` or
  `log scope.length` give the missing-key error where lodash finds the inherited `Object`
  function or the string's length. A key that exists whole as a member name (such as `"a.b"`) is
  still split at its dot, where lodash uses it unsplit.
- Error messages in `src/errors/*` are coloured with chalk; the model keeps the text without
  colour codes.
- `getConfig`, `walkObject` and the rest of `processEnv` (branch, Slack URL) are not modelled.
  The configuration is a typed record of flags and settings.
- The `isPr()` method of `Bumpr` (src/bumpr.js:153-157) only logs and returns the configured
  flag. The commands read that flag directly.
- `PrInfo` is a value. The in-place updates of the source (`info.modifiedFiles.push`,
  `info.version =`) become new records. No caller reuses the old object.
- Bumper.Bumpr.Bump: the full trace of a merge build is stated stage by stage in the stage
  methods. `Bump` itself states it only for scope `none`, plus the growth of the record.
- Bumper.Bumpr.RunStages: as for `Bump`, the whole trace is stated only for a `none` record
  without modified files.
- Bumper.Bumpr.EditStages: states only that the record grows and that scope `none` changes
  nothing. The trace of the version bump and the changelog update is stated by `MaybeBumpVersion`
  and `MaybeUpdateChangelog`.
- Bumper.Bumpr.PublishStages: states only that the record is unchanged, and the trace for a
  `none` record without modified files. The commit, tag, push, release and log traces are stated
  by the five stage methods.
- Bumper.Bumpr.TagCommand: states that git setup comes first and what the returned record holds.
  It does not state the trace of the later stages, which their own methods state. The info file
  is read as a complete `PrInfo` record. The source spreads whatever JSON the file holds into the
  record, so a file lacking fields (such as the log record, which keeps the number and URL under
  `pr`) leaves them `undefined` in the expanded templates. The model cannot represent those
  missing fields.
- Bumper.Bumpr.TagStages: states only that the trace grows and the record is unchanged.
- Bumper.Bumpr.PublishCommand: when `.npmrc` and every publish succeed, the Slack stage that
  follows is stated by `MaybeSendSlackMessage`. `PublishCommand` states only that the publish
  effects were attempted first.
- Bumper.Bumpr.MaybeSendSlackMessage: the `fetch` response status is ignored, as in the source.
  A post fails only when its effect is marked failing.
- Versions.PerformPatch: states that a pre-release increment moves forward and keeps M.m.p. The
  exact identifier rule is in `IncPrerelease`.
- Scopes.ScopeForPr: uses the corrected validation of the finding below. On `#constructor#` the
  source accepts the scope, and the bump later fails with `Invalid scope [constructor]` once a
  manifest exists; the model rejects it earlier with the invalid-scope error.
- The configuration's `isPr` and `prNumber` are inputs standing for `Env.IsPr` and `Env.PrNumber`
  of the CI environment; the model does not derive them itself.

## Findings

| source | as written | input that shows it | evidently intended | confidence | as-written member | corrected member |
|---|---|---|---|---|---|---|
| src/utils.js:252-272 | `scopeWeights[scope]` looks the scope up on a plain object, so inherited properties such as `constructor` are found. They are truthy, and comparing them with a number is false, so they pass both checks. | a pull request description holding the single token `#constructor#` is accepted with scope `constructor` | only `none`, `patch`, `minor` and `major` are valid scopes; any other name raises the invalid-scope error | not executed | Scopes.InheritedNameAcceptedAsWritten | Scopes.ValidatedScope |
