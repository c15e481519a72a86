/** Values shared by the interpreter and the pipeline: the outcome of an operation that may
    throw, the errors the core raises (with the exact text each one carries), and the pull
    request record the version-control client hands over. */
module Types {
  import opened Text

  datatype Option<T> = None | Some(value: T)

  datatype Result<T> = Ok(value: T) | Err(error: Error)

  datatype Error =
    | InvalidScope(scope: string, prNumber: int, prUrl: string)
    | ScopeAboveMaximum(scope: string, maxScope: string, prNumber: int, prUrl: string)
      /** `withHelp` distinguishes the error for a description with no token at all (which adds
          an example and a link to the documentation) from the one for an all-unchecked checklist. */
    | NoScopeFound(prNumber: int, prUrl: string, withHelp: bool)
    | TooManyScopes(prNumber: int, prUrl: string)
      /** 1-based line numbers of the first two changelog headers. */
    | MultipleChangelogSections(first: nat, second: nat)
    | NoChangelogContent
    | PatternMismatch(pattern: string)
      /** Posting the comment about `original` failed with `postError`. */
    | CommentAboutErrorFailed(postError: string, original: string)
      /** Posting the plain comment `comment` failed with `postError`. */
    | CommentFailed(postError: string, comment: string)
    | InvalidBumpScope(scope: string)
      /** An external command or request (git, npm, the file system, the hosting service) failed. */
    | ActionFailed(message: string)
    | NoLogFile(file: string)
    | MissingKey(key: string, file: string)
      /** The log file exists but reading or parsing it failed. */
    | UnreadableLog(message: string)
      /** The log file lacks the `pr` object that the release notification reads. */
    | MalformedLog(detail: string)

  /** How a template literal renders a field that may be `undefined`. */
  function Show(o: Option<string>): string {
    match o
    case None => "undefined"
    case Some(s) => s
  }

  function PrStr(n: int, url: string): string {
    "PR #" + IntToString(n) + " (" + url + ")"
  }

  function PrLink(n: int, url: string): string {
    "[PR #" + IntToString(n) + "](" + url + ")"
  }

  const ScopeExample := "Please include a scope (e.g. `#major#`, `#minor#`, `#patch#`) in your PR description."
  const ScopeExampleLink := "See https://github.com/all-i-code/bumpr#pull-requests for more details."
  const ChangelogLink := "https://github.com/all-i-code/bumpr#changelog"

  /** The message text each error is raised with. */
  function Message(e: Error): string {
    match e
    case InvalidScope(s, n, url) =>
      "Invalid version-bump scope \"" + s + "\" found for " + PrStr(n, url)
    case ScopeAboveMaximum(s, m, n, url) =>
      "Version-bump scope \"" + s + "\" is higher than the maximum \"" + m + "\" for " + PrStr(n, url)
    case NoScopeFound(n, url, withHelp) =>
      "No version-bump scope found for " + PrLink(n, url)
      + (if withHelp then "\n" + ScopeExample + "\n" + ScopeExampleLink else "")
    case TooManyScopes(n, url) =>
      "Too many version-bump scopes found for " + PrLink(n, url)
    case MultipleChangelogSections(a, b) =>
      "Multiple changelog sections found. Line " + NatToString(a) + " and line " + NatToString(b) + "."
    case NoChangelogContent =>
      "No CHANGELOG content found in PR description.\n"
      + "Please add a `## CHANGELOG` section to your PR description with some content describing your change.\n"
      + "See " + ChangelogLink + " for details."
    case PatternMismatch(p) => "Changelog does not match pattern: " + p
    case CommentAboutErrorFailed(post, orig) =>
      "Received error: " + post + " while trying to post PR comment about error: " + orig
    case CommentFailed(post, comment) =>
      "Received error: " + post + " while trying to post PR comment: " + comment
    case InvalidBumpScope(s) => "Invalid scope [" + s + "]"
    case ActionFailed(msg) => msg
    case NoLogFile(f) => "log file " + f + " not found."
    case MissingKey(k, f) => "no " + k + " key found in " + f
    case UnreadableLog(msg) => msg
    case MalformedLog(detail) => detail
  }

  /** A pull request as the version-control client normalises it. `name`, `author` and
      `authorUrl` are absent when the client does not supply them. */
  datatype PullRequest = PullRequest(
    number: int,
    description: string,
    url: string,
    name: Option<string>,
    author: Option<string>,
    authorUrl: Option<string>)

  /** A required-content pattern for changelogs: its source text (quoted in the error) and the
      strings it matches somewhere in. */
  datatype Pattern = Pattern(source: string, test: string -> bool)

  /** The marker that identifies a pull request opened by Dependabot. */
  const DependabotMarker: string := ['<'] + "summary>Dependabot commands and options</summary>"
}
