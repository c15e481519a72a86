/** Mirroring errors onto the pull request: the decision of whether to post a comment, what it
    says, and which error the caller finally sees. The post itself is the hosting service's, so
    its outcome is an input: `None` when it succeeds, or the message it fails with. */
module Comments {
  import opened Text
  import opened Types

  /** A comment posted on pull request `prNumber` (as the CI environment names it). */
  datatype Comment = Comment(prNumber: string, body: string)

  /** What a wrapper settles to, together with the comment it posted, if any. */
  datatype Posted<T> = Posted(result: Result<T>, comment: Option<Comment>)

  const ErrorHeading := "## ERROR\n"

  /** Whether `maybePostCommentOnError` posts for `outcome`: only when it failed, on a pull-request
      build with the comments feature enabled. */
  predicate PostsOnError<T>(isPr: bool, commentsEnabled: bool, outcome: Result<T>) {
    outcome.Err? && isPr && commentsEnabled
  }

  /** `maybePostCommentOnError`: a successful `outcome` passes through with nothing posted; a failure
      is mirrored as an `## ERROR` comment when `PostsOnError` holds, and is then re-raised, unless
      the post fails, in which case the combined error is raised instead. */
  function PostCommentOnError<T>(isPr: bool, commentsEnabled: bool, prNumber: string,
                                 outcome: Result<T>, postFailure: Option<string>): (p: Posted<T>)
    ensures p.result.Ok? <==> outcome.Ok?
    ensures outcome.Ok? ==> p == Posted(outcome, None)
    ensures p.comment.Some? <==> PostsOnError(isPr, commentsEnabled, outcome)
    ensures p.comment.Some? ==> p.comment.value == Comment(prNumber, ErrorHeading + Message(outcome.error))
    ensures !PostsOnError(isPr, commentsEnabled, outcome) || postFailure.None? ==> p.result == outcome
    ensures PostsOnError(isPr, commentsEnabled, outcome) && postFailure.Some? ==>
              p.result == Err(CommentAboutErrorFailed(postFailure.value, Message(outcome.error)))
  {
    if !PostsOnError(isPr, commentsEnabled, outcome) then Posted(outcome, None)
    else
      var comment := Comment(prNumber, ErrorHeading + Message(outcome.error));
      match postFailure
      case None => Posted(outcome, Some(comment))
      case Some(m) => Posted(Err(CommentAboutErrorFailed(m, Message(outcome.error))), Some(comment))
  }

  /** The wrapper never swallows a failure and never loses its text: whatever error comes out
      ends with the message of the original one, and the posted comment carries it too. */
  lemma OriginalMessageSurvives<T>(isPr: bool, commentsEnabled: bool, prNumber: string,
                                   outcome: Result<T>, postFailure: Option<string>)
    requires outcome.Err?
    ensures var p := PostCommentOnError(isPr, commentsEnabled, prNumber, outcome, postFailure);
            var m := Message(p.result.error);
            p.result.Err? && |Message(outcome.error)| <= |m|
            && m[|m| - |Message(outcome.error)|..] == Message(outcome.error)
            && (p.comment.Some? ==> p.comment.value.body[|ErrorHeading|..] == Message(outcome.error))
  {
    var p := PostCommentOnError(isPr, commentsEnabled, prNumber, outcome, postFailure);
    var orig := Message(outcome.error);
    if p.result != outcome {
      var prefix := "Received error: " + postFailure.value + " while trying to post PR comment about error: ";
      assert Message(p.result.error) == prefix + orig;
    }
  }

  /** The `SKIP_COMMENTS` switch: set to any non-empty value it silences plain comments. */
  predicate SkipComments(skipEnv: Option<string>) {
    skipEnv.Some? && skipEnv.value != ""
  }

  /** `maybePostComment`: posts `msg` (under an `## ERROR` heading when `isError`) on pull-request
      builds with comments enabled and comments not switched off; a failing post raises an error
      that quotes the comment. */
  function PostComment(skipEnv: Option<string>, isPr: bool, commentsEnabled: bool, prNumber: string,
                       msg: string, isError: bool, postFailure: Option<string>): (p: Posted<()>)
    ensures p.comment.Some? <==> !SkipComments(skipEnv) && isPr && commentsEnabled
    ensures p.comment.Some? ==>
              p.comment.value.prNumber == prNumber
              && p.comment.value.body == (if isError then ErrorHeading + msg else msg)
    ensures p.result.Err? <==> p.comment.Some? && postFailure.Some?
    ensures p.result.Err? ==> p.result.error == CommentFailed(postFailure.value, p.comment.value.body)
  {
    if !SkipComments(skipEnv) && isPr && commentsEnabled then
      var body := if isError then ErrorHeading + msg else msg;
      match postFailure
      case None => Posted(Ok(()), Some(Comment(prNumber, body)))
      case Some(m) => Posted(Err(CommentFailed(m, body)), Some(Comment(prNumber, body)))
    else Posted(Ok(()), None)
  }
}
