/** What the outside world answered during one run. Both bots talk to the same two
    services (a hosted language model and the social platform); the model receives
    the answers as inputs instead of making the calls. */
module Externals {

  datatype Option<+T> = None | Some(value: T)

  /** The language-model call: either the text of the first choice of the
      completion, or any exception raised while requesting or reading it. */
  datatype Completion = Completed(text: string) | CompletionFailed

  /** The publish call `client.create_tweet(...)` followed by reading the new
      post's id for the log line. It succeeds; or `create_tweet` raises a platform
      error (TweepyException) and nothing is posted; or `create_tweet` raises
      anything else and nothing is posted; or `create_tweet` returned, so the post
      is live, but reading `res.data["id"]` or printing it raised. */
  datatype PublishOutcome =
    | Published(id: string)
    | PlatformError
    | FailedBeforePost
    | FailedAfterPost
  {
    /** Whether the post is visible on the platform after the call. */
    predicate PostIsLive()
    {
      Published? || FailedAfterPost?
    }
  }
}
