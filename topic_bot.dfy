/** The decision core of tweet_bot.py: take the topic at the head of the queue in
    topics.json, compose a post about it, publish it, and commit the removal only
    when the publish succeeds; on a platform error the head goes back in front
    and the queue is saved unchanged. The model's reply and the publish outcome
    are inputs. */
module TopicBot {
  import opened Externals
  import opened Text

  /** The `width` passed to `textwrap.shorten`. */
  const MaxTweetLength: nat := 280

  /** One object of the topics.json array: its keys and values. The composer only
      reads the value under "topic"; the other keys travel with the entry. */
  datatype TopicEntry = TopicEntry(fields: map<string, string>)

  /** `compose`: the cleaned model reply shortened to 280 characters, or, when the
      model call failed, the fixed fallback, which is not shortened. */
  function Compose(topic: string, reply: Completion): (tweet: string)
  {
    match reply
    case Completed(text) => Shorten(CleanReply(text), MaxTweetLength)
    case CompletionFailed => "Latest on " + topic + ". #Blockchain #Crypto"
  }

  /** What a composed post says: the cleaned reply with its whitespace collapsed
      when that fits in 280 characters, otherwise as many of its leading words as
      leave room for the ellipsis, then the ellipsis; the fallback names the topic. */
  lemma ComposeKeepsReply(topic: string, reply: Completion)
    ensures reply.Completed? ==> |Compose(topic, reply)| <= MaxTweetLength
    ensures reply.Completed? && |Collapse(CleanReply(reply.text))| <= MaxTweetLength ==>
      Compose(topic, reply) == Collapse(CleanReply(reply.text))
    ensures reply.Completed? && |Collapse(CleanReply(reply.text))| > MaxTweetLength ==>
      var tweet := Compose(topic, reply);
      KeepsLeadingWords(tweet, CleanReply(reply.text), MaxTweetLength) &&
      tweet[..|tweet| - 1] <= Collapse(CleanReply(reply.text))
    ensures reply.CompletionFailed? ==>
      Compose(topic, reply) == "Latest on " + topic + ". #Blockchain #Crypto"
  {
    if reply.Completed? {
      ShortenKeepsText(CleanReply(reply.text), MaxTweetLength);
    }
  }

  /** The fallback bypasses the length bound: a long enough topic yields a post
      longer than 280 characters. */
  lemma FallbackIsNotBounded(topic: string)
    requires |topic| > MaxTweetLength - |"Latest on . #Blockchain #Crypto"|
    ensures |Compose(topic, CompletionFailed)| > MaxTweetLength
  {
  }

  /** What one run of `main` did. */
  datatype RunOutcome =
    | FileMissing               // load_topics raised: topics.json does not exist
    | NoTopicsLeft              // the queue was empty
    | MissingTopicKey           // the head entry has no "topic" key: KeyError
    | Posted(tweet: string)     // published; the shortened queue was saved
    | RolledBack(tweet: string) // platform error; the original queue was saved
    | Raised(tweet: string)     // the publish path raised something else
  {
    /** Whether the run got as far as calling the publisher. */
    predicate Attempted()
    {
      Posted? || RolledBack? || Raised?
    }
  }

  /** The specification of one run of `main` on the stored queue. */
  function Run(stored: Option<seq<TopicEntry>>, reply: Completion, publish: PublishOutcome): (o: RunOutcome)
    ensures o.FileMissing? <==> stored.None?
    ensures o.NoTopicsLeft? <==> stored.Some? && stored.value == []
    ensures o.MissingTopicKey? <==> stored.Some? && stored.value != [] && "topic" !in stored.value[0].fields
    ensures o.Attempted() <==> stored.Some? && stored.value != [] && "topic" in stored.value[0].fields
    ensures o.Attempted() ==>
      o.tweet == Compose(stored.value[0].fields["topic"], reply)
    ensures o.Posted? <==> o.Attempted() && publish.Published?
    ensures o.RolledBack? <==> o.Attempted() && publish.PlatformError?
  {
    match stored
    case None => FileMissing
    case Some(topics) =>
      if topics == [] then NoTopicsLeft
      else if "topic" !in topics[0].fields then MissingTopicKey
      else
        var tweet := Compose(topics[0].fields["topic"], reply);
        match publish
        case Published(_) => Posted(tweet)
        case PlatformError => RolledBack(tweet)
        case FailedBeforePost | FailedAfterPost => Raised(tweet)
  }

  /** The queue topics.json holds after a run with outcome o: only a posted run
      removes anything, and it removes exactly the head. */
  function QueueAfter(queue: seq<TopicEntry>, o: RunOutcome): (q: seq<TopicEntry>)
    ensures o.Posted? && queue != [] ==> [queue[0]] + q == queue
    ensures !o.Posted? ==> q == queue
  {
    if o.Posted? && queue != [] then queue[1..] else queue
  }

  /** topics.json: its queue (None while the file does not exist) and how many
      times it has been written. */
  class TopicFile {
    var stored: Option<seq<TopicEntry>>
    ghost var writes: nat

    constructor (initial: Option<seq<TopicEntry>>)
      ensures stored == initial && writes == 0
    {
      stored := initial;
      writes := 0;
    }

    /** `save_topics`: overwrite the file with the given queue. */
    method Save(topics: seq<TopicEntry>)
      modifies this
      ensures stored == Some(topics) && writes == old(writes) + 1
    {
      stored := Some(topics);
      writes := writes + 1;
    }
  }

  /** The try/except block of `main`, entered after `pop(0)` took head off the
      list: a successful publish saves the remaining list; a platform error puts
      head back at index 0 and saves; any other exception leaves the file alone. */
  method CommitOrRollBack(file: TopicFile, head: TopicEntry, topics: seq<TopicEntry>, publish: PublishOutcome)
    modifies file
    ensures publish.Published? ==> file.stored == Some(topics) && file.writes == old(file.writes) + 1
    ensures publish.PlatformError? ==>
      file.stored == Some([head] + topics) && file.writes == old(file.writes) + 1
    ensures publish.FailedBeforePost? || publish.FailedAfterPost? ==>
      file.stored == old(file.stored) && file.writes == old(file.writes)
  {
    var list := topics;
    match publish
    case Published(_) =>
      file.Save(list);
    case PlatformError =>
      list := [head] + list;
      file.Save(list);
    case FailedBeforePost | FailedAfterPost =>
  }

  /** `main` of tweet_bot.py. The in-memory list loses its head with `pop(0)`; after
      a successful publish the shortened list is saved; after a platform error the
      head is inserted back at index 0 and the list, now equal to the original
      queue, is saved; on every other path nothing is written. */
  method PostNextTopic(file: TopicFile, reply: Completion, publish: PublishOutcome) returns (outcome: RunOutcome)
    modifies file
    ensures outcome == Run(old(file.stored), reply, publish)
    ensures file.stored ==
      if outcome.Posted? then Some(old(file.stored).value[1..]) else old(file.stored)
    ensures file.writes == if outcome.Posted? || outcome.RolledBack? then old(file.writes) + 1 else old(file.writes)
  {
    if file.stored.None? {
      return FileMissing;
    }
    var topics := file.stored.value;
    ghost var original := topics;
    if topics == [] {
      return NoTopicsLeft;
    }
    var topicObj := topics[0];
    topics := topics[1..];
    if "topic" !in topicObj.fields {
      return MissingTopicKey;
    }
    var tweet := Compose(topicObj.fields["topic"], reply);
    assert [topicObj] + topics == original;
    CommitOrRollBack(file, topicObj, topics, publish);
    outcome := match publish
      case Published(_) => Posted(tweet)
      case PlatformError => RolledBack(tweet)
      case FailedBeforePost | FailedAfterPost => Raised(tweet);
  }

  /** A post that went live but whose id could not be read raises before the
      save: the queue stays as it was, and the next run posts the same topic again. */
  lemma UnconfirmedTopicIsRepeated(queue: seq<TopicEntry>, reply: Completion, reply': Completion,
                                   publish': PublishOutcome)
    requires queue != [] && "topic" in queue[0].fields
    ensures var o := Run(Some(queue), reply, FailedAfterPost);
      o.Raised? && QueueAfter(queue, o) == queue
    ensures var again := Run(Some(QueueAfter(queue, Run(Some(queue), reply, FailedAfterPost))), reply', publish');
      again.Attempted() && again.tweet == Compose(queue[0].fields["topic"], reply')
  {
  }

  /** Everything the outside world answers during one run. */
  datatype Attempt = Attempt(reply: Completion, publish: PublishOutcome)

  /** The entries whose removal was committed, in order, over one run per attempt. */
  function Committed(queue: seq<TopicEntry>, attempts: seq<Attempt>): seq<TopicEntry>
    decreases |attempts|
  {
    if attempts == [] then []
    else
      var o := Run(Some(queue), attempts[0].reply, attempts[0].publish);
      (if o.Posted? then [queue[0]] else []) + Committed(QueueAfter(queue, o), attempts[1..])
  }

  /** The queue left after one run per attempt. */
  function Remaining(queue: seq<TopicEntry>, attempts: seq<Attempt>): seq<TopicEntry>
    decreases |attempts|
  {
    if attempts == [] then queue
    else
      var o := Run(Some(queue), attempts[0].reply, attempts[0].publish);
      Remaining(QueueAfter(queue, o), attempts[1..])
  }

  /** FIFO with nothing lost or reordered: over any sequence of runs, the committed
      entries followed by what is left is the original queue. */
  lemma {:induction false} CommittedThenRemainingIsQueue(queue: seq<TopicEntry>, attempts: seq<Attempt>)
    ensures Committed(queue, attempts) + Remaining(queue, attempts) == queue
    decreases |attempts|
  {
    if attempts != [] {
      var o := Run(Some(queue), attempts[0].reply, attempts[0].publish);
      var next := QueueAfter(queue, o);
      var committed := Committed(next, attempts[1..]);
      CommittedThenRemainingIsQueue(next, attempts[1..]);
      assert Remaining(queue, attempts) == Remaining(next, attempts[1..]);
      if o.Posted? {
        assert Committed(queue, attempts) == [queue[0]] + committed;
        assert [queue[0]] + next == queue;
        assert ([queue[0]] + committed) + Remaining(next, attempts[1..]) == [queue[0]] + next;
      } else {
        assert Committed(queue, attempts) == [] + committed;
        assert next == queue;
      }
    }
  }

  /** A head entry without a "topic" key blocks the queue: every later run fails
      before publishing, so nothing is ever committed and the queue never changes. */
  lemma {:induction false} MissingTopicKeyBlocksQueue(queue: seq<TopicEntry>, attempts: seq<Attempt>)
    requires queue != [] && "topic" !in queue[0].fields
    ensures Committed(queue, attempts) == [] && Remaining(queue, attempts) == queue
    decreases |attempts|
  {
    if attempts != [] {
      MissingTopicKeyBlocksQueue(queue, attempts[1..]);
    }
  }
}
