/** The decision core of news_tweet_bot.py: read the "last seen" history, pick the
    newest feed entry, and when its link is new, scrape the article, compose a post,
    publish it, and record the link only once the publish has succeeded. The feed,
    the downloaded page, the language model's reply, the publish outcome and the
    current time are inputs. */
module NewsBot {
  import opened Externals
  import opened Text

  /** The contents of tweet_history.json. */
  datatype History = History(lastArticleLink: string, lastCheck: string)

  /** A feed entry, as `check_latest_article` copies it out of the parsed feed. */
  datatype Article = Article(title: string, link: string, published: string)

  /** What the article page yielded once fetched and parsed: the text of every
      `div.post-content p` node in document order, and the text of the
      `h1.post__title` node when the page has one. */
  datatype Page = Page(paragraphs: seq<string>, heading: Option<string>)

  /** Fetching and parsing the article page either works or raises. */
  datatype Download = Downloaded(page: Page) | DownloadFailed

  /** The record `scrape_article_content` returns. */
  datatype ArticleData = ArticleData(title: string, fullContent: string, summary: string)

  /** How many paragraphs go into the summary. */
  const SummaryParagraphs: nat := 5

  /** `load_history`: the stored history, or the empty one when the file is absent. */
  function LoadHistory(stored: Option<History>): (h: History)
    ensures stored.None? ==> h.lastArticleLink == "" && h.lastCheck == ""
    ensures stored.Some? ==> h == stored.value
  {
    match stored
    case None => History("", "")
    case Some(saved) => saved
  }

  /** `check_latest_article`: nothing for an empty feed, otherwise the first entry. */
  function CheckLatestArticle(feed: seq<Article>): (latest: Option<Article>)
    ensures latest.None? <==> feed == []
    ensures latest.Some? ==> latest.value == feed[0]
  {
    if feed == [] then None else Some(feed[0])
  }

  /** Every paragraph text after `.strip()`, in order. */
  ghost function StrippedParagraphs(ps: seq<string>): seq<string>
  {
    seq(|ps|, k requires 0 <= k < |ps| => Strip(ps[k], Whitespace))
  }

  function Min(a: nat, b: nat): nat
  {
    if a <= b then a else b
  }

  /** What `scrape_article_content` returns for a download: the all-empty record
      when anything failed; otherwise the stripped heading (or "" without one),
      all stripped paragraphs joined by newlines, and the first five of them
      joined the same way. The summary is always a prefix of the full content. */
  ghost function ScrapedRecord(d: Download): (a: ArticleData)
    ensures d.DownloadFailed? ==> a.title == "" && a.fullContent == "" && a.summary == ""
    ensures a.summary <= a.fullContent
  {
    match d
    case DownloadFailed => ArticleData("", "", "")
    case Downloaded(page) =>
      var content := StrippedParagraphs(page.paragraphs);
      var n := Min(SummaryParagraphs, |content|);
      JoinPrefix(content, "\n", n);
      ArticleData(HeadingText(page), Join(content, "\n"), Join(content[..n], "\n"))
  }

  /** The title `scrape_article_content` reports: the heading's text with its
      surrounding whitespace stripped, or "" when the page has no heading. */
  function HeadingText(page: Page): (title: string)
    ensures page.heading.None? ==> title == ""
    ensures page.heading.Some? ==> IsStripOf(title, page.heading.value, Whitespace)
  {
    match page.heading
    case None => ""
    case Some(text) =>
      StripMeetsSpec(text, Whitespace);
      Strip(text, Whitespace)
  }

  /** When the page has at most five paragraphs the summary is the whole content. */
  lemma ShortArticleSummaryIsFullContent(page: Page)
    requires |page.paragraphs| <= SummaryParagraphs
    ensures ScrapedRecord(Downloaded(page)).summary == ScrapedRecord(Downloaded(page)).fullContent
  {
    var content := StrippedParagraphs(page.paragraphs);
    assert content[..|content|] == content;
  }

  /** `scrape_article_content`: on a download, strips every paragraph in a loop,
      keeping their order, and joins them into the full content and the summary. */
  method ScrapeArticleContent(d: Download) returns (a: ArticleData)
    ensures a == ScrapedRecord(d)
    ensures a.summary <= a.fullContent
  {
    match d
    case DownloadFailed =>
      a := ArticleData("", "", "");
    case Downloaded(page) =>
      var content: seq<string> := [];
      for i := 0 to |page.paragraphs|
        invariant |content| == i
        invariant forall k :: 0 <= k < i ==> content[k] == Strip(page.paragraphs[k], Whitespace)
      {
        content := content + [Strip(page.paragraphs[i], Whitespace)];
      }
      assert content == StrippedParagraphs(page.paragraphs);
      var fullContent := Join(content, "\n");
      var summary := Join(content[..Min(SummaryParagraphs, |content|)], "\n");
      a := ArticleData(HeadingText(page), fullContent, summary);
  }

  /** `generate_tweet_from_article`: the cleaned model reply, or the fixed fallback
      built from the scraped title and the article link when the model call failed. */
  function GenerateTweet(data: ArticleData, link: string, reply: Completion): (tweet: string)
    ensures reply.CompletionFailed? ==>
      tweet == "Latest blockchain news: " + data.title + " " + link + " #Blockchain #Crypto"
    ensures reply.Completed? ==> IsStripOf(tweet, Strip(reply.text, Whitespace), QuoteMarks)
  {
    match reply
    case Completed(text) => CleanReply(text)
    case CompletionFailed =>
      "Latest blockchain news: " + data.title + " " + link + " #Blockchain #Crypto"
  }

  /** What one `single_check` did. */
  datatype CheckOutcome =
    | NoArticles                          // the feed had no entries
    | NotNew                              // the newest link is the recorded one
    | Tweeted(tweet: string, saved: History) // published; this history was saved
    | Rejected(tweet: string)             // the platform refused the post
    | Raised(tweet: string)               // the publish path raised something else

  /** The post `single_check` composes for a new article. */
  ghost function TweetFor(latest: Article, d: Download, reply: Completion): string
  {
    GenerateTweet(ScrapedRecord(d), latest.link, reply)
  }

  /** The specification of one `single_check`, given the history it loads. */
  ghost function Check(h: History, feed: seq<Article>, d: Download, reply: Completion,
                       publish: PublishOutcome, now: string): (o: CheckOutcome)
    ensures o.NoArticles? <==> feed == []
    ensures o.NotNew? <==> feed != [] && feed[0].link == h.lastArticleLink
    ensures o.Tweeted? <==> feed != [] && feed[0].link != h.lastArticleLink && publish.Published?
    ensures o.Rejected? <==> feed != [] && feed[0].link != h.lastArticleLink && publish.PlatformError?
    ensures o.Raised? <==>
      feed != [] && feed[0].link != h.lastArticleLink && (publish.FailedBeforePost? || publish.FailedAfterPost?)
    ensures o.Tweeted? ==> o.saved == History(feed[0].link, now)
    ensures o.Tweeted? || o.Rejected? || o.Raised? ==> o.tweet == TweetFor(feed[0], d, reply)
  {
    match CheckLatestArticle(feed)
    case None => NoArticles
    case Some(latest) =>
      if latest.link == h.lastArticleLink then NotNew
      else
        var tweet := TweetFor(latest, d, reply);
        match publish
        case Published(_) => Tweeted(tweet, h.(lastArticleLink := latest.link, lastCheck := now))
        case PlatformError => Rejected(tweet)
        case FailedBeforePost | FailedAfterPost => Raised(tweet)
  }

  /** Once an article has been published, another check of a feed whose newest
      entry is still that article does nothing, whatever else happens. */
  lemma NoRepostAfterSuccess(h: History, feed: seq<Article>, d: Download, reply: Completion,
                             publish: PublishOutcome, now: string, d': Download,
                             reply': Completion, publish': PublishOutcome, now': string)
    requires Check(h, feed, d, reply, publish, now).Tweeted?
    ensures Check(Check(h, feed, d, reply, publish, now).saved, feed, d', reply', publish', now').NotNew?
  {
  }

  /** A check whose publish failed leaves the history as it was, so the next check
      of the same feed tries the same article again. */
  lemma RetryAfterFailedPublish(h: History, feed: seq<Article>, d: Download, reply: Completion,
                                publish: PublishOutcome, now: string, d': Download,
                                reply': Completion, publish': PublishOutcome, now': string)
    requires feed != [] && feed[0].link != h.lastArticleLink && !publish.Published?
    ensures var o := Check(h, feed, d, reply, publish, now); o.Rejected? || o.Raised?
    ensures After(h, Poll(feed, d, reply, publish, now)) == h
    ensures var again := Check(After(h, Poll(feed, d, reply, publish, now)), feed, d', reply', publish', now');
      again.Tweeted? || again.Rejected? || again.Raised?
  {
  }

  /** When the page cannot be fetched and the model call fails, the post carries an
      empty title: the fallback uses the scraped title, not the feed's. */
  lemma FallbackAfterFailedDownload(latest: Article)
    ensures TweetFor(latest, DownloadFailed, CompletionFailed) ==
      "Latest blockchain news:  " + latest.link + " #Blockchain #Crypto"
  {
  }

  /** tweet_history.json: absent until the first save. `saves` logs every write. */
  class HistoryFile {
    var stored: Option<History>
    ghost var saves: seq<History>

    constructor (initial: Option<History>)
      ensures stored == initial && saves == []
    {
      stored := initial;
      saves := [];
    }

    /** `save_history`: overwrite the file with h. */
    method Save(h: History)
      modifies this
      ensures stored == Some(h) && saves == old(saves) + [h]
    {
      stored := Some(h);
      saves := saves + [h];
    }
  }

  /** `single_check`. The history is written only after a successful publish, and
      then holds the published link and the given time; on every other path the
      file is neither changed nor written. */
  method SingleCheck(file: HistoryFile, feed: seq<Article>, d: Download, reply: Completion,
                     publish: PublishOutcome, now: string) returns (outcome: CheckOutcome)
    modifies file
    ensures outcome == Check(old(LoadHistory(file.stored)), feed, d, reply, publish, now)
    ensures outcome.Tweeted? ==>
      file.stored == Some(outcome.saved) && file.saves == old(file.saves) + [outcome.saved]
    ensures !outcome.Tweeted? ==> file.stored == old(file.stored) && file.saves == old(file.saves)
  {
    var history := LoadHistory(file.stored);
    var latest := CheckLatestArticle(feed);
    if latest.None? {
      return NoArticles;
    }
    var article := latest.value;
    if article.link != history.lastArticleLink {
      var data := ScrapeArticleContent(d);
      var tweet := GenerateTweet(data, article.link, reply);
      match publish
      case Published(_) =>
        history := history.(lastArticleLink := article.link);
        history := history.(lastCheck := now);
        file.Save(history);
        outcome := Tweeted(tweet, history);
      case PlatformError =>
        outcome := Rejected(tweet);
      case FailedBeforePost | FailedAfterPost =>
        outcome := Raised(tweet);
    } else {
      outcome := NotNew;
    }
  }

  /** Everything the outside world answers during one `single_check`. */
  datatype Poll = Poll(feed: seq<Article>, d: Download, reply: Completion,
                       publish: PublishOutcome, now: string)

  /** The history after a `single_check`: the saved one after a publish, else unchanged. */
  ghost function After(h: History, p: Poll): History
  {
    match Check(h, p.feed, p.d, p.reply, p.publish, p.now)
    case Tweeted(_, saved) => saved
    case _ => h
  }

  /** The links whose publish was confirmed (the call returned the new post's id),
      in order, by running `single_check` once per poll. */
  ghost function ConfirmedLinks(h: History, polls: seq<Poll>): seq<string>
    decreases |polls|
  {
    if polls == [] then []
    else
      var o := Check(h, polls[0].feed, polls[0].d, polls[0].reply, polls[0].publish, polls[0].now);
      (if o.Tweeted? then [polls[0].feed[0].link] else []) + ConfirmedLinks(After(h, polls[0]), polls[1..])
  }

  /** The links whose post went live on the platform, in order, by running
      `single_check` once per poll: the confirmed ones and those whose id could
      not be read after the post was made. */
  ghost function LiveLinks(h: History, polls: seq<Poll>): seq<string>
    decreases |polls|
  {
    if polls == [] then []
    else
      var o := Check(h, polls[0].feed, polls[0].d, polls[0].reply, polls[0].publish, polls[0].now);
      (if (o.Tweeted? || o.Raised?) && polls[0].publish.PostIsLive() then [polls[0].feed[0].link] else []) +
      LiveLinks(After(h, polls[0]), polls[1..])
  }

  /** The history after running `single_check` once per poll. */
  ghost function FinalHistory(h: History, polls: seq<Poll>): History
    decreases |polls|
  {
    if polls == [] then h else FinalHistory(After(h, polls[0]), polls[1..])
  }

  /** After any number of checks, the recorded link is the last one confirmed, or
      the initial one when nothing was confirmed. */
  lemma {:induction false} RecordedLinkIsLastConfirmed(h: History, polls: seq<Poll>)
    ensures var links := ConfirmedLinks(h, polls);
      FinalHistory(h, polls).lastArticleLink ==
        if links == [] then h.lastArticleLink else links[|links| - 1]
    decreases |polls|
  {
    if polls != [] {
      RecordedLinkIsLastConfirmed(After(h, polls[0]), polls[1..]);
    }
  }

  /** Successive checks never confirm the same link twice in a row, and the first
      link confirmed differs from the one recorded at the start. */
  lemma {:induction false} NoLinkConfirmedTwiceInARow(h: History, polls: seq<Poll>)
    ensures var links := ConfirmedLinks(h, polls);
      (links != [] ==> links[0] != h.lastArticleLink) &&
      forall k :: 0 < k < |links| ==> links[k] != links[k - 1]
    decreases |polls|
  {
    if polls != [] {
      var h' := After(h, polls[0]);
      NoLinkConfirmedTwiceInARow(h', polls[1..]);
      var p := polls[0];
      var o := Check(h, p.feed, p.d, p.reply, p.publish, p.now);
      var rest := ConfirmedLinks(h', polls[1..]);
      if o.Tweeted? {
        assert ConfirmedLinks(h, polls) == [p.feed[0].link] + rest;
      } else {
        assert ConfirmedLinks(h, polls) == rest;
      }
    }
  }

  /** A post that went live but whose id could not be read is not recorded: the
      next check of the same feed posts the same article again. */
  lemma UnconfirmedPostIsRepeated(h: History, latest: Article, d: Download, reply: Completion,
                                  now: string, d': Download, reply': Completion, id: string,
                                  now': string)
    requires latest.link != h.lastArticleLink
    ensures LiveLinks(h, [Poll([latest], d, reply, FailedAfterPost, now),
                          Poll([latest], d', reply', Published(id), now')]) == [latest.link, latest.link]
  {
    var polls := [Poll([latest], d, reply, FailedAfterPost, now), Poll([latest], d', reply', Published(id), now')];
    assert Check(h, [latest], d, reply, FailedAfterPost, now).Raised?;
    assert After(h, polls[0]) == h;
    assert LiveLinks(h, polls) == [latest.link] + LiveLinks(h, polls[1..]);
    assert polls[1..][1..] == [];
    assert LiveLinks(h, polls[1..]) == [latest.link] + LiveLinks(After(h, polls[1]), []);
  }
}
