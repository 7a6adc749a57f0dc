# Tweet poster: verified model of the two posting bots

The repository holds two small bots that post to a social platform.

- **news_tweet_bot.py** polls an RSS feed. It keeps a one-record history (`last_article_link`, `last_check`) in `tweet_history.json`. When the newest entry's link differs from the recorded one, it scrapes the article page, asks a hosted language model for a post, publishes it, and records the link only after the publish succeeded.
- **tweet_bot.py** keeps a FIFO queue of topics in `topics.json`. Each run pops the head, composes a post about it, and publishes it. On success it saves the shortened queue. On a platform error it puts the head back at index 0 and saves, so the queue is unchanged.

The model keeps the decisions and the string handling and replaces every outside call with an input:

- the feed's entries (`seq<Article>`);
- the fetched page (`Download`: its paragraph texts and optional heading, or a failure);
- the language model's reply (`Completion`: the text, or a failure);
- the publish outcome (`PublishOutcome`): published with an id; a TweepyException; another exception before anything was posted; or an exception after the post went live, while its id was read or printed;
- the current time (a string).

The two JSON files are classes (`HistoryFile`, `TopicFile`). Each holds the stored value (`None` while the file is absent) and ghost bookkeeping of its writes (the list of saved histories, the number of queue saves), so "saved" and "not saved" can be told apart.

Modules:

- `Externals` (externals.dfy): the answers of the outside services.
- `Text` (text.dfy): the Python string operations the bots use: `str.strip()`, `str.strip("\"'")`, `"\n".join`, `str.split()` and `textwrap.shorten`. Whitespace is exactly the set of code points for which `str.isspace()` holds.
- `NewsBot` (news_bot.dfy): `load_history`, `check_latest_article`, `scrape_article_content`, `generate_tweet_from_article` and `single_check`.
- `TopicBot` (topic_bot.dfy): `compose` and `main`.

Two consequences of the code are worth knowing:

- `compose`'s fallback post bypasses `textwrap.shorten` (tweet_bot.py:56-59), so a topic longer than 249 characters gives a post over 280 characters (`TopicBot.FallbackIsNotBounded`).
- The article fallback uses the scraped title `article_data['title']` (news_tweet_bot.py:131), which is empty when the download failed (`NewsBot.FallbackAfterFailedDownload`).

Three more are proved:

- A queue head without a `"topic"` key raises `KeyError` before anything is saved, so it blocks the queue for good (`TopicBot.MissingTopicKeyBlocksQueue`).
- The history pointer never lets the same link be confirmed twice in a row, where confirmed means the publish call returned the new post's id (`NewsBot.NoLinkConfirmedTwiceInARow`).
- A post that went live but whose id could not be read (`res.data["id"]` or the print at news_tweet_bot.py:138 raised) is not recorded, so the next check posts the same article again (`NewsBot.UnconfirmedPostIsRepeated`). In tweet_bot.py the same exception leaves the topic in the queue, and the next run posts it again (`TopicBot.UnconfirmedTopicIsRepeated`).

## Model

| member | source | states |
|---|---|---|
| Text.Strip | news_tweet_bot.py:74 | `s.strip(chars)`. It has no contract of its own: `Text.StripMeetsSpec` and `Text.StripIsUnique` characterise its result completely |
| Text.StripMeetsSpec | news_tweet_bot.py:74 | `s.strip(chars)` is a slice `s[i..j]`. Every character before `i` and from `j` on is one of the stripped characters, and the result neither starts nor ends with one |
| Text.StripIsUnique | tweet_bot.py:52-54 | any string fitting that description is exactly what `Strip` computes, so the description pins the result down |
| Text.CleanReply | news_tweet_bot.py:124-126 | the cleaned model reply is a contiguous piece of the whitespace-stripped reply. Only quote marks were cut from either side, and it neither starts nor ends with `"` or `'` |
| Text.Join | news_tweet_bot.py:77-80 | `sep.join(xs)`. It has no contract of its own: `Text.JoinPrefix` and `Text.SplitJoinedWords` state its properties |
| Text.JoinPrefix | news_tweet_bot.py:77-80 | joining the first k parts with a separator gives a prefix of joining all of them |
| Text.Words | tweet_bot.py:55 | every element `str.split()` yields is non-empty and holds no whitespace |
| Text.SplitJoinedWords | tweet_bot.py:55 | splitting words joined by single spaces gives back exactly those words |
| Text.Collapse | tweet_bot.py:55 | `" ".join(text.strip().split())`, the first step of `textwrap.shorten`. It has no contract of its own: `Text.CollapseIsSqueeze` ties it to a character-by-character reference |
| Text.CollapseIsSqueeze | tweet_bot.py:55 | collapsing any text equals the scan `Squeeze`: every non-whitespace character is kept in order, each whitespace run between two words becomes exactly one space, and whitespace at either end disappears |
| Text.SqueezeIsJoinedWords | tweet_bot.py:55 | for any text, that scan yields exactly the words of `str.split()` joined by single spaces, so `Words` splits at every whitespace run and nowhere else |
| Text.FitCount | tweet_bot.py:55 | the number of leading words kept is within the limit, and those words joined by spaces fit the budget |
| Text.FitCountIsLargest | tweet_bot.py:55 | no longer prefix of the words fits the budget, so the count kept is the largest that fits |
| Text.Shorten | tweet_bot.py:55 | the shortened text is at most `width` long |
| Text.FitCountStopsShort | tweet_bot.py:55 | when the joined words exceed the width, fewer than all words are kept, one more word would leave no room for `…`, and the kept words' join is a prefix of the whole join |
| Text.ShortenKeepsText | tweet_bot.py:55 | the shortened text is the whitespace-collapsed text when that fits in `width`. Otherwise it is the first k words joined by spaces followed by `…`, for the largest k that leaves room for `…` (one more word would not fit), and what precedes the `…` is a prefix of the collapsed text |
| NewsBot.LoadHistory | news_tweet_bot.py:28-33 | with no history file the history is `{last_article_link: "", last_check: ""}`; otherwise it is the stored one |
| NewsBot.CheckLatestArticle | news_tweet_bot.py:42-59 | nothing exactly when the feed is empty, otherwise the first entry's title, link and published date |
| NewsBot.HeadingText | news_tweet_bot.py:83-87 | the title is `""` when the page has no `h1.post__title`, otherwise the heading's text stripped of surrounding whitespace |
| NewsBot.ScrapedRecord | news_tweet_bot.py:62-93 | a failed download yields empty title, content and summary. In every case the summary is a prefix of the full content |
| NewsBot.ShortArticleSummaryIsFullContent | news_tweet_bot.py:77-80 | with at most five paragraphs the summary equals the full content |
| NewsBot.ScrapeArticleContent | news_tweet_bot.py:62-93 | the loop that strips each paragraph yields the record above: all stripped paragraphs newline-joined, and the first `min(5, n)` joined the same way |
| NewsBot.GenerateTweet | news_tweet_bot.py:96-131 | on a model failure the post is exactly `"Latest blockchain news: " + title + " " + link + " #Blockchain #Crypto"`. Otherwise it is the reply stripped of whitespace and then of surrounding quote marks |
| NewsBot.Check | news_tweet_bot.py:134-178 | no article exactly when the feed is empty. Nothing is done exactly when the newest link equals `last_article_link`. A post is recorded exactly when the link is new and the publish returned an id, and then the new history is `{link, now}`. It ends rejected exactly on a TweepyException, which `post_tweet` catches, and raised exactly on any other exception, which leaves `single_check`. Every attempted post is the one composed from the newest entry |
| NewsBot.NoRepostAfterSuccess | news_tweet_bot.py:159-176 | after a successful post, checking a feed whose newest entry is still that article does nothing |
| NewsBot.RetryAfterFailedPublish | news_tweet_bot.py:134-176 | for a new link whose publish did not return an id, the check ends rejected or raised, the history is left unchanged, and the next check of the same feed tries the same article again |
| NewsBot.FallbackAfterFailedDownload | news_tweet_bot.py:163-167 | with both the download and the model call failed, the post is the fallback with an empty title |
| NewsBot.HistoryFile.Save | news_tweet_bot.py:36-39 | saving overwrites the stored history and logs one write |
| NewsBot.SingleCheck | news_tweet_bot.py:145-178 | the run's outcome is `Check` of the loaded history. After a successful post the file holds the new history, written exactly once. On every other path the file is neither changed nor written |
| NewsBot.RecordedLinkIsLastConfirmed | news_tweet_bot.py:172-176 | after any sequence of checks the recorded link is the last confirmed link (its publish returned an id), or the initial one if nothing was confirmed |
| NewsBot.NoLinkConfirmedTwiceInARow | news_tweet_bot.py:159-176 | over any sequence of checks, no link is confirmed twice in a row, and the first one confirmed differs from the recorded one |
| NewsBot.UnconfirmedPostIsRepeated | news_tweet_bot.py:134-142 | a post that went live but whose id could not be read leaves the history unchanged, so a second check of the same feed posts the same link again: that link goes live twice in a row |
| TopicBot.Compose | tweet_bot.py:33-59 | `compose`. It has no contract of its own: `TopicBot.ComposeKeepsReply` states what it returns |
| TopicBot.ComposeKeepsReply | tweet_bot.py:33-59 | the model path gives at most 280 characters: the collapsed, quote-stripped reply, or as many of its leading words as leave room for `…`, followed by `…`. The fallback is exactly `"Latest on " + topic + ". #Blockchain #Crypto"`, not shortened |
| TopicBot.FallbackIsNotBounded | tweet_bot.py:56-59 | a long enough topic makes the fallback post longer than 280 characters |
| TopicBot.Run | tweet_bot.py:63-80 | classifies a run: missing file, empty queue, head without `"topic"`, or an attempted post. An attempted post composes `topics[0]`'s topic. It is committed exactly on a successful publish and rolled back exactly on a platform error |
| TopicBot.QueueAfter | tweet_bot.py:69-80 | a committed run leaves the queue minus its head (the head followed by the new queue is the old one). Any other run leaves the queue as it was |
| TopicBot.TopicFile.Save | tweet_bot.py:27-29 | saving overwrites the stored queue and counts one write |
| TopicBot.CommitOrRollBack | tweet_bot.py:72-80 | after a successful publish the popped list is saved. After a platform error the head goes back in front and that list is saved. After any other exception, raised before or after the post went live, the file is neither changed nor written |
| TopicBot.PostNextTopic | tweet_bot.py:63-80 | on success the saved queue is the old queue without its first element. On a platform error the head is reinserted and the saved queue equals the original. In every other case nothing is written |
| TopicBot.UnconfirmedTopicIsRepeated | tweet_bot.py:69-80 | a post that went live but whose id could not be read ends the run raised with the queue unchanged, and the next run composes and publishes the same topic again |
| TopicBot.CommittedThenRemainingIsQueue | tweet_bot.py:69-80 | over any sequence of runs, the entries whose removal was committed, followed by the remaining queue, make up the original queue: FIFO order, nothing lost or reordered |
| TopicBot.MissingTopicKeyBlocksQueue | tweet_bot.py:69-70 | a head entry without a `"topic"` key means no later run ever commits anything, and the queue never changes |

## Left out

- Network and foreign calls become inputs and are not modelled: the RSS download and parsing (feedparser), the page download and the CSS selectors (requests, BeautifulSoup), the language-model call and its prompt wording, and the publish call.
- The JSON reading and writing of both files, their encodings, and JSON values that are not strings. A history file without the expected keys, or a topics file that is not a list, is not modelled.
- A feed entry without `title`, `link` or `published`. feedparser then raises, and the exception leaves `single_check`.
- `datetime.now()` becomes the `now` parameter. Its ISO-8601 formatting is not modelled.
- The endless `main_loop` with its five-minute sleep and catch-all handler, the argparse command line, the log output and setup.py.
- Exceptions other than `TweepyException` on the publish path are told apart only by whether the post went live (`FailedBeforePost`, `FailedAfterPost`), not by their type. Either one ends the run with nothing saved; the next run is modelled (`NewsBot.RetryAfterFailedPublish`, `NewsBot.UnconfirmedPostIsRepeated`), but the catch-all handler of `main_loop` that reports it is not.
- A live post whose id could not be read goes unrecorded and is posted again by the next run. The model proves this (`NewsBot.UnconfirmedPostIsRepeated`) and promises no-repeat only for confirmed posts (`NewsBot.NoLinkConfirmedTwiceInARow`).
- Text.ShortenKeepsText: cuts only at spaces. `textwrap` can also break a word after a hyphen, so near the limit the model may keep fewer characters than Python would. The width bound and the whitespace collapsing are as in Python.
- TopicBot.ComposeKeepsReply: its word-boundary cut inherits the same limitation. It cuts only at spaces, while `textwrap` can also break after a hyphen.
- Concurrency between two running instances is not modelled, and neither is a crash in the middle of a file write.
