# Twitter trending firehose, modelled in Dafny

The firehose script subscribes to Twitter's sample stream. For each status it
pulls out the hashtags of the status text and pushes one counter event per
hashtag to a Riemann collector. This project models the two parts of that
script that carry logic:

- **Hashtag extraction** (`hashtags.dfy`, module `Hashtags`). The script uses
  `status.text.scan(/\s#([[:alnum:]]+)/).map{|x| x.first.downcase}`.
  `Scan` follows the regular-expression engine's left-to-right,
  non-overlapping search on a text. A match is one whitespace character, then
  `#`, then the longest run of alphanumeric characters. `Extract` is the scan
  from the start of the text, with each captured run downcased.
  `TagStarts` is an independent reference: every position where a match can
  begin, in ascending order, found without skipping. `ExtractCharacterisation`
  proves that the scan yields exactly the tags at those positions. Character
  classes are ASCII: `\s` is `[ \t\r\n\f\v]`, `[[:alnum:]]` is
  `[A-Za-z0-9]`, and `downcase` maps `A`–`Z` to `a`–`z`.
- **Event emission** (`firehose.dfy`, module `Firehose`). Each tag becomes the
  record `{service: tag, metric: 1.0, tags: ["twitter"], ttl: 3600}`. The
  Riemann client is a `Collector` object. Its `outbox` field records, in
  order, every event pushed with `riemann <<`. `EmitTags` is the per-tag
  `each` loop. `HandleStatus` is the block run for one status. `Sample` runs
  that block for every status of a finite stretch of the stream. Each method
  is proved against the pure functions `Events`, `StatusEvents` and
  `StreamEvents`.
- **Worked examples** (`examples_hashtags.dfy`, module `HashtagExamples`):
  concrete status texts, the tags they yield and the events they give rise to.

A whitespace character before `#` is mandatory: a `#` at the very start of
the text, or after a character that is not whitespace, yields nothing. The
event's `tags` attribute is the list `["twitter"]`.

## Model

| member | source | states |
|---|---|---|
| `Hashtags.IsSpace` | static/files/2014-01-14-twitter-trending-firehose.rb:16 | the `\s` class: space, tab, carriage return, line feed, form feed and vertical tab (no contract of its own; a predicate) |
| `Hashtags.IsAlnum` | static/files/2014-01-14-twitter-trending-firehose.rb:16 | the `[[:alnum:]]` class, restricted to ASCII letters and digits (no contract of its own; a predicate) |
| `Hashtags.Downcase` | static/files/2014-01-14-twitter-trending-firehose.rb:16 | the result is never an upper-case letter; it is alphanumeric exactly when the input is; non-upper-case characters are unchanged; an upper-case letter becomes the lower-case letter at the same place of the alphabet, as the tables `UpperLetters` and `LowerLetters` give it |
| `Hashtags.DowncaseString` | static/files/2014-01-14-twitter-trending-firehose.rb:16 | `downcase` keeps the length, and each character is the downcasing of the character in the same place |
| `Hashtags.RunLength` | static/files/2014-01-14-twitter-trending-firehose.rb:16 | the greedy `[[:alnum:]]+` run stays inside the text, is alphanumeric throughout, and is maximal: it ends at the end of the text or before a non-alphanumeric character |
| `Hashtags.IsUpper` | static/files/2014-01-14-twitter-trending-firehose.rb:16 | the characters ASCII `downcase` changes: `A` to `Z` (a predicate) |
| `Hashtags.IsTagStart` | static/files/2014-01-14-twitter-trending-firehose.rb:16 | the pattern can match at `i`: whitespace at `i`, `#` at `i + 1`, an alphanumeric character at `i + 2`; the greedy `+` then always succeeds (a predicate) |
| `Hashtags.TagEnd` | static/files/2014-01-14-twitter-trending-firehose.rb:16 | the position just past the greedy run, where the scan resumes after a match (no contract of its own; pinned by `RunLength`) |
| `Hashtags.TagAt` | static/files/2014-01-14-twitter-trending-firehose.rb:16 | the downcased capture group of the match at a position (no contract of its own; characterised by `TagOrigin` and `TagsAreLowercaseAlnum`) |
| `Hashtags.Scan` | static/files/2014-01-14-twitter-trending-firehose.rb:16 | the regular-expression engine's left-to-right, non-overlapping search from a position (no contract of its own; characterised by `ScanMatchesTagStarts`) |
| `Hashtags.Extract` | static/files/2014-01-14-twitter-trending-firehose.rb:16 | the whole expression `status.text.scan(...).map{...}` (no contract of its own; characterised by `ExtractCharacterisation`) |
| `Hashtags.TagStarts` | static/files/2014-01-14-twitter-trending-firehose.rb:16 | the reference list of every position where a match can begin (no contract of its own; characterised by `TagStartsMembers` and `TagStartsAscending`) |
| `Hashtags.TagStartsMembers` | static/files/2014-01-14-twitter-trending-firehose.rb:16 | a position is in the reference list exactly when a match can begin there: whitespace, then `#`, then an alphanumeric character |
| `Hashtags.TagStartsAscending` | static/files/2014-01-14-twitter-trending-firehose.rb:16 | the reference positions are strictly ascending and none is before the starting position |
| `Hashtags.NoStartInsideMatch` | static/files/2014-01-14-twitter-trending-firehose.rb:16 | no match can begin inside another match, because a match holds only `#` and alphanumeric characters after its whitespace |
| `Hashtags.ScanMatchesTagStarts` | static/files/2014-01-14-twitter-trending-firehose.rb:16 | the scan from any position yields one tag per reference position at or after it, in the same order, and each tag is the downcased run at that position |
| `Hashtags.ExtractCharacterisation` | static/files/2014-01-14-twitter-trending-firehose.rb:16 | the tags correspond one to one, in ascending order and with duplicates kept, to the positions `i` with whitespace at `i`, `#` at `i + 1` and an alphanumeric character at `i + 2` |
| `Hashtags.TagOrigin` | static/files/2014-01-14-twitter-trending-firehose.rb:16 | each tag is the downcasing of a maximal, non-empty, alphanumeric substring directly after a whitespace-then-`#` pair |
| `Hashtags.TagsAreLowercaseAlnum` | static/files/2014-01-14-twitter-trending-firehose.rb:16 | every tag is non-empty and made of lower-case alphanumeric characters only |
| `Hashtags.NoTagStartsFrom` | static/files/2014-01-14-twitter-trending-firehose.rb:16 | where no match can begin, the reference list is empty |
| `Hashtags.NoSpaceBeforeHashNoTags` | static/files/2014-01-14-twitter-trending-firehose.rb:16 | a text in which no `#` directly follows a whitespace character has no tags |
| `Hashtags.ScanCountBound` | static/files/2014-01-14-twitter-trending-firehose.rb:16 | the scan from a position yields at most as many tags as there are `#` characters from that position on |
| `Hashtags.TagCountBound` | static/files/2014-01-14-twitter-trending-firehose.rb:16 | a text has at most as many tags as `#` characters, and a text without `#` has none |
| `Hashtags.RunLengthShift` | static/files/2014-01-14-twitter-trending-firehose.rb:16 | the alphanumeric run at a position of `b` is the same when `b` follows any `a` |
| `Hashtags.RunLengthPrefix` | static/files/2014-01-14-twitter-trending-firehose.rb:16 | a run inside `a` ends at the end of `a` when `b` starts with a non-alphanumeric character |
| `Hashtags.TagShift` | static/files/2014-01-14-twitter-trending-firehose.rb:16 | a match at a position of `b` is the same match, ending at the same place and giving the same tag, when `b` follows any `a` |
| `Hashtags.ScanShift` | static/files/2014-01-14-twitter-trending-firehose.rb:16 | the scan from a position of `b` does not depend on the text before `b` |
| `Hashtags.TagPrefix` | static/files/2014-01-14-twitter-trending-firehose.rb:16 | when `b` starts with whitespace, the matches that begin in `a` are the same in `a + b`, with the same ends and tags |
| `Hashtags.ScanSplit` | static/files/2014-01-14-twitter-trending-firehose.rb:16 | when `b` starts with whitespace, the scan of `a + b` from a position of `a` is the scan of `a` followed by the scan of `b` |
| `Hashtags.ExtractSplit` | static/files/2014-01-14-twitter-trending-firehose.rb:16 | cutting a text just before a whitespace character cuts its tag list at the same place; no match straddles the cut |
| `HashtagExamples.SampleFrom23` | static/files/2014-01-14-twitter-trending-firehose.rb:16 | in `"love #Rust and #go lang #Go"` the scan from position 23 yields `["go"]` |
| `HashtagExamples.SampleFrom14` | static/files/2014-01-14-twitter-trending-firehose.rb:16 | in the same text the scan from position 14 yields `["go", "go"]` |
| `HashtagExamples.SampleFrom4` | static/files/2014-01-14-twitter-trending-firehose.rb:16 | in the same text the scan from position 4 yields `["rust", "go", "go"]` |
| `HashtagExamples.SampleTags` | static/files/2014-01-14-twitter-trending-firehose.rb:16 | `"love #Rust and #go lang #Go"` yields `["rust", "go", "go"]`: downcased, in order, duplicate kept |
| `HashtagExamples.NeedsSpaceExamples` | static/files/2014-01-14-twitter-trending-firehose.rb:16 | `"abc#tag"` and `"#tag"` yield no tags |
| `HashtagExamples.NoTagExample` | static/files/2014-01-14-twitter-trending-firehose.rb:16 | `"no tags here"` yields no tags |
| `HashtagExamples.GreedyRunExample` | static/files/2014-01-14-twitter-trending-firehose.rb:16 | `" #foo_bar"` yields `["foo"]`: the run stops at `_` |
| `HashtagExamples.SampleStatusEvents` | static/files/2014-01-14-twitter-trending-firehose.rb:16-26 | the status `"love #Rust and #go lang #Go"` gives three records, for `rust`, `go` and `go` |
| `Firehose.TagEvent` | static/files/2014-01-14-twitter-trending-firehose.rb:20-25 | the hash literal built for one tag (no contract of its own; its fields are stated by `EventsAt`) |
| `Firehose.Events` | static/files/2014-01-14-twitter-trending-firehose.rb:18-26 | there is exactly one record per tag |
| `Firehose.EventsAt` | static/files/2014-01-14-twitter-trending-firehose.rb:20-25 | record `k` is the record of tag `k`: service tag `k`, metric 1.0, tags `["twitter"]`, ttl 3600 |
| `Firehose.StatusEvents` | static/files/2014-01-14-twitter-trending-firehose.rb:16-26 | the records one status gives rise to: those of its extracted tags (no contract of its own; characterised by `HandleStatus` and `HashtagExamples.SampleStatusEvents`) |
| `Firehose.StreamEvents` | static/files/2014-01-14-twitter-trending-firehose.rb:15-27 | the records of a stretch of the stream, status by status in arrival order (no contract of its own; characterised by `StreamEventsAppend`, `StreamEventsSingle` and `StreamEventsAt`) |
| `Firehose.EventsAppend` | static/files/2014-01-14-twitter-trending-firehose.rb:18-26 | emitting a tag list in two parts gives the same records as emitting it at once |
| `Firehose.StreamEventsAppend` | static/files/2014-01-14-twitter-trending-firehose.rb:15-16 | no state is carried between statuses: the records of two consecutive stretches of the stream are the records of each stretch, concatenated |
| `Firehose.StreamEventsSingle` | static/files/2014-01-14-twitter-trending-firehose.rb:15-27 | a one-status stream gives exactly that status's records |
| `Firehose.StreamEventsAt` | static/files/2014-01-14-twitter-trending-firehose.rb:15-27 | a status gives the same records wherever it stands in the stream, whatever comes before or after it |
| `Firehose.Collector.constructor` | static/files/2014-01-14-twitter-trending-firehose.rb:12 | a new client has sent nothing |
| `Firehose.Collector.Send` | static/files/2014-01-14-twitter-trending-firehose.rb:20-25 | `riemann << event` appends exactly that event to the outbox |
| `Firehose.EmitTags` | static/files/2014-01-14-twitter-trending-firehose.rb:18-26 | the outbox grows by exactly the records of the tags, one per tag, in order, and nothing else |
| `Firehose.HandleStatus` | static/files/2014-01-14-twitter-trending-firehose.rb:16-26 | handling one status appends exactly the records of its extracted tags |
| `Firehose.Sample` | static/files/2014-01-14-twitter-trending-firehose.rb:15-27 | after a stretch of statuses the outbox has grown by each status's records, in arrival order |

## Left out

- Credentials (`TweetStream.configure`, lines 4-10): configuration only, with no logic.
- The streaming subscription (`TweetStream::Client.new.sample`, line 15) is network I/O in a library that is not part of this model. `Firehose.Sample` takes the statuses as a finite sequence of texts, in arrival order. It does not model an endless stream, the connection, or any reconnection.
- The Riemann network send (line 20) and the client's connection (line 12) are a foreign network client. `Collector.Send` appends the event to an outbox instead, so delivery and send errors are not modelled.
- The diagnostic `puts "emitting #{tag}"` (line 19) is logging only.
- The metric `1.0` (line 22) is a Ruby float. The model holds it as the constant `Firehose.Metric` and does no floating-point reasoning.
- Hashtags.IsAlnum: Ruby's `[[:alnum:]]` also matches non-ASCII letters and digits; the model matches only `A`-`Z`, `a`-`z` and `0`-`9`, so a non-ASCII letter or digit ends a run. Ruby's `\s` is exactly `[ \t\r\n\f\v]` and never matches non-ASCII spaces, so `Hashtags.IsSpace` is that class itself.
- Hashtags.IsSpace: follows Ruby 2.2 and later, whose `\s` includes the vertical tab; in Ruby 2.1 and earlier `\s` is `[ \t\r\n\f]`, without it.
- Hashtags.Downcase: follows Ruby before 2.4, whose `String#downcase` maps only `A`-`Z`; since Ruby 2.4 it also lowercases non-ASCII letters, which the model does not.
- A status whose `text` is missing (`nil`) is not modelled: a text is always a string.
- The script has no reconnection, backoff or error handling, so none is modelled.
