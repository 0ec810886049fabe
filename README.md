# gitlab_rss_mailer, modelled in Dafny

`gitlab_rss_mailer` is meant to be run periodically. Each run reads the configured feeds (GitLab issue and merge-request Atom feeds, say). For every feed it keeps the entries whose id is not yet in that feed's list of seen ids in the cache file. Unless the run is a dry run, it then appends the new ids to the cache and writes the cache file once. After that it composes one notification mail per feed that has new entries. On a dry run it prints those mails. Otherwise it sends them all over one SMTP session.

The model has these modules:

- `Feeds` (`feeds.dfy`) models the entries, the configured feeds, `Feed.fetch_raw` and `Feed.fetch`.
  - `FetchRaw` and `Fetch` are loops proved against the specification functions `RawEntries` and `NewEntries`.
  - `NewEntries` is in turn defined by `Unseen`, which keeps the entries, in order, whose id is not among the known ids.
  - The feed parser is a function parameter `source` from URL to raw entries.
- `CacheUpdate` (`cache_update.dfy`) specifies what `Runner.fetch_all` computes over a whole run.
  - `Diff` is the per-feed result, each feed checked against the cache as loaded.
  - `Record` is the cache with each feed's new ids appended to its list.
  - Its lemmas cover coverage and order, key sets, monotonicity, that appending is exact, and that nothing is notified twice.
- `Reports` (`reports.dfy`) covers the mail configuration and the mail `create_mail_text` composes: its headers and its plain-text body.
- `Effects` (`effects.dfy`) records what a run does outside the process as a trace of events: cache-file writes and the SMTP steps of `send_mails`. `SendTrace` is the session `send_mails` holds.
- `RssMailer` (`runner.dfy`) holds the class `Runner`. Its fields are `mailConfig`, `feeds` and `feedsCache`, plus the `trace` of outside effects and a ghost `persisted` standing for the cache file. Its methods are:
  - `FetchAll`, with `FetchFeed` (one pass of its loop) and `AppendIds` (the inner loop);
  - `GetFeedByName`, `CreateMailText`, `SendMails`.
- `MailerMain` (`main_loop.dfy`) is the body of `main` after the runner is built.
  - `SelectReports` is the report-selection loop.
  - `Run` is fetch, select, send. What a dry run prints is its result `printed`.
- `Scenarios` (`scenarios.dfy`) works two concrete runs through the model.

Points of the code's behaviour that the model keeps:

- On a non-dry run, `fetch_all` stores every configured feed's list under its name, including a feed with nothing new. A feed seen for the first time with no entries therefore still gets the key, with `[]` (`Record`, `RecordKeys`).
- The cache file is written at the end of `fetch_all`, before any mail is composed or sent (`Run`, `PersistBeforeSend`).
- `ehlo` is sent for every protocol, before `starttls` under "tls" (`SendTraceEncryption`).

## Model

| member | source | states |
|---|---|---|
| Feeds.FeedNamed | gitlab_rss_mailer/__init__.py:150-155 | `None` exactly when no configured feed has the name; otherwise the first feed with that name |
| Feeds.FetchRaw | gitlab_rss_mailer/__init__.py:54-60 | the result is `RawEntries`: every URL's entries, URL after URL, each in the parser's order |
| Feeds.FromRawFeedEntry | gitlab_rss_mailer/__init__.py:25-31 | id, title and author are kept; the parser's `link` becomes the entry's `url` |
| Feeds.Fetch | gitlab_rss_mailer/__init__.py:62-69 | the result is `NewEntries`, the fetched entries in order minus those whose id is known; no returned id is among the known ids |
| Feeds.RawEntriesAppend | gitlab_rss_mailer/__init__.py:54-60 | fetching `a + b` gives the entries of `a`'s URLs followed by those of `b`'s |
| Feeds.RawEntriesMembership | gitlab_rss_mailer/__init__.py:54-60 | a raw entry is fetched iff the parser returns it for one of the feed's URLs |
| Feeds.UnseenStep | gitlab_rss_mailer/__init__.py:64-67 | one more fetched entry is kept exactly when its id is not known |
| Feeds.UnseenIdsUnknown | gitlab_rss_mailer/__init__.py:66-67 | no kept entry has a known id |
| Feeds.UnseenAppend | gitlab_rss_mailer/__init__.py:62-69 | the diff keeps source order: filtering `a + b` is filtering `a` followed by filtering `b` |
| Feeds.UnseenMembership | gitlab_rss_mailer/__init__.py:62-69 | an entry is in the result iff it was fetched and its id is not known |
| Feeds.UnseenMultiplicity | gitlab_rss_mailer/__init__.py:62-69 | duplicates within one fetch are all kept: an entry with an unknown id occurs as often as it was fetched, one with a known id never |
| Feeds.UnseenEmptyIff | gitlab_rss_mailer/__init__.py:62-69 | nothing is new iff every fetched id is known |
| Feeds.UnseenOfFresh | gitlab_rss_mailer/__init__.py:62-69 | when no fetched id is known, everything is new, unchanged and in order |
| Feeds.UnseenIdempotent | gitlab_rss_mailer/__init__.py:62-69 | diffing the result again against the same ids changes nothing |
| Feeds.UnseenAfterRecording | gitlab_rss_mailer/__init__.py:62-69 | once the new ids are appended to the known ids, the same entries give nothing new |
| CacheUpdate.CachedIds | gitlab_rss_mailer/__init__.py:134 | the feed's cached list, or `[]` when the cache has no key for it; the cache itself is not changed by the lookup |
| CacheUpdate.DiffCoversEveryFeed | gitlab_rss_mailer/__init__.py:130-137 | one result per configured feed, in configuration order and even when empty; each is the feed's new entries against its list in the cache as loaded, `[]` when the feed has no list |
| CacheUpdate.DiffStep | gitlab_rss_mailer/__init__.py:133-137 | one more feed adds its own result at the end, diffed against its list in the cache as loaded |
| CacheUpdate.DiffNames | gitlab_rss_mailer/__init__.py:133-137 | the result names are the configured feed names, in order |
| CacheUpdate.RecordStep | gitlab_rss_mailer/__init__.py:139-143 | one more result replaces its feed's list (or `[]`) by that list followed by the result's ids, and touches no other name |
| CacheUpdate.RecordKeys | gitlab_rss_mailer/__init__.py:139-143 | afterwards the cache's keys are its old keys plus every feed's name, whether or not it had news |
| CacheUpdate.RecordOthersUnchanged | gitlab_rss_mailer/__init__.py:139-143 | a name no result carries keeps its list, or its absence, exactly |
| CacheUpdate.RecordMonotone | gitlab_rss_mailer/__init__.py:139-143 | no cached id is lost or moved: the old list is a prefix of the new one |
| CacheUpdate.RecordAppends | gitlab_rss_mailer/__init__.py:134-143 | with distinct names, each feed's list becomes its old list (or `[]`) followed by its new ids in fetch order |
| CacheUpdate.LookupBeforeRecorded | gitlab_rss_mailer/__init__.py:133-143 | when feed `i` is reached, its cache list is still the list as loaded |
| CacheUpdate.SeenAfterRecord | gitlab_rss_mailer/__init__.py:133-143 | after the run's results are recorded, feed `i` finds nothing new in the same raw entries |
| CacheUpdate.NoDuplicateNotification | gitlab_rss_mailer/__init__.py:130-148 | after a non-dry run, a run that sees the same raw entries yields an empty result for every feed |
| Reports.PlainTextStep | gitlab_rss_mailer/__init__.py:184-185 | writing one more entry's line extends the body by exactly that line |
| Reports.EntryLinesAppend | gitlab_rss_mailer/__init__.py:184-185 | the entry lines of `a + b` are those of `a` followed by those of `b` |
| Reports.ComposeMailListsEntries | gitlab_rss_mailer/__init__.py:170-185 | the body is the heading line and then one line per entry in entry order: entry `i`'s line comes right after the lines of the entries before it |
| Effects.SentMailsAppend | gitlab_rss_mailer/__init__.py:216-217 | the mails a trace hands over are those of its first part followed by those of its second |
| Effects.SentMailsOfDeliveries | gitlab_rss_mailer/__init__.py:216-217 | the send loop hands over exactly its mails, in list order |
| Effects.SendTraceEmptyIff | gitlab_rss_mailer/__init__.py:196-198 | no session at all, so no connection, exactly when there are no mails |
| Effects.SendTraceEncryption | gitlab_rss_mailer/__init__.py:200-212 | "ssl" connects encrypted; "tls" connects plain, greets, then upgrades; any other protocol never upgrades; `ehlo` always comes second |
| Effects.SendTraceDelivers | gitlab_rss_mailer/__init__.py:216-217 | the session hands over exactly the batch, in list order |
| Effects.SendTraceLogin | gitlab_rss_mailer/__init__.py:214-217 | the session logs in once, with the configured credentials, before every send |
| Effects.SendTraceSession | gitlab_rss_mailer/__init__.py:196-219 | one connection, at the start; one login before every send; every mail from `email_from` to `email_to` in list order; `quit` last |
| RssMailer.Runner.constructor | gitlab_rss_mailer/__init__.py:118-128 | the runner holds the given configuration, feeds and cache; nothing has happened outside yet, and the file contents are the cache |
| RssMailer.Runner.FetchAll | gitlab_rss_mailer/__init__.py:130-148 | returns `Diff` against the cache as loaded; a dry run leaves cache and file untouched; otherwise the cache becomes `Record` of the results and is written once, as the run's only effect |
| RssMailer.Runner.FetchFeed | gitlab_rss_mailer/__init__.py:133-143 | one pass of the loop: feed `i`'s result is its diff against the cache as loaded, and unless a dry run the cache becomes `Record` with that result added |
| RssMailer.Runner.AppendIds | gitlab_rss_mailer/__init__.py:140-141 | the feed's list followed by the new entries' ids in order |
| RssMailer.Runner.GetFeedByName | gitlab_rss_mailer/__init__.py:150-155 | returns `FeedNamed`: the first feed with the name, `None` when there is none |
| RssMailer.Runner.CreateMailText | gitlab_rss_mailer/__init__.py:157-194 | for a configured feed, the mail `ComposeMail` describes, titled after the feed's title: subject, reply-to, from, to, automation headers, and the body built line by line |
| RssMailer.Runner.SendMails | gitlab_rss_mailer/__init__.py:196-219 | extends the trace by exactly `SendTrace` of the batch: nothing for no mails, otherwise one full session |
| MailerMain.DiffIsConfigured | gitlab_rss_mailer/__init__.py:130-137 | every result names a configured feed, so `create_mail_text` always finds its feed |
| MailerMain.MailReportsStep | gitlab_rss_mailer/__main__.py:31-42 | each further result adds its report, or nothing when it has no new entries |
| MailerMain.SelectReports | gitlab_rss_mailer/__main__.py:31-42 | on a real run, collects the mails of the reports for sending and prints nothing; on a dry run, collects nothing and prints every report with its feed name |
| MailerMain.Run | gitlab_rss_mailer/__main__.py:25-43 | fetch, select, send: the cache and the cache file end as `FetchAll` says, a dry run prints the reports, and the outside effects are `RunEffects` (the cache write, then the session) in that order |
| MailerMain.ReportsAppend | gitlab_rss_mailer/__main__.py:31-42 | the reports of `a + b` are those of `a` followed by those of `b` |
| MailerMain.ReportsEmptyIff | gitlab_rss_mailer/__main__.py:31-43 | no report at all iff no feed has new entries |
| MailerMain.ReportsOnlyForNews | gitlab_rss_mailer/__main__.py:31-35 | every report is the mail for some result that has new entries |
| MailerMain.ReportsCoverNews | gitlab_rss_mailer/__main__.py:31-35 | every result with new entries gets its report, placed right after the reports of the results before it |
| MailerMain.DryRunHasNoEffects | gitlab_rss_mailer/__main__.py:37-43 | a dry run writes no file and opens no SMTP connection |
| MailerMain.PersistBeforeSend | gitlab_rss_mailer/__main__.py:27-43 | whenever a mail is sent, the run is not dry and the first effect was the cache write, so a failing send still leaves the entries marked as seen |
| MailerMain.RunDeliversReports | gitlab_rss_mailer/__main__.py:37-43 | a real run hands the server exactly the reports' mails, in report order |
| Scenarios.IssuesFetch | gitlab_rss_mailer/__init__.py:62-69 | cached ids 1, 2 and fetched ids 1, 2, 3: only entry 3 is new |
| Scenarios.IssuesDiff | gitlab_rss_mailer/__init__.py:130-137 | for that feed and cache the run's result is entry 3 alone |
| Scenarios.IssuesRecord | gitlab_rss_mailer/__init__.py:139-143 | recording that result turns the cache list into `["1","2","3"]` |
| Scenarios.IssuesReports | gitlab_rss_mailer/__main__.py:31-35 | that result gets exactly one report, titled "Project issues" |
| Scenarios.IssuesScenario | gitlab_rss_mailer/__main__.py:27-43 | for that feed: result entry 3 only, cache `["1","2","3"]`, one report, and that one mail is sent |
| Scenarios.MergesFetch | gitlab_rss_mailer/__init__.py:62-69 | a feed whose only fetched id is cached has nothing new |
| Scenarios.TwoFeedsDiff | gitlab_rss_mailer/__init__.py:130-137 | with two feeds, both get a result, in order, one of them empty |
| Scenarios.TwoFeedsRecord | gitlab_rss_mailer/__init__.py:139-143 | the feed without news keeps its cached list |
| Scenarios.TwoFeedsReports | gitlab_rss_mailer/__main__.py:31-35 | only the feed with news gets a report, titled after that feed |
| Scenarios.TwoFeedsScenario | gitlab_rss_mailer/__main__.py:27-43 | exactly one mail is sent, composed with the title of the feed that had news; the other feed's cached ids stay as they were |

## Left out

- Reading the YAML configuration (`Feed.from_config`, `MailConfig.from_config`) and the JSON cache file: the constructor receives them already parsed.
- Feed names are taken to be strings. In the source, a YAML feed key that loads as a number (`123:`) becomes an int name (`__init__.py:125-126`). `json.dumps` writes it as the string `"123"` (line 146), so the next run's `feeds_cache.get(123, [])` (line 134) misses it, and every entry of that feed is notified again on every run. The model does not capture this.
- The network fetch by `feedparser.parse`: it is the parameter `source`, one fixed function for the whole run. A parser that returns different entries on a second fetch of the same URL in one run is not modelled. The `Scenarios` lemmas constrain `source` only on the URLs they use.
- `FeedEntry.from_raw_feed_entry` raising `KeyError` on a missing field: a `RawEntry` always has all four fields.
- `FeedEntry.__str__` and `__repr__`: these are only for display.
- The HTML part of `create_mail_text`, the MIME container and `as_string()`: a `Mail` holds the headers the program sets and the plain-text part.
- RssMailer.Runner.CreateMailText: requires the feed to be configured. For a name that is not configured, the source fails at `feed.title` on `None`. `main` never passes such a name (`DiffIsConfigured`).
- The SMTP transport (`smtplib.SMTP`, `SMTP_SSL`), `int(smtp_port)` and its `ValueError`, and any server error: a session is its sequence of events, and the port stays the configured string.
- Exceptions in general, since every failure in the source ends the process. A run's effects are modelled as if every step succeeds. `PersistBeforeSend` states what a failure after the cache write leaves behind.
- Argument parsing, `--verbose` and the exit code. `print` in dry-run mode is the result `printed` of `Run`, one `Preview` (feed name and mail) per report.
- RssMailer.Runner.Valid: requires distinct feed names. The feeds come from the keys of a YAML mapping, so their names are distinct. With that, the dictionary `fetch_all` returns is modelled as a sequence of `FeedResult`s in insertion order.
- RssMailer.Runner.FetchAll: the source appends to the list object it looked up in the cache. The model builds the new list and stores it under the feed's name, which gives the same contents. Aliasing and in-place mutation of that list are not modelled, and no other reference to the list exists.
- Feeds.Fetch: the source takes the known ids as a Python list and never changes it. The model takes it as a value.
- Known ids are looked up by scanning a list; the cost of the lookup is not modelled.
