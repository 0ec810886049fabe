/**
  The body of `main`: fetch everything, compose a report for each feed that has new
  entries, print the reports on a dry run or else send them all in one batch.
 */
module MailerMain {
  import opened Feeds
  import opened CacheUpdate
  import opened Reports
  import opened Effects
  import opened RssMailer

  /** A composed report together with the name of the feed it is for. */
  datatype Preview = Preview(feedName: string, report: Mail)

  predicate Configured(feeds: seq<Feed>, results: seq<FeedResult>)
  {
    forall i :: 0 <= i < |results| ==> HasFeed(feeds, results[i].name)
  }

  /** The report for one result, titled after the configured feed of that name. */
  function ReportFor(config: MailConfig, feeds: seq<Feed>, r: FeedResult): Preview
    requires HasFeed(feeds, r.name)
  {
    Preview(r.name, ComposeMail(config, FeedNamed(feeds, r.name).value.title, r.entries))
  }

  /** The reports of a run, in result order, skipping every result without new entries. */
  function MailReports(config: MailConfig, feeds: seq<Feed>, results: seq<FeedResult>): seq<Preview>
    requires Configured(feeds, results)
  {
    if results == [] then []
    else
      var r := results[|results| - 1];
      var rest := MailReports(config, feeds, results[..|results| - 1]);
      if r.entries == [] then rest else rest + [ReportFor(config, feeds, r)]
  }

  function MailsOf(previews: seq<Preview>): seq<Mail>
  {
    seq(|previews|, i requires 0 <= i < |previews| => previews[i].report)
  }

  lemma PreviewIsReport(config: MailConfig, feeds: seq<Feed>, r: FeedResult, mail: Mail)
    requires HasFeed(feeds, r.name)
    requires mail == ComposeMail(config, FeedNamed(feeds, r.name).value.title, r.entries)
    ensures Preview(r.name, mail) == ReportFor(config, feeds, r)
  {
  }

  lemma MailsOfStep(previews: seq<Preview>, p: Preview)
    ensures MailsOf(previews + [p]) == MailsOf(previews) + [p.report]
  {
  }

  /**
    Everything `main` does outside the process after the diff: unless a dry run, the
    cache snapshot is written, and then `send_mails` gets the reports (none on a dry run).
   */
  function RunEffects(config: MailConfig, dryRun: bool, cache: Cache, reports: seq<Preview>): seq<Event>
  {
    (if dryRun then [] else [Persist(cache)]) + SendTrace(config, if dryRun then [] else MailsOf(reports))
  }

  /**
    The loop of `main`: skip each feed without new entries, compose the others' reports,
    and collect them for sending, or on a dry run for printing instead.
   */
  method SelectReports(runner: Runner, dryRun: bool, newEntries: seq<FeedResult>)
    returns (mailReports: seq<Mail>, printed: seq<Preview>)
    requires Configured(runner.feeds, newEntries)
    ensures mailReports == if dryRun then [] else MailsOf(MailReports(runner.mailConfig, runner.feeds, newEntries))
    ensures printed == if dryRun then MailReports(runner.mailConfig, runner.feeds, newEntries) else []
  {
    var config, feeds := runner.mailConfig, runner.feeds;
    mailReports, printed := [], [];
    ghost var selected: seq<Preview> := [];
    for i := 0 to |newEntries|
      invariant Configured(feeds, newEntries[..i])
      invariant selected == MailReports(config, feeds, newEntries[..i])
      invariant dryRun ==> mailReports == [] && printed == selected
      invariant !dryRun ==> mailReports == MailsOf(selected) && printed == []
    {
      var r := newEntries[i];
      MailReportsStep(config, feeds, newEntries, i);
      if |r.entries| == 0 {
        continue;
      }
      var mailReport := runner.CreateMailText(r.name, r.entries);
      var preview := Preview(r.name, mailReport);
      PreviewIsReport(config, feeds, r, mailReport);
      MailsOfStep(selected, preview);
      selected := selected + [preview];
      if !dryRun {
        mailReports := mailReports + [mailReport];
      } else {
        printed := printed + [preview];
      }
    }
    assert newEntries[..|newEntries|] == newEntries;
  }

  /** `main`, from the runner's construction on; what a dry run prints is returned as `printed`. */
  method Run(runner: Runner, dryRun: bool, source: Source) returns (printed: seq<Preview>)
    requires runner.Valid()
    modifies runner`feedsCache, runner`trace, runner`persisted
    ensures runner.Valid()
    ensures runner.persisted == if dryRun then old(runner.persisted) else runner.feedsCache
    ensures var results := Diff(runner.feeds, old(runner.feedsCache), source);
      && Configured(runner.feeds, results)
      && runner.feedsCache == (if dryRun then old(runner.feedsCache) else Record(old(runner.feedsCache), results))
      && printed == (if dryRun then MailReports(runner.mailConfig, runner.feeds, results) else [])
      && runner.trace == old(runner.trace)
           + RunEffects(runner.mailConfig, dryRun, runner.feedsCache, MailReports(runner.mailConfig, runner.feeds, results))
  {
    var newEntries := runner.FetchAll(dryRun, source);
    DiffIsConfigured(runner.feeds, old(runner.feedsCache), source);
    ghost var reports := MailReports(runner.mailConfig, runner.feeds, newEntries);
    ghost var written := if dryRun then [] else [Persist(runner.feedsCache)];
    assert runner.trace == old(runner.trace) + written;
    var mailReports;
    mailReports, printed := SelectReports(runner, dryRun, newEntries);
    assert mailReports == if dryRun then [] else MailsOf(reports);
    ghost var before := old(runner.trace);
    runner.SendMails(mailReports);
    ghost var session := SendTrace(runner.mailConfig, mailReports);
    assert runner.trace == (before + written) + session;
    AppendAssociative(before, written, session);
    assert RunEffects(runner.mailConfig, dryRun, runner.feedsCache, reports) == written + session;
    assert Diff(runner.feeds, old(runner.feedsCache), source) == newEntries;
  }

  /** Every result of the diff names a configured feed. */
  lemma DiffIsConfigured(feeds: seq<Feed>, cache: Cache, source: Source)
    ensures Configured(feeds, Diff(feeds, cache, source))
  {
    var results := Diff(feeds, cache, source);
    DiffCoversEveryFeed(feeds, cache, source);
    forall i | 0 <= i < |results| ensures HasFeed(feeds, results[i].name) {
      assert feeds[i].name == results[i].name;
    }
  }

  /** One more result adds its report, or nothing when it has no new entries. */
  lemma MailReportsStep(config: MailConfig, feeds: seq<Feed>, results: seq<FeedResult>, i: int)
    requires Configured(feeds, results)
    requires 0 <= i < |results|
    ensures Configured(feeds, results[..i]) && Configured(feeds, results[..i + 1])
    ensures results[i].entries == [] ==>
      MailReports(config, feeds, results[..i + 1]) == MailReports(config, feeds, results[..i])
    ensures results[i].entries != [] ==>
      MailReports(config, feeds, results[..i + 1]) == MailReports(config, feeds, results[..i]) + [ReportFor(config, feeds, results[i])]
  {
    assert results[..i + 1][..i] == results[..i];
  }

  /** The reports of all results: those of all but the last, then the last result's report if it has news. */
  lemma MailReportsLast(config: MailConfig, feeds: seq<Feed>, results: seq<FeedResult>)
    requires Configured(feeds, results)
    requires results != []
    ensures Configured(feeds, results[..|results| - 1])
    ensures results[|results| - 1].entries == [] ==>
      MailReports(config, feeds, results) == MailReports(config, feeds, results[..|results| - 1])
    ensures results[|results| - 1].entries != [] ==>
      MailReports(config, feeds, results)
        == MailReports(config, feeds, results[..|results| - 1]) + [ReportFor(config, feeds, results[|results| - 1])]
  {
    var init := results[..|results| - 1];
    forall j | 0 <= j < |init| ensures HasFeed(feeds, init[j].name) {
      assert init[j] == results[j];
    }
  }

  // ----- what the report selection promises -----

  lemma {:induction false} ReportsAppend(config: MailConfig, feeds: seq<Feed>, a: seq<FeedResult>, b: seq<FeedResult>)
    requires Configured(feeds, a + b)
    ensures Configured(feeds, a) && Configured(feeds, b)
    ensures MailReports(config, feeds, a + b) == MailReports(config, feeds, a) + MailReports(config, feeds, b)
    decreases |b|
  {
    forall i | 0 <= i < |a| ensures HasFeed(feeds, a[i].name) {
      assert (a + b)[i] == a[i];
    }
    forall i | 0 <= i < |b| ensures HasFeed(feeds, b[i].name) {
      assert (a + b)[|a| + i] == b[i];
    }
    if b == [] {
      assert a + b == a;
    } else {
      var b' := b[..|b| - 1];
      assert (a + b)[..|a + b| - 1] == a + b';
      ReportsAppend(config, feeds, a, b');
    }
  }

  /** No mail at all exactly when no feed has new entries. */
  lemma {:induction false} ReportsEmptyIff(config: MailConfig, feeds: seq<Feed>, results: seq<FeedResult>)
    requires Configured(feeds, results)
    ensures MailReports(config, feeds, results) == [] <==> forall i :: 0 <= i < |results| ==> results[i].entries == []
    decreases |results|
  {
    if results != [] {
      var init := results[..|results| - 1];
      ReportsEmptyIff(config, feeds, init);
      assert forall i :: 0 <= i < |init| ==> init[i] == results[i];
    }
  }

  /** Every report is the mail for some result that has new entries. */
  lemma {:induction false} ReportsOnlyForNews(config: MailConfig, feeds: seq<Feed>, results: seq<FeedResult>, k: int)
    requires Configured(feeds, results)
    requires 0 <= k < |MailReports(config, feeds, results)|
    ensures exists i :: (0 <= i < |results| && results[i].entries != [] &&
      MailReports(config, feeds, results)[k] == ReportFor(config, feeds, results[i]))
    decreases |results|
  {
    var n := |results|;
    var init := results[..n - 1];
    MailReportsLast(config, feeds, results);
    var rest := MailReports(config, feeds, init);
    var all := MailReports(config, feeds, results);
    if k < |rest| {
      ReportsOnlyForNews(config, feeds, init, k);
      var i :| 0 <= i < |init| && init[i].entries != [] && rest[k] == ReportFor(config, feeds, init[i]);
      assert results[i] == init[i];
      assert all[k] == rest[k];
    } else {
      assert results[n - 1].entries != [] && all[k] == ReportFor(config, feeds, results[n - 1]);
    }
  }

  /**
    Every result with new entries gets its report, right after the reports
    of the results before it.
   */
  lemma ReportsCoverNews(config: MailConfig, feeds: seq<Feed>, results: seq<FeedResult>, i: int)
    requires Configured(feeds, results)
    requires 0 <= i < |results| && results[i].entries != []
    ensures Configured(feeds, results[..i])
    ensures ReportFor(config, feeds, results[i]) in MailReports(config, feeds, results)
    ensures |MailReports(config, feeds, results[..i])| < |MailReports(config, feeds, results)|
    ensures MailReports(config, feeds, results)[|MailReports(config, feeds, results[..i])|] == ReportFor(config, feeds, results[i])
  {
    var pre, r, post := results[..i], results[i], results[i + 1..];
    assert results == (pre + [r]) + post;
    ReportsAppend(config, feeds, pre + [r], post);
    ReportsAppend(config, feeds, pre, [r]);
    assert [r][..0] == [];
    var all := MailReports(config, feeds, results);
    var before := MailReports(config, feeds, pre);
    assert all == before + [ReportFor(config, feeds, r)] + MailReports(config, feeds, post);
    assert all[|before|] == ReportFor(config, feeds, r);
  }

  /** A dry run writes nothing and opens no SMTP connection. */
  lemma DryRunHasNoEffects(config: MailConfig, cache: Cache, reports: seq<Preview>)
    ensures RunEffects(config, true, cache, reports) == []
  {
  }

  /**
    The cache is written before any mail goes out: on a trace with a send, the first
    event is the write, so a failing send still leaves the entries marked as seen.
   */
  lemma PersistBeforeSend(config: MailConfig, dryRun: bool, cache: Cache, reports: seq<Preview>)
    ensures var t := RunEffects(config, dryRun, cache, reports);
      forall j :: 0 <= j < |t| && t[j].SendMail? ==> !dryRun && 0 < j && t[0] == Persist(cache)
  {
  }

  /** A real run hands exactly the reports' mails to the server, in report order. */
  lemma RunDeliversReports(config: MailConfig, cache: Cache, reports: seq<Preview>)
    ensures SentMails(RunEffects(config, false, cache, reports)) == MailsOf(reports)
  {
    var mails := MailsOf(reports);
    SentMailsAppend([Persist(cache)], SendTrace(config, mails));
    SentMailsNone([Persist(cache)]);
    SendTraceDelivers(config, mails);
  }
}
