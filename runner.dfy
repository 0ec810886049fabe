/** The `Runner`: the configured feeds, the cache of seen ids, and the operations of one run. */
module RssMailer {
  import opened Wrappers
  import opened Feeds
  import opened CacheUpdate
  import opened Reports
  import opened Effects

  class Runner {
    var mailConfig: MailConfig
    var feeds: seq<Feed>
    var feedsCache: Cache
    /** What the run has done outside the process so far: cache file writes and SMTP steps. */
    var trace: seq<Event>
    /** The contents of the cache file: as loaded, or as last written. */
    ghost var persisted: Cache

    /** The feeds come from the keys of a configuration mapping, so their names are distinct. */
    ghost predicate Valid()
      reads this`feeds
    {
      Distinct(FeedNames(feeds))
    }

    /** `Runner.__init__`, with the configuration and the cache file already parsed. */
    constructor (mailConfig: MailConfig, feeds: seq<Feed>, feedsCache: Cache)
      requires Distinct(FeedNames(feeds))
      ensures Valid()
      ensures this.mailConfig == mailConfig && this.feeds == feeds && this.feedsCache == feedsCache
      ensures trace == [] && persisted == feedsCache
    {
      this.mailConfig := mailConfig;
      this.feeds := feeds;
      this.feedsCache := feedsCache;
      trace := [];
      persisted := feedsCache;
    }

    /**
      `fetch_all`: diff every feed against its cached ids; unless `dryRun`, append the
      new ids to the feed's list and then write the whole cache once.
     */
    method FetchAll(dryRun: bool, source: Source) returns (result: seq<FeedResult>)
      requires Valid()
      modifies this`feedsCache, this`trace, this`persisted
      ensures result == Diff(feeds, old(feedsCache), source)
      ensures feedsCache == if dryRun then old(feedsCache) else Record(old(feedsCache), result)
      ensures trace == if dryRun then old(trace) else old(trace) + [Persist(feedsCache)]
      ensures persisted == if dryRun then old(persisted) else feedsCache
      ensures Valid()
    {
      ghost var loaded := feedsCache;
      result := [];
      for i := 0 to |feeds|
        invariant result == Diff(feeds[..i], loaded, source)
        invariant feedsCache == if dryRun then loaded else Record(loaded, result)
        invariant trace == old(trace) && persisted == old(persisted)
      {
        var r := FetchFeed(dryRun, source, loaded, result, i);
        result := result + [r];
      }
      assert feeds[..|feeds|] == feeds;
      if !dryRun {
        trace := trace + [Persist(feedsCache)];
        persisted := feedsCache;
      }
    }

    /**
      One pass of the loop of `fetch_all`: diff feed `i` against its cached ids and,
      unless `dryRun`, store its list with the new ids appended.
     */
    method FetchFeed(dryRun: bool, source: Source, ghost loaded: Cache, ghost done: seq<FeedResult>, i: int)
      returns (r: FeedResult)
      requires Valid()
      requires 0 <= i < |feeds|
      requires done == Diff(feeds[..i], loaded, source)
      requires feedsCache == if dryRun then loaded else Record(loaded, done)
      modifies this`feedsCache
      ensures done + [r] == Diff(feeds[..i + 1], loaded, source)
      ensures feedsCache == if dryRun then loaded else Record(loaded, done + [r])
    {
      var feed := feeds[i];
      var feedCache := if feed.name in feedsCache then feedsCache[feed.name] else [];
      LookupBeforeRecorded(feeds, loaded, source, i);
      var entries := Fetch(feed, feedCache, source);
      r := FeedResult(feed.name, entries);
      DiffStep(feeds, loaded, source, i);
      if !dryRun {
        feedCache := AppendIds(feedCache, entries);
        RecordStep(loaded, done, r);
        feedsCache := feedsCache[feed.name := feedCache];
      }
    }

    /** The inner loop of `fetch_all`: append each entry's id to the feed's list, in order. */
    static method AppendIds(feedCache: seq<string>, entries: seq<FeedEntry>) returns (appended: seq<string>)
      ensures appended == feedCache + Ids(entries)
    {
      appended := feedCache;
      for j := 0 to |entries|
        invariant appended == feedCache + Ids(entries[..j])
      {
        assert Ids(entries[..j + 1]) == Ids(entries[..j]) + [entries[j].id];
        appended := appended + [entries[j].id];
      }
      assert entries[..|entries|] == entries;
    }

    /** `get_feed_by_name`: the first configured feed called `feedName`, or `None`. */
    method GetFeedByName(feedName: string) returns (feed: Option<Feed>)
      ensures feed == FeedNamed(feeds, feedName)
    {
      for i := 0 to |feeds|
        invariant forall j :: 0 <= j < i ==> feeds[j].name != feedName
      {
        if feeds[i].name == feedName {
          assert FirstNamed(feeds, feedName, i);
          return Some(feeds[i]);
        }
      }
      return None;
    }

    /** `create_mail_text` for a configured feed: the feed's mail, its body built line by line. */
    method CreateMailText(feedName: string, entries: seq<FeedEntry>) returns (mail: Mail)
      requires HasFeed(feeds, feedName)
      ensures FeedNamed(feeds, feedName).Some?
      ensures mail == ComposeMail(mailConfig, FeedNamed(feeds, feedName).value.title, entries)
    {
      var feed := GetFeedByName(feedName);
      var title := feed.value.title;
      var plainText := Heading(title) + "\n";
      assert plainText == PlainText(title, entries[..0]);
      for i := 0 to |entries|
        invariant plainText == PlainText(title, entries[..i])
      {
        PlainTextStep(title, entries, i);
        plainText := plainText + EntryLine(entries[i]);
      }
      assert entries[..|entries|] == entries;
      mail := Mail(
        "[RSS Mailer] " + Heading(title),
        mailConfig.emailFrom,
        mailConfig.emailFrom,
        mailConfig.emailTo,
        "auto-generated",
        "All",
        plainText);
    }

    /** `send_mails`: nothing for no mails, else one session delivering them all in order. */
    method SendMails(mails: seq<Mail>)
      modifies this`trace
      ensures trace == old(trace) + SendTrace(mailConfig, mails)
    {
      if |mails| == 0 {
        return;
      }
      var implicitTls := mailConfig.smtpProtocol == "ssl";
      trace := trace + [Connect(mailConfig.smtpHost, mailConfig.smtpPort, implicitTls)];
      trace := trace + [Ehlo];
      if mailConfig.smtpProtocol == "tls" {
        trace := trace + [StartTls];
      }
      trace := trace + [Login(mailConfig.smtpUsername, mailConfig.smtpPassword)];
      ghost var loggedIn := old(trace) + Opening(mailConfig);
      assert trace == loggedIn;
      for i := 0 to |mails|
        invariant trace == loggedIn + Deliveries(mailConfig, mails[..i])
      {
        var send := SendMail(mailConfig.emailFrom, mailConfig.emailTo, mails[i]);
        assert Deliveries(mailConfig, mails[..i + 1]) == Deliveries(mailConfig, mails[..i]) + [send];
        assert (loggedIn + Deliveries(mailConfig, mails[..i])) + [send] == loggedIn + (Deliveries(mailConfig, mails[..i]) + [send]);
        trace := trace + [send];
      }
      assert mails[..|mails|] == mails;
      assert (old(trace) + Opening(mailConfig)) + Deliveries(mailConfig, mails)
          == old(trace) + (Opening(mailConfig) + Deliveries(mailConfig, mails));
      assert (old(trace) + (Opening(mailConfig) + Deliveries(mailConfig, mails))) + [Quit]
          == old(trace) + (Opening(mailConfig) + Deliveries(mailConfig, mails) + [Quit]);
      trace := trace + [Quit];
    }
  }
}
