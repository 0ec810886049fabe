/** Two concrete runs, worked through the model end to end. */
module Scenarios {
  import opened Wrappers
  import opened Feeds
  import opened CacheUpdate
  import opened Reports
  import opened Effects
  import opened MailerMain

  const IssuesUrl := "https://gitlab.example/group/project/-/issues.atom"
  const MergesUrl := "https://gitlab.example/group/project/-/merge_requests.atom"

  const Issues := Feed("issues", "Project issues", [IssuesUrl])
  const Merges := Feed("merges", "Project merge requests", [MergesUrl])

  const Raw1 := RawEntry("1", "First", "ana", "https://gitlab.example/1")
  const Raw2 := RawEntry("2", "Second", "ben", "https://gitlab.example/2")
  const Raw3 := RawEntry("3", "Third", "cai", "https://gitlab.example/3")
  const Raw9 := RawEntry("9", "Old merge", "dee", "https://gitlab.example/9")

  const Entry3 := FeedEntry("3", "Third", "cai", "https://gitlab.example/3")

  lemma IssuesFetch(source: Source)
    requires source(IssuesUrl) == [Raw1, Raw2, Raw3]
    ensures NewEntries(Issues, ["1", "2"], source) == [Entry3]
  {
    var known := ["1", "2"];
    assert Issues.urls[..0] == [];
    assert RawEntries(Issues.urls, source) == [Raw1, Raw2, Raw3];
    var e1, e2 := FromRawFeedEntry(Raw1), FromRawFeedEntry(Raw2);
    assert FromRawFeedEntries([Raw1, Raw2, Raw3]) == [e1, e2] + [Entry3];
    assert [e1, e2] == [e1] + [e2];
    assert [e1] == [] + [e1];
    UnseenStep([], e1, known);
    UnseenStep([e1], e2, known);
    UnseenStep([e1, e2], Entry3, known);
  }

  const IssuesCache := map["issues" := ["1", "2"]]

  lemma IssuesDiff(source: Source)
    requires source(IssuesUrl) == [Raw1, Raw2, Raw3]
    ensures Diff([Issues], IssuesCache, source) == [IssuesResult]
  {
    IssuesFetch(source);
    assert CachedIds(IssuesCache, "issues") == ["1", "2"];
    assert [Issues][..0] == [];
  }

  lemma IssuesRecord()
    ensures Record(IssuesCache, [IssuesResult]) == map["issues" := ["1", "2", "3"]]
  {
    assert [IssuesResult][..0] == [];
    assert Ids([Entry3]) == ["3"];
    assert Record(IssuesCache, [IssuesResult]) == IssuesCache["issues" := ["1", "2"] + ["3"]];
    assert ["1", "2"] + ["3"] == ["1", "2", "3"];
  }

  lemma IssuesReports(config: MailConfig)
    ensures Configured([Issues], [IssuesResult])
    ensures MailReports(config, [Issues], [IssuesResult]) == [Preview("issues", ComposeMail(config, "Project issues", [Entry3]))]
  {
    assert [Issues][0].name == "issues";
    assert FeedNamed([Issues], "issues") == Some(Issues);
    assert [IssuesResult][..0] == [];
  }

  /**
    Feed "issues" has cached ids ["1", "2"] and the parser returns ids 1, 2, 3: only
    entry 3 is new, the cache becomes ["1", "2", "3"], and exactly one mail, listing
    entry 3, is sent.
   */
  lemma IssuesScenario(config: MailConfig, source: Source)
    requires source(IssuesUrl) == [Raw1, Raw2, Raw3]
    ensures var results := Diff([Issues], IssuesCache, source);
      var mail := ComposeMail(config, "Project issues", [Entry3]);
      && results == [FeedResult("issues", [Entry3])]
      && Record(IssuesCache, results) == map["issues" := ["1", "2", "3"]]
      && Configured([Issues], results)
      && MailReports(config, [Issues], results) == [Preview("issues", mail)]
      && SentMails(RunEffects(config, false, Record(IssuesCache, results), MailReports(config, [Issues], results))) == [mail]
  {
    IssuesDiff(source);
    IssuesRecord();
    IssuesReports(config);
    var reports := MailReports(config, [Issues], [IssuesResult]);
    RunDeliversReports(config, Record(IssuesCache, [IssuesResult]), reports);
    assert MailsOf(reports) == [ComposeMail(config, "Project issues", [Entry3])];
  }

  lemma MergesFetch(source: Source)
    requires source(MergesUrl) == [Raw9]
    ensures NewEntries(Merges, ["9"], source) == []
  {
    var raw := RawEntries(Merges.urls, source);
    assert Merges.urls == [MergesUrl];
    assert Merges.urls[..|Merges.urls| - 1] == [];
    assert raw == RawEntries([], source) + source(MergesUrl);
    assert raw == [Raw9];
    var es := FromRawFeedEntries(raw);
    assert es == [FromRawFeedEntry(Raw9)];
    assert es[|es| - 1].id == "9";
    assert es[..|es| - 1] == [];
    assert Unseen(es, ["9"]) == Unseen(es[..|es| - 1], ["9"]);
    assert NewEntries(Merges, ["9"], source) == Unseen(es, ["9"]);
  }

  const TwoFeeds := [Issues, Merges]
  const TwoCaches := map["issues" := ["1", "2"], "merges" := ["9"]]
  const IssuesResult := FeedResult("issues", [Entry3])
  const MergesResult := FeedResult("merges", [])

  lemma TwoFeedsDiff(source: Source)
    requires source(IssuesUrl) == [Raw1, Raw2, Raw3]
    requires source(MergesUrl) == [Raw9]
    ensures Diff(TwoFeeds, TwoCaches, source) == [IssuesResult, MergesResult]
  {
    IssuesFetch(source);
    MergesFetch(source);
    assert CachedIds(TwoCaches, "issues") == ["1", "2"];
    assert CachedIds(TwoCaches, "merges") == ["9"];
    assert TwoFeeds[..1] == [Issues];
    assert [Issues][..0] == [];
    assert Diff([Issues], TwoCaches, source) == [IssuesResult];
  }

  lemma TwoFeedsRecord()
    ensures Record(TwoCaches, [IssuesResult, MergesResult])["merges"] == ["9"]
  {
    assert [IssuesResult, MergesResult][..1] == [IssuesResult];
    assert [IssuesResult][..0] == [];
    var afterIssues := Record(TwoCaches, [IssuesResult]);
    assert Record(TwoCaches, []) == TwoCaches;
    assert afterIssues == TwoCaches["issues" := CachedIds(TwoCaches, "issues") + Ids([Entry3])];
    assert "merges" != "issues";
    assert TwoCaches["merges"] == ["9"];
    assert CachedIds(afterIssues, "merges") == ["9"];
    assert Ids([]) == [];
  }

  lemma TwoFeedsReports(config: MailConfig)
    ensures Configured(TwoFeeds, [IssuesResult, MergesResult])
    ensures MailReports(config, TwoFeeds, [IssuesResult, MergesResult])
         == [Preview("issues", ComposeMail(config, "Project issues", [Entry3]))]
  {
    assert TwoFeeds[0].name == "issues" && TwoFeeds[1].name == "merges";
    assert HasFeed(TwoFeeds, "issues") && HasFeed(TwoFeeds, "merges");
    assert FeedNamed(TwoFeeds, "issues") == Some(Issues);
    var mail := ComposeMail(config, "Project issues", [Entry3]);
    assert ReportFor(config, TwoFeeds, IssuesResult) == Preview("issues", mail);
    assert [IssuesResult, MergesResult][..1] == [IssuesResult];
    assert [IssuesResult][..0] == [];
    assert MailReports(config, TwoFeeds, [IssuesResult]) == [Preview("issues", mail)];
  }

  /**
    Two feeds, only one with something new: exactly one mail goes out, the one composed
    with that feed's title, and the other feed's cached ids are left as they were.
   */
  lemma TwoFeedsScenario(config: MailConfig, source: Source)
    requires source(IssuesUrl) == [Raw1, Raw2, Raw3]
    requires source(MergesUrl) == [Raw9]
    ensures Configured(TwoFeeds, Diff(TwoFeeds, TwoCaches, source))
    ensures var results := Diff(TwoFeeds, TwoCaches, source);
      var sent := SentMails(RunEffects(config, false, Record(TwoCaches, results), MailReports(config, TwoFeeds, results)));
      && sent == [ComposeMail(config, Issues.title, [Entry3])]
      && Record(TwoCaches, results)["merges"] == ["9"]
  {
    TwoFeedsDiff(source);
    TwoFeedsRecord();
    TwoFeedsReports(config);
    var results := [IssuesResult, MergesResult];
    var reports := MailReports(config, TwoFeeds, results);
    RunDeliversReports(config, Record(TwoCaches, results), reports);
    assert MailsOf(reports) == [ComposeMail(config, "Project issues", [Entry3])];
  }
}
