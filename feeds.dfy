/**
  Feed entries, configured feeds, and what one feed's `fetch` computes:
  the entries of all its URLs, in order, whose id is not yet known.
 */
module Feeds {
  import opened Wrappers

  type Url = string

  /** An entry as the feed parser delivers it; its link is still called `link`. */
  datatype RawEntry = RawEntry(id: string, title: string, author: string, link: string)

  /** An entry of a feed. Its `id` alone decides whether it was notified before. */
  datatype FeedEntry = FeedEntry(id: string, title: string, author: string, url: string)

  /** A configured feed: its key in the cache, its display title, and the URLs it is read from. */
  datatype Feed = Feed(name: string, title: string, urls: seq<Url>)

  /** The feed parser during one run: the entries it hands back for each URL. */
  type Source = Url -> seq<RawEntry>

  /** `FeedEntry.from_raw_feed_entry`: the parser's `link` becomes the entry's `url`. */
  function FromRawFeedEntry(raw: RawEntry): (e: FeedEntry)
    ensures e.id == raw.id && e.title == raw.title && e.author == raw.author
    ensures e.url == raw.link
  {
    FeedEntry(raw.id, raw.title, raw.author, raw.link)
  }

  function FromRawFeedEntries(raws: seq<RawEntry>): seq<FeedEntry>
  {
    seq(|raws|, i requires 0 <= i < |raws| => FromRawFeedEntry(raws[i]))
  }

  /** The ids of `entries`, in order. */
  function Ids(entries: seq<FeedEntry>): seq<string>
  {
    seq(|entries|, i requires 0 <= i < |entries| => entries[i].id)
  }

  function FeedNames(feeds: seq<Feed>): seq<string>
  {
    seq(|feeds|, i requires 0 <= i < |feeds| => feeds[i].name)
  }

  predicate Distinct(names: seq<string>)
  {
    forall i, j :: 0 <= i < j < |names| ==> names[i] != names[j]
  }

  predicate HasFeed(feeds: seq<Feed>, name: string)
  {
    exists i :: 0 <= i < |feeds| && feeds[i].name == name
  }

  /** `feeds[i]` is the first feed called `name`. */
  predicate FirstNamed(feeds: seq<Feed>, name: string, i: int)
  {
    0 <= i < |feeds| && feeds[i].name == name &&
    forall j :: 0 <= j < i ==> feeds[j].name != name
  }

  /** The feed a search by name finds: the first one with that name, if any. */
  function FeedNamed(feeds: seq<Feed>, name: string): (r: Option<Feed>)
    ensures r.None? <==> !HasFeed(feeds, name)
    ensures r.Some? ==> exists i :: FirstNamed(feeds, name, i) && feeds[i] == r.value
  {
    if feeds == [] then None
    else if feeds[0].name == name then
      assert FirstNamed(feeds, name, 0);
      Some(feeds[0])
    else
      var r := FeedNamed(feeds[1..], name);
      assert HasFeed(feeds[1..], name) ==> HasFeed(feeds, name);
      assert HasFeed(feeds, name) ==> HasFeed(feeds[1..], name) by {
        if HasFeed(feeds, name) {
          var k :| 0 <= k < |feeds| && feeds[k].name == name;
          assert feeds[1..][k - 1].name == name;
        }
      }
      if r.Some? then
        var k :| FirstNamed(feeds[1..], name, k) && feeds[1..][k] == r.value;
        assert FirstNamed(feeds, name, k + 1);
        r
      else
        r
  }

  /** The raw entries of `urls`: URL after URL, each URL's entries in the parser's order. */
  function RawEntries(urls: seq<Url>, source: Source): seq<RawEntry>
  {
    if urls == [] then []
    else RawEntries(urls[..|urls| - 1], source) + source(urls[|urls| - 1])
  }

  /** The entries of `entries`, in their order, whose id is not among `knownIds`. */
  function Unseen(entries: seq<FeedEntry>, knownIds: seq<string>): seq<FeedEntry>
  {
    if entries == [] then []
    else
      var last := entries[|entries| - 1];
      var rest := Unseen(entries[..|entries| - 1], knownIds);
      if last.id in knownIds then rest else rest + [last]
  }

  /** What `feed.fetch(knownIds)` returns when the parser behaves as `source`. */
  function NewEntries(feed: Feed, knownIds: seq<string>, source: Source): seq<FeedEntry>
  {
    Unseen(FromRawFeedEntries(RawEntries(feed.urls, source)), knownIds)
  }

  /** `Feed.fetch_raw`: every URL's entries, concatenated in URL order. */
  method FetchRaw(feed: Feed, source: Source) returns (entries: seq<RawEntry>)
    ensures entries == RawEntries(feed.urls, source)
  {
    entries := [];
    for i := 0 to |feed.urls|
      invariant entries == RawEntries(feed.urls[..i], source)
    {
      assert feed.urls[..i + 1][..i] == feed.urls[..i];
      entries := entries + source(feed.urls[i]);
    }
    assert feed.urls[..|feed.urls|] == feed.urls;
  }

  /** `Feed.fetch`: the fetched entries whose id is not in `knownIds`, which it leaves alone. */
  method Fetch(feed: Feed, knownIds: seq<string>, source: Source) returns (entries: seq<FeedEntry>)
    ensures entries == NewEntries(feed, knownIds, source)
    ensures forall i :: 0 <= i < |entries| ==> entries[i].id !in knownIds
  {
    var raw := FetchRaw(feed, source);
    entries := [];
    for i := 0 to |raw|
      invariant entries == Unseen(FromRawFeedEntries(raw[..i]), knownIds)
    {
      var entry := FromRawFeedEntry(raw[i]);
      FromRawFeedEntriesStep(raw, i);
      UnseenStep(FromRawFeedEntries(raw[..i]), entry, knownIds);
      if entry.id !in knownIds {
        entries := entries + [entry];
      }
    }
    assert raw[..|raw|] == raw;
    UnseenIdsUnknown(FromRawFeedEntries(raw), knownIds);
  }

  lemma FromRawFeedEntriesStep(raws: seq<RawEntry>, i: int)
    requires 0 <= i < |raws|
    ensures FromRawFeedEntries(raws[..i + 1]) == FromRawFeedEntries(raws[..i]) + [FromRawFeedEntry(raws[i])]
  {
  }

  /** One more entry is kept exactly when its id is not known. */
  lemma UnseenStep(entries: seq<FeedEntry>, e: FeedEntry, knownIds: seq<string>)
    ensures Unseen(entries + [e], knownIds) == if e.id in knownIds then Unseen(entries, knownIds) else Unseen(entries, knownIds) + [e]
  {
    assert (entries + [e])[..|entries|] == entries;
  }

  /** No entry the diff keeps has a known id. */
  lemma UnseenIdsUnknown(entries: seq<FeedEntry>, knownIds: seq<string>)
    ensures forall i :: 0 <= i < |Unseen(entries, knownIds)| ==> Unseen(entries, knownIds)[i].id !in knownIds
  {
    var r := Unseen(entries, knownIds);
    UnseenMembership(entries, knownIds);
    forall i | 0 <= i < |r| ensures r[i].id !in knownIds {
      assert r[i] in r;
    }
  }

  // ----- properties of the raw fetch -----

  lemma {:induction false} RawEntriesAppend(a: seq<Url>, b: seq<Url>, source: Source)
    ensures RawEntries(a + b, source) == RawEntries(a, source) + RawEntries(b, source)
    decreases |b|
  {
    if b == [] {
      assert a + b == a;
    } else {
      var b' := b[..|b| - 1];
      assert (a + b)[..|a + b| - 1] == a + b';
      RawEntriesAppend(a, b', source);
    }
  }

  lemma {:induction false} RawEntriesMembership(urls: seq<Url>, source: Source, raw: RawEntry)
    ensures raw in RawEntries(urls, source) <==> exists k :: 0 <= k < |urls| && raw in source(urls[k])
    decreases |urls|
  {
    if urls != [] {
      var init := urls[..|urls| - 1];
      RawEntriesMembership(init, source, raw);
      if raw in RawEntries(urls, source) && raw !in source(urls[|urls| - 1]) {
        var k :| 0 <= k < |init| && raw in source(init[k]);
        assert urls[k] == init[k];
      }
      if exists k :: 0 <= k < |urls| && raw in source(urls[k]) {
        var k :| 0 <= k < |urls| && raw in source(urls[k]);
        if k < |init| {
          assert init[k] == urls[k];
        }
      }
    }
  }

  // ----- properties of the diff against known ids -----

  lemma {:induction false} UnseenAppend(a: seq<FeedEntry>, b: seq<FeedEntry>, knownIds: seq<string>)
    ensures Unseen(a + b, knownIds) == Unseen(a, knownIds) + Unseen(b, knownIds)
    decreases |b|
  {
    if b == [] {
      assert a + b == a;
    } else {
      var b' := b[..|b| - 1];
      assert (a + b)[..|a + b| - 1] == a + b';
      UnseenAppend(a, b', knownIds);
    }
  }

  lemma {:induction false} UnseenMembership(entries: seq<FeedEntry>, knownIds: seq<string>)
    ensures forall e :: e in Unseen(entries, knownIds) <==> e in entries && e.id !in knownIds
    decreases |entries|
  {
    if entries != [] {
      var init := entries[..|entries| - 1];
      UnseenMembership(init, knownIds);
      assert entries == init + [entries[|entries| - 1]];
    }
  }

  /** Duplicates within one fetch are all kept: only `knownIds` filters. */
  lemma {:induction false} UnseenMultiplicity(entries: seq<FeedEntry>, knownIds: seq<string>, e: FeedEntry)
    ensures multiset(Unseen(entries, knownIds))[e] == if e.id in knownIds then 0 else multiset(entries)[e]
    decreases |entries|
  {
    if entries != [] {
      var init := entries[..|entries| - 1];
      UnseenMultiplicity(init, knownIds, e);
      assert entries == init + [entries[|entries| - 1]];
    }
  }

  lemma UnseenEmptyIff(entries: seq<FeedEntry>, knownIds: seq<string>)
    ensures Unseen(entries, knownIds) == [] <==> forall i :: 0 <= i < |entries| ==> entries[i].id in knownIds
  {
    UnseenMembership(entries, knownIds);
    var r := Unseen(entries, knownIds);
    if r != [] {
      assert r[0] in r;
    } else {
      forall i | 0 <= i < |entries| ensures entries[i].id in knownIds {
        assert entries[i] in entries;
      }
    }
  }

  lemma {:induction false} UnseenOfFresh(entries: seq<FeedEntry>, knownIds: seq<string>)
    requires forall i :: 0 <= i < |entries| ==> entries[i].id !in knownIds
    ensures Unseen(entries, knownIds) == entries
    decreases |entries|
  {
    if entries != [] {
      var init := entries[..|entries| - 1];
      UnseenOfFresh(init, knownIds);
      assert entries == init + [entries[|entries| - 1]];
    }
  }

  /** Diffing the result again against the same ids changes nothing. */
  lemma UnseenIdempotent(entries: seq<FeedEntry>, knownIds: seq<string>)
    ensures Unseen(Unseen(entries, knownIds), knownIds) == Unseen(entries, knownIds)
  {
    var r := Unseen(entries, knownIds);
    UnseenMembership(entries, knownIds);
    forall i | 0 <= i < |r| ensures r[i].id !in knownIds {
      assert r[i] in r;
    }
    UnseenOfFresh(r, knownIds);
  }

  /** Once the new ids are appended to the known ids, the same entries yield nothing new. */
  lemma UnseenAfterRecording(entries: seq<FeedEntry>, knownIds: seq<string>)
    ensures Unseen(entries, knownIds + Ids(Unseen(entries, knownIds))) == []
  {
    var r := Unseen(entries, knownIds);
    var known' := knownIds + Ids(r);
    UnseenMembership(entries, knownIds);
    forall i | 0 <= i < |entries| ensures entries[i].id in known' {
      if entries[i].id !in knownIds {
        assert entries[i] in r;
        var j :| 0 <= j < |r| && r[j] == entries[i];
        assert Ids(r)[j] == entries[i].id;
        assert known'[|knownIds| + j] == entries[i].id;
      }
    }
    UnseenEmptyIff(entries, known');
  }
}
