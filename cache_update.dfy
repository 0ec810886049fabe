/**
  What `Runner.fetch_all` computes over a whole run: the per-feed diff against
  the cache as loaded, and the cache with every feed's new ids appended.
 */
module CacheUpdate {
  import opened Feeds

  /** Feed name to the ids already notified for it, in the order they were seen. */
  type Cache = map<string, seq<string>>

  /** One entry of the dictionary `fetch_all` returns. */
  datatype FeedResult = FeedResult(name: string, entries: seq<FeedEntry>)

  /** `feeds_cache.get(name, [])`: a feed never seen before has no known ids. */
  function CachedIds(cache: Cache, name: string): (ids: seq<string>)
    ensures name in cache ==> ids == cache[name]
    ensures name !in cache ==> ids == []
  {
    if name in cache then cache[name] else []
  }

  function ResultNames(results: seq<FeedResult>): seq<string>
  {
    seq(|results|, i requires 0 <= i < |results| => results[i].name)
  }

  /** The result of `fetch_all`: every configured feed in order, with its entries new against `cache`. */
  function Diff(feeds: seq<Feed>, cache: Cache, source: Source): seq<FeedResult>
  {
    if feeds == [] then []
    else
      var feed := feeds[|feeds| - 1];
      Diff(feeds[..|feeds| - 1], cache, source)
        + [FeedResult(feed.name, NewEntries(feed, CachedIds(cache, feed.name), source))]
  }

  /** The cache after each result's ids were appended to its feed's list, one result after the other. */
  function Record(cache: Cache, results: seq<FeedResult>): Cache
  {
    if results == [] then cache
    else
      var r := results[|results| - 1];
      var c := Record(cache, results[..|results| - 1]);
      c[r.name := CachedIds(c, r.name) + Ids(r.entries)]
  }

  /**
    There is one result per configured feed, in configuration order, even when it is
    empty, and each feed is diffed only against its own list in the cache as loaded.
   */
  lemma {:induction false} DiffCoversEveryFeed(feeds: seq<Feed>, cache: Cache, source: Source)
    ensures |Diff(feeds, cache, source)| == |feeds|
    ensures forall i :: 0 <= i < |feeds| ==>
      Diff(feeds, cache, source)[i] == FeedResult(feeds[i].name, NewEntries(feeds[i], CachedIds(cache, feeds[i].name), source))
    decreases |feeds|
  {
    if feeds != [] {
      var init := feeds[..|feeds| - 1];
      DiffCoversEveryFeed(init, cache, source);
      var d := Diff(feeds, cache, source);
      forall i | 0 <= i < |feeds|
        ensures d[i] == FeedResult(feeds[i].name, NewEntries(feeds[i], CachedIds(cache, feeds[i].name), source))
      {
        if i < |init| {
          assert init[i] == feeds[i];
        }
      }
    }
  }

  /** The diff's result for feed `i`, on its own. */
  lemma DiffAt(feeds: seq<Feed>, cache: Cache, source: Source, i: int)
    requires 0 <= i < |feeds|
    ensures |Diff(feeds, cache, source)| == |feeds|
    ensures Diff(feeds, cache, source)[i] == FeedResult(feeds[i].name, NewEntries(feeds[i], CachedIds(cache, feeds[i].name), source))
  {
    DiffCoversEveryFeed(feeds, cache, source);
  }

  /** One more feed adds its result at the end. */
  lemma DiffStep(feeds: seq<Feed>, cache: Cache, source: Source, i: int)
    requires 0 <= i < |feeds|
    ensures Diff(feeds[..i + 1], cache, source)
         == Diff(feeds[..i], cache, source) + [FeedResult(feeds[i].name, NewEntries(feeds[i], CachedIds(cache, feeds[i].name), source))]
  {
    assert feeds[..i + 1][..i] == feeds[..i];
  }

  /** One more result replaces its feed's list by that list followed by the result's ids. */
  lemma RecordStep(cache: Cache, results: seq<FeedResult>, r: FeedResult)
    ensures Record(cache, results + [r])
         == Record(cache, results)[r.name := CachedIds(Record(cache, results), r.name) + Ids(r.entries)]
  {
    assert (results + [r])[..|results|] == results;
  }

  lemma DiffNames(feeds: seq<Feed>, cache: Cache, source: Source)
    ensures ResultNames(Diff(feeds, cache, source)) == FeedNames(feeds)
  {
    DiffCoversEveryFeed(feeds, cache, source);
  }

  /** The keys afterwards: the old keys together with the name of every result. */
  lemma {:induction false} RecordKeys(cache: Cache, results: seq<FeedResult>)
    ensures Record(cache, results).Keys == cache.Keys + set i | 0 <= i < |results| :: results[i].name
    decreases |results|
  {
    if results != [] {
      var init := results[..|results| - 1];
      RecordKeys(cache, init);
      assert (set i | 0 <= i < |results| :: results[i].name)
          == (set i | 0 <= i < |init| :: init[i].name) + {results[|results| - 1].name} by {
        forall i | 0 <= i < |init| ensures init[i] == results[i] { }
      }
    }
  }

  /** A name no result carries keeps its entry, or its absence, exactly. */
  lemma {:induction false} RecordOthersUnchanged(cache: Cache, results: seq<FeedResult>, name: string)
    requires name !in ResultNames(results)
    ensures name in Record(cache, results) <==> name in cache
    ensures name in cache ==> Record(cache, results)[name] == cache[name]
    decreases |results|
  {
    if results != [] {
      var init := results[..|results| - 1];
      assert forall i :: 0 <= i < |init| ==> ResultNames(init)[i] == ResultNames(results)[i];
      assert ResultNames(results)[|results| - 1] == results[|results| - 1].name;
      RecordOthersUnchanged(cache, init, name);
    }
  }

  /** Every cached id stays where it was: the old list is a prefix of the new one. */
  lemma {:induction false} RecordMonotone(cache: Cache, results: seq<FeedResult>, name: string)
    requires name in cache
    ensures name in Record(cache, results) && cache[name] <= Record(cache, results)[name]
    decreases |results|
  {
    if results != [] {
      RecordMonotone(cache, results[..|results| - 1], name);
    }
  }

  /** With distinct names, a feed's list becomes its old list (or `[]`) followed by its new ids in result order. */
  lemma {:induction false} RecordAppends(cache: Cache, results: seq<FeedResult>, i: int)
    requires Distinct(ResultNames(results))
    requires 0 <= i < |results|
    ensures results[i].name in Record(cache, results)
    ensures Record(cache, results)[results[i].name] == CachedIds(cache, results[i].name) + Ids(results[i].entries)
    decreases |results|
  {
    var n := |results|;
    var init := results[..n - 1];
    assert forall k :: 0 <= k < |init| ==> ResultNames(init)[k] == ResultNames(results)[k];
    if i == n - 1 {
      forall k | 0 <= k < |init| ensures ResultNames(init)[k] != results[i].name {
        assert ResultNames(results)[k] != ResultNames(results)[i];
      }
      RecordOthersUnchanged(cache, init, results[i].name);
    } else {
      assert ResultNames(results)[i] != ResultNames(results)[n - 1];
      RecordAppends(cache, init, i);
    }
  }

  /** Before feed `i` is handled, the cache still holds that feed's list as loaded. */
  lemma LookupBeforeRecorded(feeds: seq<Feed>, cache: Cache, source: Source, i: int)
    requires Distinct(FeedNames(feeds))
    requires 0 <= i < |feeds|
    ensures CachedIds(Record(cache, Diff(feeds[..i], cache, source)), feeds[i].name) == CachedIds(cache, feeds[i].name)
  {
    var done := Diff(feeds[..i], cache, source);
    DiffNames(feeds[..i], cache, source);
    forall k | 0 <= k < |done| ensures ResultNames(done)[k] != feeds[i].name {
      assert FeedNames(feeds)[k] != FeedNames(feeds)[i];
    }
    RecordOthersUnchanged(cache, done, feeds[i].name);
  }

  /** After recording the results of a run, feed `i` has nothing new in the same raw entries. */
  lemma SeenAfterRecord(feeds: seq<Feed>, cache: Cache, source: Source, i: int)
    requires Distinct(FeedNames(feeds))
    requires 0 <= i < |feeds|
    ensures NewEntries(feeds[i], CachedIds(Record(cache, Diff(feeds, cache, source)), feeds[i].name), source) == []
  {
    var first := Diff(feeds, cache, source);
    DiffCoversEveryFeed(feeds, cache, source);
    DiffNames(feeds, cache, source);
    RecordAppends(cache, first, i);
    UnseenAfterRecording(FromRawFeedEntries(RawEntries(feeds[i].urls, source)), CachedIds(cache, feeds[i].name));
  }

  /**
    No notification twice: after a run recorded its results, a run that sees the same
    raw entries finds nothing new for any configured feed.
   */
  lemma NoDuplicateNotification(feeds: seq<Feed>, cache: Cache, source: Source)
    requires Distinct(FeedNames(feeds))
    ensures var again := Diff(feeds, Record(cache, Diff(feeds, cache, source)), source);
      |again| == |feeds| && forall i :: 0 <= i < |again| ==> again[i].entries == []
  {
    var updated := Record(cache, Diff(feeds, cache, source));
    var again := Diff(feeds, updated, source);
    DiffCoversEveryFeed(feeds, updated, source);
    forall i | 0 <= i < |again| ensures again[i].entries == [] {
      DiffAt(feeds, updated, source, i);
      SeenAfterRecord(feeds, cache, source, i);
    }
  }
}
