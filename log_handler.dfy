/** The crawler's shared log helpers (`save_ids_log` with a count, `count_total_downloaded`,
    `load_cache`, `update_cache`). They share the log reader, the identifier filter
    and the create-only document write with the crawler proper; this variant of the
    cache keeps whatever keys the file has and only ever raises the count. */
module LogHandler {
  import opened Wrappers
  import opened Text
  import opened Files
  import opened CrawlerStore

  /** `save_ids_log(new_ids, is_precheck)`: appends the identifiers not yet in the log
      and returns how many it appended; the flag only silences a message. */
  method SaveIdsLogCounted(disk: Disk, ids: seq<string>, isPrecheck: bool) returns (n: nat)
    modifies disk
    ensures disk.log == old(disk.log) + Unlogged(ids, LoggedIds(old(disk.log)))
    ensures n == |disk.log| - |old(disk.log)|
    ensures disk.docs == old(disk.docs) && disk.cache == old(disk.cache) && disk.cursor == old(disk.cursor)
  {
    var added := Unlogged(ids, LoggedIds(disk.log));
    if added != [] {
      disk.log := disk.log + added;
    }
    n := |added|;
  }

  /** `count_total_downloaded()`: the number of lines in the log. */
  function CountTotalDownloaded(log: seq<string>): (r: nat)
    ensures r >= |LoggedIds(log)|
  {
    LoggedIdsBound(log);
    |log|
  }

  /** There are never more distinct logged identifiers than log lines. */
  lemma {:induction false} LoggedIdsBound(log: seq<string>)
    ensures |LoggedIds(log)| <= |log|
  {
    if log != [] {
      var init := log[..|log| - 1];
      var last := log[|log| - 1];
      assert log == init + [last];
      LoggedIdsBound(init);
      LoggedIdsAppend(init, [last]);
      LoggedIdsSingle(last);
    }
  }

  /** The line count includes duplicates: a log holding the same identifier twice
      counts two downloads of one identifier. */
  lemma CountIncludesDuplicates(id: string)
    ensures CountTotalDownloaded([id, id]) == 2 && |LoggedIds([id, id])| == 1
  {
    assert [id, id] == [id] + [id];
    LoggedIdsAppend([id], [id]);
    LoggedIdsSingle(id);
    var s := Strip(id);
    assert LoggedIds([id, id]) == {s} + {s};
    assert {s} + {s} == {s};
  }

  /** `load_cache()` of this variant: the cache file as it is, or a zero count with no
      other keys when there is no file. */
  function LoadRawCache(f: Option<Cache>): (r: Cache)
    ensures f.None? ==> r == Cache(0, None)
    ensures f.Some? ==> r == f.value
  {
    if f.None? then Cache(0, None) else f.value
  }

  /** The cache file after `update_cache(n)`. */
  function Updated(f: Option<Cache>, n: int): (r: Cache)
    ensures r.downloadedCount == LoadRawCache(f).downloadedCount + n
    ensures r.itemIds == LoadRawCache(f).itemIds
  {
    var c := LoadRawCache(f);
    Cache(c.downloadedCount + n, c.itemIds)
  }

  /** `update_cache(new_files_count)`. */
  method UpdateCache(disk: Disk, n: int)
    modifies disk
    ensures disk.cache == Some(Updated(old(disk.cache), n))
    ensures disk.docs == old(disk.docs) && disk.log == old(disk.log) && disk.cursor == old(disk.cursor)
  {
    var cache := LoadRawCache(disk.cache);
    cache := Cache(cache.downloadedCount + n, cache.itemIds);
    disk.cache := Some(cache);
  }

  /** Two updates add up, and neither touches the identifiers. */
  lemma UpdatesAdd(f: Option<Cache>, a: int, b: int)
    ensures Updated(Some(Updated(f, a)), b) == Updated(f, a + b)
  {
  }

  /** Counting the lines a logging call appended: the count grows by exactly what the
      call returns. */
  lemma CountAfterLogging(log: seq<string>, ids: seq<string>)
    ensures CountTotalDownloaded(log + Unlogged(ids, LoggedIds(log)))
      == CountTotalDownloaded(log) + |Unlogged(ids, LoggedIds(log))|
  {
  }
}
