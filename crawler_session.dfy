/** One crawler session (`collect_data`): resume at the stored cursor, check the
    identifier log, the summary cache and the document directory against each other
    and repair them, then download new items a batch at a time, asking the user before
    every batch when a limit is given. */
module CrawlerSession {
  import opened Wrappers
  import opened Json
  import opened Text
  import opened Files
  import opened RetryPolicy
  import opened CursorStore
  import opened CrawlerApi
  import opened CrawlerStore
  import opened SessionSpec

  /** `list(s)` of a Python set: its elements once each, in some order. */
  method ListOfSet(s: set<string>) returns (xs: seq<string>)
    ensures forall x :: x in xs <==> x in s
    ensures Distinct(xs)
  {
    xs := [];
    var rest := s;
    while rest != {}
      invariant forall x :: x in xs <==> x in s - rest
      invariant rest <= s
      invariant Distinct(xs)
      decreases |rest|
    {
      var x :| x in rest;
      assert x !in xs;
      assert forall y :: y in xs + [x] <==> y in xs || y == x;
      xs := xs + [x];
      rest := rest - {x};
    }
  }

  /** The consistency check: over every identifier that is logged or cached, those
      whose document exists but which are not logged, and those whose document is
      missing although they are cached. Set iteration order is left open. */
  method Reconcile(existing: set<string>, cached: set<string>, files: set<string>)
    returns (missingInLog: seq<string>, missingJson: seq<string>)
    ensures forall x :: x in missingInLog <==>
      x in existing + cached && StorageKey(x) in files && x !in existing
    ensures forall x :: x in missingJson <==>
      x in existing + cached && StorageKey(x) !in files && x in cached
    ensures forall x :: x in missingInLog ==> x in cached - existing
    ensures Distinct(missingInLog) && Distinct(missingJson)
  {
    missingInLog, missingJson := [], [];
    var rest := existing + cached;
    while rest != {}
      invariant rest <= existing + cached
      invariant forall x :: x in missingInLog <==>
        x in (existing + cached) - rest && StorageKey(x) in files && x !in existing
      invariant forall x :: x in missingJson <==>
        x in (existing + cached) - rest && StorageKey(x) !in files && x in cached
      invariant Distinct(missingInLog) && Distinct(missingJson)
      decreases |rest|
    {
      var id :| id in rest;
      var jsonExists := StorageKey(id) in files;
      var logExists := id in existing;
      if jsonExists && !logExists {
        missingInLog := missingInLog + [id];
      }
      if !jsonExists && id in cached {
        missingJson := missingJson + [id];
      }
      rest := rest - {id};
    }
  }

  /** Repairing the log: when some logged-or-cached documents are not logged, every
      cached identifier that is not logged is logged, documents present or not;
      `logged` is the list handed to `save_ids_log`. */
  method RepairLog(disk: Disk, missingInLog: seq<string>, existing: set<string>, cached: set<string>)
    returns (logged: seq<string>)
    modifies disk
    requires LoggedIds(disk.log) == existing
    ensures missingInLog == [] ==> logged == [] && disk.log == old(disk.log) && disk.cache == old(disk.cache)
    ensures missingInLog != [] ==>
      && (forall x :: x in logged <==> x in missingInLog || x in cached - existing)
      && Distinct(logged)
      && disk.log == old(disk.log) + Unlogged(logged, existing)
      && disk.cache == (if Unlogged(logged, existing) == [] then old(disk.cache)
                        else Some(CacheWithLogged(old(disk.cache), Unlogged(logged, existing))))
    ensures missingInLog != [] ==> forall x :: x in cached - existing ==> Strip(x) in LoggedIds(disk.log)
    ensures old(disk.log) <= disk.log
    ensures disk.docs == old(disk.docs) && disk.cursor == old(disk.cursor)
  {
    logged := [];
    if missingInLog != [] {
      logged := ListOfSet((set x | x in missingInLog) + (cached - existing));
      LogAfterSave(disk.log, logged);
      SaveIdsLog(disk, logged);
    }
  }

  /** Identifiers none of which is logged are all appended. */
  lemma {:induction false} NoneLogged(ids: seq<string>, logged: set<string>)
    requires forall x :: x in ids ==> x !in logged
    ensures Unlogged(ids, logged) == ids
  {
    if ids != [] {
      NoneLogged(ids[1..], logged);
    }
  }

  /** `executor.map(fetch_and_save, ids)`, in order: the documents, the network and
      the reported files are those of the download run over `ids`. */
  method DownloadAll(disk: Disk, net: Network, ids: seq<string>) returns (results: seq<Option<string>>)
    modifies disk, net
    ensures Fetch(disk.docs, net.replies, net.requests, net.sleeps, results)
         == DownloadRun(old(disk.docs), old(net.replies), old(net.requests), old(net.sleeps), ids)
    ensures |results| == |ids|
    ensures Extends(old(disk.docs), disk.docs)
    ensures |disk.docs| == |old(disk.docs)| + |Succeeded(ids, results)|
    ensures forall x :: x in Succeeded(ids, results) ==> StorageKey(x) in disk.docs
    ensures disk.log == old(disk.log) && disk.cache == old(disk.cache) && disk.cursor == old(disk.cursor)
  {
    ghost var total := DownloadRun(disk.docs, net.replies, net.requests, net.sleeps, ids);
    results := [];
    for i := 0 to |ids|
      invariant var rest := DownloadRun(disk.docs, net.replies, net.requests, net.sleeps, ids[i..]);
        total == Fetch(rest.docs, rest.replies, rest.requests, rest.sleeps, results + rest.results)
      invariant disk.log == old(disk.log) && disk.cache == old(disk.cache) && disk.cursor == old(disk.cursor)
    {
      ghost var rest := DownloadRun(disk.docs, net.replies, net.requests, net.sleeps, ids[i..]);
      var path := FetchAndSave(disk, net, ids[i]);
      ghost var rest' := DownloadRun(disk.docs, net.replies, net.requests, net.sleeps, ids[i + 1..]);
      assert ids[i..][0] == ids[i] && ids[i..][1..] == ids[i + 1..];
      assert rest.results == [path] + rest'.results;
      assert results + [path] + rest'.results == results + rest.results;
      results := results + [path];
    }
    DownloadRunSpec(old(disk.docs), old(net.replies), old(net.requests), old(net.sleeps), ids);
    SucceededSpec(ids, results);
  }

  /** Logging a finished batch and folding it into the in-memory cache, which is then
      written out: the count grows by the number of downloads and the identifiers
      become the union of the old ones and the batch's. */
  method RecordBatch(disk: Disk, cache: Cache, downloaded: seq<string>) returns (cache': Cache)
    modifies disk
    ensures cache'.downloadedCount == cache.downloadedCount + |downloaded|
    ensures cache'.itemIds.Some?
    ensures forall x :: x in IdList(cache') <==> x in IdList(cache) || x in downloaded
    ensures disk.cache == Some(cache')
    ensures disk.log == old(disk.log) + Unlogged(downloaded, LoggedIds(old(disk.log)))
    ensures forall x :: x in downloaded ==> Strip(x) in LoggedIds(disk.log)
    ensures disk.docs == old(disk.docs) && disk.cursor == old(disk.cursor)
  {
    LogAfterSave(disk.log, downloaded);
    SaveIdsLog(disk, downloaded);
    cache' := CacheBatch(disk, cache, downloaded);
  }

  /** The identifiers of the cache and of the batch, together. */
  function Union(ids: seq<string>, more: seq<string>): (r: set<string>)
    ensures forall x :: x in r <==> x in ids || x in more
  {
    (set x | x in ids) + (set x | x in more)
  }

  /** Folding a batch into the in-memory cache and writing the cache out. */
  method CacheBatch(disk: Disk, cache: Cache, downloaded: seq<string>) returns (cache': Cache)
    modifies disk
    ensures cache'.downloadedCount == cache.downloadedCount + |downloaded|
    ensures cache'.itemIds.Some?
    ensures forall x :: x in IdList(cache') <==> x in IdList(cache) || x in downloaded
    ensures disk.cache == Some(cache')
    ensures disk.log == old(disk.log) && disk.docs == old(disk.docs) && disk.cursor == old(disk.cursor)
  {
    var ids := ListOfSet(Union(IdList(cache), downloaded));
    cache' := Cache(cache.downloadedCount + |downloaded|, Some(ids));
    SaveCache(disk, cache');
  }

  /** Steps 4 and 5 of a batch: download the selected items, log those that produced a
      file, and count them in the cache. */
  method DownloadBatch(disk: Disk, net: Network, cache: Cache, selected: seq<string>)
    returns (cache': Cache, downloaded: seq<string>)
    modifies disk, net
    ensures var run := DownloadRun(old(disk.docs), old(net.replies), old(net.requests), old(net.sleeps), selected);
      && downloaded == Succeeded(selected, run.results)
      && disk.docs == run.docs && net.replies == run.replies
      && net.requests == run.requests && net.sleeps == run.sleeps
    ensures Extends(old(disk.docs), disk.docs)
    ensures |disk.docs| == |old(disk.docs)| + |downloaded|
    ensures disk.log == old(disk.log) + Unlogged(downloaded, LoggedIds(old(disk.log)))
    ensures cache'.downloadedCount == cache.downloadedCount + |downloaded|
    ensures cache'.itemIds.Some?
    ensures forall x :: x in IdList(cache') <==> x in IdList(cache) || x in downloaded
    ensures disk.cache == Some(cache')
    ensures disk.cursor == old(disk.cursor)
  {
    var results := DownloadAll(disk, net, selected);
    downloaded := Succeeded(selected, results);
    cache' := RecordBatch(disk, cache, downloaded);
  }

  /** The rest of a turn once the user has agreed or was not asked: fetch a page,
      select the new identifiers, download a batch of them and store the next cursor.
      `outcome` is why the loop ends here, if it does; `batched` says whether a batch
      was downloaded and recorded. */
  method NextBatch(disk: Disk, net: Network, console: Console, cursor: Option<string>, cache: Cache, p: Params)
    returns (outcome: Option<Stop>, batched: bool, cursor': Option<string>, cache': Cache, downloaded: seq<string>)
    modifies disk, net
    ensures var s := AfterAnswer(old(Observe(disk, net, console)), cursor, ViewOf(cache), p);
      && outcome == s.outcome && Observe(disk, net, console) == s.world && cursor' == s.cursor
      && ViewOf(cache') == s.cache && downloaded == s.downloaded
    ensures batched <==> outcome.None? || outcome == Some(LastPage)
    ensures !batched ==> disk.cache == old(disk.cache)
  {
    ghost var w := Observe(disk, net, console);
    var items, next := FetchItemIds(disk, net, cursor, p.deny);
    ghost var w' := Observe(disk, net, console);
    assert w' == AfterSearch(w, cursor, p.deny);
    var selected := NewIds(items, p.existing, p.cached);
    AfterAnswerIs(w, cursor, ViewOf(cache), p, Page(items, next), w', selected);
    if items == [] {
      return Some(NoMoreItems), false, cursor, cache, [];
    }
    if selected == [] {
      return Some(NoNewItems), false, next, cache, [];
    }
    cache', downloaded := DownloadBatch(disk, net, cache, Take(selected, BatchLimit(p)));
    RecordedIs(w', cache, DownloadRun(w'.docs, w'.replies, w'.requests, w'.sleeps, Take(selected, BatchLimit(p))),
               cache', downloaded);
    if next.Some? && next.value != "" {
      SaveCursor(disk, next);
      return None, true, next, cache', downloaded;
    }
    return Some(LastPage), true, next, cache', downloaded;
  }

  /** One turn of the download loop: ask when there is a limit, then fetch a page and
      download a batch of its new identifiers. */
  method Round(disk: Disk, net: Network, console: Console, cursor: Option<string>, cache: Cache, p: Params)
    returns (outcome: Option<Stop>, batched: bool, cursor': Option<string>, cache': Cache, downloaded: seq<string>)
    modifies disk, net, console
    ensures var s := RoundStep(old(Observe(disk, net, console)), cursor, ViewOf(cache), p);
      && outcome == s.outcome && Observe(disk, net, console) == s.world && cursor' == s.cursor
      && ViewOf(cache') == s.cache && downloaded == s.downloaded
    ensures batched <==> outcome.None? || outcome == Some(LastPage)
    ensures !batched ==> disk.cache == old(disk.cache)
  {
    RoundStepIs(Observe(disk, net, console), cursor, ViewOf(cache), p);
    if p.limit.Some? {
      var yes := Ask(console);
      if !yes {
        return Some(Declined), false, cursor, cache, [];
      }
    }
    outcome, batched, cursor', cache', downloaded := NextBatch(disk, net, console, cursor, cache, p);
  }

  /** The download loop of `collect_data`: from `cursor0`, turn until a turn gives a
      reason to stop; the session ends as `Loop` computes. */
  method DownloadNewItems(disk: Disk, net: Network, console: Console, cursor0: Option<string>,
                          cache0: Cache, p: Params)
    returns (stop: Stop, batches: nat, fetched: nat)
    modifies disk, net, console
    ensures var r := Loop(old(Observe(disk, net, console)), cursor0, ViewOf(cache0), p);
      && stop == r.stop && Observe(disk, net, console) == r.world
      && batches == r.batches && fetched == r.fetched
    ensures batches == 0 ==> disk.cache == old(disk.cache)
  {
    ghost var total := Loop(Observe(disk, net, console), cursor0, ViewOf(cache0), p);
    var cursor := cursor0;
    var cache := cache0;
    batches, fetched := 0, 0;
    while true
      invariant Continues(total, Loop(Observe(disk, net, console), cursor, ViewOf(cache), p), batches, fetched)
      invariant batches == 0 ==> disk.cache == old(disk.cache)
      decreases |net.replies|
    {
      var outcome;
      outcome, cursor, cache, batches, fetched := LoopTurn(disk, net, console, cursor, cache, p, batches, fetched, total);
      if outcome.Some? {
        return outcome.value, batches, fetched;
      }
    }
  }

  /** One turn of the download loop, read as one step of `Loop`: the turns so far
      and this one lead to `total`, which either ends here or goes on from the new
      state. */
  method LoopTurn(disk: Disk, net: Network, console: Console, cursor: Option<string>, cache: Cache, p: Params,
                  batches: nat, fetched: nat, ghost total: Session)
    returns (outcome: Option<Stop>, cursor': Option<string>, cache': Cache, batches': nat, fetched': nat)
    requires Continues(total, Loop(Observe(disk, net, console), cursor, ViewOf(cache), p), batches, fetched)
    modifies disk, net, console
    ensures outcome.Some? ==>
      total == Session(outcome.value, Observe(disk, net, console), ViewOf(cache'), batches', fetched')
    ensures outcome.None? ==>
      && |net.replies| < |old(net.replies)|
      && Continues(total, Loop(Observe(disk, net, console), cursor', ViewOf(cache'), p), batches', fetched')
    ensures batches <= batches' && (batches' == batches ==> disk.cache == old(disk.cache))
  {
    ghost var w := Observe(disk, net, console);
    ghost var s := RoundStep(w, cursor, ViewOf(cache), p);
    LoopStep(w, cursor, ViewOf(cache), p, s);
    var batched, downloaded;
    outcome, batched, cursor', cache', downloaded := Round(disk, net, console, cursor, cache, p);
    batches', fetched' := batches, fetched;
    if batched {
      batches', fetched' := batches + 1, fetched + |downloaded|;
    }
  }

  /** The cache the session starts from: reset to nothing when the document directory
      is empty, otherwise the cache file as loaded. */
  function StartCache(docs: map<string, Json>, f: Option<Cache>): (r: Cache)
    ensures |docs| == 0 ==> r == Cache(0, Some([]))
    ensures |docs| != 0 ==> r == LoadCache(f)
  {
    if |docs| == 0 then Cache(0, Some([])) else LoadCache(f)
  }

  /** The cursor the pre-check starts at: none when forced (the page fetch then falls
      back to the stored cursor anyway), otherwise the stored one or `*`. */
  function FirstCursor(forceDownload: bool, f: CursorFile): (r: Option<string>)
    ensures !forceDownload ==> r.Some? && (r.value == "*" || r == ReadCursor(f))
    ensures SearchCursor(r, f) == (if ReadCursor(f).Some? then ReadCursor(f)
                                   else if forceDownload then None else Some("*"))
  {
    if forceDownload then None
    else if ReadCursor(f).Some? then ReadCursor(f)
    else Some("*")
  }

  /** The parameters of the download loop of a session started on `docs`, `log` and
      the cache file `f`. */
  function SessionParams(docs: map<string, Json>, log: seq<string>, f: Option<Cache>, limit: Option<int>,
                         batchSize: int, deny: seq<string>): Params
  {
    Params(LoggedIds(log), (set x | x in IdList(StartCache(docs, f))), limit, batchSize, deny)
  }

  /** `collect_data(limit, force_download)`. `batchSize` is the crawler's
      `BATCH_SIZE`, used when there is no limit; `deny` is its list of excluded
      `dcType` values. `start` is the state the download loop begins in, after the
      pre-check and the repairs. */
  method CollectData(disk: Disk, net: Network, console: Console, limit: Option<int>,
                     forceDownload: bool, batchSize: int, deny: seq<string>)
    returns (stop: Stop, batches: nat, fetched: nat, ghost start: World,
             ghost missingInLog: seq<string>, ghost missingJson: seq<string>, ghost logged: seq<string>)
    modifies disk, net, console
    ensures var pre := PageOf(Retry(old(net.replies), MaxRetries).data, deny);
      stop == EmptyFirstPage <==> pre.items == []
    ensures var f := ResetCache(old(disk.docs), old(disk.cache));
      var mid := PreChecked(old(Observe(disk, net, console)), f, FirstCursor(forceDownload, old(disk.cursor)), deny);
      && (stop == EmptyFirstPage ==> Observe(disk, net, console) == mid && disk.cache == f)
      && (stop != EmptyFirstPage ==>
            var p := SessionParams(old(disk.docs), old(disk.log), old(disk.cache), limit, batchSize, deny);
            Repaired(mid, f, p.existing, p.cached, start, missingInLog, missingJson, logged))
    ensures var pre := PageOf(Retry(old(net.replies), MaxRetries).data, deny);
      stop == EmptyFirstPage ==>
        && batches == 0 && fetched == 0 && disk.docs == old(disk.docs) && disk.log == old(disk.log)
        && disk.cursor == WriteCursor(old(disk.cursor), pre.next)
        && console.asked == old(console.asked) && console.answers == old(console.answers)
    ensures disk.cache == old(disk.cache) || |old(disk.docs)| == 0 || stop != EmptyFirstPage
    ensures stop != EmptyFirstPage ==>
      var pre := PageOf(Retry(old(net.replies), MaxRetries).data, deny);
      var cache := StartCache(old(disk.docs), old(disk.cache));
      var r := Loop(start, ReadCursor(start.cursor), ViewOf(cache),
                    SessionParams(old(disk.docs), old(disk.log), old(disk.cache), limit, batchSize, deny));
      && start.cursor == WriteCursor(old(disk.cursor), pre.next)
      && start.answers == old(console.answers) && start.asked == old(console.asked)
      && Extends(old(disk.docs), start.docs) && old(disk.log) <= start.log
      && r.stop == stop && r.world == Observe(disk, net, console) && r.batches == batches && r.fetched == fetched
    ensures Extends(old(disk.docs), disk.docs)
    ensures |disk.docs| >= |old(disk.docs)| + fetched
    ensures old(disk.log) <= disk.log
    ensures stop == Declined ==> limit.Some?
    ensures limit.None? ==> console.asked == old(console.asked)
    ensures limit.Some? && stop != EmptyFirstPage ==>
      console.asked == old(console.asked) + batches + (if stop == LastPage then 0 else 1)
    ensures batches > 0 ==>
      && disk.cache.Some?
      && disk.cache.value.downloadedCount == StartCache(old(disk.docs), old(disk.cache)).downloadedCount + fetched
  {
    var items, cache, cachedIds, existing := PreCheck(disk, net, console, forceDownload, deny);
    if items == [] {
      start := Observe(disk, net, console);
      return EmptyFirstPage, 0, 0, start, [], [], [];
    }
    stop, batches, fetched, start, missingInLog, missingJson, logged :=
      RepairAndDownload(disk, net, console, cache, Params(existing, cachedIds, limit, batchSize, deny));
  }

  /** The start of `collect_data`: pick the first cursor, reset the cache when the
      document directory is empty, load the cache and the log, and fetch the
      pre-check page, which already stores that page's next cursor. */
  method PreCheck(disk: Disk, net: Network, console: Console, forceDownload: bool, deny: seq<string>)
    returns (items: seq<Json>, cache: Cache, cachedIds: set<string>, existing: set<string>)
    modifies disk, net
    ensures var f := ResetCache(old(disk.docs), old(disk.cache));
      && Observe(disk, net, console)
         == PreChecked(old(Observe(disk, net, console)), f, FirstCursor(forceDownload, old(disk.cursor)), deny)
      && disk.cache == f
    ensures items == PageOf(Retry(old(net.replies), MaxRetries).data, deny).items
    ensures cache == StartCache(old(disk.docs), old(disk.cache))
    ensures cachedIds == (set x | x in IdList(cache)) && existing == LoggedIds(disk.log)
  {
    ghost var w0 := Observe(disk, net, console);
    var cursor := FirstCursor(forceDownload, disk.cursor);
    if |disk.docs| == 0 {
      SaveCache(disk, Cache(0, Some([])));
    }
    cache := LoadCache(disk.cache);
    cachedIds := set x | x in IdList(cache);
    existing := LoggedIds(disk.log);
    ghost var f := disk.cache;
    assert f == ResetCache(old(disk.docs), old(disk.cache));
    var next;
    items, next := FetchItemIds(disk, net, cursor, deny);
    assert Observe(disk, net, console) == PreChecked(w0, f, cursor, deny);
  }

  /** The part of `collect_data` after a pre-check that found items: repair, reload
      the stored cursor and run the download loop. `start` is the state the loop
      begins in, which the repair reached as `Repaired` says. */
  method RepairAndDownload(disk: Disk, net: Network, console: Console, cache: Cache, p: Params)
    returns (stop: Stop, batches: nat, fetched: nat, ghost start: World,
             ghost missingInLog: seq<string>, ghost missingJson: seq<string>, ghost logged: seq<string>)
    requires LoggedIds(disk.log) == p.existing
    modifies disk, net, console
    ensures Repaired(old(Observe(disk, net, console)), old(disk.cache), p.existing, p.cached, start,
                     missingInLog, missingJson, logged)
    ensures var r := Loop(start, ReadCursor(start.cursor), ViewOf(cache), p);
      && start.cursor == old(disk.cursor)
      && start.answers == old(console.answers) && start.asked == old(console.asked)
      && Extends(old(disk.docs), start.docs) && old(disk.log) <= start.log
      && r.stop == stop && r.world == Observe(disk, net, console) && r.batches == batches && r.fetched == fetched
    ensures Extends(old(disk.docs), disk.docs)
    ensures |disk.docs| >= |old(disk.docs)| + fetched
    ensures old(disk.log) <= disk.log
    ensures AppendsOnly(start.log, disk.log, p.existing + p.cached)
    ensures stop != EmptyFirstPage
    ensures stop == Declined ==> p.limit.Some?
    ensures p.limit.None? ==> console.asked == old(console.asked)
    ensures p.limit.Some? ==> console.asked == old(console.asked) + batches + (if stop == LastPage then 0 else 1)
    ensures batches > 0 ==>
      disk.cache.Some? && disk.cache.value.downloadedCount == cache.downloadedCount + fetched
  {
    ghost var w := Observe(disk, net, console);
    var inLog, json, added := Repair(disk, net, p.existing, p.cached);
    missingInLog, missingJson, logged := inLog, json, added;
    start := Observe(disk, net, console);
    assert Repaired(w, old(disk.cache), p.existing, p.cached, start, missingInLog, missingJson, logged);
    var cursor := ReadCursor(disk.cursor);
    stop, batches, fetched := DownloadNewItems(disk, net, console, cursor, cache, p);
    LoopStops(start, cursor, ViewOf(cache), p);
    LoopDocs(start, cursor, ViewOf(cache), p);
    LoopLog(start, cursor, ViewOf(cache), p);
    LoopCache(start, cursor, ViewOf(cache), p);
    ExtendsTrans(old(disk.docs), start.docs, disk.docs);
    ExtendsSize(old(disk.docs), start.docs);
  }

  /** The consistency check and its repairs: log the cached identifiers that are not
      logged when some existing document is not logged, then download the cached
      identifiers whose documents are missing. */
  method Repair(disk: Disk, net: Network, existing: set<string>, cachedIds: set<string>)
    returns (missingInLog: seq<string>, missingJson: seq<string>, logged: seq<string>)
    requires LoggedIds(disk.log) == existing
    modifies disk, net
    ensures forall x :: x in missingInLog <==> x in cachedIds - existing && StorageKey(x) in old(disk.docs)
    ensures forall x :: x in missingJson <==> x in cachedIds && StorageKey(x) !in old(disk.docs)
    ensures Distinct(missingJson)
    ensures missingInLog == [] ==> logged == [] && disk.log == old(disk.log) && disk.cache == old(disk.cache)
    ensures missingInLog != [] ==>
      && (forall x :: x in logged <==> x in cachedIds - existing)
      && Distinct(logged)
      && disk.log == old(disk.log) + logged
      && disk.cache == Some(CacheWithLogged(old(disk.cache), logged))
    ensures var run := DownloadRun(old(disk.docs), old(net.replies), old(net.requests), old(net.sleeps), missingJson);
      && disk.docs == run.docs && net.replies == run.replies
      && net.requests == run.requests && net.sleeps == run.sleeps
    ensures Extends(old(disk.docs), disk.docs)
    ensures old(disk.log) <= disk.log
    ensures disk.cursor == old(disk.cursor)
  {
    missingInLog, missingJson := Reconcile(existing, cachedIds, disk.docs.Keys);
    logged := RepairLog(disk, missingInLog, existing, cachedIds);
    if missingInLog != [] {
      NoneLogged(logged, existing);
      assert missingInLog[0] in logged;
    }
    if missingJson != [] {
      var _ := DownloadAll(disk, net, missingJson);
    }
    DownloadRunSpec(old(disk.docs), old(net.replies), old(net.requests), old(net.sleeps), missingJson);
  }

  /** A directory that keeps every document of another has at least as many. */
  lemma ExtendsSize(a: map<string, Json>, b: map<string, Json>)
    requires Extends(a, b)
    ensures |a| <= |b|
  {
    assert a.Keys <= b.Keys;
    SubsetSize(a.Keys, b.Keys);
  }

  lemma {:induction false} SubsetSize(a: set<string>, b: set<string>)
    requires a <= b
    ensures |a| <= |b|
    decreases |a|
  {
    if a != {} {
      var x :| x in a;
      SubsetSize(a - {x}, b - {x});
    }
  }
}
