/** A crawler session as functions of the state it starts from. `CrawlerSession`'s
    methods are proved to end in exactly the state these functions compute; the
    lemmas here say what that state is like. */
module SessionSpec {
  import opened Wrappers
  import opened Json
  import opened Text
  import opened Files
  import opened RetryPolicy
  import opened CursorStore
  import opened CrawlerApi
  import opened CrawlerStore

  /** Every document of `a` is in `b`, unchanged. */
  predicate Extends(a: map<string, Json>, b: map<string, Json>)
  {
    forall k :: k in a ==> k in b && b[k] == a[k]
  }

  /** Extending an extension extends the original. */
  lemma ExtendsTrans(a: map<string, Json>, b: map<string, Json>, c: map<string, Json>)
    requires Extends(a, b) && Extends(b, c)
    ensures Extends(a, c)
  {
  }

  /** The identifiers whose download produced a file, in order:
      `[i for i, r in zip(ids, results) if r]`. */
  function Succeeded(ids: seq<string>, results: seq<Option<string>>): (r: seq<string>)
    requires |ids| == |results|
    ensures |r| <= |ids|
    decreases |ids|
  {
    if ids == [] then []
    else (if results[0].Some? then [ids[0]] else []) + Succeeded(ids[1..], results[1..])
  }

  /** An identifier succeeded exactly when one of its downloads reported a file. */
  lemma {:induction false} SucceededSpec(ids: seq<string>, results: seq<Option<string>>)
    requires |ids| == |results|
    ensures forall x :: x in Succeeded(ids, results) <==>
      exists i :: 0 <= i < |ids| && ids[i] == x && results[i].Some?
    decreases |ids|
  {
    if ids != [] {
      SucceededSpec(ids[1..], results[1..]);
      forall x | x in Succeeded(ids, results)
        ensures exists i :: 0 <= i < |ids| && ids[i] == x && results[i].Some?
      {
        if !(results[0].Some? && x == ids[0]) {
          var i :| 0 <= i < |ids| - 1 && ids[1..][i] == x && results[1..][i].Some?;
          assert ids[i + 1] == x && results[i + 1].Some?;
        }
      }
      forall x, i | 0 <= i < |ids| && ids[i] == x && results[i].Some?
        ensures x in Succeeded(ids, results)
      {
        if i > 0 {
          assert ids[1..][i - 1] == x && results[1..][i - 1].Some?;
        }
      }
    }
  }

  /** The documents and the network after a series of fetch-and-saves, with what each
      one reported. */
  datatype Fetch = Fetch(docs: map<string, Json>, replies: seq<Reply>, requests: seq<Request>,
                         sleeps: seq<nat>, results: seq<Option<string>>)

  /** `executor.map(fetch_and_save, ids)`, one identifier after another: each fetches
      the item's record with retries and, when the record is usable, stores it unless
      its file exists, reporting the file only when it stored it. */
  function DownloadRun(docs: map<string, Json>, replies: seq<Reply>, requests: seq<Request>,
                       sleeps: seq<nat>, ids: seq<string>): (r: Fetch)
    ensures |r.results| == |ids|
    ensures |r.replies| <= |replies|
    decreases |ids|
  {
    if ids == [] then Fetch(docs, replies, requests, sleeps, [])
    else
      var a := Retry(replies, MaxRetries);
      var saved := Saveable(a.data) && StorageKey(ids[0]) !in docs;
      var docs' := if Saveable(a.data) then StoreNew(docs, ids[0], a.data.value) else docs;
      var rest := DownloadRun(docs', Drop(replies, a.tries), requests + Repeat(RecordRequest(ids[0]), a.tries),
                              sleeps + a.waits, ids[1..]);
      Fetch(rest.docs, rest.replies, rest.requests, rest.sleeps,
            [if saved then Some(StorageKey(ids[0])) else None] + rest.results)
  }

  /** One fetch-and-save adds a document exactly when it reports a file. */
  lemma StepCount(before: map<string, Json>, id: string, data: Option<Json>, saved: bool)
    requires saved <==> Saveable(data) && StorageKey(id) !in before
    ensures var after := if Saveable(data) then StoreNew(before, id, data.value) else before;
      && |after| == |before| + (if saved then 1 else 0)
      && Extends(before, after)
      && (saved ==> StorageKey(id) in after)
  {
  }

  /** A download run only adds documents, one per identifier that succeeded, and an
      identifier succeeds only when its file was new and is now there. */
  lemma {:induction false} DownloadRunSpec(docs: map<string, Json>, replies: seq<Reply>,
                                           requests: seq<Request>, sleeps: seq<nat>, ids: seq<string>)
    ensures var r := DownloadRun(docs, replies, requests, sleeps, ids);
      && Extends(docs, r.docs)
      && |r.docs| == |docs| + |Succeeded(ids, r.results)|
      && (forall i :: 0 <= i < |ids| && r.results[i].Some? ==>
            r.results[i].value == StorageKey(ids[i]) && StorageKey(ids[i]) !in docs && StorageKey(ids[i]) in r.docs)
      && requests <= r.requests && sleeps <= r.sleeps
    decreases |ids|
  {
    if ids != [] {
      var a := Retry(replies, MaxRetries);
      var saved := Saveable(a.data) && StorageKey(ids[0]) !in docs;
      var docs' := if Saveable(a.data) then StoreNew(docs, ids[0], a.data.value) else docs;
      var requests' := requests + Repeat(RecordRequest(ids[0]), a.tries);
      var sleeps' := sleeps + a.waits;
      var rest := DownloadRun(docs', Drop(replies, a.tries), requests', sleeps', ids[1..]);
      var r := DownloadRun(docs, replies, requests, sleeps, ids);
      DownloadRunSpec(docs', Drop(replies, a.tries), requests', sleeps', ids[1..]);
      StepCount(docs, ids[0], a.data, saved);
      ExtendsTrans(docs, docs', r.docs);
      assert r.results == [if saved then Some(StorageKey(ids[0])) else None] + rest.results;
      assert r.results[1..] == rest.results;
      forall i | 0 <= i < |ids| && r.results[i].Some?
        ensures r.results[i].value == StorageKey(ids[i]) && StorageKey(ids[i]) !in docs && StorageKey(ids[i]) in r.docs
      {
        if i > 0 {
          assert r.results[i] == rest.results[i - 1] && ids[i] == ids[1..][i - 1];
        }
      }
    }
  }

  /** The identifier of a page item: its `id` entry when that is a string. */
  function ItemId(item: Json): (r: Option<string>)
    ensures r.Some? ==> item.JObj? && Get(item.fields, "id") == Some(JStr(r.value))
    ensures item.JObj? && Get(item.fields, "id").Some? && Get(item.fields, "id").value.JStr? ==> r.Some?
  {
    if item.JObj? then
      match Get(item.fields, "id")
      case Some(JStr(s)) => Some(s)
      case _ => None
    else None
  }

  /** The identifiers on a page that are neither logged nor cached at the start of
      the session, in page order. */
  function NewIds(items: seq<Json>, existing: set<string>, cached: set<string>): (r: seq<string>)
    ensures |r| <= |items|
  {
    if items == [] then []
    else
      var id := ItemId(items[0]);
      var rest := NewIds(items[1..], existing, cached);
      if id.Some? && id.value !in existing && id.value !in cached then [id.value] + rest else rest
  }

  /** An identifier is selected exactly when some item of the page carries it and it
      was neither logged nor cached. */
  lemma {:induction false} NewIdsSpec(items: seq<Json>, existing: set<string>, cached: set<string>)
    ensures forall x :: x in NewIds(items, existing, cached) <==>
      (exists i :: 0 <= i < |items| && ItemId(items[i]) == Some(x)) && x !in existing && x !in cached
  {
    if items != [] {
      NewIdsSpec(items[1..], existing, cached);
      assert forall i :: 1 <= i < |items| ==> items[i] == items[1..][i - 1];
    }
  }

  /** Selection keeps page order: it distributes over concatenated pages. */
  lemma {:induction false} NewIdsAppend(a: seq<Json>, b: seq<Json>, existing: set<string>, cached: set<string>)
    ensures NewIds(a + b, existing, cached) == NewIds(a, existing, cached) + NewIds(b, existing, cached)
  {
    if a == [] {
      assert a + b == b;
    } else {
      assert (a + b)[0] == a[0] && (a + b)[1..] == a[1..] + b;
      NewIdsAppend(a[1..], b, existing, cached);
    }
  }

  /** Why a session ended. */
  datatype Stop =
    | EmptyFirstPage  // the pre-check page had no items
    | Declined        // the user answered no
    | NoMoreItems     // a page had no items
    | NoNewItems      // a page had nothing new
    | LastPage        // a batch was done and there is no next cursor

  /** A page with items came from a usable reply, so it used up at least one reply. */
  lemma PageConsumes(replies: seq<Reply>, deny: seq<string>)
    requires PageOf(Retry(replies, MaxRetries).data, deny).items != []
    ensures |Drop(replies, Retry(replies, MaxRetries).tries)| < |replies|
  {
    RetryBounds(replies, MaxRetries);
    if replies == [] {
      NoRepliesNoData(replies, MaxRetries);
    }
  }

  /** The summary cache as far as a session can tell: the count and the identifiers
      as a set (the file's list is `list(set(...))`, in no fixed order). */
  datatype CacheView = CacheView(count: int, ids: Option<set<string>>)

  function ViewOf(c: Cache): CacheView
  {
    CacheView(c.downloadedCount, if c.itemIds.None? then None else Some(set x | x in c.itemIds.value))
  }

  function FileView(f: Option<Cache>): Option<CacheView>
  {
    if f.None? then None else Some(ViewOf(f.value))
  }

  /** `cache.get("item_ids", [])` as a set. */
  function IdSet(c: CacheView): set<string>
  {
    if c.ids.None? then {} else c.ids.value
  }

  /** Everything a session reads and writes: the data directory, the network and the
      console. */
  datatype World = World(docs: map<string, Json>, log: seq<string>, cache: Option<CacheView>,
                         cursor: CursorFile, replies: seq<Reply>, requests: seq<Request>,
                         sleeps: seq<nat>, answers: seq<bool>, asked: nat)

  function Observe(disk: Disk, net: Network, console: Console): World
    reads disk, net, console
  {
    World(disk.docs, disk.log, FileView(disk.cache), disk.cursor,
          net.replies, net.requests, net.sleeps, console.answers, console.asked)
  }

  /** What the download loop is given: the identifiers logged and cached when the
      session started, the limit, the crawler's `BATCH_SIZE` and its deny list. */
  datatype Params = Params(existing: set<string>, cached: set<string>, limit: Option<int>,
                           batchSize: int, deny: seq<string>)

  /** `limit or BATCH_SIZE`: a batch is as large as the limit when there is one. */
  function BatchLimit(p: Params): int
  {
    if p.limit.None? then p.batchSize else p.limit.value
  }

  /** The page a search of `w` yields. */
  function PageFrom(w: World, deny: seq<string>): Page
  {
    PageOf(Retry(w.replies, MaxRetries).data, deny)
  }

  /** `fetch_item_ids(cursor)` on `w`: the retried search, and the page's next cursor
      stored. */
  function AfterSearch(w: World, cursor: Option<string>, deny: seq<string>): World
  {
    var a := Retry(w.replies, MaxRetries);
    w.(replies := Drop(w.replies, a.tries),
       requests := w.requests + Repeat(SearchRequest(SearchCursor(cursor, w.cursor)), a.tries),
       sleeps := w.sleeps + a.waits,
       cursor := WriteCursor(w.cursor, PageFrom(w, deny).next))
  }

  /** The world, the in-memory cache and the identifiers downloaded after one batch. */
  datatype Batch = Batch(world: World, cache: CacheView, downloaded: seq<string>)

  /** Steps 4 and 5 of a batch: download `batch`, then record the downloads. */
  function BatchFrom(w: World, cache: CacheView, batch: seq<string>): Batch
  {
    var run := DownloadRun(w.docs, w.replies, w.requests, w.sleeps, batch);
    Recorded(w, cache, run, Succeeded(batch, run.results))
  }

  /** The world after the download run `run` of a batch whose downloads were `got`:
      the identifiers not logged yet are appended to the log, and the cache is written
      with the count raised by the number of downloads and the identifiers added. */
  function Recorded(w: World, cache: CacheView, run: Fetch, got: seq<string>): Batch
  {
    var c := CacheView(cache.count + |got|, Some(IdSet(cache) + (set x | x in got)));
    Batch(w.(docs := run.docs, replies := run.replies, requests := run.requests, sleeps := run.sleeps,
             log := w.log + Unlogged(got, LoggedIds(w.log)), cache := Some(c)),
          c, got)
  }

  /** `Recorded` for a cache `c` holding the old identifiers and the downloaded ones. */
  lemma RecordedIs(w: World, cache: Cache, run: Fetch, c: Cache, got: seq<string>)
    requires c.downloadedCount == cache.downloadedCount + |got| && c.itemIds.Some?
    requires forall x :: x in IdList(c) <==> x in IdList(cache) || x in got
    ensures Recorded(w, ViewOf(cache), run, got)
      == Batch(w.(docs := run.docs, replies := run.replies, requests := run.requests, sleeps := run.sleeps,
                  log := w.log + Unlogged(got, LoggedIds(w.log)), cache := Some(ViewOf(c))),
               ViewOf(c), got)
  {
    ViewOfUnion(cache, c, got);
  }

  lemma ViewOfUnion(cache: Cache, c: Cache, got: seq<string>)
    requires c.downloadedCount == cache.downloadedCount + |got| && c.itemIds.Some?
    requires forall x :: x in IdList(c) <==> x in IdList(cache) || x in got
    ensures ViewOf(c) == CacheView(ViewOf(cache).count + |got|, Some(IdSet(ViewOf(cache)) + (set x | x in got)))
  {
    assert (set x | x in c.itemIds.value) == IdSet(ViewOf(cache)) + (set x | x in got);
  }

  /** A batch only adds documents, one per identifier downloaded, downloads only
      identifiers of the batch, appends those not logged yet to the log and writes the
      cache with the count raised by the number of downloads. */
  lemma BatchFromSpec(w: World, cache: CacheView, batch: seq<string>)
    ensures var b := BatchFrom(w, cache, batch);
      && Extends(w.docs, b.world.docs)
      && |b.world.docs| == |w.docs| + |b.downloaded|
      && (forall x :: x in b.downloaded ==> x in batch)
      && b.world.log == w.log + Unlogged(b.downloaded, LoggedIds(w.log))
      && b.cache.count == cache.count + |b.downloaded|
      && b.world.cache == Some(b.cache)
      && b.world.answers == w.answers && b.world.asked == w.asked && b.world.cursor == w.cursor
  {
    var run := DownloadRun(w.docs, w.replies, w.requests, w.sleeps, batch);
    DownloadRunSpec(w.docs, w.replies, w.requests, w.sleeps, batch);
    SucceededSpec(batch, run.results);
  }

  /** One turn of the loop: the reason to stop, if any, the world after it, the cursor
      and in-memory cache the next turn starts from, and the identifiers downloaded. */
  datatype Step = Step(outcome: Option<Stop>, world: World, cursor: Option<string>, cache: CacheView,
                       downloaded: seq<string>)

  /** One turn once the user has agreed (or was not asked): fetch a page; stop when it
      is empty or holds nothing new; otherwise download the first `limit or
      BATCH_SIZE` new identifiers, then stop unless the page had a non-empty next
      cursor (which is stored again). */
  function AfterAnswer(w: World, cursor: Option<string>, cache: CacheView, p: Params): (s: Step)
    ensures s.outcome.None? ==> |s.world.replies| < |w.replies|
  {
    var page := PageFrom(w, p.deny);
    var w' := AfterSearch(w, cursor, p.deny);
    if page.items == [] then Step(Some(NoMoreItems), w', cursor, cache, [])
    else
      var selected := NewIds(page.items, p.existing, p.cached);
      if selected == [] then Step(Some(NoNewItems), w', page.next, cache, [])
      else
        PageConsumes(w.replies, p.deny);
        var b := BatchFrom(w', cache, Take(selected, BatchLimit(p)));
        Step(if page.next.Some? && page.next.value != "" then None else Some(LastPage),
             b.world, page.next, b.cache, b.downloaded)
  }

  /** `AfterAnswer` by cases, for a page, a world after the search and a selection
      computed elsewhere. */
  lemma AfterAnswerIs(w: World, cursor: Option<string>, cache: CacheView, p: Params,
                      page: Page, w': World, selected: seq<string>)
    requires page == PageFrom(w, p.deny) && w' == AfterSearch(w, cursor, p.deny)
    requires selected == NewIds(page.items, p.existing, p.cached)
    ensures page.items == [] ==> AfterAnswer(w, cursor, cache, p) == Step(Some(NoMoreItems), w', cursor, cache, [])
    ensures page.items != [] && selected == [] ==>
      AfterAnswer(w, cursor, cache, p) == Step(Some(NoNewItems), w', page.next, cache, [])
    ensures page.items != [] && selected != [] ==>
      var b := BatchFrom(w', cache, Take(selected, BatchLimit(p)));
      AfterAnswer(w, cursor, cache, p)
      == Step(if page.next.Some? && page.next.value != "" then None else Some(LastPage),
              b.world, page.next, b.cache, b.downloaded)
  {
  }

  /** One turn of the download loop: with a limit, the user is asked first and a no
      ends the session. */
  function RoundStep(w: World, cursor: Option<string>, cache: CacheView, p: Params): (s: Step)
    ensures s.outcome.None? ==> |s.world.replies| < |w.replies|
  {
    if p.limit.None? then AfterAnswer(w, cursor, cache, p)
    else
      var w' := w.(answers := Drop(w.answers, 1), asked := w.asked + 1);
      if !Answer(w.answers) then Step(Some(Declined), w', cursor, cache, [])
      else AfterAnswer(w', cursor, cache, p)
  }

  /** `RoundStep` by cases: the answer read, then the rest of the turn. */
  lemma RoundStepIs(w: World, cursor: Option<string>, cache: CacheView, p: Params)
    ensures p.limit.None? ==> RoundStep(w, cursor, cache, p) == AfterAnswer(w, cursor, cache, p)
    ensures p.limit.Some? ==>
      var w' := w.(answers := Drop(w.answers, 1), asked := w.asked + 1);
      RoundStep(w, cursor, cache, p)
      == if Answer(w.answers) then AfterAnswer(w', cursor, cache, p) else Step(Some(Declined), w', cursor, cache, [])
  {
  }

  /** Why each turn ends the session, which cursor is stored, and what is downloaded:
      only new identifiers from the page, among the first `limit or BATCH_SIZE`. */
  lemma RoundStops(w: World, cursor: Option<string>, cache: CacheView, p: Params)
    ensures var s := RoundStep(w, cursor, cache, p);
      var answered := p.limit.None? || Answer(w.answers);
      var page := PageOf(Retry(w.replies, MaxRetries).data, p.deny);
      var selected := NewIds(page.items, p.existing, p.cached);
      && (s.outcome == Some(Declined) <==> !answered)
      && (s.outcome == Some(NoMoreItems) <==> answered && page.items == [])
      && (s.outcome == Some(NoNewItems) <==> answered && page.items != [] && selected == [])
      && (s.outcome.None? <==>
            answered && page.items != [] && selected != [] && page.next.Some? && page.next.value != "")
      && (s.outcome == Some(LastPage) <==>
            answered && page.items != [] && selected != [] && !(page.next.Some? && page.next.value != ""))
      && s.outcome != Some(EmptyFirstPage)
      && s.world.cursor == (if answered then WriteCursor(w.cursor, page.next) else w.cursor)
      && (answered && page.items != [] ==> s.cursor == page.next)
      && (forall x :: x in s.downloaded ==> x in Take(selected, BatchLimit(p)))
  {
    var answered := p.limit.None? || Answer(w.answers);
    var page := PageOf(Retry(w.replies, MaxRetries).data, p.deny);
    var selected := NewIds(page.items, p.existing, p.cached);
    if answered && page.items != [] && selected != [] {
      var w' := if p.limit.None? then w else w.(answers := Drop(w.answers, 1), asked := w.asked + 1);
      BatchFromSpec(AfterSearch(w', cursor, p.deny), cache, Take(selected, BatchLimit(p)));
    }
  }

  /** What a turn `s` from `w` keeps: it only adds documents, one per identifier
      downloaded, only downloads identifiers unknown when the session started, appends
      those not yet logged to the log, and keeps the cache file and the in-memory cache
      in step; a turn without a batch changes none of them. */
  predicate TurnKeeps(w: World, cache: CacheView, p: Params, s: Step)
  {
    var batched := s.outcome.None? || s.outcome == Some(LastPage);
    && Extends(w.docs, s.world.docs)
    && |s.world.docs| == |w.docs| + |s.downloaded|
    && s.world.log == w.log + Unlogged(s.downloaded, LoggedIds(w.log))
    && (forall x :: x in s.downloaded ==> x !in p.existing && x !in p.cached)
    && s.cache.count == cache.count + |s.downloaded|
    && (!batched ==> s.downloaded == [] && s.world.cache == w.cache && s.cache == cache)
    && (batched ==> s.world.cache == Some(s.cache))
  }

  /** A turn after the answer only downloads identifiers that were new on its page. */
  lemma AfterAnswerSpec(w: World, cursor: Option<string>, cache: CacheView, p: Params)
    ensures var s := AfterAnswer(w, cursor, cache, p);
      s.world.answers == w.answers && s.world.asked == w.asked && TurnKeeps(w, cache, p, s)
  {
    var page := PageFrom(w, p.deny);
    var w' := AfterSearch(w, cursor, p.deny);
    var selected := NewIds(page.items, p.existing, p.cached);
    AfterAnswerIs(w, cursor, cache, p, page, w', selected);
    if page.items != [] && selected != [] {
      var batch := Take(selected, BatchLimit(p));
      BatchFromSpec(w', cache, batch);
      NewIdsSpec(page.items, p.existing, p.cached);
      assert forall x :: x in batch ==> x in selected;
    } else {
      assert Unlogged([], LoggedIds(w.log)) == [];
    }
  }

  /** Asking changes only the console, so what a turn keeps does not depend on it. */
  lemma TurnKeepsAsked(w: World, w': World, cache: CacheView, p: Params, s: Step)
    requires w'.docs == w.docs && w'.log == w.log && w'.cache == w.cache
    requires TurnKeeps(w', cache, p, s)
    ensures TurnKeeps(w, cache, p, s)
  {
  }

  /** Every turn keeps what `TurnKeeps` says, and asks the user once when there is a
      limit. */
  lemma RoundStepSpec(w: World, cursor: Option<string>, cache: CacheView, p: Params)
    ensures var s := RoundStep(w, cursor, cache, p);
      && (p.limit.None? ==> s.world.answers == w.answers && s.world.asked == w.asked)
      && (p.limit.Some? ==> s.world.answers == Drop(w.answers, 1) && s.world.asked == w.asked + 1)
      && TurnKeeps(w, cache, p, s)
  {
    RoundStepIs(w, cursor, cache, p);
    var s := RoundStep(w, cursor, cache, p);
    if p.limit.None? {
      AfterAnswerSpec(w, cursor, cache, p);
    } else {
      var w' := w.(answers := Drop(w.answers, 1), asked := w.asked + 1);
      if Answer(w.answers) {
        AfterAnswerSpec(w', cursor, cache, p);
        TurnKeepsAsked(w, w', cache, p, s);
      } else {
        assert Unlogged([], LoggedIds(w.log)) == [];
      }
    }
  }

  /** No element occurs twice. */
  predicate Distinct(xs: seq<string>)
  {
    forall i, j :: 0 <= i < j < |xs| ==> xs[i] != xs[j]
  }

  /** The cache file once `collect_data` has looked at the document directory: reset
      to a zero count and no identifiers when the directory is empty. */
  function ResetCache(docs: map<string, Json>, f: Option<Cache>): Option<Cache>
  {
    if |docs| == 0 then Some(Cache(0, Some([]))) else f
  }

  /** The state after the pre-check of `collect_data` from `w`, once the cache file is
      `f`: the first page is fetched from `cursor` and its next cursor stored. */
  function PreChecked(w: World, f: Option<Cache>, cursor: Option<string>, deny: seq<string>): World
  {
    AfterSearch(w.(cache := FileView(f)), cursor, deny)
  }

  /** The consistency repair from `w`, whose cache file is `f`, ends in `start`:
      `missingInLog` are the cached, unlogged identifiers with a document and
      `missingJson` the cached ones without one; when there are some of the first
      kind, every cached unlogged identifier is logged (`logged`) and added to the
      cache's `item_ids`; then the missing documents are downloaded. */
  ghost predicate Repaired(w: World, f: Option<Cache>, existing: set<string>, cached: set<string>, start: World,
                     missingInLog: seq<string>, missingJson: seq<string>, logged: seq<string>)
  {
    var run := DownloadRun(w.docs, w.replies, w.requests, w.sleeps, missingJson);
    && w.cache == FileView(f)
    && (forall x :: x in missingInLog <==> x in cached - existing && StorageKey(x) in w.docs)
    && (forall x :: x in missingJson <==> x in cached && StorageKey(x) !in w.docs)
    && Distinct(missingJson)
    && (missingInLog == [] ==> logged == [] && start.log == w.log && start.cache == w.cache)
    && (missingInLog != [] ==>
          && (forall x :: x in logged <==> x in cached - existing)
          && Distinct(logged)
          && start.log == w.log + logged
          && start.cache == FileView(Some(CacheWithLogged(f, logged))))
    && start.docs == run.docs && start.replies == run.replies
    && start.requests == run.requests && start.sleeps == run.sleeps
    && start.cursor == w.cursor && start.answers == w.answers && start.asked == w.asked
  }

  /** The repair keeps every document, adds one per missing document it could fetch
      and only appends to the log. */
  lemma RepairedSpec(w: World, f: Option<Cache>, existing: set<string>, cached: set<string>, start: World,
                     missingInLog: seq<string>, missingJson: seq<string>, logged: seq<string>)
    requires Repaired(w, f, existing, cached, start, missingInLog, missingJson, logged)
    ensures var run := DownloadRun(w.docs, w.replies, w.requests, w.sleeps, missingJson);
      && Extends(w.docs, start.docs)
      && |start.docs| == |w.docs| + |Succeeded(missingJson, run.results)|
      && (forall x :: x in Succeeded(missingJson, run.results) ==> x in cached && StorageKey(x) in start.docs)
      && w.log <= start.log
  {
    var run := DownloadRun(w.docs, w.replies, w.requests, w.sleeps, missingJson);
    DownloadRunSpec(w.docs, w.replies, w.requests, w.sleeps, missingJson);
    SucceededSpec(missingJson, run.results);
  }

  /** How a run of the loop ends. */
  datatype Session = Session(stop: Stop, world: World, cache: CacheView, batches: nat, fetched: nat)

  /** The download loop of `collect_data`: turns until one gives a reason to stop,
      counting the batches recorded and the documents downloaded. */
  function Loop(w: World, cursor: Option<string>, cache: CacheView, p: Params): (r: Session)
    decreases |w.replies|
  {
    var s := RoundStep(w, cursor, cache, p);
    if s.outcome.Some? then
      Session(s.outcome.value, s.world, s.cache, if s.outcome == Some(LastPage) then 1 else 0, |s.downloaded|)
    else
      var rest := Loop(s.world, s.cursor, s.cache, p);
      Session(rest.stop, rest.world, rest.cache, rest.batches + 1, rest.fetched + |s.downloaded|)
  }

  /** `total` is the loop `rest` preceded by turns that recorded `batches` batches
      and downloaded `fetched` documents. */
  predicate Continues(total: Session, rest: Session, batches: nat, fetched: nat)
  {
    total == Session(rest.stop, rest.world, rest.cache, rest.batches + batches, rest.fetched + fetched)
  }

  /** `Loop` unfolded once, for a turn computed elsewhere. */
  lemma LoopStep(w: World, cursor: Option<string>, cache: CacheView, p: Params, s: Step)
    requires s == RoundStep(w, cursor, cache, p)
    ensures Loop(w, cursor, cache, p) ==
      if s.outcome.Some? then
        Session(s.outcome.value, s.world, s.cache, if s.outcome == Some(LastPage) then 1 else 0, |s.downloaded|)
      else
        var rest := Loop(s.world, s.cursor, s.cache, p);
        Session(rest.stop, rest.world, rest.cache, rest.batches + 1, rest.fetched + |s.downloaded|)
  {
  }

  /** The loop never ends for want of a first page, ends on a no only when there is a
      limit, and ends on the last page only after a batch; with a limit the user is
      asked once per batch and once more unless the last page ended it, without one
      never. */
  lemma {:induction false} LoopStops(w: World, cursor: Option<string>, cache: CacheView, p: Params)
    ensures var r := Loop(w, cursor, cache, p);
      && r.stop != EmptyFirstPage
      && (r.stop == Declined ==> p.limit.Some?)
      && (r.stop == LastPage ==> r.batches >= 1)
      && (p.limit.None? ==> r.world.answers == w.answers && r.world.asked == w.asked)
      && (p.limit.Some? ==> r.world.asked == w.asked + r.batches + (if r.stop == LastPage then 0 else 1))
    decreases |w.replies|
  {
    var s := RoundStep(w, cursor, cache, p);
    RoundStepSpec(w, cursor, cache, p);
    RoundStops(w, cursor, cache, p);
    LoopStep(w, cursor, cache, p, s);
    if s.outcome.None? {
      LoopStops(s.world, s.cursor, s.cache, p);
    }
  }

  /** The loop keeps every document and adds one per identifier downloaded. */
  lemma {:induction false} LoopDocs(w: World, cursor: Option<string>, cache: CacheView, p: Params)
    ensures var r := Loop(w, cursor, cache, p);
      Extends(w.docs, r.world.docs) && |r.world.docs| == |w.docs| + r.fetched
    decreases |w.replies|
  {
    var s := RoundStep(w, cursor, cache, p);
    RoundStepSpec(w, cursor, cache, p);
    LoopStep(w, cursor, cache, p, s);
    if s.outcome.None? {
      LoopDocs(s.world, s.cursor, s.cache, p);
      ExtendsTrans(w.docs, s.world.docs, Loop(w, cursor, cache, p).world.docs);
    }
  }

  /** `b` is `a` with lines appended, none of them in `known`. */
  predicate AppendsOnly(a: seq<string>, b: seq<string>, known: set<string>)
  {
    a <= b && forall k :: |a| <= k < |b| ==> b[k] !in known
  }

  lemma AppendNew(log: seq<string>, added: seq<string>, known: set<string>)
    requires forall x :: x in added ==> x !in known
    ensures AppendsOnly(log, log + added, known)
  {
    forall k | |log| <= k < |log + added|
      ensures (log + added)[k] !in known
    {
      assert (log + added)[k] == added[k - |log|];
    }
  }

  lemma AppendsOnlyTrans(a: seq<string>, b: seq<string>, c: seq<string>, known: set<string>)
    requires AppendsOnly(a, b, known) && AppendsOnly(b, c, known)
    ensures AppendsOnly(a, c, known)
  {
    forall k | |a| <= k < |c|
      ensures c[k] !in known
    {
      if k < |b| {
        assert c[k] == b[k];
      }
    }
  }

  /** The loop only appends to the log, and never an identifier that was logged or
      cached when the session started; without a batch nothing is logged, downloaded
      or cached. */
  lemma {:induction false} LoopLog(w: World, cursor: Option<string>, cache: CacheView, p: Params)
    ensures var r := Loop(w, cursor, cache, p);
      && AppendsOnly(w.log, r.world.log, p.existing + p.cached)
      && (r.batches == 0 ==> r.world.cache == w.cache && r.world.log == w.log && r.fetched == 0)
    decreases |w.replies|
  {
    var s := RoundStep(w, cursor, cache, p);
    RoundStepSpec(w, cursor, cache, p);
    LoopStep(w, cursor, cache, p, s);
    AppendNew(w.log, Unlogged(s.downloaded, LoggedIds(w.log)), p.existing + p.cached);
    if s.outcome.None? {
      LoopLog(s.world, s.cursor, s.cache, p);
      AppendsOnlyTrans(w.log, s.world.log, Loop(w, cursor, cache, p).world.log, p.existing + p.cached);
    }
  }

  /** The in-memory cache counts every download of the loop, and once a batch is
      recorded the cache file holds it. */
  lemma {:induction false} LoopCache(w: World, cursor: Option<string>, cache: CacheView, p: Params)
    ensures var r := Loop(w, cursor, cache, p);
      && r.cache.count == cache.count + r.fetched
      && (r.batches > 0 ==> r.world.cache == Some(r.cache))
      && (r.batches == 0 ==> r.cache == cache)
    decreases |w.replies|
  {
    var s := RoundStep(w, cursor, cache, p);
    RoundStepSpec(w, cursor, cache, p);
    LoopStep(w, cursor, cache, p, s);
    if s.outcome.None? {
      var rest := Loop(s.world, s.cursor, s.cache, p);
      LoopCache(s.world, s.cursor, s.cache, p);
      LoopLog(s.world, s.cursor, s.cache, p);
      assert rest.world.cache == Some(rest.cache) by {
        if rest.batches == 0 {
          assert rest.world.cache == s.world.cache && rest.cache == s.cache;
        }
      }
    }
  }
}
