/** The crawler's bookkeeping on disk (`load_existing_ids`, `load_cache`,
    `save_cache`, `save_ids_log`, `item_json_exists`, `save_metadata`,
    `fetch_and_save`): an append-only identifier log, a summary cache of the download
    count and the downloaded identifiers, and a create-only document directory keyed
    by the sanitized identifier. */
module CrawlerStore {
  import opened Wrappers
  import opened Json
  import opened Text
  import opened Files
  import opened RetryPolicy
  import opened CrawlerApi

  /** `load_existing_ids()`: the identifiers in the log, each line stripped of
      surrounding whitespace; no log reads as no identifiers. */
  function LoggedIds(log: seq<string>): (r: set<string>)
    ensures forall x :: x in r ==> Stripped(x)
    ensures forall i :: 0 <= i < |log| && Stripped(log[i]) ==> log[i] in r
  {
    StripsStripped(log);
    set i | 0 <= i < |log| :: Strip(log[i])
  }

  /** Every stripped line is its own stripped form. */
  lemma StripsStripped(log: seq<string>)
    ensures forall i :: 0 <= i < |log| && Stripped(log[i]) ==> Strip(log[i]) == log[i]
  {
    forall i | 0 <= i < |log| && Stripped(log[i]) {
      StripKeepsStripped(log[i]);
    }
  }

  /** Appending lines to the log adds exactly their stripped forms to the identifiers
      read back. */
  lemma LoggedIdsAppend(log: seq<string>, xs: seq<string>)
    ensures LoggedIds(log + xs) == LoggedIds(log) + LoggedIds(xs)
  {
    var l := log + xs;
    forall x | x in LoggedIds(l) ensures x in LoggedIds(log) + LoggedIds(xs) {
      var i :| 0 <= i < |l| && Strip(l[i]) == x;
      if i >= |log| {
        assert l[i] == xs[i - |log|];
      }
    }
    forall x | x in LoggedIds(log) ensures x in LoggedIds(l) {
      var i :| 0 <= i < |log| && Strip(log[i]) == x;
      assert l[i] == log[i];
    }
    forall x | x in LoggedIds(xs) ensures x in LoggedIds(l) {
      var i :| 0 <= i < |xs| && Strip(xs[i]) == x;
      assert l[|log| + i] == xs[i];
    }
  }

  /** A one-line log holds one identifier. */
  lemma LoggedIdsSingle(line: string)
    ensures LoggedIds([line]) == {Strip(line)}
  {
    assert Strip([line][0]) in LoggedIds([line]);
  }

  /** Stripping twice is stripping once. */
  lemma StripIdempotent(s: string)
    ensures Strip(Strip(s)) == Strip(s)
  {
    StripKeepsStripped(Strip(s));
  }

  /** The `item_ids` of a cache as the list the code works with: empty when absent. */
  function IdList(c: Cache): seq<string>
  {
    if c.itemIds.None? then [] else c.itemIds.value
  }

  /** The cache with its `item_ids` list made explicit, as `save_cache` writes it. */
  function Listed(c: Cache): (r: Cache)
    ensures r.itemIds.Some? && r.downloadedCount == c.downloadedCount
    ensures c.itemIds.Some? ==> r == c
  {
    Cache(c.downloadedCount, Some(IdList(c)))
  }

  /** `load_cache()`: the cache file with `item_ids` made a list, or a zero count and
      no identifiers when there is no file. */
  function LoadCache(f: Option<Cache>): (r: Cache)
    ensures r.itemIds.Some?
    ensures f.None? ==> r == Cache(0, Some([]))
    ensures f.Some? ==> r.downloadedCount == f.value.downloadedCount
    ensures f.Some? && f.value.itemIds.Some? ==> r == f.value
  {
    if f.None? then Cache(0, Some([])) else Listed(f.value)
  }

  /** `save_cache(cache_data)`. */
  method SaveCache(disk: Disk, c: Cache)
    modifies disk
    ensures disk.cache == Some(Listed(c))
    ensures disk.docs == old(disk.docs) && disk.log == old(disk.log) && disk.cursor == old(disk.cursor)
  {
    disk.cache := Some(Listed(c));
  }

  /** Loading after saving gives back what was saved, with `item_ids` as a list. */
  lemma CacheRoundTrip(c: Cache)
    ensures LoadCache(Some(Listed(c))) == Listed(c)
    ensures c.itemIds.Some? ==> LoadCache(Some(Listed(c))) == c
  {
  }

  /** `[i for i in ids if i not in logged]`: the identifiers not yet logged, in their
      order. */
  function Unlogged(ids: seq<string>, logged: set<string>): (r: seq<string>)
    ensures |r| <= |ids|
    ensures forall x :: x in r <==> x in ids && x !in logged
  {
    if ids == [] then []
    else (if ids[0] in logged then [] else [ids[0]]) + Unlogged(ids[1..], logged)
  }

  /** The filter keeps the order of its input: it distributes over concatenation. */
  lemma {:induction false} UnloggedAppend(a: seq<string>, b: seq<string>, logged: set<string>)
    ensures Unlogged(a + b, logged) == Unlogged(a, logged) + Unlogged(b, logged)
  {
    if a == [] {
      assert a + b == b;
    } else {
      assert (a + b)[0] == a[0] && (a + b)[1..] == a[1..] + b;
      UnloggedAppend(a[1..], b, logged);
    }
  }

  /** Nothing is left to log when every identifier is already logged. */
  lemma NothingUnlogged(ids: seq<string>, logged: set<string>)
    requires forall x :: x in ids ==> x in logged
    ensures Unlogged(ids, logged) == []
  {
  }

  /** The cache after `save_ids_log` has appended `added` to the log: the loaded cache
      with `added` added to its `item_ids`. */
  function CacheWithLogged(f: Option<Cache>, added: seq<string>): (r: Cache)
    ensures r.downloadedCount == LoadCache(f).downloadedCount
    ensures r.itemIds == Some(IdList(LoadCache(f)) + added)
  {
    var c := LoadCache(f);
    Cache(c.downloadedCount, Some(IdList(c) + added))
  }

  /** `save_ids_log(downloaded_ids)` in the crawler: appends the identifiers not yet in
      the log and, when there are any, adds them to the cache's `item_ids` too. */
  method SaveIdsLog(disk: Disk, downloaded: seq<string>)
    modifies disk
    ensures var added := Unlogged(downloaded, LoggedIds(old(disk.log)));
      && disk.log == old(disk.log) + added
      && disk.cache == (if added == [] then old(disk.cache) else Some(CacheWithLogged(old(disk.cache), added)))
    ensures disk.docs == old(disk.docs) && disk.cursor == old(disk.cursor)
  {
    var cache := LoadCache(disk.cache);
    var existing := LoggedIds(disk.log);
    var added := Unlogged(downloaded, existing);
    if added != [] {
      disk.log := disk.log + added;
      cache := Cache(cache.downloadedCount, Some(IdList(cache) + added));
      SaveCache(disk, cache);
    }
  }

  /** After logging, every given identifier is in the log as it reads back, and no
      line was appended for an identifier the log already held. */
  lemma {:induction false} LogAfterSave(log: seq<string>, ids: seq<string>)
    ensures forall x :: x in ids ==> Strip(x) in LoggedIds(log + Unlogged(ids, LoggedIds(log)))
    ensures forall x :: x in Unlogged(ids, LoggedIds(log)) ==> x !in LoggedIds(log)
  {
    var added := Unlogged(ids, LoggedIds(log));
    LoggedIdsAppend(log, added);
    forall x | x in ids ensures Strip(x) in LoggedIds(log + added) {
      if x in LoggedIds(log) {
        var i :| 0 <= i < |log| && Strip(log[i]) == x;
        StripIdempotent(log[i]);
      } else {
        var k :| 0 <= k < |added| && added[k] == x;
        assert Strip(added[k]) in LoggedIds(added);
      }
    }
  }

  /** Logging the same stripped identifiers twice appends nothing the second time. */
  lemma LogIdempotent(log: seq<string>, ids: seq<string>)
    requires forall x :: x in ids ==> Stripped(x)
    ensures Unlogged(ids, LoggedIds(log + Unlogged(ids, LoggedIds(log)))) == []
  {
    var log2 := log + Unlogged(ids, LoggedIds(log));
    LogAfterSave(log, ids);
    forall x | x in ids ensures x in LoggedIds(log2) {
      StripKeepsStripped(x);
    }
    NothingUnlogged(ids, LoggedIds(log2));
  }

  /** `item_json_exists(item_id)`. */
  function ItemJsonExists(disk: Disk, id: string): bool
    reads disk
  {
    StorageKey(id) in disk.docs
  }

  /** The document directory after a create-only write of `data` for `id`. */
  function StoreNew(docs: map<string, Json>, id: string, data: Json): (r: map<string, Json>)
    ensures r.Keys == docs.Keys + {StorageKey(id)}
    ensures forall k :: k in docs ==> r[k] == docs[k]
    ensures StorageKey(id) !in docs ==> r[StorageKey(id)] == data
  {
    if StorageKey(id) in docs then docs else docs[StorageKey(id) := data]
  }

  /** Create-only writes are idempotent: the first document stored under a key stays. */
  lemma StoreNewKeepsFirst(docs: map<string, Json>, id: string, a: Json, b: Json)
    ensures StoreNew(StoreNew(docs, id, a), id, b) == StoreNew(docs, id, a)
  {
  }

  /** Because sanitizing is not injective, `a_b` cannot be stored once `a/b` has been:
      the second write is skipped. */
  lemma CollidingIdsKeepFirst(docs: map<string, Json>, a: Json, b: Json)
    requires docs == map[]
    ensures StoreNew(StoreNew(docs, "a/b", a), "a_b", b) == map["a_b.json" := a]
  {
    SanitizeNotInjective();
    assert StorageKey("a/b") == "a_b.json" by {
      assert Sanitize("a/b") == "a_b";
    }
  }

  /** `save_metadata(item_id, data)` in either harvester: writes the document only when
      its file does not exist yet (`item_json_exists` is false), and returns its file name (relative to the document
      directory), or nothing when it skipped the write. */
  method SaveMetadata(disk: Disk, id: string, data: Json) returns (path: Option<string>)
    modifies disk
    ensures path.Some? <==> !old(ItemJsonExists(disk, id))
    ensures path.Some? ==> path.value == StorageKey(id)
    ensures ItemJsonExists(disk, id)
    ensures disk.docs == StoreNew(old(disk.docs), id, data)
    ensures disk.log == old(disk.log) && disk.cache == old(disk.cache) && disk.cursor == old(disk.cursor)
  {
    if ItemJsonExists(disk, id) {
      return None;
    }
    var key := StorageKey(id);
    disk.docs := disk.docs[key := data];
    return Some(key);
  }

  /** The record fetched for an item is saved only when it is a truthy body. */
  predicate Saveable(data: Option<Json>)
  {
    data.Some? && Truthy(data.value)
  }

  /** `fetch_and_save(item_id)`. */
  method FetchAndSave(disk: Disk, net: Network, id: string) returns (path: Option<string>)
    modifies disk, net
    ensures var a := Retry(old(net.replies), MaxRetries);
      && net.replies == Drop(old(net.replies), a.tries)
      && net.requests == old(net.requests) + Repeat(RecordRequest(id), a.tries)
      && net.sleeps == old(net.sleeps) + a.waits
      && (path.Some? <==> Saveable(a.data) && StorageKey(id) !in old(disk.docs))
      && disk.docs == (if Saveable(a.data) then StoreNew(old(disk.docs), id, a.data.value) else old(disk.docs))
    ensures path.Some? ==> path.value == StorageKey(id)
    ensures disk.log == old(disk.log) && disk.cache == old(disk.cache) && disk.cursor == old(disk.cursor)
  {
    var metadata := FetchItemMetadata(net, id);
    if metadata.Some? && Truthy(metadata.value) {
      path := SaveMetadata(disk, id, metadata.value);
    } else {
      path := None;
    }
  }
}
