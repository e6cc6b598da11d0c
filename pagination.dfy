/** The category pipeline's paging loop (`main`): follow the search cursor from `*`,
    trying each page up to five times, trim the last page so that no more than
    `max_items` items are taken, and hand the items to the downloader in batches of
    exactly `batch_size`, then the remainder once the pages run out. The downloader
    itself is a sink here: the model records the batches it receives. */
module Pagination {
  import opened Wrappers
  import opened Json
  import opened Files
  import opened RetryPolicy
  import opened CrawlerApi

  /** The number of tries per page. */
  const Attempts: nat := 5

  /** The wait after a failed try that is not the last, in seconds. */
  const RetryWait: nat := 5

  /** A search from the stream of replies: the first 200 reply among the tries, and
      how many tries were made. Any other reply, or a network failure, is a failed try. */
  datatype Search = Search(body: Option<Json>, tries: nat)

  function SearchFrom(replies: seq<Reply>, k: nat): (r: Search)
    requires k <= Attempts
    ensures k < r.tries <= Attempts || (k == Attempts && r.tries == Attempts)
    ensures r.body.Some? ==> r.tries <= |replies|
    decreases Attempts - k
  {
    if k == Attempts then Search(None, Attempts)
    else
      var reply := ReplyAt(replies, k);
      if reply.Response? && reply.status == 200 then Search(Some(reply.body), k + 1)
      else SearchFrom(replies, k + 1)
  }

  /** `api.search(...)` inside the five-try loop. */
  function SearchPage(replies: seq<Reply>): (r: Search)
    ensures 1 <= r.tries <= Attempts
    ensures r.body.None? ==> r.tries == Attempts
    ensures r.body.Some? ==> r.tries <= |replies|
  {
    SearchFrom(replies, 0)
  }

  /** A failed search made all five tries, none of them successful. */
  lemma {:induction false} SearchFailsOnlyAfterFiveTries(replies: seq<Reply>, k: nat)
    requires k <= Attempts
    ensures SearchFrom(replies, k).body.None? <==>
      forall i :: k <= i < Attempts ==> !(ReplyAt(replies, i).Response? && ReplyAt(replies, i).status == 200)
    decreases Attempts - k
  {
    if k < Attempts {
      SearchFailsOnlyAfterFiveTries(replies, k + 1);
    }
  }

  /** The page's items: `response.get("items", [])`. */
  function PageItems(body: Json): seq<Json>
  {
    RawItems(body)
  }

  /** `response.get("nextCursor", None)`. */
  function NextCursorOf(body: Json): Json
  {
    if body.JObj? then GetOr(body.fields, "nextCursor", JNull) else JNull
  }

  /** `items[:max_items - total_processed]` when the page would overshoot. */
  function Trim(items: seq<Json>, total: int, maxItems: int): (r: seq<Json>)
    requires total < maxItems
    ensures r <= items
    ensures total + |r| <= maxItems
    ensures total + |items| <= maxItems ==> r == items
  {
    if total + |items| > maxItems then items[..maxItems - total] else items
  }

  /** The whole run as a function of the replies: the items taken from each page, in
      order, and whether it ended because a page failed five times. */
  datatype Run = Run(items: seq<Json>, failed: bool)

  function Crawl(replies: seq<Reply>, cursor: Json, total: int, maxItems: int): (r: Run)
    ensures total < maxItems ==> total + |r.items| <= maxItems
    ensures total >= maxItems ==> r.items == []
    decreases |replies|
  {
    if !Truthy(cursor) || total >= maxItems then Run([], false)
    else
      var s := SearchPage(replies);
      if s.body.None? then Run([], true)
      else
        var page := Trim(PageItems(s.body.value), total, maxItems);
        var rest := Crawl(replies[s.tries..], NextCursorOf(s.body.value), total + |page|, maxItems);
        Run(page + rest.items, rest.failed)
  }

  /** The concatenation of the batches. */
  function Concat(batches: seq<seq<Json>>): (r: seq<Json>)
  {
    if batches == [] then [] else Concat(batches[..|batches| - 1]) + batches[|batches| - 1]
  }

  /** Every batch but possibly the last has exactly `size` items. */
  predicate FullBatches(batches: seq<seq<Json>>, size: nat)
  {
    forall i :: 0 <= i < |batches| ==> |batches[i]| == size
  }

  /** One page of the loop: the search with its tries, the waits between them, and the
      page's body. */
  method Search5(net: Network, cursor: Json) returns (body: Option<Json>)
    modifies net
    ensures body == SearchPage(old(net.replies)).body
    ensures net.replies == Drop(old(net.replies), SearchPage(old(net.replies)).tries)
    ensures |net.replies| <= |old(net.replies)|
    ensures var tries := SearchPage(old(net.replies)).tries;
      && net.requests == old(net.requests) + Repeat(SearchRequest(CursorParam(cursor)), tries)
      && net.sleeps == old(net.sleeps) + Repeat(RetryWait, tries - 1)
  {
    var req := SearchRequest(CursorParam(cursor));
    var attempt := 0;
    ghost var replies := net.replies;
    while true
      invariant 0 <= attempt < Attempts
      invariant SearchPage(replies) == SearchFrom(replies, attempt)
      invariant net.replies == Drop(replies, attempt)
      invariant net.requests == old(net.requests) + Repeat(req, attempt)
      invariant net.sleeps == old(net.sleeps) + Repeat(RetryWait, attempt)
      decreases Attempts - attempt
    {
      var reply := Exchange(net, req);
      assert reply == ReplyAt(replies, attempt);
      if reply.Response? && reply.status == 200 {
        assert Repeat(req, attempt) + [req] == Repeat(req, attempt + 1);
        return Some(reply.body);
      }
      assert Repeat(req, attempt) + [req] == Repeat(req, attempt + 1);
      if attempt < Attempts - 1 {
        Sleep(net, RetryWait);
        assert Repeat(RetryWait, attempt) + [RetryWait] == Repeat(RetryWait, attempt + 1);
      } else {
        attempt := attempt + 1;
        assert SearchFrom(replies, attempt) == Search(None, Attempts);
        return None;
      }
      attempt := attempt + 1;
    }
  }

  /** The cursor as the search sends it. */
  function CursorParam(cursor: Json): (r: Option<string>)
    ensures r.Some? <==> cursor.JStr?
    ensures cursor.JStr? ==> r == Some(cursor.s)
  {
    if cursor.JStr? then Some(cursor.s) else None
  }

  /** The paging loop of `main`. `batchSize` must be positive: with any other size the
      batch loop never empties the buffer. */
  method Paginate(net: Network, maxItems: int, batchSize: int)
    returns (batches: seq<seq<Json>>, totalRetrieved: int, failed: bool)
    requires batchSize >= 1
    modifies net
    ensures var run := Crawl(old(net.replies), JStr("*"), 0, maxItems);
      && failed == run.failed
      && totalRetrieved == |run.items|
      && (!failed ==> Concat(batches) == run.items)
      && (failed ==> Concat(batches) <= run.items && |run.items| - |Concat(batches)| < batchSize)
    ensures totalRetrieved <= (if maxItems < 0 then 0 else maxItems)
    ensures failed ==> FullBatches(batches, batchSize)
    ensures !failed && batches != [] ==>
      FullBatches(batches[..|batches| - 1], batchSize) && 0 < |batches[|batches| - 1]| <= batchSize
  {
    ghost var run := Crawl(net.replies, JStr("*"), 0, maxItems);
    var cursor := JStr("*");
    var allItems: seq<Json> := [];
    var totalProcessed := 0;
    batches := [];
    failed := false;
    ghost var remaining := run;
    while !failed && Truthy(cursor) && totalProcessed < maxItems
      invariant Tracks(run, batches, allItems, totalProcessed, maxItems, batchSize, remaining)
      invariant !failed ==> remaining == Crawl(net.replies, cursor, totalProcessed, maxItems)
      invariant failed ==> remaining == Run([], true)
      decreases !failed, |net.replies|
    {
      failed, cursor, totalProcessed, batches, allItems, remaining :=
        Turn(net, cursor, totalProcessed, maxItems, batches, allItems, batchSize, run, remaining);
    }
    if !failed {
      CrawlDone(net.replies, cursor, totalProcessed, maxItems);
    }
    Stopped(run, Concat(batches) + allItems, remaining, Concat(batches), allItems);
    if !failed && allItems != [] {
      LastBatch(batches, allItems);
      batches := batches + [allItems];
    }
    totalRetrieved := totalProcessed;
  }

  /** What the loop keeps: the items taken so far are the batches followed by the
      buffer, and the run is those items followed by what is still to come. */
  ghost predicate Tracks(run: Run, batches: seq<seq<Json>>, buffer: seq<Json>, total: int,
                         maxItems: int, batchSize: int, remaining: Run)
  {
    && total == |Concat(batches) + buffer|
    && (if maxItems > 0 then total <= maxItems else total == 0)
    && run.items == (Concat(batches) + buffer) + remaining.items
    && run.failed == remaining.failed
    && |buffer| < batchSize
    && FullBatches(batches, batchSize)
  }

  /** One turn of the paging loop: fetch a page; on success take its items, hand over
      full batches and move to the next cursor. */
  method Turn(net: Network, cursor: Json, total: int, maxItems: int, batches: seq<seq<Json>>,
              buffer: seq<Json>, batchSize: int, ghost run: Run, ghost remaining: Run)
    returns (failed: bool, cursor': Json, total': int, batches': seq<seq<Json>>, buffer': seq<Json>,
             ghost remaining': Run)
    requires batchSize >= 1 && Truthy(cursor) && total < maxItems
    requires Tracks(run, batches, buffer, total, maxItems, batchSize, remaining)
    requires remaining == Crawl(net.replies, cursor, total, maxItems)
    modifies net
    ensures Tracks(run, batches', buffer', total', maxItems, batchSize, remaining')
    ensures !failed ==> remaining' == Crawl(net.replies, cursor', total', maxItems)
    ensures !failed ==> |net.replies| < |old(net.replies)|
    ensures failed ==> remaining' == Run([], true)
  {
    var body, items, rest := NextPage(net, cursor, total, maxItems, remaining);
    if body.None? {
      return true, cursor, total, batches, buffer, remaining;
    }
    Advance(run, Concat(batches) + buffer, remaining, Concat(batches), buffer, items, rest);
    batches', buffer' := Drain(batches, buffer + items, batchSize);
    return false, NextCursorOf(body.value), total + |items|, batches', buffer', rest;
  }

  /** The bookkeeping of one page: the page's items move from the rest of the run to
      the items taken, and into the buffer. */
  lemma Advance(run: Run, taken: seq<Json>, remaining: Run, done: seq<Json>, buffer: seq<Json>,
                items: seq<Json>, rest: Run)
    requires run.items == taken + remaining.items && run.failed == remaining.failed
    requires remaining == Run(items + rest.items, rest.failed)
    requires done + buffer == taken
    ensures run.items == (taken + items) + rest.items && run.failed == rest.failed
    ensures done + (buffer + items) == taken + items
  {
  }

  /** When the run takes nothing more, the items taken are all of it. */
  lemma Stopped(run: Run, taken: seq<Json>, remaining: Run, done: seq<Json>, buffer: seq<Json>)
    requires run.items == taken + remaining.items && remaining.items == []
    requires done + buffer == taken
    ensures run.items == taken
    ensures done <= run.items && |run.items| - |done| == |buffer|
  {
  }

  /** With no cursor, or enough items, the run takes nothing more. */
  lemma CrawlDone(replies: seq<Reply>, cursor: Json, total: int, maxItems: int)
    requires !Truthy(cursor) || total >= maxItems
    ensures Crawl(replies, cursor, total, maxItems) == Run([], false)
  {
  }

  /** Handing over the remainder as one last batch. */
  lemma LastBatch(batches: seq<seq<Json>>, rest: seq<Json>)
    ensures Concat(batches + [rest]) == Concat(batches) + rest
    ensures (batches + [rest])[..|batches|] == batches
  {
  }

  /** One page of the loop: the search and, when it succeeds, the page's items trimmed
      to what is still wanted. `rest` is what the run takes after this page. */
  method NextPage(net: Network, cursor: Json, total: int, maxItems: int, ghost remaining: Run)
    returns (body: Option<Json>, items: seq<Json>, ghost rest: Run)
    requires Truthy(cursor) && total < maxItems
    requires remaining == Crawl(net.replies, cursor, total, maxItems)
    modifies net
    ensures body.None? ==> remaining == Run([], true)
    ensures body.Some? ==>
      && items == Trim(PageItems(body.value), total, maxItems)
      && rest == Crawl(net.replies, NextCursorOf(body.value), total + |items|, maxItems)
      && remaining == Run(items + rest.items, rest.failed)
      && |net.replies| < |old(net.replies)|
  {
    ghost var replies := net.replies;
    body := Search5(net, cursor);
    items := [];
    rest := Run([], false);
    if body.None? {
      CrawlFails(replies, cursor, total, maxItems);
    } else {
      items := Trim(PageItems(body.value), total, maxItems);
      rest := Crawl(net.replies, NextCursorOf(body.value), total + |items|, maxItems);
      CrawlStep(replies, net.replies, cursor, total, maxItems, body.value, items, rest);
    }
  }

  /** `while len(all_items) >= batch_size`: hand over full batches from the front of
      the buffer until less than a batch is left. */
  method Drain(batches: seq<seq<Json>>, buffer: seq<Json>, size: nat) returns (batches': seq<seq<Json>>, rest: seq<Json>)
    requires size >= 1
    requires FullBatches(batches, size)
    ensures Concat(batches') + rest == Concat(batches) + buffer
    ensures FullBatches(batches', size) && batches <= batches'
    ensures |rest| < size
  {
    batches', rest := batches, buffer;
    while |rest| >= size
      invariant Concat(batches') + rest == Concat(batches) + buffer
      invariant FullBatches(batches', size) && batches <= batches'
      decreases |rest|
    {
      var batch := rest[..size];
      assert Concat(batches' + [batch]) == Concat(batches') + batch;
      assert batch + rest[size..] == rest;
      batches' := batches' + [batch];
      rest := rest[size..];
    }
  }

  /** One turn of the outer loop, as the run function sees it, when the page fails. */
  lemma CrawlFails(replies: seq<Reply>, cursor: Json, total: int, maxItems: int)
    requires Truthy(cursor) && total < maxItems
    requires SearchPage(replies).body.None?
    ensures Crawl(replies, cursor, total, maxItems) == Run([], true)
  {
  }

  /** One turn of the outer loop, as the run function sees it, when the page arrives:
      the page's items followed by the run from what is left of the replies. */
  lemma CrawlStep(replies: seq<Reply>, left: seq<Reply>, cursor: Json, total: int, maxItems: int,
                  body: Json, items: seq<Json>, rest: Run)
    requires Truthy(cursor) && total < maxItems
    requires SearchPage(replies).body == Some(body) && left == Drop(replies, SearchPage(replies).tries)
    requires items == Trim(PageItems(body), total, maxItems)
    requires rest == Crawl(left, NextCursorOf(body), total + |items|, maxItems)
    ensures Crawl(replies, cursor, total, maxItems) == Run(items + rest.items, rest.failed)
    ensures |left| < |replies|
  {
    assert left == replies[SearchPage(replies).tries..];
  }

}
