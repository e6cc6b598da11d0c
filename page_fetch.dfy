/** One page of the crawler's search (`fetch_item_ids`) and one record
    (`fetch_item_metadata`): the page's items minus those with an excluded `dcType`,
    and its `nextCursor`, which is stored for the next run as soon as it arrives. */
module CrawlerApi {
  import opened Wrappers
  import opened Json
  import opened Files
  import opened Exclusion
  import opened CursorStore
  import opened RetryPolicy

  /** A page as the crawler sees it: the kept items and the next cursor. */
  datatype Page = Page(items: seq<Json>, next: Option<string>)

  /** `data.get("items", [])` of a reply body. */
  function RawItems(body: Json): seq<Json>
  {
    if body.JObj? then
      match Get(body.fields, "items")
      case Some(JArr(xs)) => xs
      case _ => []
    else []
  }

  /** `data.get("nextCursor")` of a reply body. */
  function NextCursor(body: Json): Option<string>
  {
    if body.JObj? then
      match Get(body.fields, "nextCursor")
      case Some(JStr(s)) => Some(s)
      case _ => None
    else None
  }

  /** The items that `find_excluded_dctype` does not flag, in their order. */
  function Kept(items: seq<Json>, deny: seq<string>): (r: seq<Json>)
    ensures |r| <= |items|
    ensures forall x :: x in r <==> x in items && !FindExcludedDcType(x, deny)
  {
    if items == [] then []
    else (if FindExcludedDcType(items[0], deny) then [] else [items[0]]) + Kept(items[1..], deny)
  }

  /** Filtering a concatenation filters each part and keeps the parts in order. */
  lemma {:induction false} KeptAppend(a: seq<Json>, b: seq<Json>, deny: seq<string>)
    ensures Kept(a + b, deny) == Kept(a, deny) + Kept(b, deny)
  {
    if a == [] {
      assert a + b == b;
    } else {
      assert (a + b)[0] == a[0] && (a + b)[1..] == a[1..] + b;
      KeptAppend(a[1..], b, deny);
    }
  }

  /** Filtering twice is filtering once. */
  lemma {:induction false} KeptIdempotent(items: seq<Json>, deny: seq<string>)
    ensures Kept(Kept(items, deny), deny) == Kept(items, deny)
  {
    if items != [] {
      KeptIdempotent(items[1..], deny);
      var head := if FindExcludedDcType(items[0], deny) then [] else [items[0]];
      KeptAppend(head, Kept(items[1..], deny), deny);
    }
  }

  /** The page `fetch_item_ids` returns for the body `fetch_with_retries` gave back. */
  function PageOf(data: Option<Json>, deny: seq<string>): Page
  {
    if data.None? || !Truthy(data.value) then Page([], None)
    else Page(Kept(RawItems(data.value), deny), NextCursor(data.value))
  }

  /** Without a usable reply the page is empty and ends the crawl; otherwise its items
      are exactly the reply's unexcluded items and its cursor is the reply's. */
  lemma PageOfSpec(data: Option<Json>, deny: seq<string>)
    ensures data.None? || !Truthy(data.value) ==> PageOf(data, deny) == Page([], None)
    ensures data.Some? && Truthy(data.value) ==>
      (forall x :: x in PageOf(data, deny).items <==> x in RawItems(data.value) && !FindExcludedDcType(x, deny))
      && PageOf(data, deny).next == NextCursor(data.value)
  {
  }

  /** The cursor the search is made at: the caller's, or the stored one when the
      caller passes none. */
  function SearchCursor(cursor: Option<string>, f: CursorFile): (r: Option<string>)
    ensures cursor.Some? ==> r == cursor
    ensures cursor.None? ==> r == ReadCursor(f)
  {
    if cursor.None? then ReadCursor(f) else cursor
  }

  /** `fetch_item_ids(cursor)`. */
  method FetchItemIds(disk: Disk, net: Network, cursor: Option<string>, deny: seq<string>)
    returns (items: seq<Json>, next: Option<string>)
    modifies disk, net
    ensures var a := Retry(old(net.replies), MaxRetries);
      && Page(items, next) == PageOf(a.data, deny)
      && net.replies == Drop(old(net.replies), a.tries)
      && net.requests == old(net.requests) + Repeat(SearchRequest(SearchCursor(cursor, old(disk.cursor))), a.tries)
      && net.sleeps == old(net.sleeps) + a.waits
    ensures disk.cursor == WriteCursor(old(disk.cursor), next)
    ensures disk.docs == old(disk.docs) && disk.log == old(disk.log) && disk.cache == old(disk.cache)
  {
    var c := cursor;
    if c.None? {
      c := ReadCursor(disk.cursor);
    }
    var data := FetchWithRetries(net, SearchRequest(c), MaxRetries);
    if data.None? || !Truthy(data.value) {
      return [], None;
    }
    items := Kept(RawItems(data.value), deny);
    next := NextCursor(data.value);
    if next.Some? && next.value != "" {
      SaveCursor(disk, next);
    }
  }

  /** With the reply stream used up, a search returns no items. */
  lemma NoRepliesNoPage(deny: seq<string>)
    ensures PageOf(Retry([], MaxRetries).data, deny) == Page([], None)
  {
    NoRepliesNoData([], MaxRetries);
  }

  /** `fetch_item_metadata(item_id)`: the record of one item, with retries. */
  method FetchItemMetadata(net: Network, id: string) returns (data: Option<Json>)
    modifies net
    ensures var a := Retry(old(net.replies), MaxRetries);
      && data == a.data
      && net.replies == Drop(old(net.replies), a.tries)
      && net.requests == old(net.requests) + Repeat(RecordRequest(id), a.tries)
      && net.sleeps == old(net.sleeps) + a.waits
  {
    data := FetchWithRetries(net, RecordRequest(id), MaxRetries);
  }
}
