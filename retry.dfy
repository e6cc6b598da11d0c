/** The crawler's retry policy (`fetch_with_retries`): up to `max_retries`
    requests; a 200 reply returns its body; a rate-limit or listed 5xx status, or a
    network failure, waits `2^k` seconds after the k-th failure (counting from 0) and
    tries again; any other status gives up at once; running out of tries gives up. */
module RetryPolicy {
  import opened Wrappers
  import opened Json
  import opened Files

  /** The statuses that are retried. */
  const RetriedStatuses: set<int> := {429, 502, 503, 504, 520}

  /** The crawler's default number of tries. */
  const MaxRetries: int := 5

  /** A reply that leads to another try. */
  predicate Transient(r: Reply)
  {
    r.NetworkError? || r.status in RetriedStatuses
  }

  /** The reply to the `k`-th request (from 0): a network failure once the scripted
      replies are used up. */
  function ReplyAt(replies: seq<Reply>, k: nat): Reply
  {
    if k < |replies| then replies[k] else NetworkError
  }

  function Pow2(n: nat): (r: nat)
    ensures r >= 1
  {
    if n == 0 then 1 else 2 * Pow2(n - 1)
  }

  /** The waits after failures number `j` to `j + n - 1`: `2^j`, `2^(j+1)`, ... seconds. */
  function Waits(j: nat, n: nat): (r: seq<nat>)
    ensures |r| == n
    ensures forall k :: 0 <= k < n ==> r[k] == Pow2(j + k)
    decreases n
  {
    if n == 0 then [] else [Pow2(j)] + Waits(j + 1, n - 1)
  }

  /** The waits after the first `n` failures: 1, 2, 4, ... seconds. */
  function Backoff(n: nat): (r: seq<nat>)
    ensures |r| == n
    ensures forall k :: 0 <= k < n ==> r[k] == Pow2(k)
  {
    Waits(0, n)
  }

  /** `n` copies of `x`. */
  function Repeat<T>(x: T, n: nat): (r: seq<T>)
    ensures |r| == n && forall i :: 0 <= i < n ==> r[i] == x
  {
    seq(n, _ => x)
  }

  /** The outcome of the retry loop: the body returned (if any), how many requests
      were made, and the waits in between. */
  datatype Attempts = Attempts(data: Option<Json>, tries: nat, waits: seq<nat>)

  /** The loop from the state `retries == k` on. */
  function RetryFrom(replies: seq<Reply>, k: nat, maxRetries: int): Attempts
    decreases maxRetries - k
  {
    if k >= maxRetries then Attempts(None, 0, [])
    else
      var r := ReplyAt(replies, k);
      if r.Response? && r.status == 200 then Attempts(Some(r.body), 1, [])
      else if Transient(r) then
        var rest := RetryFrom(replies, k + 1, maxRetries);
        Attempts(rest.data, rest.tries + 1, [Pow2(k)] + rest.waits)
      else Attempts(None, 1, [])
  }

  /** `fetch_with_retries` against the scripted replies. */
  function Retry(replies: seq<Reply>, maxRetries: int): Attempts
  {
    RetryFrom(replies, 0, maxRetries)
  }

  /** The first `n` replies are all transient. */
  predicate AllTransient(replies: seq<Reply>, n: nat)
  {
    forall k :: 0 <= k < n ==> Transient(ReplyAt(replies, k))
  }

  /** Running the loop up to `retries == k` through transient replies and then on. */
  lemma {:induction false} RetryUnroll(replies: seq<Reply>, j: nat, k: nat, maxRetries: int)
    requires j <= k && (k <= maxRetries || j == k)
    requires forall i :: j <= i < k ==> Transient(ReplyAt(replies, i))
    ensures RetryFrom(replies, j, maxRetries) ==
      var rest := RetryFrom(replies, k, maxRetries);
      Attempts(rest.data, rest.tries + (k - j), Waits(j, k - j) + rest.waits)
    decreases k - j
  {
    if j < k {
      RetryUnroll(replies, j + 1, k, maxRetries);
      var r := ReplyAt(replies, j);
      assert Transient(r) && !(r.Response? && r.status == 200);
      var rest := RetryFrom(replies, k, maxRetries);
      var next := RetryFrom(replies, j + 1, maxRetries);
      assert RetryFrom(replies, j, maxRetries) == Attempts(next.data, next.tries + 1, [Pow2(j)] + next.waits);
      WaitsCons(j, k - j - 1, rest.waits);
    }
  }

  /** One more wait in front of a run of waits. */
  lemma WaitsCons(j: nat, n: nat, after: seq<nat>)
    ensures [Pow2(j)] + (Waits(j + 1, n) + after) == Waits(j, n + 1) + after
  {
    assert Waits(j, n + 1) == [Pow2(j)] + Waits(j + 1, n);
  }

  /** The loop returns a body exactly when, within the tries allowed, a 200 reply
      follows nothing but transient ones; that reply's body is what it returns. */
  lemma {:induction false} RetryReturnsFirstSuccess(replies: seq<Reply>, maxRetries: int)
    ensures Retry(replies, maxRetries).data.Some? <==>
      exists i :: 0 <= i < maxRetries && AllTransient(replies, i)
        && ReplyAt(replies, i).Response? && ReplyAt(replies, i).status == 200
    ensures forall i ::
      (0 <= i < maxRetries && AllTransient(replies, i)
       && ReplyAt(replies, i).Response? && ReplyAt(replies, i).status == 200)
      ==> Retry(replies, maxRetries) == Attempts(Some(ReplyAt(replies, i).body), i + 1, Backoff(i))
  {
    forall i | 0 <= i < maxRetries && AllTransient(replies, i)
        && ReplyAt(replies, i).Response? && ReplyAt(replies, i).status == 200
      ensures Retry(replies, maxRetries) == Attempts(Some(ReplyAt(replies, i).body), i + 1, Backoff(i))
    {
      RetryUnroll(replies, 0, i, maxRetries);
    }
    if Retry(replies, maxRetries).data.Some? {
      var i := FirstDecisive(replies, 0, maxRetries);
      RetryUnroll(replies, 0, i, maxRetries);
    }
  }

  /** The index of the first non-transient reply at or after `k`, or `maxRetries`
      when there is none before it. */
  function FirstDecisive(replies: seq<Reply>, k: nat, maxRetries: int): (i: nat)
    requires k <= maxRetries
    ensures k <= i <= maxRetries
    ensures forall m :: k <= m < i ==> Transient(ReplyAt(replies, m))
    ensures i < maxRetries ==> !Transient(ReplyAt(replies, i))
    decreases maxRetries - k
  {
    if k == maxRetries || !Transient(ReplyAt(replies, k)) then k
    else FirstDecisive(replies, k + 1, maxRetries)
  }

  /** At most `max_retries` requests are made, and the waits are 1, 2, 4, ...
      seconds, one after each retried failure. */
  lemma {:induction false} RetryBounds(replies: seq<Reply>, maxRetries: int)
    ensures Retry(replies, maxRetries).tries <= if maxRetries < 0 then 0 else maxRetries
    ensures maxRetries > 0 ==> Retry(replies, maxRetries).tries >= 1
    ensures Retry(replies, maxRetries).waits == Backoff(|Retry(replies, maxRetries).waits|)
    ensures |Retry(replies, maxRetries).waits| ==
      if AllTransient(replies, Retry(replies, maxRetries).tries)
      then Retry(replies, maxRetries).tries
      else Retry(replies, maxRetries).tries - 1
  {
    if maxRetries <= 0 {
    } else {
      var i := FirstDecisive(replies, 0, maxRetries);
      RetryUnroll(replies, 0, i, maxRetries);
      if i < maxRetries {
        assert !AllTransient(replies, i + 1);
      }
    }
  }

  /** A status that is neither 200 nor retried ends the loop at once, with nothing. */
  lemma FatalStatusStopsAtOnce(replies: seq<Reply>, maxRetries: int)
    requires maxRetries >= 1 && replies != []
    requires replies[0].Response? && replies[0].status != 200 && replies[0].status !in RetriedStatuses
    ensures Retry(replies, maxRetries) == Attempts(None, 1, [])
  {
  }

  /** `max_retries` transient replies in a row give up with nothing, after waiting
      1, 2, 4, ... seconds after every one of them. */
  lemma RetriesExhausted(replies: seq<Reply>, maxRetries: nat)
    requires AllTransient(replies, maxRetries)
    ensures Retry(replies, maxRetries) == Attempts(None, maxRetries, Backoff(maxRetries))
  {
    RetryUnroll(replies, 0, maxRetries, maxRetries);
  }

  /** A body is only ever returned from a scripted reply: with no replies left, the
      loop returns nothing. */
  lemma NoRepliesNoData(replies: seq<Reply>, maxRetries: int)
    requires replies == []
    ensures Retry(replies, maxRetries).data.None?
  {
    RetryReturnsFirstSuccess(replies, maxRetries);
  }

  /** Where the loop stands after `k` transient replies: a 200 reply returns its
      body, another non-transient reply or the last try returns nothing. */
  lemma RetryAfter(replies: seq<Reply>, k: nat, maxRetries: int)
    requires AllTransient(replies, k) && (k <= maxRetries || k == 0)
    ensures var r := ReplyAt(replies, k);
      k < maxRetries && r.Response? && r.status == 200 ==>
        Retry(replies, maxRetries) == Attempts(Some(r.body), k + 1, Backoff(k))
    ensures var r := ReplyAt(replies, k);
      k < maxRetries && !Transient(r) && !(r.Response? && r.status == 200) ==>
        Retry(replies, maxRetries) == Attempts(None, k + 1, Backoff(k))
    ensures k >= maxRetries ==> Retry(replies, maxRetries) == Attempts(None, k, Backoff(k))
  {
    RetryUnroll(replies, 0, k, maxRetries);
  }

  /** One more failure consumes one more reply, adds one more request and one more
      wait. */
  lemma OneMoreTry<T>(replies: seq<Reply>, k: nat, sent: seq<T>, x: T, slept: seq<nat>)
    ensures Drop(Drop(replies, k), 1) == Drop(replies, k + 1)
    ensures (sent + Repeat(x, k)) + [x] == sent + Repeat(x, k + 1)
    ensures (slept + Backoff(k)) + [Pow2(k)] == slept + Backoff(k + 1)
  {
    assert Repeat(x, k + 1) == Repeat(x, k) + [x];
    assert Backoff(k + 1) == Backoff(k) + [Pow2(k)];
  }

  /** `fetch_with_retries(url, params, max_retries)`: every try sends `req`. */
  method FetchWithRetries(net: Network, req: Request, maxRetries: int) returns (data: Option<Json>)
    modifies net
    ensures data == Retry(old(net.replies), maxRetries).data
    ensures net.replies == Drop(old(net.replies), Retry(old(net.replies), maxRetries).tries)
    ensures net.requests == old(net.requests) + Repeat(req, Retry(old(net.replies), maxRetries).tries)
    ensures net.sleeps == old(net.sleeps) + Retry(old(net.replies), maxRetries).waits
  {
    ghost var replies := net.replies;
    ghost var requests := net.requests;
    ghost var sleeps := net.sleeps;
    var retries: nat := 0;
    while retries < maxRetries
      invariant retries <= maxRetries || retries == 0
      invariant AllTransient(replies, retries)
      invariant net.replies == Drop(replies, retries)
      invariant net.requests == requests + Repeat(req, retries)
      invariant net.sleeps == sleeps + Backoff(retries)
      decreases maxRetries - retries
    {
      var reply := Exchange(net, req);
      assert reply == ReplyAt(replies, retries);
      OneMoreTry(replies, retries, requests, req, sleeps);
      RetryAfter(replies, retries, maxRetries);
      if reply.Response? && reply.status == 200 {
        return Some(reply.body);
      } else if Transient(reply) {
        Sleep(net, Pow2(retries));
        retries := retries + 1;
      } else {
        return None;
      }
    }
    RetryAfter(replies, retries, maxRetries);
    return None;
  }
}
