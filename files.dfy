/** The outside world of the harvesters, as state: the crawler's data directory
    (document directory, identifier log, summary cache, cursor file), the remote API
    (the replies it will give, the requests and waits made so far), the console
    (the answers the user will type), and the output directory of the category
    pipelines (JSON documents and CSV tables). */
module Files {
  import opened Wrappers
  import opened Json

  /** The summary cache file: `{"downloaded_count": int, "item_ids": [...]}`;
      `itemIds` is `None` when the file has no `item_ids` key. */
  datatype Cache = Cache(downloadedCount: int, itemIds: Option<seq<string>>)

  /** The cursor file: absent, not decodable as JSON, or a JSON object whose
      `cursor` entry is `cursor` (`None` when the key is missing or null). */
  datatype CursorFile = NoCursorFile | Corrupt | CursorJson(cursor: Option<string>)

  /** The crawler's data directory. */
  class Disk {
    /** The document directory: file name to stored document. */
    var docs: map<string, Json>
    /** The identifier log, one entry per line (an absent log reads as no lines). */
    var log: seq<string>
    /** The summary cache file, `None` while it does not exist. */
    var cache: Option<Cache>
    /** The resume-cursor file. */
    var cursor: CursorFile

    constructor (docs0: map<string, Json>, log0: seq<string>, cache0: Option<Cache>, cursor0: CursorFile)
      ensures docs == docs0 && log == log0 && cache == cache0 && cursor == cursor0
    {
      docs, log, cache, cursor := docs0, log0, cache0, cursor0;
    }
  }

  /** One reply of the remote API: an HTTP status with its decoded body, or a
      network-level failure (a `RequestException`, an undecodable body included). */
  datatype Reply = Response(status: int, body: Json) | NetworkError

  /** An HTTP request: a search page at a cursor, or the record of one item. */
  datatype Request = SearchRequest(cursor: Option<string>) | RecordRequest(id: string)

  /** The remote API. `replies` are the replies it will give, in order; once they run
      out every further request fails at the network level. */
  class Network {
    var replies: seq<Reply>
    var requests: seq<Request>
    var sleeps: seq<nat>

    constructor (replies0: seq<Reply>)
      ensures replies == replies0 && requests == [] && sleeps == []
    {
      replies, requests, sleeps := replies0, [], [];
    }
  }

  /** `s[n:]` on a stream: what is left after `n` items are taken. */
  function Drop<T>(s: seq<T>, n: nat): (r: seq<T>)
    ensures |r| == if n <= |s| then |s| - n else 0
  {
    if n <= |s| then s[n..] else []
  }

  /** Send one request and receive its reply. */
  method Exchange(net: Network, req: Request) returns (reply: Reply)
    modifies net
    ensures reply == (if old(net.replies) == [] then NetworkError else old(net.replies)[0])
    ensures net.replies == Drop(old(net.replies), 1)
    ensures net.requests == old(net.requests) + [req]
    ensures net.sleeps == old(net.sleeps)
  {
    if net.replies == [] {
      reply := NetworkError;
    } else {
      reply := net.replies[0];
      net.replies := net.replies[1..];
    }
    net.requests := net.requests + [req];
  }

  /** `time.sleep(seconds)`, recorded. */
  method Sleep(net: Network, seconds: nat)
    modifies net
    ensures net.sleeps == old(net.sleeps) + [seconds]
    ensures net.replies == old(net.replies) && net.requests == old(net.requests)
  {
    net.sleeps := net.sleeps + [seconds];
  }

  /** The user at the console: the answers to the crawler's confirmation prompt,
      `true` for `yes`/`y`. */
  class Console {
    var answers: seq<bool>
    /** How many times the prompt has been shown. */
    var asked: nat

    constructor (answers0: seq<bool>)
      ensures answers == answers0 && asked == 0
    {
      answers, asked := answers0, 0;
    }
  }

  /** The answer the next prompt reads: the first one typed, or `no` once the answers
      run out. */
  function Answer(answers: seq<bool>): bool
  {
    answers != [] && answers[0]
  }

  /** Show the prompt and read one answer. */
  method Ask(console: Console) returns (yes: bool)
    modifies console
    ensures yes == Answer(old(console.answers))
    ensures console.answers == Drop(old(console.answers), 1)
    ensures console.asked == old(console.asked) + 1
  {
    if console.answers == [] {
      yes := false;
    } else {
      yes := console.answers[0];
      console.answers := console.answers[1..];
    }
    console.asked := console.asked + 1;
  }

  /** One line of a CSV file: the header or a data row. */
  datatype CsvLine = Header(names: seq<string>) | Row(values: seq<Json>)

  /** The output directory tree of the category pipelines: JSON documents and CSV
      files by path, and the paths the process may not write to. */
  class Output {
    var json: map<string, Json>
    var csv: map<string, seq<CsvLine>>
    const unwritable: set<string>

    constructor (json0: map<string, Json>, csv0: map<string, seq<CsvLine>>, unwritable0: set<string>)
      ensures json == json0 && csv == csv0 && unwritable == unwritable0
    {
      json, csv, unwritable := json0, csv0, unwritable0;
    }
  }

  /** `os.path.join(dir, name)` for a relative `name`. */
  function Join(dir: string, name: string): string
  {
    if dir == [] then name
    else if dir[|dir| - 1] == '/' then dir + name
    else dir + "/" + name
  }
}
