/** The category pipelines' output helpers (`save_metadata`, `save_skipped_metadata`,
    `save_json`): CSV files that get their header once, when they are created, and
    then only ever have rows appended; and full item documents stored under the
    sanitized identifier, overwriting any earlier copy. */
module CsvHandler {
  import opened Wrappers
  import opened Json
  import opened Text
  import opened Files

  /** The columns of the valid-items CSV and the value each takes when the item lacks it. */
  const ValidColumns: seq<string> := ["id", "title", "original_title", "original_title_language_alpha_2",
    "image_url", "english_description", "original_description", "original_description_language_alpha_2"]
  const ValidDefaults: seq<string> := ["N/A", "No title available", "No original title available", "N/A",
    "N/A", "No description available", "No original description available", "N/A"]

  /** The columns of the skipped-items CSV. */
  const SkippedColumns: seq<string> := ["id", "title", "image_url", "description"]

  /** The path of a document: `<dir>/<sanitized id>.json`. */
  function JsonPath(dir: string, id: string): string
  {
    Join(dir, StorageKey(id))
  }

  /** The document files after writing `item` to `path`: it replaces any earlier copy,
      unless the file cannot be opened, in which case nothing changes. */
  function WriteAt(json: map<string, Json>, unwritable: set<string>, path: string, item: Json)
    : (r: map<string, Json>)
    ensures path !in unwritable ==> path in r && r[path] == item
    ensures path in unwritable ==> r == json
    ensures forall p :: p in json && p != path ==> p in r && r[p] == json[p]
    ensures r.Keys <= json.Keys + {path}
  {
    if path in unwritable then json else json[path := item]
  }

  /** The document files after `save_json`: the item is written over any earlier copy,
      unless the file cannot be opened, in which case the error is swallowed. */
  function JsonAfterSave(json: map<string, Json>, unwritable: set<string>, dir: string, id: string, item: Json)
    : (r: map<string, Json>)
    ensures JsonPath(dir, id) !in unwritable ==> JsonPath(dir, id) in r && r[JsonPath(dir, id)] == item
    ensures forall p :: p in json && p != JsonPath(dir, id) ==> p in r && r[p] == json[p]
    ensures r.Keys <= json.Keys + {JsonPath(dir, id)}
  {
    WriteAt(json, unwritable, JsonPath(dir, id), item)
  }

  /** `save_json(item, item_id, json_dir)`, in either category pipeline. */
  method SaveJson(out: Output, item: Json, id: string, dir: string)
    modifies out
    ensures out.json == JsonAfterSave(old(out.json), out.unwritable, dir, id, item)
    ensures out.csv == old(out.csv)
  {
    var path := JsonPath(dir, id);
    if path !in out.unwritable {
      out.json := out.json[path := item];
    }
  }

  /** Unlike the crawler's create-only write, the last save of an identifier wins. */
  lemma LastSaveWins(json: map<string, Json>, unwritable: set<string>, dir: string, id: string, a: Json, b: Json)
    ensures JsonAfterSave(JsonAfterSave(json, unwritable, dir, id, a), unwritable, dir, id, b)
      == JsonAfterSave(json, unwritable, dir, id, b)
  {
  }

  /** `{"id": item.get("id", "N/A"), ...}`: the eight columns, each with its default. */
  function ValidRow(item: Json): (r: Result<seq<Json>, PyError>)
    ensures !item.JObj? ==> r == Err(AttributeError)
    ensures item.JObj? ==> r.Ok? && |r.value| == |ValidColumns|
  {
    if !item.JObj? then Err(AttributeError)
    else Ok(seq(|ValidColumns|, k requires 0 <= k < |ValidColumns| =>
                 GetOr(item.fields, ValidColumns[k], JStr(ValidDefaults[k]))))
  }

  /** A valid row copies every column the item has and uses the fixed default for the
      others. */
  lemma ValidRowSpec(fs: Fields, k: nat)
    requires k < |ValidColumns|
    ensures Get(fs, ValidColumns[k]).Some? ==> ValidRow(JObj(fs)).value[k] == Get(fs, ValidColumns[k]).value
    ensures Get(fs, ValidColumns[k]).None? ==> ValidRow(JObj(fs)).value[k] == JStr(ValidDefaults[k])
  {
  }

  /** `DictWriter.writerow(item)` with the skipped-items columns: every key must be a
      column, and absent columns are written empty. */
  function SkippedRow(item: Json): (r: Result<seq<Json>, PyError>)
    ensures r.Ok? ==> |r.value| == |SkippedColumns|
    ensures !item.JObj? ==> r == Err(AttributeError)
    ensures item.JObj? ==> (r.Ok? <==> forall i :: 0 <= i < |item.fields| ==> item.fields[i].0 in SkippedColumns)
  {
    if !item.JObj? then Err(AttributeError)
    else if exists i :: 0 <= i < |item.fields| && item.fields[i].0 !in SkippedColumns then Err(ValueError)
    else Ok(seq(|SkippedColumns|, k requires 0 <= k < |SkippedColumns| =>
                 GetOr(item.fields, SkippedColumns[k], JStr(""))))
  }

  /** The rows written for `items` and the error that stopped the writing, if any. */
  datatype Rows = Rows(lines: seq<CsvLine>, error: Option<PyError>)

  /** Writing `items` one row at a time until the first item that cannot be written. */
  function RowsOf(items: seq<Json>, rowOf: Json -> Result<seq<Json>, PyError>): (r: Rows)
    ensures |r.lines| <= |items|
    ensures r.error.None? ==> |r.lines| == |items|
    decreases |items|
  {
    if items == [] then Rows([], None)
    else
      var n := |items| - 1;
      var p := RowsOf(items[..n], rowOf);
      if p.error.Some? then p
      else
        match rowOf(items[n])
        case Err(e) => Rows(p.lines, Some(e))
        case Ok(row) => Rows(p.lines + [Row(row)], None)
  }

  /** Every line written is a row; without an error every item became its row, in
      order; an error is the error of one of the items. */
  lemma {:induction false} RowsOfSpec(items: seq<Json>, rowOf: Json -> Result<seq<Json>, PyError>)
    ensures forall l :: l in RowsOf(items, rowOf).lines ==> l.Row?
    ensures RowsOf(items, rowOf).error.None? ==>
      forall i :: 0 <= i < |items| ==>
        rowOf(items[i]).Ok? && RowsOf(items, rowOf).lines[i] == Row(rowOf(items[i]).value)
    ensures RowsOf(items, rowOf).error.Some? ==>
      exists i :: 0 <= i < |items| && rowOf(items[i]) == Err(RowsOf(items, rowOf).error.value)
    decreases |items|
  {
    if items != [] {
      var n := |items| - 1;
      RowsOfSpec(items[..n], rowOf);
      assert forall i :: 0 <= i < n ==> items[..n][i] == items[i];
    }
  }

  /** Once a row fails, later items change nothing. */
  lemma {:induction false} ErrorSticks(items: seq<Json>, k: nat, rowOf: Json -> Result<seq<Json>, PyError>)
    requires k <= |items| && RowsOf(items[..k], rowOf).error.Some?
    ensures RowsOf(items, rowOf) == RowsOf(items[..k], rowOf)
    decreases |items| - k
  {
    if k < |items| {
      assert items[..k + 1][..k] == items[..k];
      ErrorSticks(items, k + 1, rowOf);
    } else {
      assert items[..k] == items;
    }
  }

  /** What the file holds before the rows: its old lines, or a header when it is new. */
  function Prior(csv: map<string, seq<CsvLine>>, path: string, header: seq<string>): (r: seq<CsvLine>)
    ensures path in csv ==> r == csv[path]
    ensures path !in csv ==> r == [Header(header)]
  {
    if path in csv then csv[path] else [Header(header)]
  }

  /** Open `path` for appending, write the header if the file is new, then write the
      first `count` items, stopping at the first one that cannot be written. */
  method AppendRows(out: Output, path: string, header: seq<string>, items: seq<Json>, count: int,
                    rowOf: Json -> Result<seq<Json>, PyError>)
    returns (error: Option<PyError>)
    modifies out
    ensures path in out.unwritable ==> error == Some(OSError) && out.csv == old(out.csv)
    ensures path !in out.unwritable ==>
      var rows := RowsOf(Take(items, count), rowOf);
      && error == rows.error
      && out.csv == old(out.csv)[path := Prior(old(out.csv), path, header) + rows.lines]
    ensures out.json == old(out.json)
  {
    if path in out.unwritable {
      return Some(OSError);
    }
    var lines := Prior(out.csv, path, header);
    out.csv := out.csv[path := lines];
    var todo := Take(items, count);
    assert todo[..0] == [];
    assert lines + RowsOf(todo[..0], rowOf).lines == lines;
    for i := 0 to |todo|
      invariant RowsOf(todo[..i], rowOf).error.None?
      invariant out.csv == old(out.csv)[path := lines + RowsOf(todo[..i], rowOf).lines]
      invariant out.json == old(out.json)
    {
      assert todo[..i + 1][..i] == todo[..i];
      match rowOf(todo[i])
      case Err(e) =>
        assert RowsOf(todo[..i + 1], rowOf) == Rows(RowsOf(todo[..i], rowOf).lines, Some(e));
        ErrorSticks(todo, i + 1, rowOf);
        return Some(e);
      case Ok(row) =>
        ghost var done := RowsOf(todo[..i], rowOf).lines;
        assert RowsOf(todo[..i + 1], rowOf).lines == done + [Row(row)];
        assert lines + done + [Row(row)] == lines + (done + [Row(row)]);
        out.csv := out.csv[path := out.csv[path] + [Row(row)]];
    }
    assert todo[..|todo|] == todo;
    return None;
  }

  /** `save_metadata(items, valid_items_count, csv_filename, metadata_dir)`. */
  method SaveMetadata(out: Output, items: seq<Json>, count: int, fileName: string, dir: string)
    returns (error: Option<PyError>)
    modifies out
    ensures Join(dir, fileName) in out.unwritable ==> error == Some(OSError) && out.csv == old(out.csv)
    ensures Join(dir, fileName) !in out.unwritable ==>
      var rows := RowsOf(Take(items, count), ValidRow);
      && error == rows.error
      && out.csv == old(out.csv)[Join(dir, fileName) := Prior(old(out.csv), Join(dir, fileName), ValidColumns) + rows.lines]
    ensures out.json == old(out.json)
  {
    error := AppendRows(out, Join(dir, fileName), ValidColumns, items, count, ValidRow);
  }

  /** `save_skipped_metadata(items, skipped_items_count, csv_filename, metadata_dir)`. */
  method SaveSkippedMetadata(out: Output, items: seq<Json>, count: int, fileName: string, dir: string)
    returns (error: Option<PyError>)
    modifies out
    ensures Join(dir, fileName) in out.unwritable ==> error == Some(OSError) && out.csv == old(out.csv)
    ensures Join(dir, fileName) !in out.unwritable ==>
      var rows := RowsOf(Take(items, count), SkippedRow);
      && error == rows.error
      && out.csv == old(out.csv)[Join(dir, fileName) := Prior(old(out.csv), Join(dir, fileName), SkippedColumns) + rows.lines]
    ensures out.json == old(out.json)
  {
    error := AppendRows(out, Join(dir, fileName), SkippedColumns, items, count, SkippedRow);
  }

  /** The number of header lines in a file. */
  function Headers(lines: seq<CsvLine>): (r: nat)
    ensures r <= |lines|
  {
    if lines == [] then 0 else (if lines[0].Header? then 1 else 0) + Headers(lines[1..])
  }

  lemma {:induction false} HeadersAppend(a: seq<CsvLine>, b: seq<CsvLine>)
    ensures Headers(a + b) == Headers(a) + Headers(b)
  {
    if a == [] {
      assert a + b == b;
    } else {
      assert (a + b)[0] == a[0] && (a + b)[1..] == a[1..] + b;
      HeadersAppend(a[1..], b);
    }
  }

  /** An append adds a header exactly when it creates the file, keeps the old lines as
      they were, and adds at most `count` rows: files started by these helpers hold
      one header, however many times they are appended to. */
  lemma {:induction false} HeaderOnce(csv: map<string, seq<CsvLine>>, path: string, header: seq<string>,
                                      items: seq<Json>, count: int, rowOf: Json -> Result<seq<Json>, PyError>)
    ensures var after := Prior(csv, path, header) + RowsOf(Take(items, count), rowOf).lines;
      && Headers(after) == (if path in csv then Headers(csv[path]) else 1)
      && (path in csv ==> csv[path] <= after)
  {
    var rows := RowsOf(Take(items, count), rowOf).lines;
    HeadersAppend(Prior(csv, path, header), rows);
    RowsOfSpec(Take(items, count), rowOf);
    NoHeaders(rows);
    if path !in csv {
      assert Headers([Header(header)]) == 1 + Headers([]);
    }
  }

  lemma {:induction false} NoHeaders(rows: seq<CsvLine>)
    requires forall l :: l in rows ==> l.Row?
    ensures Headers(rows) == 0
  {
    if rows != [] {
      assert rows[0] in rows;
      NoHeaders(rows[1..]);
    }
  }

  /** Valid rows never fail on objects: every one of the first `count` object items is
      written. */
  lemma {:induction false} ValidRowsAllWritten(items: seq<Json>)
    requires forall i :: 0 <= i < |items| ==> items[i].JObj?
    ensures RowsOf(items, ValidRow).error.None?
    ensures |RowsOf(items, ValidRow).lines| == |items|
  {
    if items != [] {
      var n := |items| - 1;
      ValidRowsAllWritten(items[..n]);
    }
  }

  /** A skipped item with a key outside the four columns stops the writing with a
      `ValueError`. */
  lemma ExtraKeyStops(fs: Fields)
    requires fs == [("id", JStr("x")), ("country", JStr("y"))]
    ensures RowsOf([JObj(fs)], SkippedRow) == Rows([], Some(ValueError))
  {
    assert fs[1].0 !in SkippedColumns;
    assert [JObj(fs)][..0] == [];
  }
}
