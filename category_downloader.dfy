/** The category downloader (`Downloader`): keeps the search items whose concept
    labels include the category's label, case-insensitively, stores each kept item's
    full document, and writes a `metadata.csv` of identifier, image URL and
    description for the kept items, in their order. */
module CategoryDownloader {
  import opened Wrappers
  import opened Json
  import opened Text
  import opened Files
  import opened CsvHandler

  /** A configured downloader: where it writes and the filter of its category. */
  datatype Downloader = Downloader(metadataDir: string, jsonDir: string, category: string,
                                   filterConfig: map<string, string>)

  /** `Downloader(data_dir, category)`: the category must be given and have a
      non-empty entry in the category table; otherwise a `ValueError`. */
  function NewDownloader(dataDir: string, category: Option<string>,
                         categories: map<string, map<string, string>>): (r: Result<Downloader, PyError>)
    ensures r.Ok? <==> category.Some? && category.value != "" && category.value in categories
                       && categories[category.value] != map[]
    ensures r.Err? ==> r.error == ValueError
    ensures r.Ok? ==> r.value.filterConfig == categories[category.value] && r.value.category == category.value
    ensures r.Ok? ==> r.value.metadataDir == Join(dataDir, "metadata") && r.value.jsonDir == Join(dataDir, "json")
  {
    if category.None? || category.value == "" then Err(ValueError)
    else
      var config := if category.value in categories then categories[category.value] else map[];
      if config == map[] then Err(ValueError)
      else Ok(Downloader(Join(dataDir, "metadata"), Join(dataDir, "json"), category.value, config))
  }

  /** `filter_config.get(key, default)`. */
  function Setting(config: map<string, string>, key: string, default: string): string
  {
    if key in config then config[key] else default
  }

  /** The lower-cased label a kept item must carry. */
  function LabelFilter(d: Downloader): string
  {
    Lower(Setting(d.filterConfig, "edmConceptLabel", ""))
  }

  /** The language of the description column. */
  function DescriptionLang(d: Downloader): string
  {
    Setting(d.filterConfig, "dcDescriptionLangAware", "en")
  }

  /** `label.get("def", "")` of one concept label. */
  function LabelDef(entry: Json): (r: Result<string, PyError>)
    ensures r.Err? ==> r.error == AttributeError
  {
    if !entry.JObj? then Err(AttributeError)
    else
      match GetOr(entry.fields, "def", JStr(""))
      case JStr(s) => Ok(s)
      case _ => Err(AttributeError)
  }

  /** `any(label.get("def", "").lower() == wanted for label in labels)`, which stops at
      the first match. */
  function AnyLabel(labels: seq<Json>, wanted: string): (r: Result<bool, PyError>)
  {
    if labels == [] then Ok(false)
    else
      match LabelDef(labels[0])
      case Err(e) => Err(e)
      case Ok(def) => if Lower(def) == wanted then Ok(true) else AnyLabel(labels[1..], wanted)
  }

  /** A concept label whose `def` reads as `wanted`. */
  predicate LabelIs(entry: Json, wanted: string)
  {
    LabelDef(entry).Ok? && Lower(LabelDef(entry).value) == wanted
  }

  /** When every entry is an object with a string (or no) `def`, the test succeeds and
      is true exactly when some entry's `def`, lower-cased, is the wanted entry. */
  lemma {:induction false} AnyLabelSpec(labels: seq<Json>, wanted: string)
    requires forall i :: 0 <= i < |labels| ==> LabelDef(labels[i]).Ok?
    ensures AnyLabel(labels, wanted) == Ok(exists i :: 0 <= i < |labels| && LabelIs(labels[i], wanted))
  {
    if labels != [] {
      AnyLabelSpec(labels[1..], wanted);
      if !LabelIs(labels[0], wanted) {
        assert forall i :: 1 <= i < |labels| ==> labels[i] == labels[1..][i - 1];
        assert (exists i :: 0 <= i < |labels| && LabelIs(labels[i], wanted))
          <==> (exists i :: 0 <= i < |labels[1..]| && LabelIs(labels[1..][i], wanted));
      }
    }
  }

  /** Iterating `item.get("edmConceptLabel", [])`: a list is searched; iterating an
      object or a string yields strings, which have no `get`; anything else is not
      iterable. */
  function HasConceptLabel(fs: Fields, wanted: string): (r: Result<bool, PyError>)
  {
    match GetOr(fs, "edmConceptLabel", JArr([]))
    case JArr(labels) => AnyLabel(labels, wanted)
    case JObj(keys) => if keys == [] then Ok(false) else Err(AttributeError)
    case JStr(s) => if s == "" then Ok(false) else Err(AttributeError)
    case _ => Err(TypeError)
  }

  /** The image URL: the first element of `edmIsShownBy` when that is a non-empty list,
      otherwise null. */
  function ImageUrl(fs: Fields): (r: Json)
    ensures (exists xs :: Get(fs, "edmIsShownBy") == Some(JArr(xs)) && xs != []) ==>
      r == Get(fs, "edmIsShownBy").value.items[0]
    ensures !(exists xs :: Get(fs, "edmIsShownBy") == Some(JArr(xs)) && xs != []) ==> r == JNull
  {
    match GetOr(fs, "edmIsShownBy", JArr([]))
    case JArr(xs) => if xs != [] then xs[0] else JNull
    case _ => JNull
  }

  /** The placeholder for a missing description. */
  function NoDescription(lang: string): string
  {
    "No " + lang + " description available"
  }

  /** The description: the first entry of `dcDescriptionLangAware[lang]` when that is
      truthy, otherwise the placeholder. */
  function Description(fs: Fields, lang: string): (r: Result<Json, PyError>)
    ensures var aware := GetOr(fs, "dcDescriptionLangAware", JObj([]));
      && (!aware.JObj? ==> r == Err(AttributeError))
      && (aware.JObj? && !Truthy(GetOr(aware.fields, lang, JArr([]))) ==> r == Ok(JStr(NoDescription(lang))))
      && (aware.JObj? && GetOr(aware.fields, lang, JArr([])).JArr? && Truthy(GetOr(aware.fields, lang, JArr([]))) ==>
            r == Ok(GetOr(aware.fields, lang, JArr([])).items[0]))
  {
    match GetOr(fs, "dcDescriptionLangAware", JObj([]))
    case JObj(langs) =>
      var v := GetOr(langs, lang, JArr([]));
      if Truthy(v) then Index0(v) else Ok(JStr(NoDescription(lang)))
    case _ => Err(AttributeError)
  }

  /** What becomes of one item: skipped, or kept with its CSV row and the path its
      document is stored at. */
  datatype Match = Skip | Keep(row: seq<Json>, path: string)

  /** The loop body of `filter_and_save` for one item, up to the Python error a
      malformed item raises. */
  function Extract(d: Downloader, item: Json): (r: Result<Match, PyError>)
    ensures !item.JObj? ==> r == Err(AttributeError)
    ensures item.JObj? && HasConceptLabel(item.fields, LabelFilter(d)) == Ok(false) ==> r == Ok(Skip)
  {
    if !item.JObj? then Err(AttributeError)
    else
      var fs := item.fields;
      match HasConceptLabel(fs, LabelFilter(d))
      case Err(e) => Err(e)
      case Ok(has) =>
        if !has then Ok(Skip)
        else
          var image := ImageUrl(fs);
          match Description(fs, DescriptionLang(d))
          case Err(e) => Err(e)
          case Ok(description) =>
            match GetOr(fs, "id", JStr("unknown"))
            case JStr(id) => Ok(Keep([JStr(Sanitize(id)), image, description], JsonPath(d.jsonDir, id)))
            case _ => Err(AttributeError)
  }

  /** A kept item's row is its identifier with `/` replaced, its image address and its
      description, and its document goes to the identifier's file. */
  lemma KeptRow(d: Downloader, fs: Fields)
    requires Extract(d, JObj(fs)).Ok? && Extract(d, JObj(fs)).value.Keep?
    ensures HasConceptLabel(fs, LabelFilter(d)) == Ok(true)
    ensures Description(fs, DescriptionLang(d)).Ok? && GetOr(fs, "id", JStr("unknown")).JStr?
    ensures var id := GetOr(fs, "id", JStr("unknown")).s;
      && Extract(d, JObj(fs)).value.row == [JStr(Sanitize(id)), ImageUrl(fs), Description(fs, DescriptionLang(d)).value]
      && Extract(d, JObj(fs)).value.path == JsonPath(d.jsonDir, id)
  {
  }

  /** The outcome of the item loop: the rows collected, the documents written (path and
      item, in order), and the error that stopped it, if any. */
  datatype Scan = Scan(rows: seq<seq<Json>>, writes: seq<(string, Json)>, error: Option<PyError>)

  /** The item loop over `items`, stopping at the first error. */
  function ScanItems(d: Downloader, items: seq<Json>): (r: Scan)
    ensures |r.rows| == |r.writes| <= |items|
  {
    ScanWith(item => Extract(d, item), items)
  }

  /** The item loop with the per-item step as a parameter. */
  function ScanWith(step: Json -> Result<Match, PyError>, items: seq<Json>): (r: Scan)
    ensures |r.rows| == |r.writes| <= |items|
    decreases |items|
  {
    if items == [] then Scan([], [], None)
    else
      var n := |items| - 1;
      var p := ScanWith(step, items[..n]);
      if p.error.Some? then p
      else
        match step(items[n])
        case Err(e) => Scan(p.rows, p.writes, Some(e))
        case Ok(Skip) => p
        case Ok(Keep(row, path)) => Scan(p.rows + [row], p.writes + [(path, items[n])], None)
  }

  /** An item is kept exactly when its concept labels carry the category's label
      (and the rest of it can be read); a kept item's row starts with its identifier,
      `/` replaced, so no row names a sub-directory. */
  lemma KeepIffLabel(d: Downloader, fs: Fields)
    ensures (Extract(d, JObj(fs)).Ok? && Extract(d, JObj(fs)).value.Keep?) <==>
      && HasConceptLabel(fs, LabelFilter(d)) == Ok(true)
      && Description(fs, DescriptionLang(d)).Ok?
      && GetOr(fs, "id", JStr("unknown")).JStr?
    ensures Extract(d, JObj(fs)) == Ok(Skip) <==> HasConceptLabel(fs, LabelFilter(d)) == Ok(false)
    ensures Extract(d, JObj(fs)).Ok? && Extract(d, JObj(fs)).value.Keep? ==>
      var id := Extract(d, JObj(fs)).value.row[0];
      id.JStr? && '/' !in id.s
  {
    var m := Extract(d, JObj(fs));
    if m.Ok? && m.value.Keep? {
      SanitizeIsSafe(GetOr(fs, "id", JStr("unknown")).s);
    }
  }

  /** The loop keeps item order: scanning a concatenation scans the first part, then
      the second, the rows and documents of the two following each other. */
  lemma ScanAppend(d: Downloader, a: seq<Json>, b: seq<Json>)
    requires ScanItems(d, a).error.None?
    ensures ScanItems(d, a + b) ==
      var sa := ScanItems(d, a);
      var sb := ScanItems(d, b);
      Scan(sa.rows + sb.rows, sa.writes + sb.writes, sb.error)
  {
    ScanWithAppend(item => Extract(d, item), a, b);
  }

  lemma {:induction false} ScanWithAppend(step: Json -> Result<Match, PyError>, a: seq<Json>, b: seq<Json>)
    requires ScanWith(step, a).error.None?
    ensures ScanWith(step, a + b) ==
      var sa := ScanWith(step, a);
      var sb := ScanWith(step, b);
      Scan(sa.rows + sb.rows, sa.writes + sb.writes, sb.error)
    decreases |b|
  {
    if b == [] {
      assert a + b == a;
    } else {
      var n := |b| - 1;
      assert (a + b)[..|a + b| - 1] == a + b[..n];
      assert (a + b)[|a + b| - 1] == b[n];
      ScanWithAppend(step, a, b[..n]);
      var sa := ScanWith(step, a);
      var front := ScanWith(step, b[..n]);
      if front.error.None? {
        match step(b[n])
        case Ok(Keep(row, path)) =>
          assert sa.rows + front.rows + [row] == sa.rows + (front.rows + [row]);
          assert sa.writes + front.writes + [(path, b[n])] == sa.writes + (front.writes + [(path, b[n])]);
        case _ =>
      }
    }
  }

  /** One more item of the loop. */
  lemma ScanNext(d: Downloader, items: seq<Json>, i: nat, rows: seq<seq<Json>>, writes: seq<(string, Json)>)
    requires i < |items| && ScanItems(d, items[..i]) == Scan(rows, writes, None)
    ensures match Extract(d, items[i])
      case Err(e) => ScanItems(d, items[..i + 1]) == Scan(rows, writes, Some(e))
      case Ok(Skip) => ScanItems(d, items[..i + 1]) == Scan(rows, writes, None)
      case Ok(Keep(row, path)) => ScanItems(d, items[..i + 1]) == Scan(rows + [row], writes + [(path, items[i])], None)
  {
    assert items[..i + 1][..i] == items[..i];
  }

  /** Once an item fails, later items change nothing. */
  lemma {:induction false} ScanErrorSticks(d: Downloader, items: seq<Json>, k: nat)
    requires k <= |items| && ScanItems(d, items[..k]).error.Some?
    ensures ScanItems(d, items) == ScanItems(d, items[..k])
    decreases |items| - k
  {
    if k < |items| {
      assert items[..k + 1][..k] == items[..k];
      ScanErrorSticks(d, items, k + 1);
    } else {
      assert items[..k] == items;
    }
  }

  /** The document files after a sequence of `save_json` calls. */
  function ApplyWrites(json: map<string, Json>, unwritable: set<string>, writes: seq<(string, Json)>)
    : (r: map<string, Json>)
    decreases |writes|
  {
    if writes == [] then json
    else
      var n := |writes| - 1;
      WriteAt(ApplyWrites(json, unwritable, writes[..n]), unwritable, writes[n].0, writes[n].1)
  }

  /** Some write in `writes` goes to `path`. */
  predicate WrittenTo(writes: seq<(string, Json)>, path: string)
  {
    exists i :: 0 <= i < |writes| && writes[i].0 == path
  }

  /** No write after the `i`th goes to the same path. */
  predicate LastWrite(writes: seq<(string, Json)>, i: nat)
    requires i < |writes|
  {
    forall j :: i < j < |writes| ==> writes[j].0 != writes[i].0
  }

  /** After the writes, a writable path holds the last item written to it. */
  lemma {:induction false} LastWriteWins(json: map<string, Json>, unwritable: set<string>,
                                         writes: seq<(string, Json)>, i: nat)
    requires i < |writes| && writes[i].0 !in unwritable && LastWrite(writes, i)
    ensures var r := ApplyWrites(json, unwritable, writes);
      writes[i].0 in r && r[writes[i].0] == writes[i].1
    decreases |writes|
  {
    var n := |writes| - 1;
    if i < n {
      var prefix := writes[..n];
      assert prefix[i] == writes[i];
      assert LastWrite(prefix, i);
      LastWriteWins(json, unwritable, prefix, i);
    }
  }

  /** A file the writes cannot reach (unwritable, or never written to) keeps its content. */
  lemma {:induction false} UnwrittenKept(json: map<string, Json>, unwritable: set<string>,
                                         writes: seq<(string, Json)>, p: string)
    requires p in json && (p in unwritable || !WrittenTo(writes, p))
    ensures var r := ApplyWrites(json, unwritable, writes);
      p in r && r[p] == json[p]
    decreases |writes|
  {
    if writes != [] {
      var n := |writes| - 1;
      var prefix := writes[..n];
      if WrittenTo(prefix, p) {
        var i :| 0 <= i < |prefix| && prefix[i].0 == p;
        assert writes[i] == prefix[i];
      }
      UnwrittenKept(json, unwritable, prefix, p);
    }
  }

  /** Every file after the writes was there before or is a writable path written to. */
  lemma {:induction false} OnlyWrittenAdded(json: map<string, Json>, unwritable: set<string>,
                                            writes: seq<(string, Json)>, p: string)
    requires p in ApplyWrites(json, unwritable, writes)
    ensures p in json || (p !in unwritable && WrittenTo(writes, p))
    decreases |writes|
  {
    if writes != [] {
      var n := |writes| - 1;
      var prefix := writes[..n];
      if p != writes[n].0 || writes[n].0 in unwritable {
        OnlyWrittenAdded(json, unwritable, prefix, p);
        if WrittenTo(prefix, p) {
          var i :| 0 <= i < |prefix| && prefix[i].0 == p;
          assert writes[i] == prefix[i];
        }
      }
    }
  }

  /** The CSV of the kept items: a header and one row per item. */
  function MetadataCsv(rows: seq<seq<Json>>): (r: seq<CsvLine>)
    ensures |r| == |rows| + 1 && r[0] == Header(["id", "image_url", "description"])
    ensures forall i :: 0 <= i < |rows| ==> r[i + 1] == Row(rows[i])
  {
    [Header(["id", "image_url", "description"])] + seq(|rows|, i requires 0 <= i < |rows| => Row(rows[i]))
  }

  /** `save_metadata(items)`: with at least one row, `metadata.csv` is overwritten with
      the header and the rows; an unopenable file raises. */
  method SaveMetadata(out: Output, d: Downloader, rows: seq<seq<Json>>) returns (error: Option<PyError>)
    modifies out
    ensures var path := Join(d.metadataDir, "metadata.csv");
      && (rows == [] ==> error.None? && out.csv == old(out.csv))
      && (rows != [] && path in out.unwritable ==> error == Some(OSError) && out.csv == old(out.csv))
      && (rows != [] && path !in out.unwritable ==> error.None? && out.csv == old(out.csv)[path := MetadataCsv(rows)])
    ensures out.json == old(out.json)
  {
    if rows == [] {
      return None;
    }
    var path := Join(d.metadataDir, "metadata.csv");
    if path in out.unwritable {
      return Some(OSError);
    }
    out.csv := out.csv[path := MetadataCsv(rows)];
    return None;
  }

  /** `filter_and_save(items)`: documents of kept items are written as the loop goes,
      the CSV only after the loop, and only when some item was kept. */
  method FilterAndSave(out: Output, d: Downloader, items: seq<Json>) returns (error: Option<PyError>)
    modifies out
    ensures var scan := ScanItems(d, items);
      && out.json == ApplyWrites(old(out.json), out.unwritable, scan.writes)
      && (scan.error.Some? ==> error == scan.error && out.csv == old(out.csv))
      && (scan.error.None? && scan.rows == [] ==> error.None? && out.csv == old(out.csv))
      && (scan.error.None? && scan.rows != [] ==>
            var path := Join(d.metadataDir, "metadata.csv");
            && (path in out.unwritable ==> error == Some(OSError) && out.csv == old(out.csv))
            && (path !in out.unwritable ==> error.None? && out.csv == old(out.csv)[path := MetadataCsv(scan.rows)]))
  {
    var rows: seq<seq<Json>> := [];
    ghost var writes: seq<(string, Json)> := [];
    for i := 0 to |items|
      invariant ScanItems(d, items[..i]) == Scan(rows, writes, None)
      invariant out.json == ApplyWrites(old(out.json), out.unwritable, writes)
      invariant out.csv == old(out.csv)
    {
      ScanNext(d, items, i, rows, writes);
      var m := Extract(d, items[i]);
      if m.Err? {
        ScanErrorSticks(d, items, i + 1);
        return Some(m.error);
      }
      if m.value.Keep? {
        var id := GetOr(items[i].fields, "id", JStr("unknown")).s;
        SaveJson(out, items[i], id, d.jsonDir);
        assert (writes + [(m.value.path, items[i])])[..|writes|] == writes;
        rows := rows + [m.value.row];
        writes := writes + [(m.value.path, items[i])];
      }
    }
    assert items[..|items|] == items;
    error := SaveMetadata(out, d, rows);
  }

  /** The category table of the category pipeline, as shipped. */
  const Categories: map<string, map<string, string>> := map[
    "furniture" := map["edmConceptLabel" := "furniture", "dcDescriptionLangAware" := "en"],
    "painting" := map["edmConceptLabel" := "painting", "dcDescriptionLangAware" := "en"],
    "cloths" := map["edmConceptLabel" := "cloth", "dcDescriptionLangAware" := "en"]]

  /** A category outside the table, or none at all, cannot be downloaded. */
  lemma UnknownCategoryRejected(dataDir: string)
    ensures NewDownloader(dataDir, Some("sculpture"), Categories) == Err(ValueError)
    ensures NewDownloader(dataDir, None, Categories) == Err(ValueError)
    ensures NewDownloader(dataDir, Some(""), Categories) == Err(ValueError)
  {
    assert "sculpture" !in Categories;
  }
}
