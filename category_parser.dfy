/** The category pipeline's item parser (`parse_metadata`, `parse_image_url`): the
    first element of a few list-valued fields of a search item, with fixed fallbacks
    for absent keys, and the Python error a malformed item raises. */
module CategoryParser {
  import opened Wrappers
  import opened Json

  /** The parsed fields; `id` is `JNull` when the item has none. */
  datatype Metadata = Metadata(id: Json, title: Json, description: Json, creator: Json)

  /** `item.get(key, [fallback])[0]`. */
  function FirstOr(fs: Fields, key: string, fallback: string): (r: Result<Json, PyError>)
    ensures Get(fs, key).None? ==> r == Ok(JStr(fallback))
    ensures Get(fs, key).Some? ==> r == Index0(Get(fs, key).value)
  {
    Index0(GetOr(fs, key, JArr([JStr(fallback)])))
  }

  /** `parse_metadata(item)`: fields are read in order, so the first failing one
      decides the error. */
  function ParseMetadata(item: Json): (r: Result<Metadata, PyError>)
    ensures !item.JObj? ==> r == Err(AttributeError)
    ensures item.JObj? && r.Ok? ==> r.value.id == GetOr(item.fields, "id", JNull)
  {
    if !item.JObj? then Err(AttributeError)
    else
      var fs := item.fields;
      match FirstOr(fs, "title", "No title")
      case Err(e) => Err(e)
      case Ok(title) =>
        match FirstOr(fs, "dcDescription", "No description")
        case Err(e) => Err(e)
        case Ok(description) =>
          match FirstOr(fs, "dcCreator", "Unknown")
          case Err(e) => Err(e)
          case Ok(creator) => Ok(Metadata(GetOr(fs, "id", JNull), title, description, creator))
  }

  /** A field is usable when it is absent or holds a non-empty list (or string). */
  predicate Usable(fs: Fields, key: string)
  {
    Get(fs, key).None? || Index0(Get(fs, key).value).Ok?
  }

  /** Parsing an object succeeds exactly when its three list fields are usable; then
      each is its first element, or its fallback when absent. */
  lemma ParseMetadataSpec(fs: Fields)
    ensures ParseMetadata(JObj(fs)).Ok? <==>
      Usable(fs, "title") && Usable(fs, "dcDescription") && Usable(fs, "dcCreator")
    ensures ParseMetadata(JObj(fs)).Ok? ==>
      var m := ParseMetadata(JObj(fs)).value;
      && m.title == FirstOr(fs, "title", "No title").value
      && m.description == FirstOr(fs, "dcDescription", "No description").value
      && m.creator == FirstOr(fs, "dcCreator", "Unknown").value
  {
  }

  /** A present but empty list has no fallback: parsing fails with an `IndexError`. */
  lemma EmptyTitleFails(fs: Fields)
    requires fs == [("id", JStr("1")), ("title", JArr([]))]
    ensures ParseMetadata(JObj(fs)) == Err(IndexError)
  {
    assert Get(fs, "title") == Some(JArr([]));
  }

  /** The parser's own example: every field read from a one-element list. */
  lemma ParseExample(id: string, title: string, description: string, creator: string)
    ensures ParseMetadata(JObj([("id", JStr(id)), ("title", JArr([JStr(title)])),
                                ("dcDescription", JArr([JStr(description)])),
                                ("dcCreator", JArr([JStr(creator)]))]))
      == Ok(Metadata(JStr(id), JStr(title), JStr(description), JStr(creator)))
  {
    var fs := [("id", JStr(id)), ("title", JArr([JStr(title)])),
               ("dcDescription", JArr([JStr(description)])),
               ("dcCreator", JArr([JStr(creator)]))];
    assert "id" != "title" && "id" != "dcDescription" && "id" != "dcCreator";
    assert "title" != "dcDescription" && "title" != "dcCreator" && "dcDescription" != "dcCreator";
    assert Get(fs[3..], "dcCreator") == Some(JArr([JStr(creator)]));
    assert Get(fs[2..], "dcDescription") == Some(JArr([JStr(description)]));
    assert Get(fs[2..], "dcCreator") == Some(JArr([JStr(creator)]));
    assert Get(fs[1..], "title") == Some(JArr([JStr(title)]));
    assert Get(fs, "title") == Some(JArr([JStr(title)]));
    assert Get(fs, "dcDescription") == Some(JArr([JStr(description)]));
    assert Get(fs, "dcCreator") == Some(JArr([JStr(creator)]));
    assert Get(fs, "id") == Some(JStr(id));
    assert FirstOr(fs, "title", "No title") == Ok(JStr(title));
    assert FirstOr(fs, "dcDescription", "No description") == Ok(JStr(description));
    assert FirstOr(fs, "dcCreator", "Unknown") == Ok(JStr(creator));
  }

  /** An item with none of the fields gets every fallback and a null id. */
  lemma ParseFallbacks()
    ensures ParseMetadata(JObj([])) == Ok(Metadata(JNull, JStr("No title"), JStr("No description"), JStr("Unknown")))
  {
  }

  /** `parse_image_url(item)`: `item["edmIsShownBy"][0]`, with a missing key or an
      empty list read as no URL; any other error propagates. */
  function ParseImageUrl(item: Json): (r: Result<Option<Json>, PyError>)
    ensures r.Err? ==> r.error == TypeError
  {
    match item
    case JObj(fs) =>
      (match Get(fs, "edmIsShownBy")
       case None => Ok(None)
       case Some(v) =>
         match Index0(v)
         case Ok(x) => Ok(Some(x))
         case Err(e) => if e == KeyError || e == IndexError then Ok(None) else Err(e))
    case _ => Err(TypeError)
  }

  /** For an object the URL is the first element of a non-empty `edmIsShownBy` list,
      and nothing when the key is missing or the list is empty. */
  lemma ParseImageUrlSpec(fs: Fields)
    ensures Get(fs, "edmIsShownBy").None? ==> ParseImageUrl(JObj(fs)) == Ok(None)
    ensures Get(fs, "edmIsShownBy") == Some(JArr([])) ==> ParseImageUrl(JObj(fs)) == Ok(None)
    ensures forall xs :: Get(fs, "edmIsShownBy") == Some(JArr(xs)) && xs != [] ==>
      ParseImageUrl(JObj(fs)) == Ok(Some(xs[0]))
    ensures ParseImageUrl(JObj(fs)).Err? <==>
      Get(fs, "edmIsShownBy").Some? && Index0(Get(fs, "edmIsShownBy").value) == Err(TypeError)
  {
  }
}
