/** The stand-alone `dcType` filter check (the nested `find_excluded_dctype` of the
    filter script): the same walk as the crawler's filter, but a `dcType` dict is
    excluded when one of its lower-cased labels CONTAINS a deny-list entry, and the
    deny-list is lower-cased once, when the script loads. */
module FilterScript {
  import opened Json
  import opened Text
  import opened Exclusion

  /** The script's deny-list after its load-time lower-casing. */
  function DenyList(raw: seq<string>): (r: seq<string>)
    ensures |r| == |raw|
    ensures forall i :: 0 <= i < |raw| ==> r[i] == Lower(raw[i])
  {
    LowerAll(raw)
  }

  /** The script's `find_excluded_dctype(data)` for the deny-list `raw` as written
      in the script. */
  function FindExcludedDcTypeSubstring(j: Json, raw: seq<string>): bool
  {
    Walk(j, SubstringMatch(DenyList(raw)))
  }

  /** The script excludes a record exactly when some dict at any depth maps `dcType`
      to a dict one of whose lower-cased `def`/`en` labels contains a lower-cased
      deny-list entry. */
  lemma FindExcludedDcTypeSubstringSpec(j: Json, raw: seq<string>)
    ensures FindExcludedDcTypeSubstring(j, raw) <==>
      exists n, k :: n in Nodes(j) && n.JObj? && 0 <= k < |n.fields|
        && n.fields[k].0 == "dcType" && n.fields[k].1.JObj?
        && SubstringHit(n.fields[k].1.fields, DenyList(raw))
  {
    WalkIsHitSomewhere(j, SubstringMatch(DenyList(raw)));
  }

  /** Scalars are never excluded. */
  lemma ScalarNotExcluded(j: Json, raw: seq<string>)
    requires !j.JObj? && !j.JArr?
    ensures !FindExcludedDcTypeSubstring(j, raw)
  {
    WalkIsHitSomewhere(j, SubstringMatch(DenyList(raw)));
    assert Nodes(j) == {j};
  }

  /** An exact match is also a substring match. */
  lemma {:induction false} ExactHitIsSubstringHit(v: Fields, raw: seq<string>)
    requires ExactHit(v, raw)
    ensures SubstringHit(v, DenyList(raw))
  {
    var e :| e in raw && Lower(e) in LowerAll(DcTypes(v));
    var i :| 0 <= i < |raw| && raw[i] == e;
    assert DenyList(raw)[i] == Lower(e);
    SubstringOfItself(Lower(e));
  }

  /** Whatever the crawler's exact-match filter excludes, the script's substring
      filter excludes too, given the same deny-list. */
  lemma ExactExcludedIsSubstringExcluded(j: Json, raw: seq<string>)
    requires FindExcludedDcType(j, raw)
    ensures FindExcludedDcTypeSubstring(j, raw)
  {
    forall v | ExactMatch(raw)(v)
      ensures SubstringMatch(DenyList(raw))(v)
    {
      ExactHitIsSubstringHit(v, raw);
    }
    WalkMonotone(j, ExactMatch(raw), SubstringMatch(DenyList(raw)));
  }

  /** The converse fails: with the deny-list entry `Text`, a `Textile` label is
      excluded by the script but kept by the crawler. */
  lemma TextileSeparatesTheFilters()
    ensures FindExcludedDcTypeSubstring(JObj([("dcType", JObj([("en", JArr([JStr("Textile")]))]))]), ["Text"])
    ensures !FindExcludedDcType(JObj([("dcType", JObj([("en", JArr([JStr("Textile")]))]))]), ["Text"])
  {
    var inner := [("en", JArr([JStr("Textile")]))];
    TextileLabels();
    TextileContainsText();
    var hit := SubstringMatch(DenyList(["Text"]));
    assert hit(inner);
    assert FieldHit(("dcType", JObj(inner)), hit);
    assert WalkFields([("dcType", JObj(inner))], 0, hit);
    TextIsNotTextile();
    PlainDcTypeKept([JStr("Textile")], ["Text"]);
  }

  lemma TextileLabels()
    ensures LowerAll(DcTypes([("en", JArr([JStr("Textile")]))])) == [Lower("Textile")]
    ensures DenyList(["Text"]) == [Lower("Text")]
  {
    var inner := [("en", JArr([JStr("Textile")]))];
    assert Get(inner, "def").None? && Get(inner, "en").Some?;
    assert DcTypes(inner) == ["Textile"];
  }

  lemma TextileContainsText()
    ensures IsSubstring(Lower("Text"), Lower("Textile"))
  {
    assert Lower("Textile")[0..4] == Lower("Text");
    assert OccursAt(Lower("Text"), Lower("Textile"), 0);
  }

  lemma TextIsNotTextile()
    ensures !ExactHit([("en", JArr([JStr("Textile")]))], ["Text"])
  {
    TextileLabels();
    assert |Lower("Text")| != |Lower("Textile")|;
  }
}
