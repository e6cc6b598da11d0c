/** The `dcType` exclusion filter of the crawler's page fetcher
    (`find_excluded_dctype`): a walk over every dict value and list element of a
    decoded record, at any depth, that stops at the first `dcType` dict whose type
    labels match the deny-list. The walk is written once over a test on the
    `dcType` dict; the crawler's exact-match test lives here, the substring test of
    the stand-alone filter script in module FilterScript. */
module Exclusion {
  import opened Json
  import opened Text
  import opened Wrappers

  /** The type labels of a `dcType` dict: `value.get("def", []) + value.get("en", [])`. */
  function DcTypes(v: Fields): seq<string>
  {
    Strings(GetOr(v, "def", JArr([]))) + Strings(GetOr(v, "en", JArr([])))
  }

  /** The labels, each lower-cased. */
  function LowerAll(xs: seq<string>): (r: seq<string>)
    ensures |r| == |xs|
    ensures forall i :: 0 <= i < |xs| ==> r[i] == Lower(xs[i])
  {
    if xs == [] then [] else [Lower(xs[0])] + LowerAll(xs[1..])
  }

  /** The crawler's test: some deny-list entry, lower-cased, is one of the dict's
      lower-cased type labels (an exact, case-insensitive match). */
  predicate ExactHit(v: Fields, deny: seq<string>)
  {
    exists e :: e in deny && Lower(e) in LowerAll(DcTypes(v))
  }

  /** The filter script's test: some lower-cased type label of the dict contains a
      deny-list entry, as given, as a substring. */
  predicate SubstringHit(v: Fields, deny: seq<string>)
  {
    exists t, e :: t in LowerAll(DcTypes(v)) && e in deny && IsSubstring(e, t)
  }

  /** The crawler's test as a function value. */
  function ExactMatch(deny: seq<string>): Fields -> bool
  {
    v => ExactHit(v, deny)
  }

  /** The filter script's test as a function value. */
  function SubstringMatch(deny: seq<string>): Fields -> bool
  {
    v => SubstringHit(v, deny)
  }

  /** The test a field of a dict passes to end the walk: its key is `dcType`, its
      value is a dict, and `hit` accepts that dict. */
  predicate FieldHit(f: (string, Json), hit: Fields -> bool)
  {
    f.0 == "dcType" && f.1.JObj? && hit(f.1.fields)
  }

  /** The walk: dicts field by field (test the field, then descend into its value),
      lists element by element, `false` for scalars. */
  function Walk(j: Json, hit: Fields -> bool): bool
    decreases j, 1, 0
  {
    match j
    case JObj(fs) => WalkFields(fs, 0, hit)
    case JArr(xs) => WalkItems(xs, 0, hit)
    case _ => false
  }

  /** The walk over the fields of a dict from the `i`-th on. */
  function WalkFields(fs: Fields, i: nat, hit: Fields -> bool): bool
    requires i <= |fs|
    decreases JObj(fs), 0, |fs| - i
  {
    if i == |fs| then false
    else
      assert fs[i] in fs;
      FieldHit(fs[i], hit) || Walk(fs[i].1, hit) || WalkFields(fs, i + 1, hit)
  }

  /** The walk over the elements of a list from the `i`-th on. */
  function WalkItems(xs: seq<Json>, i: nat, hit: Fields -> bool): bool
    requires i <= |xs|
    decreases JArr(xs), 0, |xs| - i
  {
    if i == |xs| then false
    else
      assert xs[i] in xs;
      Walk(xs[i], hit) || WalkItems(xs, i + 1, hit)
  }

  /** Reference view: the set of every value inside `j`, `j` included. */
  function Nodes(j: Json): set<Json>
    decreases j, 1, 0
  {
    {j} + match j
      case JObj(fs) => FieldNodes(fs, 0)
      case JArr(xs) => ItemNodes(xs, 0)
      case _ => {}
  }

  function FieldNodes(fs: Fields, i: nat): set<Json>
    requires i <= |fs|
    decreases JObj(fs), 0, |fs| - i
  {
    if i == |fs| then {}
    else
      assert fs[i] in fs;
      Nodes(fs[i].1) + FieldNodes(fs, i + 1)
  }

  function ItemNodes(xs: seq<Json>, i: nat): set<Json>
    requires i <= |xs|
    decreases JArr(xs), 0, |xs| - i
  {
    if i == |xs| then {}
    else
      assert xs[i] in xs;
      Nodes(xs[i]) + ItemNodes(xs, i + 1)
  }

  /** `n` is a dict holding a field that ends the walk. */
  predicate HasHit(n: Json, hit: Fields -> bool)
  {
    n.JObj? && exists k :: 0 <= k < |n.fields| && FieldHit(n.fields[k], hit)
  }

  /** Some value anywhere inside `j` is a dict holding a `dcType` field that `hit` accepts. */
  predicate HitSomewhere(j: Json, hit: Fields -> bool)
  {
    exists n :: n in Nodes(j) && HasHit(n, hit)
  }

  /** The walk answers `true` exactly when some dict at any depth holds a `dcType`
      dict that `hit` accepts: neither the order of the fields nor the early return
      changes the answer. */
  lemma {:induction false} WalkIsHitSomewhere(j: Json, hit: Fields -> bool)
    ensures Walk(j, hit) <==> HitSomewhere(j, hit)
    decreases j, 1, 0
  {
    match j
    case JObj(fs) =>
      WalkFieldsIsHit(fs, 0, hit);
      if HasHit(j, hit) {
        assert j in Nodes(j);
      }
      if HitSomewhere(j, hit) && !HasHit(j, hit) {
        var n :| n in Nodes(j) && HasHit(n, hit);
        assert n in FieldNodes(fs, 0);
      }
    case JArr(xs) =>
      WalkItemsIsHit(xs, 0, hit);
      if HitSomewhere(j, hit) {
        var n :| n in Nodes(j) && HasHit(n, hit);
        assert n in ItemNodes(xs, 0);
      }
    case _ =>
      assert Nodes(j) == {j};
  }

  lemma {:induction false} WalkFieldsIsHit(fs: Fields, i: nat, hit: Fields -> bool)
    requires i <= |fs|
    ensures WalkFields(fs, i, hit) <==>
      (exists k :: i <= k < |fs| && FieldHit(fs[k], hit))
      || (exists n :: n in FieldNodes(fs, i) && HasHit(n, hit))
    decreases JObj(fs), 0, |fs| - i
  {
    if i < |fs| {
      assert fs[i] in fs;
      WalkIsHitSomewhere(fs[i].1, hit);
      WalkFieldsIsHit(fs, i + 1, hit);
      if exists k :: i <= k < |fs| && FieldHit(fs[k], hit) {
        var k :| i <= k < |fs| && FieldHit(fs[k], hit);
        assert k == i || (i + 1 <= k < |fs| && FieldHit(fs[k], hit));
      }
    }
  }

  lemma {:induction false} WalkItemsIsHit(xs: seq<Json>, i: nat, hit: Fields -> bool)
    requires i <= |xs|
    ensures WalkItems(xs, i, hit) <==> exists n :: n in ItemNodes(xs, i) && HasHit(n, hit)
    decreases JArr(xs), 0, |xs| - i
  {
    if i < |xs| {
      assert xs[i] in xs;
      WalkIsHitSomewhere(xs[i], hit);
      WalkItemsIsHit(xs, i + 1, hit);
    }
  }

  /** A weaker test ends the walk whenever a stronger one does. */
  lemma {:induction false} WalkMonotone(j: Json, strong: Fields -> bool, weak: Fields -> bool)
    requires forall v :: strong(v) ==> weak(v)
    requires Walk(j, strong)
    ensures Walk(j, weak)
  {
    WalkIsHitSomewhere(j, strong);
    WalkIsHitSomewhere(j, weak);
    var n :| n in Nodes(j) && HasHit(n, strong);
    var k :| 0 <= k < |n.fields| && FieldHit(n.fields[k], strong);
    assert FieldHit(n.fields[k], weak);
  }

  /** `find_excluded_dctype(data)` with `EXCLUDED_DC_TYPES = deny`. */
  function FindExcludedDcType(j: Json, deny: seq<string>): bool
  {
    Walk(j, ExactMatch(deny))
  }

  /** The filter excludes a record exactly when some dict at any depth maps `dcType`
      to a dict whose `def` and `en` labels contain a deny-list entry, compared
      case-insensitively as whole labels. */
  lemma FindExcludedDcTypeSpec(j: Json, deny: seq<string>)
    ensures FindExcludedDcType(j, deny) <==>
      exists n, k :: n in Nodes(j) && n.JObj? && 0 <= k < |n.fields|
        && n.fields[k].0 == "dcType" && n.fields[k].1.JObj?
        && ExactHit(n.fields[k].1.fields, deny)
  {
    WalkIsHitSomewhere(j, ExactMatch(deny));
  }

  /** Scalars are never excluded, and an empty deny-list excludes nothing. */
  lemma FindExcludedDcTypeNothing(j: Json, deny: seq<string>)
    requires (!j.JObj? && !j.JArr?) || deny == []
    ensures !FindExcludedDcType(j, deny)
  {
    WalkIsHitSomewhere(j, ExactMatch(deny));
  }

  /** A matching `dcType` dict nested inside a list inside a dict is found. */
  lemma NestedDcTypeExcluded(inner: Fields, deny: seq<string>)
    requires ExactHit(inner, deny)
    ensures FindExcludedDcType(JObj([("object", JArr([JObj([("dcType", JObj(inner))])]))]), deny)
  {
    var hit := ExactMatch(deny);
    assert hit(inner);
    var dict := JObj([("dcType", JObj(inner))]);
    assert FieldHit(dict.fields[0], hit);
    assert WalkFields(dict.fields, 0, hit);
    assert WalkItems([dict], 0, hit);
    assert WalkFields([("object", JArr([dict]))], 0, hit);
  }

  /** A top-level `dcType` dict that does not match, holding only a list of strings,
      is not excluded. */
  lemma PlainDcTypeKept(labels: seq<Json>, deny: seq<string>)
    requires forall i :: 0 <= i < |labels| ==> labels[i].JStr?
    requires !ExactHit([("en", JArr(labels))], deny)
    ensures !FindExcludedDcType(JObj([("dcType", JObj([("en", JArr(labels))]))]), deny)
  {
    var hit := ExactMatch(deny);
    var inner := [("en", JArr(labels))];
    assert !hit(inner);
    forall i | 0 <= i <= |labels|
      ensures !WalkItems(labels, i, hit)
    {
      ScalarsNotExcluded(labels, i, hit);
    }
    assert !WalkFields(inner, 1, hit);
    assert !Walk(JArr(labels), hit);
    assert !FieldHit(inner[0], hit);
    assert !WalkFields(inner, 0, hit);
    var outer := [("dcType", JObj(inner))];
    assert !WalkFields(outer, 1, hit);
    assert !FieldHit(outer[0], hit);
    assert !Walk(JObj(inner), hit);
    assert !WalkFields(outer, 0, hit);
  }

  lemma {:induction false} ScalarsNotExcluded(xs: seq<Json>, i: nat, hit: Fields -> bool)
    requires i <= |xs|
    requires forall k :: 0 <= k < |xs| ==> xs[k].JStr?
    ensures !WalkItems(xs, i, hit)
    decreases |xs| - i
  {
    if i < |xs| {
      ScalarsNotExcluded(xs, i + 1, hit);
    }
  }

  /** A `Newspaper` label under `dcType.en`, nested two levels deep, is excluded by
      a deny-list holding `Newspaper`. */
  lemma NewspaperExcluded()
    ensures FindExcludedDcType(
      JObj([("object", JArr([JObj([("dcType", JObj([("en", JArr([JStr("Newspaper")]))]))])]))]),
      ["Newspaper"])
  {
    var inner := [("en", JArr([JStr("Newspaper")]))];
    assert DcTypes(inner) == ["Newspaper"];
    assert LowerAll(["Newspaper"]) == [Lower("Newspaper")];
    assert "Newspaper" in ["Newspaper"];
    NestedDcTypeExcluded(inner, ["Newspaper"]);
  }

  /** A `Sculpture` label is not excluded by a deny-list holding `Newspaper`. */
  lemma SculptureKept()
    ensures !FindExcludedDcType(JObj([("dcType", JObj([("en", JArr([JStr("Sculpture")]))]))]), ["Newspaper"])
  {
    SculptureNoMatch();
    PlainDcTypeKept([JStr("Sculpture")], ["Newspaper"]);
  }

  lemma SculptureNoMatch()
    ensures !ExactHit([("en", JArr([JStr("Sculpture")]))], ["Newspaper"])
  {
    SculptureLabels();
    FirstLetters();
    NoMatch([("en", JArr([JStr("Sculpture")]))], "Newspaper", "Sculpture");
  }

  lemma NoMatch(inner: Fields, e: string, lbl: string)
    requires LowerAll(DcTypes(inner)) == [Lower(lbl)]
    requires |Lower(e)| > 0 && |Lower(lbl)| > 0 && Lower(e)[0] != Lower(lbl)[0]
    ensures !ExactHit(inner, [e])
  {
  }

  lemma SculptureLabels()
    ensures LowerAll(DcTypes([("en", JArr([JStr("Sculpture")]))])) == [Lower("Sculpture")]
  {
    var inner := [("en", JArr([JStr("Sculpture")]))];
    assert Get(inner, "def").None? && Get(inner, "en") == Some(JArr([JStr("Sculpture")]));
    assert DcTypes(inner) == ["Sculpture"];
  }

  lemma FirstLetters()
    ensures |Lower("Newspaper")| > 0 && |Lower("Sculpture")| > 0
    ensures Lower("Newspaper")[0] == 'n' && Lower("Sculpture")[0] == 's'
  {
  }
}
