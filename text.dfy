/** String operations of Python's `str` that the harvesters use: `lower`, `strip`,
    `in` (substring test) and `replace("/", "_")`, the identifier sanitiser that
    turns an item identifier into a storage key. */
module Text {

  /** `str.lower` on the letters A-Z. */
  function LowerChar(c: char): char
  {
    if 'A' <= c <= 'Z' then (c as int - 'A' as int + 'a' as int) as char else c
  }

  function Lower(s: string): (r: string)
    ensures |r| == |s|
    ensures forall i :: 0 <= i < |s| ==> r[i] == LowerChar(s[i])
  {
    seq(|s|, i requires 0 <= i < |s| => LowerChar(s[i]))
  }

  /** Lower-casing twice is lower-casing once. */
  lemma LowerIdempotent(s: string)
    ensures Lower(Lower(s)) == Lower(s)
  {
    assert forall i :: 0 <= i < |s| ==> LowerChar(LowerChar(s[i])) == LowerChar(s[i]);
  }

  /** The characters `str.isspace` accepts. */
  predicate IsSpace(c: char)
  {
    c == ' ' || '\t' <= c <= '\r' || '\U{1c}' <= c <= '\U{1f}' || c == '\U{85}' || c == '\U{a0}'
    || c == '\U{1680}' || '\U{2000}' <= c <= '\U{200a}' || c == '\U{2028}' || c == '\U{2029}'
    || c == '\U{202f}' || c == '\U{205f}' || c == '\U{3000}'
  }

  /** A string that `strip` leaves unchanged. */
  predicate Stripped(s: string)
  {
    s == [] || (!IsSpace(s[0]) && !IsSpace(s[|s| - 1]))
  }

  function StripLeft(s: string): (r: string)
    ensures |r| <= |s| && r == s[|s| - |r|..]
    ensures r == [] || !IsSpace(r[0])
    ensures forall i :: 0 <= i < |s| - |r| ==> IsSpace(s[i])
  {
    if s != [] && IsSpace(s[0]) then StripLeft(s[1..]) else s
  }

  function StripRight(s: string): (r: string)
    ensures |r| <= |s| && r == s[..|r|]
    ensures r == [] || !IsSpace(r[|r| - 1])
    ensures forall i :: |r| <= i < |s| ==> IsSpace(s[i])
  {
    if s != [] && IsSpace(s[|s| - 1]) then StripRight(s[..|s| - 1]) else s
  }

  /** `str.strip()`: the string without its leading and trailing whitespace. */
  function Strip(s: string): (r: string)
    ensures Stripped(r)
    ensures |r| <= |s|
  {
    StripRight(StripLeft(s))
  }

  /** `strip` changes exactly the strings that start or end with whitespace. */
  lemma StripKeepsStripped(s: string)
    ensures Strip(s) == s <==> Stripped(s)
  {
    if Stripped(s) && s != [] {
      assert StripLeft(s) == s;
      assert StripRight(s) == s;
    }
  }

  /** Python's `needle in hay` on two strings. */
  predicate IsSubstring(needle: string, hay: string)
  {
    exists i :: 0 <= i <= |hay| && OccursAt(needle, hay, i)
  }

  /** `needle` occurs in `hay` starting at index `i`. */
  predicate OccursAt(needle: string, hay: string, i: int)
  {
    0 <= i <= |hay| - |needle| && hay[i..i + |needle|] == needle
  }

  /** Every string contains itself. */
  lemma SubstringOfItself(s: string)
    ensures IsSubstring(s, s)
  {
    assert OccursAt(s, s, 0);
  }

  /** `item_id.replace("/", "_")`. */
  function Sanitize(id: string): (r: string)
    ensures |r| == |id|
    ensures forall i :: 0 <= i < |id| ==> r[i] == (if id[i] == '/' then '_' else id[i])
  {
    seq(|id|, i requires 0 <= i < |id| => if id[i] == '/' then '_' else id[i])
  }

  /** The document file name an identifier is stored under: `<sanitized id>.json`. */
  function StorageKey(id: string): string
  {
    Sanitize(id) + ".json"
  }

  /** A sanitized identifier holds no `/`, so it names a file inside the document
      directory, and sanitizing it again changes nothing. */
  lemma SanitizeIsSafe(id: string)
    ensures '/' !in Sanitize(id)
    ensures Sanitize(Sanitize(id)) == Sanitize(id)
  {
    var r := Sanitize(id);
    assert forall i :: 0 <= i < |r| ==> r[i] != '/';
  }

  /** Two identifiers share a document file exactly when they sanitize alike. */
  lemma StorageKeyCollision(a: string, b: string)
    ensures StorageKey(a) == StorageKey(b) <==> Sanitize(a) == Sanitize(b)
  {
    if StorageKey(a) == StorageKey(b) {
      assert |Sanitize(a)| == |Sanitize(b)|;
      assert Sanitize(a) == StorageKey(a)[..|Sanitize(a)|];
    }
  }

  /** Sanitizing is not injective: `a/b` and `a_b` share the key `a_b.json`. */
  lemma SanitizeNotInjective()
    ensures "a/b" != "a_b" && StorageKey("a/b") == StorageKey("a_b")
  {
    assert Sanitize("a/b") == "a_b";
    assert Sanitize("a_b") == "a_b";
  }
}
