/** PII entities as reported by the detection service, and the placeholder
    text that replaces each of them. */
module Entities {
  import opened Wrappers

  /** One detected entity. `offset` and `length` index the transcript as a
      sequence of characters; the confidence score is not modelled. */
  datatype Entity = Entity(
    text: string,
    category: string,
    subcategory: Option<string>,
    offset: nat,
    length: nat)

  /** The index one past the last character of the entity's span. */
  function End(e: Entity): nat {
    e.offset + e.length
  }

  predicate IsLower(c: char) {
    'a' <= c <= 'z'
  }

  function UpperChar(c: char): char {
    if IsLower(c) then (c as int - 32) as char else c
  }

  /** `str.upper()` restricted to ASCII letters: every lower-case letter is
      mapped to its capital and every other character is left alone. */
  function Upper(s: string): (r: string)
    ensures |r| == |s|
    ensures forall i :: 0 <= i < |r| ==> !IsLower(r[i])
    ensures forall i :: 0 <= i < |s| && !IsLower(s[i]) ==> r[i] == s[i]
    ensures forall i :: 0 <= i < |s| && IsLower(s[i]) ==> r[i] as int == s[i] as int - 32
  {
    if s == [] then [] else [UpperChar(s[0])] + Upper(s[1..])
  }

  const PlaceholderOpen: string := "[REDACTED_"
  const PlaceholderClose: string := "]"

  /** The shape every placeholder has: `[REDACTED_`, a label without
      lower-case letters, then `]`. */
  predicate IsPlaceholder(p: string) {
    && |p| >= |PlaceholderOpen| + |PlaceholderClose|
    && p[..|PlaceholderOpen|] == PlaceholderOpen
    && p[|p| - 1] == ']'
    && forall i :: |PlaceholderOpen| <= i < |p| - 1 ==> !IsLower(p[i])
  }

  /** The replacement text for an entity of the given category. */
  function Placeholder(category: string): (p: string)
    ensures |p| == |category| + 11
  {
    PlaceholderOpen + Upper(category) + PlaceholderClose
  }

  /** Every placeholder reads `[REDACTED_`, the category upper-cased, `]`. */
  lemma PlaceholderShape(category: string)
    ensures IsPlaceholder(Placeholder(category))
    ensures Placeholder(category)[|PlaceholderOpen|..|Placeholder(category)| - 1] == Upper(category)
  {
    var p := Placeholder(category);
    assert p[..|PlaceholderOpen|] == PlaceholderOpen;
    assert p[|PlaceholderOpen|..|p| - 1] == Upper(category);
  }
}
