/** The redaction loop of `remove_pii_with_azure_ai`: entities are sorted by
    offset, highest first, and each span is replaced by its placeholder. */
module Redaction {
  import opened Entities
  import opened StableSort

  /** Python's slice bound for a non-negative index: an index past the end of
      the text stands for the end. */
  function Clamp(i: nat, t: string): (c: nat)
    ensures c <= |t|
    ensures c == i || (c == |t| && |t| < i)
  {
    if i <= |t| then i else |t|
  }

  /** One loop iteration: the text before the span start, then the
      placeholder, then the text from the span end on, with Python's clamping
      of slice bounds. */
  function ReplaceSpan(t: string, e: Entity): (r: string)
    ensures e.offset <= |t| ==> t[..e.offset] <= r
    ensures e.offset <= |t| ==>
      && e.offset + |Placeholder(e.category)| <= |r|
      && r[e.offset..e.offset + |Placeholder(e.category)|] == Placeholder(e.category)
    ensures End(e) <= |t| ==> |r| == |t| - e.length + |Placeholder(e.category)|
    ensures End(e) <= |t| ==> r[e.offset + |Placeholder(e.category)|..] == t[End(e)..]
    ensures r != []
  {
    t[..Clamp(e.offset, t)] + Placeholder(e.category) + t[Clamp(End(e), t)..]
  }

  /** The loop over already-ordered entities: each one rewrites the text
      produced by the ones before it. */
  function ApplyAll(t: string, es: seq<Entity>): (r: string)
    ensures r == [] <==> t == [] && es == []
    decreases es
  {
    if es == [] then t else ApplyAll(ReplaceSpan(t, es[0]), es[1..])
  }

  /** The redacted text: the entities in stable descending offset order,
      applied one after the other. */
  function Redact(text: string, entities: seq<Entity>): (r: string)
    ensures entities == [] ==> r == text
    ensures r == [] <==> text == [] && entities == []
  {
    var sorted := SortDesc(entities);
    assert |sorted| == |entities| by {
      assert |multiset(sorted)| == |multiset(entities)|;
    }
    ApplyAll(text, sorted)
  }

  /** Every span lies inside a text of length `n`. */
  predicate InBounds(es: seq<Entity>, n: nat) {
    forall i :: 0 <= i < |es| ==> End(es[i]) <= n
  }

  predicate PositiveLengths(es: seq<Entity>) {
    forall i :: 0 <= i < |es| ==> es[i].length > 0
  }

  predicate Disjoint(a: Entity, b: Entity) {
    End(a) <= b.offset || End(b) <= a.offset
  }

  /** No two entries of `es` (at different positions) share a character. */
  predicate NonOverlapping(es: seq<Entity>) {
    forall i, j :: 0 <= i < |es| && 0 <= j < |es| && i != j ==> Disjoint(es[i], es[j])
  }

  /** What a well-behaved detector reports for a text of length `n`. */
  predicate WellFormed(es: seq<Entity>, n: nat) {
    InBounds(es, n) && PositiveLengths(es) && NonOverlapping(es)
  }

  /** Each span ends at or before the start of every span in front of it. */
  predicate Chain(es: seq<Entity>) {
    forall i, j :: 0 <= i < j < |es| ==> End(es[j]) <= es[i].offset
  }

  lemma ChainTail(t: string, es: seq<Entity>)
    requires es != [] && Chain(es) && InBounds(es, |t|)
    ensures Chain(es[1..]) && InBounds(es[1..], es[0].offset)
  {
    forall i | 0 <= i < |es[1..]|
      ensures End(es[1..][i]) <= es[0].offset
    {
      assert es[1..][i] == es[i + 1];
    }
  }

  /** The redacted text described directly from the original text: the text
      before the first-listed span's start with the remaining spans redacted,
      then that span's placeholder, then the original text after it. */
  function Render(t: string, es: seq<Entity>): string
    requires Chain(es) && InBounds(es, |t|)
    decreases es
  {
    if es == [] then t
    else
      ChainTail(t, es);
      Render(t[..es[0].offset], es[1..]) + Placeholder(es[0].category) + t[End(es[0])..]
  }
}
