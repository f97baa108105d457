/** What the descending-offset redaction loop guarantees. */
module RedactionProperties {
  import opened Entities
  import opened StableSort
  import opened Redaction

  /** Replacements at or after position `k` never touch `u[..k]`, whatever
      their order and whether or not they overlap. */
  lemma {:induction false} PrefixKept(u: string, es: seq<Entity>, k: nat)
    requires k <= |u|
    requires forall i :: 0 <= i < |es| ==> k <= es[i].offset
    ensures u[..k] <= ApplyAll(u, es)
    decreases es
  {
    if es != [] {
      var v := ReplaceSpan(u, es[0]);
      assert u[..Clamp(es[0].offset, u)] <= v;
      assert u[..k] <= v;
      PrefixKept(v, es[1..], k);
      assert v[..k] == u[..k];
    }
  }

  lemma {:induction false} ApplyAllSnoc(t: string, es: seq<Entity>, i: nat)
    requires i < |es|
    ensures ApplyAll(t, es[..i + 1]) == ReplaceSpan(ApplyAll(t, es[..i]), es[i])
    decreases es
  {
    var v := ReplaceSpan(t, es[0]);
    assert es[..i + 1][0] == es[0] && es[..i + 1][1..] == es[1..][..i];
    assert ApplyAll(t, es[..i + 1]) == ApplyAll(v, es[1..][..i]);
    if i == 0 {
      assert es[..0] == [] && es[1..][..0] == [];
    } else {
      ApplyAllSnoc(v, es[1..], i - 1);
      assert es[1..][i - 1] == es[i];
      assert es[..i][0] == es[0] && es[..i][1..] == es[1..][..i - 1];
      assert ApplyAll(t, es[..i]) == ApplyAll(v, es[1..][..i - 1]);
    }
  }

  /** Why the loop goes from the highest offset down: when the `i`-th sorted
      entity is processed, the text in front of its offset is still the
      original text, so its offset still points where the detector meant. */
  lemma OffsetsStayValid(t: string, es: seq<Entity>, i: nat)
    requires SortedDesc(es)
    requires i < |es| && es[i].offset <= |t|
    ensures t[..es[i].offset] <= ApplyAll(t, es[..i])
    ensures ApplyAll(t, es[..i + 1]) == ReplaceSpan(ApplyAll(t, es[..i]), es[i])
  {
    PrefixKept(t, es[..i], es[i].offset);
    ApplyAllSnoc(t, es, i);
  }

  /** Text after every span is carried through the loop unchanged. */
  lemma {:induction false} ApplyAllFrame(v: string, w: string, es: seq<Entity>)
    requires Chain(es) && InBounds(es, |v|)
    ensures ApplyAll(v + w, es) == ApplyAll(v, es) + w
    decreases es
  {
    if es != [] {
      var e := es[0];
      assert (v + w)[..e.offset] == v[..e.offset];
      assert (v + w)[End(e)..] == v[End(e)..] + w;
      assert ReplaceSpan(v + w, e) == ReplaceSpan(v, e) + w;
      ChainTail(v, es);
      var v' := ReplaceSpan(v, e);
      assert InBounds(es[1..], |v'|) by {
        assert v[..e.offset] <= v';
      }
      ApplyAllFrame(v', w, es[1..]);
    }
  }

  /** On a chain of in-bounds spans the loop produces the layout `Render`
      describes in terms of the original text. */
  lemma {:induction false} ApplyAllIsRender(t: string, es: seq<Entity>)
    requires Chain(es) && InBounds(es, |t|)
    ensures ApplyAll(t, es) == Render(t, es)
    decreases es
  {
    if es != [] {
      var e := es[0];
      ChainTail(t, es);
      var p := Placeholder(e.category);
      assert ReplaceSpan(t, e) == t[..e.offset] + (p + t[End(e)..]);
      ApplyAllFrame(t[..e.offset], p + t[End(e)..], es[1..]);
      ApplyAllIsRender(t[..e.offset], es[1..]);
    }
  }

  /** The length of the redacted text: span lengths out, placeholder lengths in. */
  lemma {:induction false} RenderLength(t: string, es: seq<Entity>)
    requires Chain(es) && InBounds(es, |t|)
    ensures |Render(t, es)| == |t| - SumLength(es) + SumPlaceholder(es)
    decreases es
  {
    if es != [] {
      ChainTail(t, es);
      RenderLength(t[..es[0].offset], es[1..]);
    }
  }

  /** Where the `i`-th span's placeholder starts in the redacted text: its
      original offset, shifted by the length changes of the spans in front of
      it (`es[i + 1..]`). */
  function ShiftedOffset(es: seq<Entity>, i: nat): int
    requires i < |es|
  {
    es[i].offset - SumLength(es[i + 1..]) + SumPlaceholder(es[i + 1..])
  }

  lemma ShiftedOffsetTail(es: seq<Entity>, i: nat)
    requires 0 < i < |es|
    ensures ShiftedOffset(es, i) == ShiftedOffset(es[1..], i - 1)
  {
    assert es[1..][i - 1] == es[i];
    assert es[1..][i..] == es[i + 1..];
  }

  /** `p` occurs in `r` starting at position `pos`. */
  predicate OccursAt(r: string, pos: int, p: string) {
    0 <= pos && pos + |p| <= |r| && r[pos..pos + |p|] == p
  }

  /** Each span's placeholder appears in the redacted text at its shifted
      offset. */
  lemma {:induction false} RenderPlaceholderAt(t: string, es: seq<Entity>, i: nat)
    requires Chain(es) && InBounds(es, |t|)
    requires i < |es|
    ensures OccursAt(Render(t, es), ShiftedOffset(es, i), Placeholder(es[i].category))
    decreases es
  {
    if i == 0 {
      FirstPlaceholderAt(t, es);
    } else {
      ChainTail(t, es);
      RenderPlaceholderAt(t[..es[0].offset], es[1..], i - 1);
      PlaceholderInHead(t, es, i);
    }
  }

  /** The recursive case of `RenderPlaceholderAt`: a placeholder found in the
      redacted text in front of the first-listed span stays where it is. */
  lemma PlaceholderInHead(t: string, es: seq<Entity>, i: nat)
    requires Chain(es) && InBounds(es, |t|) && 0 < i < |es|
    requires Chain(es[1..]) && InBounds(es[1..], es[0].offset)
    requires OccursAt(Render(t[..es[0].offset], es[1..]), ShiftedOffset(es[1..], i - 1),
                      Placeholder(es[1..][i - 1].category))
    ensures OccursAt(Render(t, es), ShiftedOffset(es, i), Placeholder(es[i].category))
  {
    ShiftedOffsetTail(es, i);
    assert es[1..][i - 1] == es[i];
    RenderExtendsHead(t, es, ShiftedOffset(es, i), Placeholder(es[i].category));
  }

  /** Unfolds `Render` once. */
  lemma RenderUnfold(t: string, es: seq<Entity>)
    requires Chain(es) && InBounds(es, |t|) && es != []
    ensures Chain(es[1..]) && InBounds(es[1..], es[0].offset)
    ensures Render(t, es)
      == Render(t[..es[0].offset], es[1..]) + (Placeholder(es[0].category) + t[End(es[0])..])
  {
    ChainTail(t, es);
  }

  lemma FirstPlaceholderAt(t: string, es: seq<Entity>)
    requires Chain(es) && InBounds(es, |t|) && es != []
    ensures OccursAt(Render(t, es), ShiftedOffset(es, 0), Placeholder(es[0].category))
  {
    RenderUnfold(t, es);
    var head := Render(t[..es[0].offset], es[1..]);
    RenderLength(t[..es[0].offset], es[1..]);
    SliceMiddle(head, Placeholder(es[0].category), t[End(es[0])..]);
  }

  /** Text found in the redacted text in front of the first-listed span is
      found at the same place in the whole redacted text. */
  lemma RenderExtendsHead(t: string, es: seq<Entity>, pos: int, p: string)
    requires Chain(es) && InBounds(es, |t|) && es != []
    requires Chain(es[1..]) && InBounds(es[1..], es[0].offset)
    requires OccursAt(Render(t[..es[0].offset], es[1..]), pos, p)
    ensures OccursAt(Render(t, es), pos, p)
  {
    RenderUnfold(t, es);
    OccursInFront(Render(t[..es[0].offset], es[1..]), Placeholder(es[0].category) + t[End(es[0])..], pos, p);
  }

  lemma OccursInFront(a: string, b: string, pos: int, p: string)
    requires OccursAt(a, pos, p)
    ensures OccursAt(a + b, pos, p)
  {
    assert (a + b)[pos..pos + |p|] == a[pos..pos + |p|];
  }

  lemma SliceMiddle<T>(a: seq<T>, b: seq<T>, c: seq<T>)
    ensures (a + (b + c))[|a|..|a| + |b|] == b
  {
  }

  /** The original text after the last span ends the redacted text. */
  lemma RenderKeepsSuffix(t: string, es: seq<Entity>, k: nat)
    requires Chain(es) && InBounds(es, |t|)
    requires k <= |t| && forall i :: 0 <= i < |es| ==> End(es[i]) <= k
    ensures |t| - k <= |Render(t, es)|
    ensures Render(t, es)[|Render(t, es)| - (|t| - k)..] == t[k..]
  {
    if es != [] {
      ChainTail(t, es);
      var tail := t[End(es[0])..];
      assert t[k..] == tail[k - End(es[0])..];
    }
  }

  /** Every entry of the sorted sequence is an entry of the input. */
  lemma SortMember(es: seq<Entity>, i: nat)
    requires i < |SortDesc(es)|
    ensures exists j :: 0 <= j < |es| && es[j] == SortDesc(es)[i]
  {
    assert SortDesc(es)[i] in multiset(SortDesc(es));
    assert SortDesc(es)[i] in multiset(es);
  }

  lemma SortKeepsBounds(es: seq<Entity>, n: nat)
    requires InBounds(es, n)
    ensures InBounds(SortDesc(es), n)
  {
    forall i | 0 <= i < |SortDesc(es)|
      ensures End(SortDesc(es)[i]) <= n
    {
      SortMember(es, i);
    }
  }

  /** Inserting a span that is disjoint from a chain keeps it a chain. */
  lemma {:induction false} InsertKeepsChain(x: Entity, r: seq<Entity>)
    requires SortedDesc(r) && Chain(r)
    requires x.length > 0 && PositiveLengths(r)
    requires forall i :: 0 <= i < |r| ==> Disjoint(x, r[i])
    ensures Chain(Insert(x, r))
  {
    if r == [] || x.offset >= r[0].offset {
      ChainCons(x, r);
    } else {
      var r1 := r[1..];
      assert forall i :: 0 <= i < |r1| ==> Disjoint(x, r1[i]) by {
        forall i | 0 <= i < |r1| ensures Disjoint(x, r1[i]) {
          assert r1[i] == r[i + 1];
        }
      }
      InsertKeepsChain(x, r1);
      var rest := Insert(x, r1);
      assert [r[0]] + rest == Insert(x, r);
      InsertBehindHead(x, r, rest);
    }
  }

  /** `x` in front of a chain whose spans all start at or before `x`. */
  lemma ChainCons(x: Entity, r: seq<Entity>)
    requires SortedDesc(r) && Chain(r)
    requires x.length > 0
    requires r == [] || x.offset >= r[0].offset
    requires forall i :: 0 <= i < |r| ==> Disjoint(x, r[i])
    ensures Chain([x] + r)
  {
    var s := [x] + r;
    forall i, j | 0 <= i < j < |s|
      ensures End(s[j]) <= s[i].offset
    {
      if i > 0 {
        assert s[i] == r[i - 1] && s[j] == r[j - 1];
      } else {
        assert s[j] == r[j - 1] && Disjoint(x, r[j - 1]);
      }
    }
  }

  /** The recursive case of `InsertKeepsChain`: the head `r[0]` stays in front. */
  lemma InsertBehindHead(x: Entity, r: seq<Entity>, rest: seq<Entity>)
    requires SortedDesc(r) && Chain(r) && r != [] && x.offset < r[0].offset
    requires Disjoint(x, r[0])
    requires Chain(rest)
    requires multiset(rest) == multiset{x} + multiset(r[1..])
    ensures Chain([r[0]] + rest)
  {
    var r1 := r[1..];
    forall j | 0 <= j < |rest|
      ensures End(rest[j]) <= r[0].offset
    {
      assert rest[j] in multiset(rest);
      if rest[j] != x {
        assert rest[j] in multiset(r1);
        var m :| 0 <= m < |r1| && r1[m] == rest[j];
        assert r[m + 1] == rest[j];
      }
    }
    var s := [r[0]] + rest;
    forall i, j | 0 <= i < j < |s|
      ensures End(s[j]) <= s[i].offset
    {
      assert s[j] == rest[j - 1];
      if i > 0 {
        assert s[i] == rest[i - 1];
      }
    }
  }

  lemma TailNonOverlapping(es: seq<Entity>)
    requires es != [] && PositiveLengths(es) && NonOverlapping(es)
    ensures PositiveLengths(es[1..]) && NonOverlapping(es[1..])
  {
    var tail := es[1..];
    forall i, j | 0 <= i < |tail| && 0 <= j < |tail| && i != j
      ensures Disjoint(tail[i], tail[j])
    {
      assert tail[i] == es[i + 1] && tail[j] == es[j + 1];
    }
  }

  /** The first span is disjoint from every entry of the sorted remainder. */
  lemma HeadDisjointFromSortedTail(es: seq<Entity>)
    requires es != [] && PositiveLengths(es) && NonOverlapping(es)
    ensures PositiveLengths(SortDesc(es[1..]))
    ensures forall i :: 0 <= i < |SortDesc(es[1..])| ==> Disjoint(es[0], SortDesc(es[1..])[i])
  {
    var tail := es[1..];
    var r := SortDesc(tail);
    forall i | 0 <= i < |r|
      ensures Disjoint(es[0], r[i]) && r[i].length > 0
    {
      SortMember(tail, i);
      var j :| 0 <= j < |tail| && tail[j] == r[i];
      assert es[j + 1] == r[i];
    }
  }

  /** Sorting non-overlapping, non-empty spans in descending order yields a chain. */
  lemma {:induction false} SortedSpansFormChain(es: seq<Entity>)
    requires PositiveLengths(es) && NonOverlapping(es)
    ensures Chain(SortDesc(es))
  {
    if es != [] {
      TailNonOverlapping(es);
      SortedSpansFormChain(es[1..]);
      HeadDisjointFromSortedTail(es);
      InsertKeepsChain(es[0], SortDesc(es[1..]));
      assert es == [es[0]] + es[1..];
    }
  }

  /** For well-formed detector output the redaction is exactly the layout
      `Render` describes, and its length is the original length minus the
      span lengths plus the placeholder lengths. */
  lemma RedactLayout(text: string, entities: seq<Entity>)
    requires WellFormed(entities, |text|)
    ensures Chain(SortDesc(entities)) && InBounds(SortDesc(entities), |text|)
    ensures Redact(text, entities) == Render(text, SortDesc(entities))
    ensures |Redact(text, entities)| == |text| - SumLength(entities) + SumPlaceholder(entities)
  {
    var sorted := SortDesc(entities);
    SortedSpansFormChain(entities);
    SortKeepsBounds(entities, |text|);
    ApplyAllIsRender(text, sorted);
    RenderLength(text, sorted);
    SortSums(entities);
  }

  /** The text in front of the smallest offset is never changed, for any
      entity list, overlapping or not. */
  lemma RedactKeepsPrefix(text: string, entities: seq<Entity>, k: nat)
    requires k <= |text|
    requires forall i :: 0 <= i < |entities| ==> k <= entities[i].offset
    ensures text[..k] <= Redact(text, entities)
  {
    var sorted := SortDesc(entities);
    forall i | 0 <= i < |sorted|
      ensures k <= sorted[i].offset
    {
      SortMember(entities, i);
    }
    PrefixKept(text, sorted, k);
  }

  /** For well-formed detector output the text after the last span ends the
      redacted text. */
  lemma RedactKeepsSuffix(text: string, entities: seq<Entity>, k: nat)
    requires WellFormed(entities, |text|)
    requires k <= |text| && forall i :: 0 <= i < |entities| ==> End(entities[i]) <= k
    ensures |text| - k <= |Redact(text, entities)|
    ensures Redact(text, entities)[|Redact(text, entities)| - (|text| - k)..] == text[k..]
  {
    var sorted := SortDesc(entities);
    RedactLayout(text, entities);
    forall i | 0 <= i < |sorted|
      ensures End(sorted[i]) <= k
    {
      SortMember(entities, i);
    }
    RenderKeepsSuffix(text, sorted, k);
  }
}
