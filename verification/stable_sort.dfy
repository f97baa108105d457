/** Python's stable sort of the entities by offset, highest offset first:
    entities with equal offsets stay in their input order. */
module StableSort {
  import opened Entities

  /** Offsets never increase from left to right. */
  predicate SortedDesc(s: seq<Entity>) {
    forall i, j :: 0 <= i < j < |s| ==> s[i].offset >= s[j].offset
  }

  /** The entities of `s` whose offset is `k`, in their order in `s`. A sort is
      stable exactly when it keeps every such subsequence. */
  function WithOffset(s: seq<Entity>, k: nat): seq<Entity> {
    if s == [] then []
    else (if s[0].offset == k then [s[0]] else []) + WithOffset(s[1..], k)
  }

  function SumLength(s: seq<Entity>): nat {
    if s == [] then 0 else s[0].length + SumLength(s[1..])
  }

  /** The total length of the placeholders that replace the entities of `s`. */
  function SumPlaceholder(s: seq<Entity>): nat {
    if s == [] then 0 else |Placeholder(s[0].category)| + SumPlaceholder(s[1..])
  }

  lemma WithOffsetCons(x: Entity, s: seq<Entity>, k: nat)
    ensures WithOffset([x] + s, k) == (if x.offset == k then [x] else []) + WithOffset(s, k)
  {
    assert ([x] + s)[1..] == s;
  }

  /** Inserts `x` into the sorted `s` in front of every entity whose offset is
      not larger, so that `x` precedes the entities of equal offset. */
  function Insert(x: Entity, s: seq<Entity>): (r: seq<Entity>)
    requires SortedDesc(s)
    ensures SortedDesc(r)
    ensures multiset(r) == multiset{x} + multiset(s)
    ensures forall k :: WithOffset(r, k) == (if x.offset == k then [x] else []) + WithOffset(s, k)
  {
    if s == [] || x.offset >= s[0].offset then
      assert forall k :: WithOffset([x] + s, k) == (if x.offset == k then [x] else []) + WithOffset(s, k) by {
        forall k { WithOffsetCons(x, s, k); }
      }
      [x] + s
    else
      var rest := Insert(x, s[1..]);
      InsertStep(x, s, rest);
      [s[0]] + rest
  }

  /** The recursive case of `Insert`: `x` goes behind the larger head `s[0]`. */
  lemma InsertStep(x: Entity, s: seq<Entity>, rest: seq<Entity>)
    requires SortedDesc(s) && s != [] && x.offset < s[0].offset
    requires SortedDesc(rest)
    requires multiset(rest) == multiset{x} + multiset(s[1..])
    requires forall k :: WithOffset(rest, k) == (if x.offset == k then [x] else []) + WithOffset(s[1..], k)
    ensures SortedDesc([s[0]] + rest)
    ensures multiset([s[0]] + rest) == multiset{x} + multiset(s)
    ensures forall k :: WithOffset([s[0]] + rest, k) == (if x.offset == k then [x] else []) + WithOffset(s, k)
  {
    InsertStepSorted(x, s, rest);
    InsertStepMultiset(x, s, rest);
    forall k
      ensures WithOffset([s[0]] + rest, k) == (if x.offset == k then [x] else []) + WithOffset(s, k)
    {
      InsertStepWithOffset(x, s, rest, k);
    }
  }

  lemma InsertStepMultiset(x: Entity, s: seq<Entity>, rest: seq<Entity>)
    requires s != []
    requires multiset(rest) == multiset{x} + multiset(s[1..])
    ensures multiset([s[0]] + rest) == multiset{x} + multiset(s)
  {
    assert s == [s[0]] + s[1..];
  }

  lemma InsertStepWithOffset(x: Entity, s: seq<Entity>, rest: seq<Entity>, k: nat)
    requires s != [] && x.offset < s[0].offset
    requires WithOffset(rest, k) == (if x.offset == k then [x] else []) + WithOffset(s[1..], k)
    ensures WithOffset([s[0]] + rest, k) == (if x.offset == k then [x] else []) + WithOffset(s, k)
  {
    WithOffsetCons(s[0], rest, k);
    WithOffsetCons(s[0], s[1..], k);
    assert s == [s[0]] + s[1..];
  }

  lemma InsertStepSorted(x: Entity, s: seq<Entity>, rest: seq<Entity>)
    requires SortedDesc(s) && s != [] && x.offset < s[0].offset
    requires SortedDesc(rest)
    requires multiset(rest) == multiset{x} + multiset(s[1..])
    ensures SortedDesc([s[0]] + rest)
  {
    forall j | 0 <= j < |rest|
      ensures s[0].offset >= rest[j].offset
    {
      assert rest[j] in multiset(rest);
      if rest[j] != x {
        assert rest[j] in multiset(s[1..]);
        var m :| 0 <= m < |s[1..]| && s[1..][m] == rest[j];
        assert s[m + 1] == rest[j];
      }
    }
    var r := [s[0]] + rest;
    forall i, j | 0 <= i < j < |r|
      ensures r[i].offset >= r[j].offset
    {
      if i > 0 {
        assert r[i] == rest[i - 1] && r[j] == rest[j - 1];
      } else {
        assert r[j] == rest[j - 1];
      }
    }
  }

  /** The stable descending sort. */
  function SortDesc(s: seq<Entity>): (r: seq<Entity>)
    ensures SortedDesc(r)
    ensures multiset(r) == multiset(s)
    ensures forall k :: WithOffset(r, k) == WithOffset(s, k)
  {
    if s == [] then []
    else
      assert s == [s[0]] + s[1..];
      Insert(s[0], SortDesc(s[1..]))
  }

  lemma {:induction false} WithOffsetHead(s: seq<Entity>)
    requires s != []
    ensures WithOffset(s, s[0].offset) == [s[0]] + WithOffset(s[1..], s[0].offset)
  {
  }

  /** An entity with offset `k` occurs in `s` only if `WithOffset(s, k)` is not empty. */
  lemma {:induction false} WithOffsetEmpty(s: seq<Entity>, i: nat)
    requires i < |s|
    ensures WithOffset(s, s[i].offset) != []
  {
    if i > 0 {
      WithOffsetEmpty(s[1..], i - 1);
    }
  }

  /** A sorted sequence is determined by its per-offset subsequences: two
      sorted sequences that agree on every `WithOffset` are equal. */
  lemma {:induction false} SortedDeterminedByOffsets(a: seq<Entity>, b: seq<Entity>)
    requires SortedDesc(a) && SortedDesc(b)
    requires forall k :: WithOffset(a, k) == WithOffset(b, k)
    ensures a == b
  {
    if a == [] {
      if b != [] {
        WithOffsetEmpty(b, 0);
        assert false;
      }
    } else if b == [] {
      WithOffsetEmpty(a, 0);
      assert false;
    } else {
      var ka, kb := a[0].offset, b[0].offset;
      // b holds an entity of offset ka, so its first offset is at least ka
      WithOffsetEmpty(a, 0);
      WithOffsetMember(b, ka);
      WithOffsetEmpty(b, 0);
      WithOffsetMember(a, kb);
      assert ka == kb;
      WithOffsetHead(a);
      WithOffsetHead(b);
      assert WithOffset(a, ka) == WithOffset(b, ka);
      assert a[0] == WithOffset(a, ka)[0] == WithOffset(b, kb)[0] == b[0];
      forall k
        ensures WithOffset(a[1..], k) == WithOffset(b[1..], k)
      {
        WithOffsetCons(a[0], a[1..], k);
        WithOffsetCons(b[0], b[1..], k);
        assert a == [a[0]] + a[1..] && b == [b[0]] + b[1..];
        var head := if ka == k then [a[0]] else [];
        assert head + WithOffset(a[1..], k) == head + WithOffset(b[1..], k);
        assert WithOffset(a[1..], k) == (head + WithOffset(a[1..], k))[|head|..];
        assert WithOffset(b[1..], k) == (head + WithOffset(b[1..], k))[|head|..];
      }
      SortedDeterminedByOffsets(a[1..], b[1..]);
      assert a == [a[0]] + a[1..] && b == [b[0]] + b[1..];
    }
  }

  /** If some entity of `s` has offset `k`, the first offset of a sorted `s` is
      at least `k`. */
  lemma {:induction false} WithOffsetMember(s: seq<Entity>, k: nat)
    requires SortedDesc(s)
    requires WithOffset(s, k) != []
    ensures s != [] && s[0].offset >= k
  {
    if s[0].offset != k {
      assert WithOffset(s, k) == WithOffset(s[1..], k);
      WithOffsetMember(s[1..], k);
    }
  }

  /** `SortDesc` is the only stable descending order of `s`: any sorted
      sequence that keeps the relative order of equal offsets is it. */
  lemma StableSortUnique(s: seq<Entity>, r: seq<Entity>)
    requires SortedDesc(r)
    requires forall k :: WithOffset(r, k) == WithOffset(s, k)
    ensures r == SortDesc(s)
  {
    SortedDeterminedByOffsets(r, SortDesc(s));
  }

  lemma {:induction false} InsertSums(x: Entity, s: seq<Entity>)
    requires SortedDesc(s)
    ensures SumLength(Insert(x, s)) == x.length + SumLength(s)
    ensures SumPlaceholder(Insert(x, s)) == |Placeholder(x.category)| + SumPlaceholder(s)
  {
    if s == [] || x.offset >= s[0].offset {
      assert ([x] + s)[1..] == s;
    } else {
      InsertSums(x, s[1..]);
      var r := Insert(x, s);
      assert r[0] == s[0] && r[1..] == Insert(x, s[1..]);
    }
  }

  /** Sorting does not change the total span length or placeholder length. */
  lemma {:induction false} SortSums(s: seq<Entity>)
    ensures SumLength(SortDesc(s)) == SumLength(s)
    ensures SumPlaceholder(SortDesc(s)) == SumPlaceholder(s)
  {
    if s != [] {
      SortSums(s[1..]);
      InsertSums(s[0], SortDesc(s[1..]));
    }
  }
}
