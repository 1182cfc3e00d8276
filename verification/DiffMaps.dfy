/** Comparing two logical key-value maps (migration/copydiff.go, DiffMaps). */
module Diffing {
  import opened Strings

  datatype Reason = MissingInDst | MissingInSrc | ValueDiffers

  datatype Mismatch = Mismatch(key: string, reason: Reason)

  datatype Option<T> = None | Some(value: T)

  function Classify(src: map<string, string>, dst: map<string, string>, k: string): Option<Reason> {
    if k in src then
      if k !in dst then Some(MissingInDst) else if dst[k] != src[k] then Some(ValueDiffers) else None
    else if k in dst then Some(MissingInSrc) else None
  }

  predicate SortedByKey(ms: seq<Mismatch>) {
    forall i, j :: 0 <= i < j < |ms| ==> Less(ms[i].key, ms[j].key)
  }

  predicate DistinctKeys(ms: seq<Mismatch>) {
    forall i, j :: 0 <= i < j < |ms| ==> ms[i].key != ms[j].key
  }

  /** ms is the report: strictly sorted, with exactly the right entry for each differing key. */
  ghost predicate IsDiff(src: map<string, string>, dst: map<string, string>, ms: seq<Mismatch>) {
    && SortedByKey(ms)
    && (forall m :: m in ms <==> Classify(src, dst, m.key) == Some(m.reason))
  }

  /** The last entry of a sorted list is in the list without its last entry no more. */
  lemma LastApart(ms: seq<Mismatch>, m: Mismatch)
    requires SortedByKey(ms) && ms != []
    ensures m in ms[..|ms| - 1] <==> m in ms && m != ms[|ms| - 1]
  {
    hide Less;
    var n := |ms| - 1;
    if m in ms[..n] {
      var x :| 0 <= x < n && ms[x] == m;
      LessAsymmetric(m.key, ms[n].key);
    }
  }

  lemma SameLast(a: seq<Mismatch>, b: seq<Mismatch>)
    requires SortedByKey(a) && SortedByKey(b) && (forall m :: m in a <==> m in b) && a != [] && b != []
    ensures a[|a| - 1] == b[|b| - 1]
  {
    hide Less;
    var n, k := |a| - 1, |b| - 1;
    assert a[n] in b && b[k] in a;
    var i :| 0 <= i < |b| && b[i] == a[n];
    var j :| 0 <= j < |a| && a[j] == b[k];
    if i < k && j < n {
      LessAsymmetric(b[i].key, b[k].key);
    }
  }

  /** There is only one report. */
  lemma {:induction false} SortedUnique(a: seq<Mismatch>, b: seq<Mismatch>)
    requires SortedByKey(a) && SortedByKey(b) && forall m :: m in a <==> m in b
    ensures a == b
  {
    hide Less;
    if a == [] || b == [] {
      if a != [] {
        var m := SomeElement(a);
      }
      if b != [] {
        var m := SomeElement(b);
      }
    } else {
      SameLast(a, b);
      var n, k := |a| - 1, |b| - 1;
      forall m ensures m in a[..n] <==> m in b[..k] {
        LastApart(a, m);
        LastApart(b, m);
      }
      SortedUnique(a[..n], b[..k]);
      assert a == a[..n] + [a[n]] && b == b[..k] + [b[k]];
    }
  }

  lemma DiffUnique(src: map<string, string>, dst: map<string, string>, a: seq<Mismatch>, b: seq<Mismatch>)
    requires IsDiff(src, dst, a) && IsDiff(src, dst, b)
    ensures a == b
  {
    SortedUnique(a, b);
  }

  /** An empty report means identical maps, and only that. */
  lemma DiffEmptyIffEqual(src: map<string, string>, dst: map<string, string>, ms: seq<Mismatch>)
    requires IsDiff(src, dst, ms)
    ensures ms == [] <==> src == dst
  {
    if ms == [] {
      forall k ensures Classify(src, dst, k) == None {
        var c := Classify(src, dst, k);
        assert Mismatch(k, if c.Some? then c.value else ValueDiffers) !in ms;
      }
      assert forall k :: k in src ==> Classify(src, dst, k) == None;
      assert forall k :: k in dst ==> Classify(src, dst, k) == None;
      assert src.Keys == dst.Keys;
    } else {
      assert ms[0] in ms;
    }
  }

  function SwapReason(r: Reason): Reason {
    match r
    case MissingInDst => MissingInSrc
    case MissingInSrc => MissingInDst
    case ValueDiffers => ValueDiffers
  }

  function Swapped(ms: seq<Mismatch>): (r: seq<Mismatch>)
    ensures |r| == |ms|
    ensures forall i :: 0 <= i < |ms| ==> r[i] == Mismatch(ms[i].key, SwapReason(ms[i].reason))
  {
    seq(|ms|, i requires 0 <= i < |ms| => Mismatch(ms[i].key, SwapReason(ms[i].reason)))
  }

  /** Swapping the maps swaps the two missing reasons and nothing else. */
  lemma DiffSwaps(src: map<string, string>, dst: map<string, string>, ms: seq<Mismatch>)
    requires IsDiff(src, dst, ms)
    ensures IsDiff(dst, src, Swapped(ms))
  {
    var r := Swapped(ms);
    forall m ensures m in r <==> Classify(dst, src, m.key) == Some(m.reason) {
      var m' := Mismatch(m.key, SwapReason(m.reason));
      if m in r {
        var i :| 0 <= i < |r| && r[i] == m;
        assert ms[i] in ms;
      }
      if Classify(dst, src, m.key) == Some(m.reason) {
        assert m' in ms;
        var i :| 0 <= i < |ms| && ms[i] == m';
        assert r[i] == m;
      }
    }
  }

  /** sort.Slice by key, on entries with distinct keys. */
  method SortByKey(ms: seq<Mismatch>) returns (sorted: seq<Mismatch>)
    requires DistinctKeys(ms)
    ensures SortedByKey(sorted) && forall m :: m in sorted <==> m in ms
  {
    sorted := [];
    for i := 0 to |ms|
      invariant SortedByKey(sorted) && forall m :: m in sorted <==> m in ms[..i]
    {
      assert forall m :: m in sorted ==> m.key != ms[i].key;
      sorted := Insert(sorted, ms[i]);
      assert ms[..i + 1] == ms[..i] + [ms[i]];
    }
    assert ms[..|ms|] == ms;
  }

  method Insert(sorted: seq<Mismatch>, m: Mismatch) returns (r: seq<Mismatch>)
    requires SortedByKey(sorted) && forall x :: x in sorted ==> x.key != m.key
    ensures SortedByKey(r) && forall x :: x in r <==> x in sorted || x == m
  {
    hide Less;
    var k := 0;
    while k < |sorted| && Less(sorted[k].key, m.key)
      invariant 0 <= k <= |sorted|
      invariant forall i :: 0 <= i < k ==> Less(sorted[i].key, m.key)
    {
      k := k + 1;
    }
    forall i | k <= i < |sorted| ensures Less(m.key, sorted[i].key) {
      assert sorted[k] in sorted;
      LessTotal(m.key, sorted[k].key);
      if k < i {
        LessTransitive(m.key, sorted[k].key, sorted[i].key);
      }
    }
    InsertSorted(sorted, k, m);
    r := sorted[..k] + [m] + sorted[k..];
    assert sorted == sorted[..k] + sorted[k..];
  }

  lemma InsertSorted(s: seq<Mismatch>, k: nat, m: Mismatch)
    requires k <= |s| && SortedByKey(s)
    requires forall i :: 0 <= i < k ==> Less(s[i].key, m.key)
    requires forall i :: k <= i < |s| ==> Less(m.key, s[i].key)
    ensures SortedByKey(s[..k] + [m] + s[k..])
  {
  }

  /** For every iteration order of either map, the report. */
  method DiffMaps(src: map<string, string>, dst: map<string, string>) returns (mismatches: seq<Mismatch>)
    ensures IsDiff(src, dst, mismatches)
    ensures mismatches == [] <==> src == dst
  {
    var found := [];
    var rest := src.Keys;
    while rest != {}
      invariant rest <= src.Keys && DistinctKeys(found)
      invariant forall m :: m in found <==> m.key in src && m.key !in rest && Classify(src, dst, m.key) == Some(m.reason)
      decreases |rest|
    {
      var k :| k in rest;
      assert forall m :: m in found ==> m.key != k;
      if k !in dst {
        found := found + [Mismatch(k, MissingInDst)];
      } else if dst[k] != src[k] {
        found := found + [Mismatch(k, ValueDiffers)];
      }
      rest := rest - {k};
    }
    rest := dst.Keys;
    while rest != {}
      invariant rest <= dst.Keys && DistinctKeys(found)
      invariant forall m :: m in found <==> (m.key in src || m.key !in rest) && Classify(src, dst, m.key) == Some(m.reason)
      decreases |rest|
    {
      var k :| k in rest;
      assert forall m :: m in found && m.key !in src ==> m.key != k;
      if k !in src {
        found := found + [Mismatch(k, MissingInSrc)];
      }
      rest := rest - {k};
    }
    mismatches := SortByKey(found);
    DiffEmptyIffEqual(src, dst, mismatches);
  }
}
