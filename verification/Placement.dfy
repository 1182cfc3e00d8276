/** Shard placement by rendezvous hashing (routing/placement.go). The hash functions are
    parameters: every result holds for any weight function and any namespace hash. */
module Placement {
  import opened Strings

  const ShardCount: nat := 256

  type Weight = (string, int) -> nat

  predicate IsShard(s: int) {
    0 <= s < ShardCount
  }

  /** The slot of a namespace: its hash modulo 256. */
  function ShardOf(hash: string -> nat, namespace: string): (s: int)
    ensures IsShard(s) && 0 <= s < 256
    ensures exists q: nat :: hash(namespace) == 256 * q + s
  {
    assert hash(namespace) == 256 * (hash(namespace) / 256) + hash(namespace) % 256;
    hash(namespace) % ShardCount
  }

  /** The winner so far of the scan over `members`; "" means none yet. */
  function Suggested(w: Weight, shard: int, members: seq<string>): string {
    if members == [] then "" else
      var m := members[|members| - 1];
      var best := Suggested(w, shard, members[..|members| - 1]);
      if best == "" || w(m, shard) > w(best, shard) then m else best
  }

  method Rendezvous(w: Weight, shard: int, members: seq<string>) returns (best: string)
    ensures best == Suggested(w, shard, members)
  {
    best := "";
    var bestScore := 0;
    for i := 0 to |members|
      invariant best == Suggested(w, shard, members[..i])
      invariant best != "" ==> bestScore == w(best, shard)
    {
      var score := w(members[i], shard);
      assert members[..i + 1][..i] == members[..i];
      if best == "" || score > bestScore {
        best, bestScore := members[i], score;
      }
    }
    assert members[..|members|] == members;
  }

  predicate NonEmptyIds(members: seq<string>) {
    forall m :: m in members ==> m != ""
  }

  /** `members` lists exactly the set `live`, in key order. */
  predicate Listing(members: seq<string>, live: set<string>) {
    && StrictlySorted(members)
    && (forall m :: m in members ==> m in live) && (forall m :: m in live ==> m in members)
    && NonEmptyIds(members)
  }

  /** Member i has the highest weight, and is the first to have it. */
  ghost predicate FirstBest(w: Weight, shard: int, members: seq<string>, i: int) {
    && 0 <= i < |members|
    && (forall j :: 0 <= j < |members| ==> w(members[j], shard) <= w(members[i], shard))
    && (forall j :: 0 <= j < i ==> w(members[j], shard) < w(members[i], shard))
  }

  /** The scan finds the first member of highest weight, and nothing only when there is no member. */
  lemma {:induction false} SuggestedIsFirstBest(w: Weight, shard: int, members: seq<string>) returns (i: int)
    requires NonEmptyIds(members)
    ensures members == [] ==> Suggested(w, shard, members) == ""
    ensures members != [] ==> FirstBest(w, shard, members, i) && Suggested(w, shard, members) == members[i]
  {
    i := 0;
    if members != [] {
      var n := |members| - 1;
      var init := members[..n];
      assert forall m :: m in init ==> m in members;
      i := SuggestedIsFirstBest(w, shard, init);
      assert forall j :: 0 <= j < n ==> init[j] == members[j];
      assert init != [] ==> init[i] in members;
      if init == [] || w(members[n], shard) > w(init[i], shard) {
        i := n;
      }
    }
  }

  lemma SuggestedMember(w: Weight, shard: int, members: seq<string>)
    requires NonEmptyIds(members) && members != []
    ensures Suggested(w, shard, members) in members && Suggested(w, shard, members) != ""
  {
    var i := SuggestedIsFirstBest(w, shard, members);
  }

  /** Minimal reshuffle, ties included: when membership changes, a shard moves only if its old owner
      left or its new owner has just arrived. */
  lemma MinimalReshuffle(w: Weight, shard: int, before: seq<string>, after: seq<string>)
    requires StrictlySorted(before) && NonEmptyIds(before)
    requires StrictlySorted(after) && NonEmptyIds(after)
    requires Suggested(w, shard, before) != Suggested(w, shard, after)
    ensures Suggested(w, shard, before) !in after || Suggested(w, shard, after) !in before
  {
    var i := SuggestedIsFirstBest(w, shard, before);
    var j := SuggestedIsFirstBest(w, shard, after);
    if before != [] && after != [] && before[i] in after && after[j] in before {
      var i' :| 0 <= i' < |after| && after[i'] == before[i];
      var j' :| 0 <= j' < |before| && before[j'] == after[j];
      LessAsymmetric(before[i], before[j']);
    }
  }

  /** Two listings of one membership suggest the same owner. */
  lemma ListingDeterminesOwner(w: Weight, shard: int, a: seq<string>, b: seq<string>, live: set<string>)
    requires Listing(a, live) && Listing(b, live)
    ensures Suggested(w, shard, a) == Suggested(w, shard, b)
  {
    if a == [] {
      assert forall i :: 0 <= i < |b| ==> b[i] in live && b[i] in a;
    } else {
      assert a[0] in b;
      SuggestedMember(w, shard, a);
      SuggestedMember(w, shard, b);
      if Suggested(w, shard, a) != Suggested(w, shard, b) {
        MinimalReshuffle(w, shard, a, b);
      }
    }
  }
}
