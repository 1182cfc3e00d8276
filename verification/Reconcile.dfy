/** The claim and release lists of one node (routing/reconcile.go). */
module Reconciling {
  import opened Placement

  type ShardMap = sm: seq<string> | |sm| == ShardCount witness seq(ShardCount, i => "")

  predicate MustClaim(w: Weight, me: string, members: seq<string>, sm: ShardMap, s: int)
    requires IsShard(s)
  {
    sm[s] == "" && Suggested(w, s, members) == me
  }

  predicate MustRelease(w: Weight, me: string, members: seq<string>, sm: ShardMap, s: int)
    requires IsShard(s)
  {
    sm[s] == me && Suggested(w, s, members) != me
  }

  predicate Increasing(xs: seq<int>) {
    forall i, j :: 0 <= i < j < |xs| ==> xs[i] < xs[j]
  }

  function ClaimsBelow(w: Weight, me: string, members: seq<string>, sm: ShardMap, k: nat): seq<int>
    requires k <= ShardCount
  {
    if k == 0 then [] else
      ClaimsBelow(w, me, members, sm, k - 1)
      + if MustClaim(w, me, members, sm, k - 1) then [k - 1] else []
  }

  function ReleasesBelow(w: Weight, me: string, members: seq<string>, sm: ShardMap, k: nat): seq<int>
    requires k <= ShardCount
  {
    if k == 0 then [] else
      ReleasesBelow(w, me, members, sm, k - 1)
      + if MustRelease(w, me, members, sm, k - 1) then [k - 1] else []
  }

  function Claims(w: Weight, me: string, members: seq<string>, sm: ShardMap): seq<int> {
    ClaimsBelow(w, me, members, sm, ShardCount)
  }

  function Releases(w: Weight, me: string, members: seq<string>, sm: ShardMap): seq<int> {
    ReleasesBelow(w, me, members, sm, ShardCount)
  }

  lemma {:induction false} ClaimsBelowExact(w: Weight, me: string, members: seq<string>, sm: ShardMap, k: nat)
    requires k <= ShardCount
    ensures Increasing(ClaimsBelow(w, me, members, sm, k))
    ensures forall s :: s in ClaimsBelow(w, me, members, sm, k) <==> 0 <= s < k && MustClaim(w, me, members, sm, s)
  {
    if k > 0 {
      ClaimsBelowExact(w, me, members, sm, k - 1);
      var init := ClaimsBelow(w, me, members, sm, k - 1);
      assert forall i :: 0 <= i < |init| ==> init[i] in init;
    }
  }

  lemma {:induction false} ReleasesBelowExact(w: Weight, me: string, members: seq<string>, sm: ShardMap, k: nat)
    requires k <= ShardCount
    ensures Increasing(ReleasesBelow(w, me, members, sm, k))
    ensures forall s :: s in ReleasesBelow(w, me, members, sm, k) <==> 0 <= s < k && MustRelease(w, me, members, sm, s)
  {
    if k > 0 {
      ReleasesBelowExact(w, me, members, sm, k - 1);
      var init := ReleasesBelow(w, me, members, sm, k - 1);
      assert forall i :: 0 <= i < |init| ==> init[i] in init;
    }
  }

  lemma ListsExact(w: Weight, me: string, members: seq<string>, sm: ShardMap)
    ensures Increasing(Claims(w, me, members, sm)) && Increasing(Releases(w, me, members, sm))
    ensures forall s :: s in Claims(w, me, members, sm) <==> IsShard(s) && MustClaim(w, me, members, sm, s)
    ensures forall s :: s in Releases(w, me, members, sm) <==> IsShard(s) && MustRelease(w, me, members, sm, s)
  {
    ClaimsBelowExact(w, me, members, sm, ShardCount);
    ReleasesBelowExact(w, me, members, sm, ShardCount);
  }

  method Reconcile(w: Weight, me: string, members: seq<string>, sm: ShardMap)
    returns (claim: seq<int>, release: seq<int>)
    ensures claim == Claims(w, me, members, sm) && release == Releases(w, me, members, sm)
    ensures Increasing(claim) && Increasing(release)
    ensures forall s :: s in claim <==> IsShard(s) && sm[s] == "" && Suggested(w, s, members) == me
    ensures forall s :: s in release <==> IsShard(s) && sm[s] == me && Suggested(w, s, members) != me
  {
    claim, release := [], [];
    for s := 0 to ShardCount
      invariant claim == ClaimsBelow(w, me, members, sm, s)
      invariant release == ReleasesBelow(w, me, members, sm, s)
    {
      var suggested := Rendezvous(w, s, members);
      var actual := sm[s];
      if actual == me && suggested != me {
        release := release + [s];
      } else if actual == "" && suggested == me {
        claim := claim + [s];
      }
    }
    ListsExact(w, me, members, sm);
  }

  /** Over a list of distinct non-empty members, the lists of all the members together assign each
      shard: an unowned shard is claimed by exactly one member, a shard held by the wrong member is
      released by exactly its holder, and nobody touches any other shard. */
  lemma ReconcilePartition(w: Weight, members: seq<string>, sm: ShardMap, s: int)
    requires NonEmptyIds(members) && members != [] && IsShard(s)
    ensures var t := Suggested(w, s, members);
            && t in members
            && (sm[s] == "" ==> forall m :: m in members ==> (s in Claims(w, m, members, sm) <==> m == t))
            && (sm[s] != "" ==> forall m :: m in members ==> s !in Claims(w, m, members, sm))
            && (sm[s] in members && sm[s] != t ==>
                  forall m :: m in members ==> (s in Releases(w, m, members, sm) <==> m == sm[s]))
            && (sm[s] !in members || sm[s] == t ==> forall m :: m in members ==> s !in Releases(w, m, members, sm))
  {
    SuggestedMember(w, s, members);
    forall m | m in members {
      ListsExact(w, m, members, sm);
    }
  }

  /** Shard s is on the claim list of some member. */
  ghost predicate Wanted(w: Weight, members: seq<string>, sm: ShardMap, s: int) {
    exists m :: m in members && s in Claims(w, m, members, sm)
  }

  /** A cold start: on an empty map the members' claims partition all the shards. */
  lemma ColdStartPartition(w: Weight, members: seq<string>, sm: ShardMap)
    requires NonEmptyIds(members) && members != []
    requires forall s :: IsShard(s) ==> sm[s] == ""
    ensures forall s :: 0 <= s < 256 ==> Wanted(w, members, sm, s)
    ensures forall m, m', s ::
              (m in members && m' in members && s in Claims(w, m, members, sm) && s in Claims(w, m', members, sm))
              ==> m == m'
    ensures forall m, s :: m in members && s in Claims(w, m, members, sm) ==> 0 <= s < 256
  {
    forall s | 0 <= s < 256 ensures Wanted(w, members, sm, s) {
      ReconcilePartition(w, members, sm, s);
    }
    forall m | m in members {
      ListsExact(w, m, members, sm);
    }
  }
}
