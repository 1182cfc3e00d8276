/** Failover locality: losing one member moves only that member's shards. */
module Failover {
  import opened Placement
  import opened Reconciling
  import opened Etcd
  import opened Protocol
  import opened Safety
  import opened Convergence

  ghost predicate AllRideTheirs(ms: seq<string>, sys: System) {
    forall n :: n in sys.nodes && n in ms ==> AllRide(sys.etcd, n, sys.nodes[n].lease)
  }

  lemma ConvergedRides(w: Weight, ms: seq<string>, sys: System)
    requires Converged(w, ms, sys)
    ensures AllRideTheirs(ms, sys)
  {
    forall n, s | n in sys.nodes && n in ms && Names(sys.etcd, s, n) ensures sys.etcd.shards[s].lease == sys.nodes[n].lease {
      assert ProcessInv(sys.now, sys.etcd, n, sys.nodes[n]) && MemberOk(w, ms, sys.etcd, n, sys.nodes[n]);
      assert KeyOk(sys.etcd, s);
    }
  }

  // -- The keys that are in place stay as they are --

  lemma PlacedKeysStay(w: Weight, ms: seq<string>, e: Store, n: string, nd: Node, call: Call, s: int)
    requires StoreOk(e) && Enabled(e, nd, call) && MemberOk(w, ms, e, n, nd) && NoneWrong(w, ms, e)
    requires NodeInv(e, n, nd) && if n in ms then AllRide(e, n, nd.lease) else forall x :: !Names(e, x, n)
    requires s in e.shards
    ensures var e' := NodeStep(w, e, n, nd, call, true).0; s in e'.shards && e'.shards[s] == e.shards[s]
  {
  }

  lemma StepRides(w: Weight, e: Store, n: string, nd: Node, call: Call)
    requires Enabled(e, nd, call) && AllRide(e, n, nd.lease)
    ensures var r := NodeStep(w, e, n, nd, call, true); AllRide(r.0, n, r.1.lease)
  {
  }

  /** Every key of `base` is still in place, unchanged. */
  ghost predicate Kept(base: map<int, OwnerInfo>, e: Store) {
    forall s :: s in base ==> s in e.shards && e.shards[s] == base[s]
  }

  /** What holds from the moment of the failure on. */
  ghost predicate Recovering(w: Weight, ms: seq<string>, base: map<int, OwnerInfo>, sys: System) {
    Regime(w, ms, sys) && NoneWrong(w, ms, sys.etcd) && AllRideTheirs(ms, sys) && Kept(base, sys.etcd)
  }

  lemma RoundKeepsKeys(w: Weight, ms: seq<string>, base: map<int, OwnerInfo>, sys: System, n: string, call: Call)
    requires Recovering(w, ms, base, sys) && n in sys.nodes && Enabled(sys.etcd, sys.nodes[n], call)
    ensures var r := NodeStep(w, sys.etcd, n, sys.nodes[n], call, true);
            && Kept(base, r.0)
            && (n in ms ==> AllRide(r.0, n, r.1.lease))
            && (forall m, s :: m != n && Names(r.0, s, m) ==> Names(sys.etcd, s, m) && r.0.shards[s] == sys.etcd.shards[s])
  {
    var e, nd := sys.etcd, sys.nodes[n];
    assert NodeInv(e, n, nd) && Granted(e, nd.lease, n) && n != "" && StoreOk(e);
    assert n !in ms ==> forall x :: !Names(e, x, n);
    hide Regime, StoreOk, NodeInv;
    var r := NodeStep(w, e, n, nd, call, true);
    if n in ms {
      StepRides(w, e, n, nd, call);
    }
    forall s | s in base ensures s in r.0.shards && r.0.shards[s] == base[s] {
      PlacedKeysStay(w, ms, e, n, nd, call, s);
    }
    hide NoneWrong, AllRideTheirs;
  }

  lemma RoundKeepsRides(w: Weight, ms: seq<string>, base: map<int, OwnerInfo>, sys: System, n: string, call: Call)
    requires Recovering(w, ms, base, sys)
    ensures var sys' := RoundStep(w, sys, n, call, true); AllRideTheirs(ms, sys') && Kept(base, sys'.etcd)
  {
    if n in sys.nodes && !sys.nodes[n].closed && Enabled(sys.etcd, sys.nodes[n], call) {
      RoundKeepsKeys(w, ms, base, sys, n, call);
      hide NodeStep, Regime, NoneWrong, Kept;
    }
  }

  lemma StepKeepsRides(w: Weight, ms: seq<string>, base: map<int, OwnerInfo>, sys: System, a: Action)
    requires Recovering(w, ms, base, sys) && Quiet(a)
    ensures AllRideTheirs(ms, Step(w, sys, a)) && Kept(base, Step(w, sys, a).etcd)
  {
    if a.Round? {
      RoundKeepsRides(w, ms, base, sys, a.n, a.call);
      hide Regime, NoneWrong, Recovering, AllRideTheirs, Kept;
    } else {
      AsideStep(w, sys, a);
      hide Regime, NoneWrong, Step;
    }
  }

  lemma StepRecovers(w: Weight, ms: seq<string>, base: map<int, OwnerInfo>, sys: System, a: Action)
    requires Recovering(w, ms, base, sys) && Quiet(a)
    ensures Recovering(w, ms, base, Step(w, sys, a))
  {
    hide Step, Regime, NoneWrong, AllRideTheirs, Kept;
    StepKeepsRegime(w, ms, sys, a);
    NoneWrongStable(w, ms, sys, a);
    StepKeepsRides(w, ms, base, sys, a);
  }

  lemma {:induction false} RunRecovers(w: Weight, ms: seq<string>, base: map<int, OwnerInfo>, sys: System, acts: seq<Action>)
    requires Recovering(w, ms, base, sys) && forall a :: a in acts ==> Quiet(a)
    ensures Recovering(w, ms, base, Run(w, sys, acts))
  {
    hide Recovering, Step, Quiet;
    if acts != [] {
      var k := |acts| - 1;
      assert acts[k] in acts && forall a :: a in acts[..k] ==> a in acts;
      RunRecovers(w, ms, base, sys, acts[..k]);
      StepRecovers(w, ms, base, Run(w, sys, acts[..k]), acts[k]);
    }
  }

  // -- The failure itself --

  /** A surviving owner stays the rendezvous owner over the survivors. */
  lemma SurvivorKeepsPlace(w: Weight, s: int, before: seq<string>, after: seq<string>, members: set<string>, x: string)
    requires Listing(before, members) && Listing(after, members - {x}) && after != []
    requires Suggested(w, s, before) != x
    ensures Suggested(w, s, after) == Suggested(w, s, before)
  {
    assert after[0] in after && after[0] in before;
    SuggestedMember(w, s, before);
    SuggestedMember(w, s, after);
    if Suggested(w, s, after) != Suggested(w, s, before) {
      MinimalReshuffle(w, s, before, after);
    }
  }

  /** What the expiry of member x's lease leaves behind. */
  lemma ExpiryEffect(e: Store, x: string)
    requires StoreOk(e) && x in e.members
    ensures var e' := DropLease(e, e.members[x]);
            && e'.members.Keys == e.members.Keys - {x}
            && (forall m :: m in e'.members ==> e'.members[m] == e.members[m])
            && e'.live.Keys == e.live.Keys - {e.members[x]}
            && (forall s :: s in e'.shards <==> s in e.shards && e.shards[s].lease != e.members[x])
            && (forall s :: s in e'.shards ==> e'.shards[s] == e.shards[s])
  {
  }

  lemma SurvivorOk(w: Weight, ms: seq<string>, after: seq<string>, sys: System, x: string, n: string)
    requires Converged(w, ms, sys) && x in ms && Listing(after, sys.etcd.members.Keys - {x}) && after != []
    requires n in sys.nodes
    ensures MemberOk(w, after, DropLease(sys.etcd, sys.etcd.members[x]), n, sys.nodes[n])
  {
    var e, nd := sys.etcd, sys.nodes[n];
    var e' := DropLease(e, e.members[x]);
    ExpiryEffect(e, x);
    assert MemberOk(w, ms, e, n, nd) && Registered(e, n, nd.lease) && Granted(e, nd.lease, n) && Granted(e, e.members[x], x);
    assert forall s :: Names(e, s, n) ==> KeyOk(e, s) && Suggested(w, s, ms) == n;
    forall s | IsShard(s) && Suggested(w, s, ms) != x ensures Suggested(w, s, after) == Suggested(w, s, ms) {
      SurvivorKeepsPlace(w, s, ms, after, e.members.Keys, x);
    }
    assert nd.pc.Applying? ==> ApplyInv(e, n, nd);
    hide Inv, StoreOk, Regime;
  }

  /** What the failure takes and leaves: the survivors' keys, on their leases and in place. */
  lemma FailureLeaves(w: Weight, ms: seq<string>, after: seq<string>, sys: System, x: string)
    requires Converged(w, ms, sys) && x in ms && Listing(after, sys.etcd.members.Keys - {x}) && after != []
    ensures var e' := DropLease(sys.etcd, sys.etcd.members[x]);
            && Listing(after, e'.members.Keys) && NoneWrong(w, after, e')
            && (forall s :: s in e'.shards ==> e'.shards[s].owner in after)
            && (forall s :: s in e'.shards ==> s in sys.etcd.shards && e'.shards[s] == sys.etcd.shards[s])
            && (forall s :: IsShard(s) && Suggested(w, s, ms) != x ==> s in e'.shards)
  {
    var e := sys.etcd;
    ExpiryEffect(e, x);
    forall s | IsShard(s) ensures Suggested(w, s, ms) in ms {
      SuggestedMember(w, s, ms);
    }
    forall s | IsShard(s) && Suggested(w, s, ms) != x ensures Suggested(w, s, after) == Suggested(w, s, ms) {
      SurvivorKeepsPlace(w, s, ms, after, e.members.Keys, x);
    }
    assert forall s :: s in e.shards ==> KeyOk(e, s);
    assert forall m :: m in ms ==> Granted(e, e.members[m], m);
    hide Inv, Regime, DropLease;
  }

  lemma SurvivorsRide(ms: seq<string>, after: seq<string>, sys: System, e': Store)
    requires AllRideTheirs(ms, sys) && forall n :: n in after ==> n in ms
    requires forall s :: s in e'.shards ==> s in sys.etcd.shards && e'.shards[s] == sys.etcd.shards[s]
    ensures AllRideTheirs(after, sys.(etcd := e'))
  {
  }

  lemma FailureStartsRecovery(w: Weight, ms: seq<string>, after: seq<string>, sys: System, x: string)
    requires Converged(w, ms, sys) && x in ms && Listing(after, sys.etcd.members.Keys - {x}) && after != []
    requires sys.etcd.live[sys.etcd.members[x]] <= sys.now
    ensures var sys' := Step(w, sys, Expire(sys.etcd.members[x])); Recovering(w, after, sys'.etcd.shards, sys')
    ensures forall s :: IsShard(s) && Suggested(w, s, ms) != x ==>
              var e' := Step(w, sys, Expire(sys.etcd.members[x])).etcd;
              s in e'.shards && e'.shards[s] == sys.etcd.shards[s]
  {
    var sys' := Step(w, sys, Expire(sys.etcd.members[x]));
    assert sys' == sys.(etcd := DropLease(sys.etcd, sys.etcd.members[x]));
    StepKeepsInv(w, sys, Expire(sys.etcd.members[x]));
    FailureLeaves(w, ms, after, sys, x);
    forall n | n in sys'.nodes ensures MemberOk(w, after, sys'.etcd, n, sys'.nodes[n]) {
      SurvivorOk(w, ms, after, sys, x, n);
    }
    hide Step, Inv, MemberOk, DropLease, NoneWrong, AllRideTheirs;
    assert forall n :: n in after ==> n in ms;
    ConvergedRides(w, ms, sys);
    SurvivorsRide(ms, after, sys, sys'.etcd);
  }

  /** Failover locality. When one member's lease expires and every survivor then completes one round,
      in any interleaving, the system has converged over the survivors, and every shard that a survivor
      owned has kept its owner, its term and its lease. */
  lemma FailoverLocality(w: Weight, ms: seq<string>, after: seq<string>, sys: System, x: string, acts: seq<Action>)
    requires Converged(w, ms, sys) && x in ms && Listing(after, sys.etcd.members.Keys - {x}) && after != []
    requires sys.etcd.live[sys.etcd.members[x]] <= sys.now
    requires forall a :: a in acts ==> Quiet(a)
    requires var failed := Step(w, sys, Expire(sys.etcd.members[x])); AllComplete(after, failed, Run(w, failed, acts))
    ensures var sys' := Run(w, Step(w, sys, Expire(sys.etcd.members[x])), acts);
            && Converged(w, after, sys')
            && (forall s :: IsShard(s) && Suggested(w, s, ms) != x ==>
                  s in sys'.etcd.shards && sys'.etcd.shards[s] == sys.etcd.shards[s])
  {
    FailureStartsRecovery(w, ms, after, sys, x);
    var failed := Step(w, sys, Expire(sys.etcd.members[x]));
    hide Step, Run, Regime, Quiet, Converged;
    RunRecovers(w, after, failed.etcd.shards, failed, acts);
    RoundsGather(w, after, failed, acts);
    PlacedOnLeases(w, after, Run(w, failed, acts));
  }
}
