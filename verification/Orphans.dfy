/** No orphaned owners: when does every ownership key name a registered member? */
module Orphans {
  import opened Placement
  import opened Reconciling
  import opened Etcd
  import opened Protocol
  import opened Safety
  import opened Serving

  ghost predicate NoOrphans(e: Store) {
    forall s :: s in e.shards ==> e.shards[s].owner in e.members
  }

  /** Every key rides the lease its owner is registered under, so both go together. */
  ghost predicate Coupled(e: Store) {
    forall s :: s in e.shards ==> e.shards[s].owner in e.members && e.members[e.shards[s].owner] == e.shards[s].lease
  }

  ghost predicate Unrepeated(grants: seq<string>) {
    forall i, j :: 0 <= i < j < |grants| ==> grants[i] != grants[j]
  }

  lemma RoundKeepsCoupled(w: Weight, e: Store, n: string, nd: Node, call: Call, ok: bool)
    requires Enabled(e, nd, call) && Registered(e, n, nd.lease) && Coupled(e)
    ensures Coupled(NodeStep(w, e, n, nd, call, ok).0)
  {
  }

  lemma DropKeepsCoupled(e: Store, l: nat)
    requires Coupled(e)
    ensures Coupled(DropLease(e, l)) && Coupled(Revoke(e, l))
  {
  }

  lemma JoinKeepsCoupled(sys: System, a: Action)
    requires Coupled(sys.etcd) && (a.JoinGrant? || a.JoinPut? || a.JoinStart? || a.JoinRevoke?)
    requires a.JoinPut? ==> forall s :: !Names(sys.etcd, s, a.n)
    ensures Coupled(JoinStep(sys, a).etcd)
  {
    assert a.JoinPut? ==> forall s :: s in sys.etcd.shards ==> !Names(sys.etcd, s, a.n) && sys.etcd.shards[s].owner != a.n;
    if a.JoinRevoke? && a.n in sys.joins {
      DropKeepsCoupled(sys.etcd, sys.joins[a.n].lease);
      hide DropLease;
    }
  }

  /** Every step keeps keys and registrations together, except that a node registers again while keys
      still name it. */
  lemma StepKeepsCoupled(w: Weight, sys: System, a: Action)
    requires Inv(sys) && Coupled(sys.etcd)
    requires a.JoinPut? ==> forall s :: !Names(sys.etcd, s, a.n)
    ensures Coupled(Step(w, sys, a).etcd)
  {
    if a.Round? {
      if a.n in sys.nodes && !sys.nodes[a.n].closed && Enabled(sys.etcd, sys.nodes[a.n], a.call) {
        assert ProcessInv(sys.now, sys.etcd, a.n, sys.nodes[a.n]);
        RoundKeepsCoupled(w, sys.etcd, a.n, sys.nodes[a.n], a.call, a.ok);
        hide NodeStep, Inv;
      }
    } else {
      hide Inv, Coupled, DropLease;
      match a
      case Expire(l) => DropKeepsCoupled(sys.etcd, l);
      case RevokeLease(l) => DropKeepsCoupled(sys.etcd, l);
      case Close(n, ok) => if n in sys.nodes { DropKeepsCoupled(sys.etcd, sys.nodes[n].lease); }
      case RenewLease(n) =>
        if n in sys.nodes {
          RenewKeepsCoupled(sys.etcd, sys.nodes[n].lease, sys.now + LeaseTime(sys.nodes[n].ttl));
        }
      case Tick(_) =>
      case ReceiveAck(_, _) =>
      case Mark(_, _) =>
      case Crash(_) =>
      case _ => JoinKeepsCoupled(sys, a);
    }
  }

  lemma RenewKeepsCoupled(e: Store, l: nat, expiry: nat)
    requires Coupled(e)
    ensures Coupled(Renew(e, l, expiry))
  {
  }

  /** The lease of a join still under way carries no key, so with one lease per id no key names it. */
  lemma NewcomerHasNoKey(sys: System, n: string)
    requires Inv(sys) && n in sys.joins && Unrepeated(sys.etcd.grants)
    ensures forall s :: !Names(sys.etcd, s, n)
  {
  }

  lemma GrantsGrow(w: Weight, sys: System, a: Action)
    ensures sys.etcd.grants <= Step(w, sys, a).etcd.grants
  {
  }

  /** Step a registers its node: the member put goes through. */
  predicate Registers(sys: System, a: Action) {
    && a.JoinPut? && a.ok && a.n in sys.joins
    && var j := sys.joins[a.n]; !j.registered && !j.failed && j.lease in sys.etcd.live
  }

  /** If step a registers a node, no key names that node. */
  ghost predicate CleanStep(sys: System, a: Action) {
    Registers(sys, a) ==> forall s :: !Names(sys.etcd, s, a.n)
  }

  /** One step, exactly: keys and registrations stay together if and only if no node registers while keys
      name it. */
  lemma StepCoupledExact(w: Weight, sys: System, a: Action)
    requires Inv(sys) && Coupled(sys.etcd)
    ensures Coupled(Step(w, sys, a).etcd) <==> CleanStep(sys, a)
  {
    if Registers(sys, a) {
      RegisterExact(sys, a.n);
    } else if a.JoinPut? {
      IdlePut(w, sys, a);
    } else {
      StepKeepsCoupled(w, sys, a);
    }
  }

  lemma IdlePut(w: Weight, sys: System, a: Action)
    requires a.JoinPut? && !Registers(sys, a)
    ensures Step(w, sys, a).etcd == sys.etcd
  {
  }

  /** A registration under a new lease parts the node from the keys that name it, and from no other. */
  lemma RegisterExact(sys: System, n: string)
    requires Inv(sys) && Coupled(sys.etcd) && Registers(sys, JoinPut(n, true))
    ensures Coupled(JoinStep(sys, JoinPut(n, true)).etcd) <==> forall s :: !Names(sys.etcd, s, n)
  {
    var e, l := sys.etcd, sys.joins[n].lease;
    assert JoinInv(sys.now, e, n, sys.joins[n]);
    var e' := JoinStep(sys, JoinPut(n, true)).etcd;
    assert e'.shards == e.shards && e'.members == e.members[n := l];
    hide Inv, JoinStep;
    if s :| Names(e, s, n) {
      assert e'.shards[s].lease != l;
    } else {
      assert forall s :: s in e.shards ==> !Names(e, s, n);
    }
  }

  /** Coupling is what keeps owners registered: it holds exactly when no lease is left whose end would
      orphan a shard. */
  lemma CoupledExact(e: Store)
    requires StoreOk(e)
    ensures Coupled(e) <==> NoOrphans(e) && forall l :: NoOrphans(Revoke(e, l))
  {
    if Coupled(e) {
      forall l ensures NoOrphans(Revoke(e, l)) {
        DropKeepsCoupled(e, l);
      }
    } else if NoOrphans(e) {
      var s :| s in e.shards && e.members[e.shards[s].owner] != e.shards[s].lease;
      var l := e.members[e.shards[s].owner];
      var e' := Revoke(e, l);
      assert s in e'.shards && e'.shards[s].owner !in e'.members;
    }
  }

  /** At no time of the run is a shard orphaned, nor could the end of any one lease orphan one. */
  ghost predicate NeverAtRisk(w: Weight, acts: seq<Action>) {
    forall k :: 0 <= k <= |acts| ==>
      && NoOrphans(Run(w, Init, acts[..k]).etcd)
      && forall l :: NoOrphans(Revoke(Run(w, Init, acts[..k]).etcd, l))
  }

  ghost predicate CleanRun(w: Weight, acts: seq<Action>) {
    forall k :: 0 <= k < |acts| ==> CleanStep(Run(w, Init, acts[..k]), acts[k])
  }

  ghost predicate AlwaysCoupled(w: Weight, acts: seq<Action>) {
    forall k :: 0 <= k <= |acts| ==> Coupled(Run(w, Init, acts[..k]).etcd)
  }

  lemma CoupledPrefix(w: Weight, acts: seq<Action>, a: Action)
    ensures AlwaysCoupled(w, acts + [a]) <==> AlwaysCoupled(w, acts) && Coupled(Run(w, Init, acts + [a]).etcd)
  {
    hide Coupled, Run;
    var all := acts + [a];
    assert all[..|all|] == all;
    assert forall k :: 0 <= k <= |acts| ==> all[..k] == acts[..k];
  }

  lemma CleanPrefix(w: Weight, acts: seq<Action>, a: Action)
    ensures CleanRun(w, acts + [a]) <==> CleanRun(w, acts) && CleanStep(Run(w, Init, acts), a)
  {
    hide CleanStep, Run;
    var all := acts + [a];
    assert all[..|acts|] == acts && all[|acts|] == a;
    assert forall k :: 0 <= k < |acts| ==> all[..k] == acts[..k] && all[k] == acts[k];
  }

  lemma CoupledNow(w: Weight, acts: seq<Action>)
    ensures AlwaysCoupled(w, acts) ==> Coupled(Run(w, Init, acts).etcd)
  {
    hide Coupled, Run;
    assert acts[..|acts|] == acts;
  }

  lemma NothingRun(w: Weight)
    ensures AlwaysCoupled(w, []) && CleanRun(w, [])
  {
  }

  lemma {:induction false} AlwaysCoupledExact(w: Weight, acts: seq<Action>)
    ensures AlwaysCoupled(w, acts) <==> CleanRun(w, acts)
  {
    hide AlwaysCoupled, CleanRun, Coupled, CleanStep, Run, Step, Inv;
    if acts == [] {
      NothingRun(w);
    } else {
      var init, a := acts[..|acts| - 1], acts[|acts| - 1];
      assert acts == init + [a];
      RunSnoc(w, Init, init, a);
      AlwaysCoupledExact(w, init);
      CoupledPrefix(w, init, a);
      CleanPrefix(w, init, a);
      CoupledNow(w, init);
      if AlwaysCoupled(w, init) {
        InvReached(w, init);
        StepCoupledExact(w, Run(w, Init, init), a);
      }
    }
  }

  lemma InvReached(w: Weight, acts: seq<Action>)
    ensures Inv(Run(w, Init, acts))
  {
    RunKeepsInv(w, Init, acts);
  }

  /** No orphaned owners, exactly. Over any run, through joins, failed joins, claims, releases, expiry,
      close and crash, no shard is ever orphaned or one lease away from it if and only if every
      registration that went through found no key naming its node. */
  lemma NoOrphansExact(w: Weight, acts: seq<Action>)
    ensures NeverAtRisk(w, acts) <==> CleanRun(w, acts)
  {
    AlwaysCoupledExact(w, acts);
    hide CleanRun, NoOrphans, Coupled;
    forall k | 0 <= k <= |acts|
      ensures Coupled(Run(w, Init, acts[..k]).etcd) <==>
                && NoOrphans(Run(w, Init, acts[..k]).etcd)
                && forall l :: NoOrphans(Revoke(Run(w, Init, acts[..k]).etcd, l))
    {
      RunKeepsInv(w, Init, acts[..k]);
      hide Run, Step;
      CoupledExact(Run(w, Init, acts[..k]).etcd);
    }
  }

  /** In particular a run in which no id is granted a second lease is clean. */
  lemma {:induction false} OneLeaseNoOrphans(w: Weight, acts: seq<Action>)
    requires Unrepeated(Run(w, Init, acts).etcd.grants)
    ensures CleanRun(w, acts) && NeverAtRisk(w, acts) && NoOrphans(Run(w, Init, acts).etcd)
  {
    OneLeaseClean(w, acts);
    NoOrphansExact(w, acts);
    assert acts[..|acts|] == acts;
  }

  lemma {:induction false} OneLeaseClean(w: Weight, acts: seq<Action>)
    requires Unrepeated(Run(w, Init, acts).etcd.grants)
    ensures CleanRun(w, acts)
  {
    hide CleanRun, Run, Step, Inv;
    if acts == [] {
      NothingRun(w);
    } else {
      var init, a := acts[..|acts| - 1], acts[|acts| - 1];
      var sys := Run(w, Init, init);
      assert acts == init + [a];
      RunSnoc(w, Init, init, a);
      GrantsGrow(w, sys, a);
      OneLeaseClean(w, init);
      CleanPrefix(w, init, a);
      InvReached(w, init);
      if Registers(sys, a) {
        NewcomerHasNoKey(sys, a.n);
      }
    }
  }

  /** Registering n under l and ending l leaves the keys as they were and n unregistered. */
  lemma EndOfNewLease(e: Store, n: string, l: nat)
    requires l in e.live && (forall s :: s in e.shards ==> e.shards[s].lease != l)
    requires forall m :: m in e.members && m != n ==> e.members[m] != l
    ensures var e' := Revoke(PutMember(e, n, l).0, l); e'.shards == e.shards && e'.members.Keys == e.members.Keys - {n}
  {
    var mid := PutMember(e, n, l).0;
    var kept := DropLease(mid, l).shards;
    assert forall s :: s in kept <==> s in e.shards;
    assert forall s :: s in kept ==> kept[s] == e.shards[s];
    assert kept == e.shards;
  }

  /** The boundary is exact: after a node registers under a new lease, the end of that lease orphans no
      shard if and only if no key named the node when it registered. */
  lemma ReRegisterExact(w: Weight, sys: System, n: string)
    requires Inv(sys) && Coupled(sys.etcd) && n in sys.joins
    requires var j := sys.joins[n]; !j.registered && !j.failed && j.lease in sys.etcd.live
    ensures var ended := Step(w, Step(w, sys, JoinPut(n, true)), RevokeLease(sys.joins[n].lease));
            NoOrphans(ended.etcd) <==> forall s :: !Names(sys.etcd, s, n)
  {
    var e, l := sys.etcd, sys.joins[n].lease;
    assert JoinInv(sys.now, e, n, sys.joins[n]);
    assert forall m :: m in e.members && m != n ==> e.members[m] != l;
    EndOfNewLease(e, n, l);
    var ended := Step(w, Step(w, sys, JoinPut(n, true)), RevokeLease(l));
    assert ended.etcd == Revoke(PutMember(e, n, l).0, l);
    hide Inv, Step, Revoke, PutMember;
    assert forall s :: s in e.shards ==> (Names(e, s, n) <==> e.shards[s].owner == n);
    if s :| Names(e, s, n) {
      assert s in ended.etcd.shards;
    } else {
      assert forall s :: s in e.shards ==> !Names(e, s, n);
    }
  }
}
