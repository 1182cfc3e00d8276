/** What the ownership protocol promises: exclusive serving, fencing terms and rebinding, over every
    run from the empty store, with the exact boundary of each promise. */
module Serving {
  import opened Placement
  import opened Reconciling
  import opened Etcd
  import opened Protocol
  import opened Safety

  /** The stamp was taken within half the TTL of the grant or renewal it records. */
  predicate Timely(nd: Node) {
    nd.stamp - nd.granted <= LeaseWindow(nd.ttl)
  }

  /** Node n serves shard s on firm ground: the shard was loaded on the node's lease or successfully
      rebound to it, the lease was not revoked, and the stamp was timely. */
  ghost predicate Firm(sys: System, n: string, s: int)
    requires n in sys.nodes
  {
    s !in sys.nodes[n].suspect && sys.nodes[n].lease !in sys.etcd.revoked && Timely(sys.nodes[n])
  }

  /** The gate without the clock: while the lease lives, a shard the node would serve is its own key,
      also after rounds that aborted between a release and the reload. */
  lemma GateHolds(w: Weight, sys: System, n: string, s: int)
    requires Reachable(w, sys) && n in sys.nodes
    requires var nd := sys.nodes[n];
             nd.lease in sys.etcd.live && s in nd.owned && s !in nd.releasing && s !in nd.suspect
    ensures Holds(sys.etcd, s, n, sys.nodes[n].lease)
  {
    ReachableInv(w, sys);
  }

  /** A fresh, timely stamp means the lease still lives. */
  lemma FreshLeaseLives(w: Weight, sys: System, n: string)
    requires Reachable(w, sys) && n in sys.nodes
    requires var nd := sys.nodes[n];
             Fresh(sys.now, nd.stamp, LeaseWindow(nd.ttl)) && Timely(nd) && nd.lease !in sys.etcd.revoked
    ensures sys.nodes[n].lease in sys.etcd.live
  {
    ReachableInv(w, sys);
    assert TimeInv(sys.now, sys.etcd, sys.nodes[n]);
  }

  lemma ServingHoldsKey(w: Weight, sys: System, n: string, s: int)
    requires Reachable(w, sys) && Servable(sys, n, s) && Firm(sys, n, s)
    ensures Holds(sys.etcd, s, n, sys.nodes[n].lease)
  {
    FreshLeaseLives(w, sys, n);
    GateHolds(w, sys, n, s);
  }

  /** Exclusive serving: in every reachable state, two nodes on firm ground never serve the same shard.
      If two nodes do serve one shard, then one of them ignored a failed rebind, had its lease revoked,
      or recorded a renewal late. */
  lemma ExclusiveServing(w: Weight, sys: System, n: string, m: string, s: int)
    requires Reachable(w, sys) && n != m && Servable(sys, n, s) && Servable(sys, m, s)
    ensures !Firm(sys, n, s) || !Firm(sys, m, s)
  {
    if Firm(sys, n, s) && Firm(sys, m, s) {
      ServingHoldsKey(w, sys, n, s);
      ServingHoldsKey(w, sys, m, s);
    }
  }

  // -- The boundary of each condition --

  /** The window is exact: freshness stays inside the lease at all times if and only if the stamp was
      taken within half the TTL of the grant. */
  lemma WindowExact(stamp: nat, granted: nat, ttl: nat)
    requires stamp != 0 && ttl > 0
    ensures (forall now: nat :: Fresh(now, stamp, LeaseWindow(ttl)) ==> now < granted + LeaseTime(ttl))
            <==> stamp - granted <= LeaseWindow(ttl)
  {
    var last := stamp + LeaseWindow(ttl) - 1;
    assert Fresh(last, stamp, LeaseWindow(ttl));
  }

  /** The success flag the code ignores is exact: when no rebind of the round failed outright, the view
      the round installs names only held keys, except just those whose rebind was rejected. */
  lemma RebindFlagExact(w: Weight, sys: System, n: string, s: int)
    requires Reachable(w, sys) && n in sys.nodes
    requires var nd := sys.nodes[n];
             && !nd.closed && Enabled(sys.etcd, nd, Install) && nd.lease in sys.etcd.live
             && nd.pc.errored == {} && s in Cached(nd.pc.om, n) && s !in nd.pc.release
    ensures var sys' := Step(w, sys, Round(n, Install, true));
            && s in sys'.nodes[n].owned && s !in sys'.nodes[n].releasing
            && (Names(sys'.etcd, s, n) <==> s !in sys.nodes[n].pc.rejected)
  {
    ReachableInv(w, sys);
    var nd := sys.nodes[n];
    assert RebindInv(sys.etcd, n, nd);
    if s !in nd.pc.rejected {
      assert Secured(nd, n, s);
    }
  }

  /** Closing a node leaves it serving: until its stamp grows stale it answers for shards whose keys
      the revocation has just deleted. */
  lemma CloseLeavesServing(w: Weight, sys: System, n: string, s: int)
    requires Reachable(w, sys) && Servable(sys, n, s) && Firm(sys, n, s) && sys.nodes[n].pc.Idle?
    ensures var sys' := Step(w, sys, Close(n, true)); Servable(sys', n, s) && s !in sys'.etcd.shards
  {
    ServingHoldsKey(w, sys, n, s);
    ReachableInv(w, sys);
    assert KeyOk(sys.etcd, s);
  }

  /** Marking a shard closes the gate for that shard of that node, and for nothing else. */
  lemma MarkIsLocal(w: Weight, sys: System, n: string, x: int, m: string, s: int)
    requires n in sys.nodes
    ensures Servable(Step(w, sys, Mark(n, x)), m, s) <==> Servable(sys, m, s) && !(m == n && s == x)
  {
  }

  /** The rebind loop, exactly. A step of it writes the key of a shard if and only if it is that shard's
      turn, the shard was loaded as this node's on another lease and is not being released, the call goes
      through, the lease lives and the key still names the node; and then the key is the node's on its
      lease, with a new term. */
  lemma RebindExact(w: Weight, sys: System, n: string, ok: bool, s: int)
    requires Inv(sys) && n in sys.nodes && !sys.nodes[n].closed && Enabled(sys.etcd, sys.nodes[n], RebindNext)
    ensures var nd, e, e' := sys.nodes[n], sys.etcd, Step(w, sys, Round(n, RebindNext, ok)).etcd;
            var writes := && s == nd.pc.next && nd.pc.om[s].owner == n && nd.pc.om[s].lease != nd.lease
                          && s !in nd.pc.release && ok && nd.lease in e.live && Names(e, s, n);
            && (s in e'.shards <==> s in e.shards)
            && (s in e.shards ==> (e'.shards[s] != e.shards[s] <==> writes))
            && (writes ==> e'.shards[s] == OwnerInfo(n, e'.rev, nd.lease) && e.shards[s].term < e'.rev)
  {
    assert s in sys.etcd.shards ==> KeyOk(sys.etcd, s);
    assert LogOk(sys.etcd);
    hide Inv;
  }

  lemma RoundRevision(w: Weight, e: Store, n: string, nd: Node, call: Call, ok: bool)
    requires Enabled(e, nd, call) && forall s :: s in e.shards ==> e.shards[s].term <= e.rev
    ensures var e' := NodeStep(w, e, n, nd, call, ok).0;
            e'.members == e.members && e'.rev == e.rev + if e'.shards == e.shards then 0 else 1
  {
    var e' := NodeStep(w, e, n, nd, call, ok).0;
    if call.RebindNext? && e'.rev != e.rev {
      assert e'.shards[nd.pc.next] != e.shards[nd.pc.next];
    } else if call.ClaimNext? && e'.rev != e.rev {
      assert nd.pc.claim[0] in e'.shards && nd.pc.claim[0] !in e.shards;
    } else if call.ReleaseNext? && e'.rev != e.rev {
      assert nd.pc.todo[0] !in e'.shards && nd.pc.todo[0] in e.shards;
    }
  }

  ghost predicate RevisionFits(e: Store, e': Store, put: bool) {
    && (e'.shards != e.shards || e'.members != e.members ==> e'.rev == e.rev + 1)
    && (e'.shards == e.shards && e'.members == e.members && !put ==> e'.rev == e.rev)
  }

  lemma DropRevision(e: Store, l: nat)
    ensures RevisionFits(e, DropLease(e, l), false) && RevisionFits(e, Revoke(e, l), false)
  {
  }

  lemma SameRevision(e: Store)
    ensures RevisionFits(e, e, false)
  {
  }

  lemma RoundStepRevision(w: Weight, sys: System, n: string, call: Call, ok: bool)
    requires Inv(sys)
    ensures RevisionFits(sys.etcd, RoundStep(w, sys, n, call, ok).etcd, false)
  {
    assert forall s :: s in sys.etcd.shards ==> KeyOk(sys.etcd, s) && sys.etcd.shards[s].term <= sys.etcd.rev;
    hide Inv;
    if n in sys.nodes && !sys.nodes[n].closed && Enabled(sys.etcd, sys.nodes[n], call) {
      RoundRevision(w, sys.etcd, n, sys.nodes[n], call, ok);
      hide NodeStep;
    }
  }

  lemma ProcessRevision(sys: System, a: Action)
    requires a.RenewLease? || a.ReceiveAck? || a.Close? || a.Mark?
    ensures RevisionFits(sys.etcd, ProcessStep(sys, a).etcd, false)
  {
  }

  lemma JoinRevision(sys: System, a: Action)
    requires a.JoinGrant? || a.JoinPut? || a.JoinStart? || a.JoinRevoke?
    ensures RevisionFits(sys.etcd, JoinStep(sys, a).etcd, a.JoinPut?)
  {
  }

  /** Revisions: a step that changes ownership or member keys takes exactly one, and of the others only a
      member put, which may write what is already there, takes one. */
  lemma OneRevisionPerChange(w: Weight, sys: System, a: Action)
    requires Inv(sys)
    ensures var e, e' := sys.etcd, Step(w, sys, a).etcd;
            && (e'.shards != e.shards || e'.members != e.members ==> e'.rev == e.rev + 1)
            && (e'.shards == e.shards && e'.members == e.members && !a.JoinPut? ==> e'.rev == e.rev)
  {
    StepRevision(w, sys, a);
    hide Step, Inv;
  }

  lemma StepRevision(w: Weight, sys: System, a: Action)
    requires Inv(sys)
    ensures RevisionFits(sys.etcd, Step(w, sys, a).etcd, a.JoinPut?)
  {
    SameRevision(sys.etcd);
    hide Inv, RevisionFits;
    match a
    case Round(n, call, ok) => hide RoundStep; RoundStepRevision(w, sys, n, call, ok);
    case Tick(_) =>
    case Crash(_) =>
    case Expire(l) => hide Inv, DropLease; DropRevision(sys.etcd, l);
    case RevokeLease(l) => hide Inv, Revoke; DropRevision(sys.etcd, l);
    case RenewLease(_) => hide Inv, ProcessStep; ProcessRevision(sys, a);
    case ReceiveAck(_, _) => hide Inv, ProcessStep; ProcessRevision(sys, a);
    case Close(_, _) => hide Inv, ProcessStep; ProcessRevision(sys, a);
    case Mark(_, _) => hide Inv, ProcessStep; ProcessRevision(sys, a);
    case _ => hide Inv, JoinStep; JoinRevision(sys, a);
  }

  // -- Fencing terms --

  lemma RoundWrites(w: Weight, e: Store, n: string, nd: Node, call: Call, ok: bool, s: int)
    requires Enabled(e, nd, call)
    ensures var e' := NodeStep(w, e, n, nd, call, ok).0;
            && e.log <= e'.log
            && (s in e'.shards && !(s in e.shards && e'.shards[s] == e.shards[s]) ==> e'.shards[s].term == e.rev + 1)
  {
  }

  /** Whatever a step writes to a shard's key carries a term above every term ever used. */
  lemma WritesRaiseTerm(w: Weight, sys: System, a: Action, s: int)
    requires Inv(sys)
    ensures var e, e' := sys.etcd, Step(w, sys, a).etcd;
            && e.log <= e'.log
            && (s in e'.shards && !(s in e.shards && e'.shards[s] == e.shards[s]) ==>
                  forall h :: h in e.log ==> h.term < e'.shards[s].term)
  {
    assert LogOk(sys.etcd);
    hide Inv;
    if a.Round? && a.n in sys.nodes && !sys.nodes[a.n].closed && Enabled(sys.etcd, sys.nodes[a.n], a.call) {
      RoundWrites(w, sys.etcd, a.n, sys.nodes[a.n], a.call, a.ok, s);
      hide NodeStep;
    }
  }

  lemma {:induction false} LogGrows(w: Weight, sys: System, acts: seq<Action>)
    requires Inv(sys)
    ensures sys.etcd.log <= Run(w, sys, acts).etcd.log
  {
    hide Inv, Step;
    if acts != [] {
      var k := |acts| - 1;
      LogGrows(w, sys, acts[..k]);
      RunKeepsInv(w, sys, acts[..k]);
      WritesRaiseTerm(w, Run(w, sys, acts[..k]), acts[k], 0);
    }
  }

  /** The key is as it was, or carries a term above every term in `before`. */
  ghost predicate SameOrNewer(e: Store, s: int, before: set<Holding>, e': Store) {
    s in e'.shards ==>
      || (s in e.shards && e'.shards[s] == e.shards[s])
      || (forall h :: h in before ==> h.term < e'.shards[s].term)
  }

  lemma {:induction false} RunRaisesTerm(w: Weight, sys: System, acts: seq<Action>, s: int)
    requires Inv(sys)
    ensures SameOrNewer(sys.etcd, s, sys.etcd.log, Run(w, sys, acts).etcd)
  {
    hide Inv, Step;
    if acts != [] {
      var k := |acts| - 1;
      var mid := Run(w, sys, acts[..k]);
      RunRaisesTerm(w, sys, acts[..k], s);
      RunKeepsInv(w, sys, acts[..k]);
      LogGrows(w, sys, acts[..k]);
      WritesRaiseTerm(w, mid, acts[k], s);
    }
  }

  /** Terms over any run. At a later time a shard's key is the very same key, or its term is strictly
      above every term the shard has had, claims and rebinds alike; and a shard and a term have one
      owner, whenever the two were seen together. */
  lemma TermsIncrease(w: Weight, acts: seq<Action>, more: seq<Action>, s: int)
    ensures var early, late := Run(w, Init, acts).etcd, Run(w, Init, acts + more).etcd;
            && (s in early.shards && s in late.shards ==>
                  early.shards[s] == late.shards[s] || early.shards[s].term < late.shards[s].term)
            && (s in late.shards && (s !in early.shards || late.shards[s] != early.shards[s]) ==>
                  forall h :: h in early.log && h.shard == s ==> h.term < late.shards[s].term)
            && (forall h, h' :: h in early.log && h' in late.log && h.shard == h'.shard && h.term == h'.term ==>
                  h.owner == h'.owner)
  {
    var early, late := Run(w, Init, acts), Run(w, Init, acts + more);
    RunKeepsInv(w, Init, acts);
    RunKeepsInv(w, Init, acts + more);
    RunConcat(w, Init, acts, more);
    LogGrows(w, early, more);
    RunRaisesTerm(w, early, more, s);
    assert s in early.etcd.shards ==> KeyOk(early.etcd, s);
    assert LogOk(late.etcd);
    hide Run, Inv;
  }

  /** Fencing over any run: a term cached at some time never exceeds the term of the shard's key at any
      later time, reaches it only if the key names the very node that cached it, and is never cached
      for the same shard by another node. */
  lemma FencingTerms(w: Weight, acts: seq<Action>, more: seq<Action>, n: string, s: int)
    requires var early := Run(w, Init, acts); n in early.nodes && s in early.nodes[n].owned
    ensures var term, late := Run(w, Init, acts).nodes[n].owned[s], Run(w, Init, acts + more);
            && term > 0
            && (s in late.etcd.shards ==> term <= late.etcd.shards[s].term)
            && (s in late.etcd.shards && term == late.etcd.shards[s].term ==> late.etcd.shards[s].owner == n)
            && (forall m :: m in late.nodes && s in late.nodes[m].owned && late.nodes[m].owned[s] == term ==> m == n)
  {
    var early, late := Run(w, Init, acts), Run(w, Init, acts + more);
    RunKeepsInv(w, Init, acts);
    RunKeepsInv(w, Init, acts + more);
    RunConcat(w, Init, acts, more);
    LogGrows(w, early, more);
    hide Run;
    assert ProcessInv(early.now, early.etcd, n, early.nodes[n]);
    var h := Holding(s, early.nodes[n].owned[s], n);
    assert h in late.etcd.log;
    assert s in late.etcd.shards ==> KeyOk(late.etcd, s);
    forall m | m in late.nodes && s in late.nodes[m].owned && late.nodes[m].owned[s] == h.term ensures m == n {
      assert ProcessInv(late.now, late.etcd, m, late.nodes[m]);
      assert Holding(s, h.term, m) in late.etcd.log;
    }
  }

  // -- Rebinding --

  /** Once a round of this process has run without a failed call, every key naming the node rides its
      current lease, so the end of any other lease takes none of them. */
  lemma CleanRoundBinds(w: Weight, sys: System, n: string, l: nat)
    requires Reachable(w, sys) && n in sys.nodes && sys.nodes[n].bound && l != sys.nodes[n].lease
    ensures AllRide(sys.etcd, n, sys.nodes[n].lease)
    ensures forall s :: Names(sys.etcd, s, n) ==>
              && Names(DropLease(sys.etcd, l), s, n) && DropLease(sys.etcd, l).shards[s] == sys.etcd.shards[s]
              && Names(Revoke(sys.etcd, l), s, n) && Revoke(sys.etcd, l).shards[s] == sys.etcd.shards[s]
  {
    ReachableInv(w, sys);
    assert ProcessInv(sys.now, sys.etcd, n, sys.nodes[n]);
  }

  /** The round that makes it so: every call succeeded, and the view is installed. */
  lemma CleanInstallBinds(w: Weight, sys: System, n: string)
    requires Reachable(w, sys) && n in sys.nodes && !sys.nodes[n].closed
    requires Enabled(sys.etcd, sys.nodes[n], Install) && sys.nodes[n].pc.clean
    ensures var sys' := Step(w, sys, Round(n, Install, true));
            sys'.nodes[n].bound && AllRide(sys'.etcd, n, sys'.nodes[n].lease)
  {
    ReachableInv(w, sys);
    assert RebindInv(sys.etcd, n, sys.nodes[n]);
  }

  /** No step of the rebind loop changes who owns a shard. */
  lemma RebindKeepsOwners(w: Weight, sys: System, n: string, ok: bool, s: int)
    ensures var e, e' := sys.etcd, Step(w, sys, Round(n, RebindNext, ok)).etcd;
            (s in e.shards <==> s in e'.shards) && (s in e.shards ==> e.shards[s].owner == e'.shards[s].owner)
  {
  }
}
