/** Convergence: with membership fixed and calls succeeding, two rounds of every member, in any
    interleaving, put every shard at its rendezvous owner. */
module Convergence {
  import opened Strings
  import opened Placement
  import opened Reconciling
  import opened Etcd
  import opened Protocol
  import opened Safety

  function OwnerAt(e: Store, s: int): string {
    if s in e.shards then e.shards[s].owner else ""
  }

  /** What node n still has to do fits the placement over `ms`. A round begun under another
      membership is allowed as long as what it can still do fits. */
  ghost predicate PcOk(w: Weight, ms: seq<string>, e: Store, n: string, pc: PC) {
    match pc
    case Listed(seen) =>
      forall s :: IsShard(s) ==>
        && (Suggested(w, s, seen) == n ==> Suggested(w, s, ms) == n)
        && (Names(e, s, n) && Suggested(w, s, seen) != n ==> Suggested(w, s, ms) != n)
    case Applying(claim, todo, _, _, _) =>
      && (forall s :: s in claim ==> Suggested(w, s, ms) == n)
      && (forall s :: s in todo && Suggested(w, s, ms) == n ==> s !in claim && !Names(e, s, n))
    case _ => true
  }

  ghost predicate MemberOk(w: Weight, ms: seq<string>, e: Store, n: string, nd: Node) {
    if n in ms then nd.lease in e.live && PcOk(w, ms, e, n, nd.pc) else nd.lease !in e.live
  }

  /** Membership `ms` is in force: every owner is one of the members and every running member's lease
      lives. A process whose lease is gone may still be running. */
  ghost predicate Regime(w: Weight, ms: seq<string>, sys: System) {
    && Inv(sys)
    && ms != [] && Listing(ms, sys.etcd.members.Keys)
    && (forall s :: s in sys.etcd.shards ==> sys.etcd.shards[s].owner in ms)
    && (forall n :: n in sys.nodes ==> MemberOk(w, ms, sys.etcd, n, sys.nodes[n]))
  }

  /** Every shard is at its rendezvous owner, on the lease that owner is registered under. */
  ghost predicate Converged(w: Weight, ms: seq<string>, sys: System) {
    && Regime(w, ms, sys)
    && (forall s :: IsShard(s) ==>
          s in sys.etcd.shards && sys.etcd.shards[s].owner == Suggested(w, s, ms)
          && sys.etcd.shards[s].lease == sys.etcd.members[Suggested(w, s, ms)])
  }

  /** Steps in which membership is fixed and calls succeed. */
  predicate Quiet(a: Action) {
    a.Tick? || a.RenewLease? || a.ReceiveAck? || a.Mark? || (a.Round? && a.ok)
  }

  /** A shard only moves towards its rendezvous owner: from nobody to it, or from a wrong owner to
      nobody. */
  ghost predicate Moves(w: Weight, ms: seq<string>, e: Store, e': Store, s: int) {
    var t, o, o' := Suggested(w, s, ms), OwnerAt(e, s), OwnerAt(e', s);
    o' == o || (o == "" && o' == t) || (o != "" && o != t && o' == "")
  }

  lemma RoundMoves(w: Weight, ms: seq<string>, e: Store, n: string, nd: Node, call: Call, s: int)
    requires StoreOk(e) && Enabled(e, nd, call) && n != ""
    requires MemberOk(w, ms, e, n, nd) && (n !in ms ==> forall x :: !Names(e, x, n))
    ensures Moves(w, ms, e, NodeStep(w, e, n, nd, call, true).0, s)
  {
  }

  lemma RoundKeepsPcOk(w: Weight, ms: seq<string>, e: Store, n: string, nd: Node, call: Call)
    requires StoreOk(e) && Enabled(e, nd, call) && n != "" && Listing(ms, e.members.Keys)
    requires PcOk(w, ms, e, n, nd.pc)
    ensures var r := NodeStep(w, e, n, nd, call, true); PcOk(w, ms, r.0, n, r.1.pc)
  {
    if call.ListMembers? {
      forall s | IsShard(s) ensures Suggested(w, s, call.members) == Suggested(w, s, ms) {
        ListingDeterminesOwner(w, s, call.members, ms, e.members.Keys);
      }
    } else if call.LoadMap? {
      ListsExact(w, n, nd.pc.members, LoadShardMap(e));
    }
  }

  lemma OthersKeepPcOk(w: Weight, ms: seq<string>, e: Store, e': Store, m: string, pc: PC)
    requires PcOk(w, ms, e, m, pc) && forall s :: Names(e', s, m) ==> Names(e, s, m)
    ensures PcOk(w, ms, e', m, pc)
  {
  }

  /** One member moved, taking shards only towards their owners. */
  lemma MemberMoved(w: Weight, ms: seq<string>, sys: System, n: string, e': Store, nd': Node)
    requires Regime(w, ms, sys) && n in sys.nodes
    requires Inv(sys.(etcd := e', nodes := sys.nodes[n := nd']))
    requires e'.live == sys.etcd.live && e'.members == sys.etcd.members
    requires MemberOk(w, ms, e', n, nd')
    requires forall s :: Moves(w, ms, sys.etcd, e', s)
    requires forall m, s :: m != n && Names(e', s, m) ==> Names(sys.etcd, s, m)
    ensures Regime(w, ms, sys.(etcd := e', nodes := sys.nodes[n := nd']))
  {
    assert forall s :: s in e'.shards ==> KeyOk(e', s) && e'.shards[s].owner != "";
    hide Inv;
    forall s | s in e'.shards ensures e'.shards[s].owner in ms {
      assert Moves(w, ms, sys.etcd, e', s);
      SuggestedMember(w, s, ms);
    }
    forall m | m in sys.nodes && m != n ensures MemberOk(w, ms, e', m, sys.nodes[m]) {
      if m in ms {
        OthersKeepPcOk(w, ms, sys.etcd, e', m, sys.nodes[m].pc);
      }
    }
  }

  /** One successful call of a running node, and what it means for the membership in force. */
  lemma RoundFits(w: Weight, ms: seq<string>, sys: System, n: string, call: Call)
    requires Regime(w, ms, sys) && n in sys.nodes && Enabled(sys.etcd, sys.nodes[n], call)
    ensures var r := NodeStep(w, sys.etcd, n, sys.nodes[n], call, true);
            && r.0.live == sys.etcd.live && r.0.members == sys.etcd.members
            && MemberOk(w, ms, r.0, n, r.1)
            && (forall s :: Moves(w, ms, sys.etcd, r.0, s))
            && (forall m, s :: m != n && Names(r.0, s, m) ==> Names(sys.etcd, s, m))
  {
    var e, nd := sys.etcd, sys.nodes[n];
    assert Granted(e, nd.lease, n) && n != "" && StoreOk(e);
    assert n !in ms ==> forall x :: !Names(e, x, n);
    hide Inv, StoreOk;
    NodeStepFrame(w, e, n, nd, call, true);
    if n in ms {
      RoundKeepsPcOk(w, ms, e, n, nd, call);
    }
    forall s {
      RoundMoves(w, ms, e, n, nd, call, s);
    }
    forall m | m != n {
      NodeStepCalm(w, e, n, nd, call, true, m, 0);
    }
    hide NodeStep;
  }

  lemma RoundKeepsRegime(w: Weight, ms: seq<string>, sys: System, n: string, call: Call)
    requires Regime(w, ms, sys)
    ensures Regime(w, ms, RoundStep(w, sys, n, call, true))
    ensures forall s :: Moves(w, ms, sys.etcd, RoundStep(w, sys, n, call, true).etcd, s)
  {
    if n in sys.nodes && !sys.nodes[n].closed && Enabled(sys.etcd, sys.nodes[n], call) {
      RoundKeepsInv(w, sys, n, call, true);
      RoundFits(w, ms, sys, n, call);
      hide Inv, NodeStep, MemberOk, Moves;
      var r := NodeStep(w, sys.etcd, n, sys.nodes[n], call, true);
      MemberMoved(w, ms, sys, n, r.0, r.1);
    }
  }

  /** A step that leaves the leases and keys alone and every process at its place in the round. */
  ghost predicate Aside(sys: System, sys': System) {
    && sys'.etcd.shards == sys.etcd.shards && sys'.etcd.members == sys.etcd.members
    && sys'.etcd.live.Keys == sys.etcd.live.Keys
    && sys'.nodes.Keys == sys.nodes.Keys
    && (forall n :: n in sys.nodes ==>
          && sys'.nodes[n].lease == sys.nodes[n].lease && sys'.nodes[n].pc == sys.nodes[n].pc
          && sys'.nodes[n].done == sys.nodes[n].done)
  }

  lemma AsideStep(w: Weight, sys: System, a: Action)
    requires Quiet(a) && !a.Round?
    ensures Aside(sys, Step(w, sys, a))
  {
  }

  lemma AsideKeepsRegime(w: Weight, ms: seq<string>, sys: System, sys': System)
    requires Regime(w, ms, sys) && Inv(sys') && Aside(sys, sys')
    ensures Regime(w, ms, sys') && forall s :: Moves(w, ms, sys.etcd, sys'.etcd, s)
  {
    hide Inv;
    forall n | n in sys.nodes ensures MemberOk(w, ms, sys'.etcd, n, sys'.nodes[n]) {
      if n in ms {
        OthersKeepPcOk(w, ms, sys.etcd, sys'.etcd, n, sys.nodes[n].pc);
      }
    }
  }

  /** In force, membership stays in force, and no step moves a shard away from its owner. */
  lemma StepKeepsRegime(w: Weight, ms: seq<string>, sys: System, a: Action)
    requires Regime(w, ms, sys) && Quiet(a)
    ensures Regime(w, ms, Step(w, sys, a))
    ensures forall s :: Moves(w, ms, sys.etcd, Step(w, sys, a).etcd, s)
  {
    if a.Round? {
      RoundKeepsRegime(w, ms, sys, a.n, a.call);
    } else {
      StepKeepsInv(w, sys, a);
      AsideStep(w, sys, a);
      hide Inv, Step, Aside;
      AsideKeepsRegime(w, ms, sys, Step(w, sys, a));
    }
    hide Regime, Moves;
  }

  // -- Rounds in flight when the membership came into force --

  /** Membership `ms` is in force, whatever the rounds in flight still have in mind. */
  ghost predicate InForce(ms: seq<string>, sys: System) {
    && Inv(sys)
    && ms != [] && Listing(ms, sys.etcd.members.Keys)
    && (forall s :: s in sys.etcd.shards ==> sys.etcd.shards[s].owner in ms)
    && (forall n :: n in sys.nodes ==> (n in ms <==> sys.nodes[n].lease in sys.etcd.live))
  }

  lemma RoundOwners(w: Weight, e: Store, n: string, nd: Node, call: Call, s: int)
    requires Enabled(e, nd, call)
    ensures var e' := NodeStep(w, e, n, nd, call, true).0;
            s in e'.shards ==>
              (s in e.shards && e'.shards[s].owner == e.shards[s].owner) || (e'.shards[s].owner == n && nd.lease in e.live)
  {
  }

  lemma RoundKeepsOwners(w: Weight, e: Store, n: string, nd: Node, call: Call, ms: seq<string>)
    requires Enabled(e, nd, call) && (nd.lease in e.live ==> n in ms)
    requires forall s :: s in e.shards ==> e.shards[s].owner in ms
    ensures var r := NodeStep(w, e, n, nd, call, true);
            && r.0.live == e.live && r.0.members == e.members && r.1.lease == nd.lease
            && (forall s :: s in r.0.shards ==> r.0.shards[s].owner in ms)
  {
    NodeStepFrame(w, e, n, nd, call, true);
    forall s {
      RoundOwners(w, e, n, nd, call, s);
    }
    hide NodeStep;
  }

  lemma AsideKeepsInForce(ms: seq<string>, sys: System, sys': System)
    requires InForce(ms, sys) && Inv(sys') && Aside(sys, sys')
    ensures InForce(ms, sys')
  {
    hide Inv;
  }

  lemma RoundKeepsInForce(w: Weight, ms: seq<string>, sys: System, n: string, call: Call)
    requires InForce(ms, sys) && Inv(RoundStep(w, sys, n, call, true))
    ensures InForce(ms, RoundStep(w, sys, n, call, true)) && RoundStep(w, sys, n, call, true).nodes.Keys == sys.nodes.Keys
  {
    hide Inv;
    if n in sys.nodes && !sys.nodes[n].closed && Enabled(sys.etcd, sys.nodes[n], call) {
      RoundKeepsOwners(w, sys.etcd, n, sys.nodes[n], call, ms);
      hide NodeStep, Listing;
    }
  }

  lemma InForceInv(ms: seq<string>, sys: System)
    requires InForce(ms, sys)
    ensures Inv(sys) && StoreOk(sys.etcd) && Listing(ms, sys.etcd.members.Keys) && "" !in sys.nodes
  {
    assert forall n :: n in sys.nodes ==> Granted(sys.etcd, sys.nodes[n].lease, n);
  }

  lemma RoundIsStep(w: Weight, sys: System, a: Action)
    requires a.Round?
    ensures Step(w, sys, a) == RoundStep(w, sys, a.n, a.call, a.ok)
  {
  }

  lemma StepKeepsInForce(w: Weight, ms: seq<string>, sys: System, a: Action)
    requires InForce(ms, sys) && Quiet(a)
    ensures InForce(ms, Step(w, sys, a)) && Step(w, sys, a).nodes.Keys == sys.nodes.Keys
  {
    hide Inv, InForce, Step, RoundStep, StoreOk, Listing;
    InForceInv(ms, sys);
    StepKeepsInv(w, sys, a);
    if a.Round? {
      RoundIsStep(w, sys, a);
      RoundKeepsInForce(w, ms, sys, a.n, a.call);
    } else {
      AsideStep(w, sys, a);
      AsideKeepsInForce(ms, sys, Step(w, sys, a));
    }
  }

  /** From its d-th completed round on, what node n is about to do fits the membership. */
  ghost predicate Fits(w: Weight, ms: seq<string>, e: Store, n: string, nd: Node, d: nat) {
    nd.done >= d ==> PcOk(w, ms, e, n, nd.pc)
  }

  lemma StepFits(w: Weight, ms: seq<string>, sys: System, a: Action, n: string, d: nat)
    requires InForce(ms, sys) && Quiet(a) && n in sys.nodes && Fits(w, ms, sys.etcd, n, sys.nodes[n], d)
    ensures n in Step(w, sys, a).nodes && Fits(w, ms, Step(w, sys, a).etcd, n, Step(w, sys, a).nodes[n], d)
  {
    hide Inv, InForce, StoreOk, Listing;
    InForceInv(ms, sys);
    var e, nd := sys.etcd, sys.nodes[n];
    if a.Round? && a.n == n {
      if !nd.closed && Enabled(e, nd, a.call) && nd.done >= d {
        RoundKeepsPcOk(w, ms, e, n, nd, a.call);
        hide PcOk;
      }
    } else {
      forall s {
        OthersLeaveKeys(w, sys, a, n, s);
      }
      OthersLeaveKeys(w, sys, a, n, 0);
      hide Step, PcOk;
      if nd.done >= d {
        OthersKeepPcOk(w, ms, e, Step(w, sys, a).etcd, n, nd.pc);
      }
    }
  }

  lemma {:induction false} RunKeepsInForce(w: Weight, ms: seq<string>, sys: System, acts: seq<Action>)
    requires InForce(ms, sys) && forall a :: a in acts ==> Quiet(a)
    ensures InForce(ms, Run(w, sys, acts)) && Run(w, sys, acts).nodes.Keys == sys.nodes.Keys
  {
    hide InForce, Step, Quiet;
    if acts != [] {
      var k := |acts| - 1;
      assert acts[k] in acts && forall a :: a in acts[..k] ==> a in acts;
      RunKeepsInForce(w, ms, sys, acts[..k]);
      StepKeepsInForce(w, ms, Run(w, sys, acts[..k]), acts[k]);
    }
  }

  lemma {:induction false} RunFits(w: Weight, ms: seq<string>, sys: System, acts: seq<Action>, n: string, d: nat)
    requires InForce(ms, sys) && n in sys.nodes && forall a :: a in acts ==> Quiet(a)
    requires Fits(w, ms, sys.etcd, n, sys.nodes[n], d)
    ensures n in Run(w, sys, acts).nodes && Fits(w, ms, Run(w, sys, acts).etcd, n, Run(w, sys, acts).nodes[n], d)
  {
    hide InForce, Step, Fits, Quiet;
    if acts != [] {
      var k := |acts| - 1;
      assert acts[k] in acts && forall a :: a in acts[..k] ==> a in acts;
      RunFits(w, ms, sys, acts[..k], n, d);
      RunKeepsInForce(w, ms, sys, acts[..k]);
      StepFits(w, ms, Run(w, sys, acts[..k]), acts[k], n, d);
    }
  }

  /** Every round of a member in flight at the first state has ended by the second. */
  ghost predicate RoundsEnd(ms: seq<string>, sys: System, sys': System) {
    forall n :: n in ms && n in sys.nodes && !sys.nodes[n].pc.Idle? ==>
      n in sys'.nodes && sys'.nodes[n].done > sys.nodes[n].done
  }

  lemma FittingRounds(w: Weight, ms: seq<string>, sys: System)
    requires InForce(ms, sys)
    requires forall n :: n in sys.nodes && n in ms ==> PcOk(w, ms, sys.etcd, n, sys.nodes[n].pc)
    ensures Regime(w, ms, sys)
  {
    hide Inv, PcOk;
  }

  /** However stale the rounds in flight are, once each of them has ended, everything still to come
      fits the membership. */
  lemma RoundsSettle(w: Weight, ms: seq<string>, sys: System, acts: seq<Action>)
    requires InForce(ms, sys) && (forall a :: a in acts ==> Quiet(a)) && RoundsEnd(ms, sys, Run(w, sys, acts))
    ensures Regime(w, ms, Run(w, sys, acts))
  {
    hide Run, InForce, Quiet, Regime;
    var sys' := Run(w, sys, acts);
    RunKeepsInForce(w, ms, sys, acts);
    forall n | n in sys'.nodes && n in ms ensures PcOk(w, ms, sys'.etcd, n, sys'.nodes[n].pc) {
      RunFits(w, ms, sys, acts, n, if sys.nodes[n].pc.Idle? then 0 else sys.nodes[n].done + 1);
    }
    hide PcOk;
    FittingRounds(w, ms, sys');
  }

  // -- The measure --

  ghost function Cost(w: Weight, ms: seq<string>, e: Store, s: int): nat {
    if OwnerAt(e, s) == Suggested(w, s, ms) then 0 else if OwnerAt(e, s) == "" then 1 else 2
  }

  /** 2 for each shard wrongly owned and 1 for each unowned, over the shards below k. */
  ghost function Measure(w: Weight, ms: seq<string>, e: Store, k: nat): nat {
    if k == 0 then 0 else Measure(w, ms, e, k - 1) + Cost(w, ms, e, k - 1)
  }

  lemma {:induction false} MeasureMoves(w: Weight, ms: seq<string>, e: Store, e': Store, k: nat)
    requires forall s :: Moves(w, ms, e, e', s)
    ensures Measure(w, ms, e', k) <= Measure(w, ms, e, k)
  {
    if k > 0 {
      MeasureMoves(w, ms, e, e', k - 1);
      assert Moves(w, ms, e, e', k - 1);
    }
  }

  lemma {:induction false} MeasureZero(w: Weight, ms: seq<string>, e: Store, k: nat)
    ensures Measure(w, ms, e, k) == 0 <==> forall s :: 0 <= s < k ==> OwnerAt(e, s) == Suggested(w, s, ms)
  {
    if k > 0 {
      MeasureZero(w, ms, e, k - 1);
    }
  }

  lemma {:induction false} RunKeepsRegime(w: Weight, ms: seq<string>, sys: System, acts: seq<Action>)
    requires Regime(w, ms, sys) && forall a :: a in acts ==> Quiet(a)
    ensures Regime(w, ms, Run(w, sys, acts))
    ensures Measure(w, ms, Run(w, sys, acts).etcd, ShardCount) <= Measure(w, ms, sys.etcd, ShardCount)
  {
    hide Regime, Step, Measure, Moves, Quiet;
    if acts != [] {
      var k := |acts| - 1;
      assert forall a :: a in acts[..k] ==> a in acts;
      RunKeepsRegime(w, ms, sys, acts[..k]);
      var mid := Run(w, sys, acts[..k]);
      assert acts[k] in acts;
      StepKeepsRegime(w, ms, mid, acts[k]);
      MeasureMoves(w, ms, mid.etcd, Step(w, mid, acts[k]).etcd, ShardCount);
    }
  }

  // -- What one full round of a member achieves --

  ghost predicate WrongIn(w: Weight, ms: seq<string>, e: Store, n: string, xs: seq<int>) {
    forall s :: Names(e, s, n) && Suggested(w, s, ms) != n ==> s in xs
  }

  ghost predicate MissingIn(w: Weight, ms: seq<string>, e: Store, n: string, xs: seq<int>) {
    forall s :: IsShard(s) && Suggested(w, s, ms) == n && !Names(e, s, n) ==> s in xs
  }

  ghost predicate NoneWrong(w: Weight, ms: seq<string>, e: Store) {
    forall s :: s in e.shards ==> e.shards[s].owner == Suggested(w, s, ms)
  }

  /** From its d-th completed round on, node n owns no wrong shard; inside that round, its release list
      holds the ones left. */
  ghost predicate Sheds(w: Weight, ms: seq<string>, e: Store, n: string, nd: Node, d: nat) {
    && (nd.done >= d ==> WrongIn(w, ms, e, n, []))
    && (nd.done + 1 == d && nd.pc.Applying? ==> WrongIn(w, ms, e, n, nd.pc.todo))
    && (nd.done + 1 == d && nd.pc.Rebinding? ==> WrongIn(w, ms, e, n, []))
  }

  /** From its d-th completed round on, node n owns every shard it is the rendezvous owner of; inside
      that round, its claim list holds the ones left. */
  ghost predicate Gathers(w: Weight, ms: seq<string>, e: Store, n: string, nd: Node, d: nat) {
    && (nd.done >= d ==> MissingIn(w, ms, e, n, []))
    && (nd.done + 1 == d && nd.pc.Listed? ==>
          forall s :: IsShard(s) ==> Suggested(w, s, nd.pc.members) == Suggested(w, s, ms))
    && (nd.done + 1 == d && nd.pc.Applying? ==> MissingIn(w, ms, e, n, nd.pc.claim))
    && (nd.done + 1 == d && nd.pc.Rebinding? ==> MissingIn(w, ms, e, n, []))
  }

  lemma ShedStep(w: Weight, ms: seq<string>, e: Store, n: string, nd: Node, call: Call, d: nat)
    requires StoreOk(e) && Enabled(e, nd, call) && n != "" && PcOk(w, ms, e, n, nd.pc)
    requires Sheds(w, ms, e, n, nd, d)
    ensures var r := NodeStep(w, e, n, nd, call, true); Sheds(w, ms, r.0, n, r.1, d)
  {
    if call.LoadMap? {
      ListsExact(w, n, nd.pc.members, LoadShardMap(e));
      assert forall s :: s in e.shards ==> KeyOk(e, s);
    } else if call.ReleaseNext? {
      assert forall s :: s in nd.pc.todo ==> s == nd.pc.todo[0] || s in nd.pc.todo[1..];
    }
  }

  lemma GatherLoad(w: Weight, ms: seq<string>, e: Store, n: string, nd: Node, d: nat)
    requires Enabled(e, nd, LoadMap) && NoneWrong(w, ms, e) && Gathers(w, ms, e, n, nd, d)
    ensures var r := NodeStep(w, e, n, nd, LoadMap, true); Gathers(w, ms, r.0, n, r.1, d)
  {
    ListsExact(w, n, nd.pc.members, LoadShardMap(e));
    hide Claims, Releases;
  }

  lemma GatherStep(w: Weight, ms: seq<string>, e: Store, n: string, nd: Node, call: Call, d: nat)
    requires StoreOk(e) && Enabled(e, nd, call) && n != "" && PcOk(w, ms, e, n, nd.pc)
    requires nd.lease in e.live && Listing(ms, e.members.Keys) && NoneWrong(w, ms, e)
    requires Gathers(w, ms, e, n, nd, d)
    ensures var r := NodeStep(w, e, n, nd, call, true); Gathers(w, ms, r.0, n, r.1, d)
  {
    if call.ListMembers? {
      forall s | IsShard(s) ensures Suggested(w, s, call.members) == Suggested(w, s, ms) {
        ListingDeterminesOwner(w, s, call.members, ms, e.members.Keys);
      }
    } else if call.LoadMap? {
      GatherLoad(w, ms, e, n, nd, d);
    } else if call.ClaimNext? {
      assert forall s :: s in nd.pc.claim ==> s == nd.pc.claim[0] || s in nd.pc.claim[1..];
    }
  }

  /** Nothing another process does changes which keys name node n. */
  lemma OthersLeaveKeys(w: Weight, sys: System, a: Action, n: string, s: int)
    requires Quiet(a) && !(a.Round? && a.n == n)
    ensures Names(Step(w, sys, a).etcd, s, n) <==> Names(sys.etcd, s, n)
    ensures n in sys.nodes ==>
              && n in Step(w, sys, a).nodes
              && Step(w, sys, a).nodes[n].pc == sys.nodes[n].pc && Step(w, sys, a).nodes[n].done == sys.nodes[n].done
              && Step(w, sys, a).nodes[n].bound == sys.nodes[n].bound
  {
  }

  lemma StepTracks(w: Weight, ms: seq<string>, sys: System, a: Action, n: string, d: nat)
    requires Regime(w, ms, sys) && Quiet(a) && n in ms && n in sys.nodes
    ensures n in Step(w, sys, a).nodes
    ensures Sheds(w, ms, sys.etcd, n, sys.nodes[n], d) ==>
              Sheds(w, ms, Step(w, sys, a).etcd, n, Step(w, sys, a).nodes[n], d)
    ensures NoneWrong(w, ms, sys.etcd) && Gathers(w, ms, sys.etcd, n, sys.nodes[n], d) ==>
              Gathers(w, ms, Step(w, sys, a).etcd, n, Step(w, sys, a).nodes[n], d)
  {
    if a.Round? && a.n == n {
      var e, nd := sys.etcd, sys.nodes[n];
      if !nd.closed && Enabled(e, nd, a.call) {
        hide NodeStep, Sheds, Gathers;
        if Sheds(w, ms, e, n, nd, d) {
          ShedStep(w, ms, e, n, nd, a.call, d);
        }
        if NoneWrong(w, ms, e) && Gathers(w, ms, e, n, nd, d) {
          GatherStep(w, ms, e, n, nd, a.call, d);
        }
      }
    } else {
      forall s {
        OthersLeaveKeys(w, sys, a, n, s);
      }
      OthersLeaveKeys(w, sys, a, n, 0);
      hide Step, Regime;
    }
  }

  lemma NoneWrongStable(w: Weight, ms: seq<string>, sys: System, a: Action)
    requires Regime(w, ms, sys) && Quiet(a) && NoneWrong(w, ms, sys.etcd)
    ensures NoneWrong(w, ms, Step(w, sys, a).etcd)
  {
    StepKeepsRegime(w, ms, sys, a);
    var e' := Step(w, sys, a).etcd;
    hide Step;
    forall s | s in e'.shards ensures e'.shards[s].owner == Suggested(w, s, ms) {
      assert KeyOk(e', s) && e'.shards[s].owner != "";
      assert Moves(w, ms, sys.etcd, e', s);
    }
  }

  lemma {:induction false} RunSheds(w: Weight, ms: seq<string>, sys: System, acts: seq<Action>, n: string, d: nat)
    requires Regime(w, ms, sys) && n in ms && n in sys.nodes && forall a :: a in acts ==> Quiet(a)
    requires Sheds(w, ms, sys.etcd, n, sys.nodes[n], d)
    ensures var sys' := Run(w, sys, acts);
            Regime(w, ms, sys') && n in sys'.nodes && Sheds(w, ms, sys'.etcd, n, sys'.nodes[n], d)
  {
    hide Regime, Step, Sheds, Quiet, Gathers;
    if acts != [] {
      var k := |acts| - 1;
      assert acts[k] in acts && forall a :: a in acts[..k] ==> a in acts;
      RunSheds(w, ms, sys, acts[..k], n, d);
      StepTracks(w, ms, Run(w, sys, acts[..k]), acts[k], n, d);
      StepKeepsRegime(w, ms, Run(w, sys, acts[..k]), acts[k]);
    }
  }

  lemma {:induction false} RunGathers(w: Weight, ms: seq<string>, sys: System, acts: seq<Action>, n: string, d: nat)
    requires Regime(w, ms, sys) && n in ms && n in sys.nodes && forall a :: a in acts ==> Quiet(a)
    requires NoneWrong(w, ms, sys.etcd) && Gathers(w, ms, sys.etcd, n, sys.nodes[n], d)
    ensures var sys' := Run(w, sys, acts);
            && Regime(w, ms, sys') && NoneWrong(w, ms, sys'.etcd)
            && n in sys'.nodes && Gathers(w, ms, sys'.etcd, n, sys'.nodes[n], d)
  {
    hide Regime, Step, Sheds, Quiet, Gathers, NoneWrong;
    if acts != [] {
      var k := |acts| - 1;
      assert acts[k] in acts && forall a :: a in acts[..k] ==> a in acts;
      RunGathers(w, ms, sys, acts[..k], n, d);
      StepTracks(w, ms, Run(w, sys, acts[..k]), acts[k], n, d);
      NoneWrongStable(w, ms, Run(w, sys, acts[..k]), acts[k]);
      StepKeepsRegime(w, ms, Run(w, sys, acts[..k]), acts[k]);
    }
  }

  /** Between two states node n has begun a round and completed it; a round in flight at the start
      does not count. */
  predicate CompletesRound(before: Node, after: Node) {
    after.done >= before.done + (if before.pc.Idle? then 1 else 2)
  }

  ghost predicate AllComplete(ms: seq<string>, sys: System, sys': System) {
    forall n :: n in ms ==> n in sys.nodes && n in sys'.nodes && CompletesRound(sys.nodes[n], sys'.nodes[n])
  }

  function RoundBegunAfter(nd: Node): nat {
    nd.done + if nd.pc.Idle? then 1 else 2
  }

  lemma OwnersAreMembers(w: Weight, ms: seq<string>, sys: System, acts: seq<Action>)
    requires Regime(w, ms, sys) && (forall a :: a in acts ==> Quiet(a))
    ensures var e := Run(w, sys, acts).etcd; forall s :: s in e.shards ==> e.shards[s].owner in ms
  {
    RunKeepsRegime(w, ms, sys, acts);
  }

  /** Once every member has completed a round, no shard is at a wrong owner. */
  lemma FirstRoundsShed(w: Weight, ms: seq<string>, sys: System, acts: seq<Action>)
    requires Regime(w, ms, sys) && (forall a :: a in acts ==> Quiet(a))
    requires AllComplete(ms, sys, Run(w, sys, acts))
    ensures NoneWrong(w, ms, Run(w, sys, acts).etcd)
  {
    hide Run;
    var sys' := Run(w, sys, acts);
    forall s | s in sys'.etcd.shards ensures sys'.etcd.shards[s].owner == Suggested(w, s, ms) {
      var n := sys'.etcd.shards[s].owner;
      OwnersAreMembers(w, ms, sys, acts);
      hide Regime;
      RunSheds(w, ms, sys, acts, n, RoundBegunAfter(sys.nodes[n]));
      assert WrongIn(w, ms, sys'.etcd, n, []);
    }
  }

  /** With no shard at a wrong owner, one round of every member places every shard. */
  lemma RoundsGather(w: Weight, ms: seq<string>, sys: System, acts: seq<Action>)
    requires Regime(w, ms, sys) && (forall a :: a in acts ==> Quiet(a)) && NoneWrong(w, ms, sys.etcd)
    requires AllComplete(ms, sys, Run(w, sys, acts))
    ensures forall s :: IsShard(s) ==> OwnerAt(Run(w, sys, acts).etcd, s) == Suggested(w, s, ms)
  {
    var sys' := Run(w, sys, acts);
    forall s | IsShard(s) ensures OwnerAt(sys'.etcd, s) == Suggested(w, s, ms) {
      var n := Suggested(w, s, ms);
      SuggestedMember(w, s, ms);
      hide Regime, Run, NoneWrong;
      RunGathers(w, ms, sys, acts, n, RoundBegunAfter(sys.nodes[n]));
      assert MissingIn(w, ms, sys'.etcd, n, []);
    }
  }

  /** When every shard is at its rendezvous owner, every node's lists are empty. */
  lemma PlacedMeansIdle(w: Weight, ms: seq<string>, e: Store)
    requires NonEmptyIds(ms) && ms != []
    requires forall s :: IsShard(s) ==> OwnerAt(e, s) == Suggested(w, s, ms)
    ensures forall n :: n != "" ==>
              Claims(w, n, ms, LoadShardMap(e)) == [] && Releases(w, n, ms, LoadShardMap(e)) == []
  {
    forall n | n != "" ensures Claims(w, n, ms, LoadShardMap(e)) == [] && Releases(w, n, ms, LoadShardMap(e)) == [] {
      var sm := LoadShardMap(e);
      ListsExact(w, n, ms, sm);
      var c, r := Claims(w, n, ms, sm), Releases(w, n, ms, sm);
      if c != [] {
        var s := SomeElement(c);
      }
      if r != [] {
        var s := SomeElement(r);
      }
    }
  }

  // -- On current leases --

  /** From its d-th completed round on, some round of node n ran without a failed call; so does this one. */
  ghost predicate Binds(nd: Node, d: nat) {
    && (nd.done >= d ==> nd.bound)
    && (nd.done + 1 == d && nd.pc.Applying? ==> nd.pc.clean)
    && (nd.done + 1 == d && nd.pc.Rebinding? ==> nd.pc.clean)
  }

  lemma BindStep(w: Weight, e: Store, n: string, nd: Node, call: Call, d: nat)
    requires Enabled(e, nd, call) && nd.lease in e.live && Binds(nd, d)
    ensures Binds(NodeStep(w, e, n, nd, call, true).1, d)
  {
  }

  lemma StepBinds(w: Weight, ms: seq<string>, sys: System, a: Action, n: string, d: nat)
    requires Regime(w, ms, sys) && Quiet(a) && n in ms && n in sys.nodes && Binds(sys.nodes[n], d)
    ensures n in Step(w, sys, a).nodes && Binds(Step(w, sys, a).nodes[n], d)
  {
    if a.Round? && a.n == n {
      assert MemberOk(w, ms, sys.etcd, n, sys.nodes[n]);
      hide Regime, Binds;
      if !sys.nodes[n].closed && Enabled(sys.etcd, sys.nodes[n], a.call) {
        BindStep(w, sys.etcd, n, sys.nodes[n], a.call, d);
        hide NodeStep;
      }
    } else {
      OthersLeaveKeys(w, sys, a, n, 0);
      hide Step, Regime;
    }
  }

  lemma {:induction false} RunBinds(w: Weight, ms: seq<string>, sys: System, acts: seq<Action>, n: string, d: nat)
    requires Regime(w, ms, sys) && n in ms && n in sys.nodes && forall a :: a in acts ==> Quiet(a)
    requires Binds(sys.nodes[n], d)
    ensures n in Run(w, sys, acts).nodes && Binds(Run(w, sys, acts).nodes[n], d)
  {
    hide Regime, Step, Binds, Quiet;
    if acts != [] {
      var k := |acts| - 1;
      assert acts[k] in acts && forall a :: a in acts[..k] ==> a in acts;
      RunBinds(w, ms, sys, acts[..k], n, d);
      RunKeepsRegime(w, ms, sys, acts[..k]);
      StepBinds(w, ms, Run(w, sys, acts[..k]), acts[k], n, d);
    }
  }

  lemma BoundRides(w: Weight, ms: seq<string>, sys: System, n: string)
    requires Regime(w, ms, sys) && n in sys.nodes && sys.nodes[n].bound
    ensures AllRide(sys.etcd, n, sys.nodes[n].lease)
  {
    assert ProcessInv(sys.now, sys.etcd, n, sys.nodes[n]);
  }

  /** Once every member has completed a round, the keys naming it ride its lease. */
  lemma RoundsBind(w: Weight, ms: seq<string>, sys: System, acts: seq<Action>)
    requires Regime(w, ms, sys) && (forall a :: a in acts ==> Quiet(a))
    requires AllComplete(ms, sys, Run(w, sys, acts))
    ensures var sys' := Run(w, sys, acts);
            forall n :: n in ms ==> n in sys'.nodes && AllRide(sys'.etcd, n, sys'.nodes[n].lease)
  {
    hide Run, Regime, Quiet, AllRide;
    var sys' := Run(w, sys, acts);
    RunKeepsRegime(w, ms, sys, acts);
    forall n | n in ms ensures n in sys'.nodes && AllRide(sys'.etcd, n, sys'.nodes[n].lease) {
      RunBinds(w, ms, sys, acts, n, RoundBegunAfter(sys.nodes[n]));
      BoundRides(w, ms, sys', n);
    }
  }

  lemma PlacedOnLeases(w: Weight, ms: seq<string>, sys: System)
    requires Regime(w, ms, sys) && forall s :: IsShard(s) ==> OwnerAt(sys.etcd, s) == Suggested(w, s, ms)
    requires forall n :: n in ms ==> n in sys.nodes && AllRide(sys.etcd, n, sys.nodes[n].lease)
    ensures Converged(w, ms, sys)
  {
    forall s | IsShard(s)
      ensures s in sys.etcd.shards && sys.etcd.shards[s].owner == Suggested(w, s, ms)
      ensures Suggested(w, s, ms) in sys.etcd.members
              && sys.etcd.shards[s].lease == sys.etcd.members[Suggested(w, s, ms)]
    {
      var n := Suggested(w, s, ms);
      SuggestedMember(w, s, ms);
      assert Names(sys.etcd, s, n);
      assert ProcessInv(sys.now, sys.etcd, n, sys.nodes[n]) && MemberOk(w, ms, sys.etcd, n, sys.nodes[n]);
    }
  }

  /** Convergence. After every member completes a round, and then another begun after those, the
      measure is 0, every shard is at its rendezvous owner on that owner's current lease, and nobody has
      anything left to do. */
  lemma Converges(w: Weight, ms: seq<string>, sys: System, first: seq<Action>, second: seq<Action>)
    requires Regime(w, ms, sys) && (forall a :: a in first + second ==> Quiet(a))
    requires AllComplete(ms, sys, Run(w, sys, first))
    requires AllComplete(ms, Run(w, sys, first), Run(w, sys, first + second))
    ensures var sys' := Run(w, sys, first + second);
            && Converged(w, ms, sys') && Measure(w, ms, sys'.etcd, ShardCount) == 0
            && (forall n :: n != "" ==>
                  && Claims(w, n, ms, LoadShardMap(sys'.etcd)) == [] && Releases(w, n, ms, LoadShardMap(sys'.etcd)) == [])
  {
    assert NonEmptyIds(ms) && ms != [];
    hide Run, Regime, AllComplete, Quiet, Measure, Converged, AllRide;
    var mid := Run(w, sys, first);
    RunConcat(w, sys, first, second);
    assert forall a :: a in first ==> a in first + second;
    assert forall a :: a in second ==> a in first + second;
    FirstRoundsShed(w, ms, sys, first);
    RunKeepsRegime(w, ms, sys, first);
    RoundsGather(w, ms, mid, second);
    RunKeepsRegime(w, ms, mid, second);
    RoundsBind(w, ms, mid, second);
    var sys' := Run(w, mid, second);
    MeasureZero(w, ms, sys'.etcd, ShardCount);
    PlacedMeansIdle(w, ms, sys'.etcd);
    PlacedOnLeases(w, ms, sys');
  }

  /** Convergence from any state in which the membership is in force, however stale the rounds in flight:
      let those end, then let every member complete two more. */
  lemma ConvergesFromAnywhere(w: Weight, ms: seq<string>, sys: System,
                              settle: seq<Action>, first: seq<Action>, second: seq<Action>)
    requires InForce(ms, sys) && (forall a :: a in settle ==> Quiet(a)) && (forall a :: a in first + second ==> Quiet(a))
    requires RoundsEnd(ms, sys, Run(w, sys, settle))
    requires AllComplete(ms, Run(w, sys, settle), Run(w, sys, settle + first))
    requires AllComplete(ms, Run(w, sys, settle + first), Run(w, sys, settle + (first + second)))
    ensures Converged(w, ms, Run(w, sys, settle + (first + second)))
  {
    hide Run, InForce, Regime, AllComplete, RoundsEnd, Quiet, Converged, Measure;
    RoundsSettle(w, ms, sys, settle);
    RunConcat(w, sys, settle, first);
    RunConcat(w, sys, settle, first + second);
    Converges(w, ms, Run(w, sys, settle), first, second);
  }
}
