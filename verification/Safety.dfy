/** What every step of the ownership protocol keeps. The invariant needs no assumption about the run:
    it speaks of `suspect` shards, revoked leases and late stamps where the code leaves them open. */
module Safety {
  import opened Placement
  import opened Reconciling
  import opened Etcd
  import opened Protocol

  ghost predicate Holds(e: Store, s: int, n: string, l: nat) {
    Names(e, s, n) && e.shards[s].lease == l
  }

  /** While the lease lives, what the node would serve is its own key on its own lease. */
  ghost predicate GateInv(e: Store, n: string, nd: Node) {
    nd.lease in e.live ==>
      forall s :: s in nd.owned && s !in nd.releasing && s !in nd.suspect ==> Holds(e, s, n, nd.lease)
  }

  /** Every cached term was once the term of the node's own key. */
  ghost predicate CacheInv(e: Store, n: string, nd: Node) {
    forall s :: s in nd.owned ==> IsShard(s) && Holding(s, nd.owned[s], n) in e.log
  }

  ghost predicate AllRide(e: Store, n: string, l: nat) {
    forall s :: Names(e, s, n) ==> e.shards[s].lease == l
  }

  ghost predicate ApplyInv(e: Store, n: string, nd: Node)
    requires nd.pc.Applying?
  {
    && (forall s :: s in nd.pc.claim ==> IsShard(s))
    && (nd.pc.marked ==> nd.pc.todo != [] && nd.pc.todo[0] in nd.releasing)
    && (nd.pc.claim != [] ==> nd.pc.todo == nd.pc.release)
    && (nd.pc.clean ==> forall s :: s in nd.pc.release && s !in nd.pc.todo ==> !Names(e, s, n))
  }

  /** The rebind loop has settled shard s: it was loaded on this lease, or successfully moved to it. */
  ghost predicate Secured(nd: Node, n: string, s: int)
    requires nd.pc.Rebinding? && |nd.pc.om| == ShardCount
  {
    && IsShard(s) && nd.pc.om[s].owner == n && s !in nd.pc.release
    && s !in nd.pc.rejected && s !in nd.pc.errored
    && (s < nd.pc.next || nd.pc.om[s].lease == nd.lease)
  }

  ghost predicate RebindInv(e: Store, n: string, nd: Node)
    requires nd.pc.Rebinding?
  {
    && |nd.pc.om| == ShardCount && nd.pc.next <= ShardCount
    && (forall s :: IsShard(s) && nd.pc.om[s].owner == n ==> Holding(s, nd.pc.om[s].term, n) in e.log)
    && (nd.lease in e.live ==> forall s :: Secured(nd, n, s) ==> Holds(e, s, n, nd.lease))
    && (forall s :: s in nd.pc.rejected ==>
          IsShard(s) && nd.pc.om[s].owner == n && s !in nd.pc.release && !Names(e, s, n))
    && (forall s :: IsShard(s) && s >= nd.pc.next && RidesOldLease(n, nd, s) && Names(e, s, n) ==>
          e.shards[s].lease != nd.lease)
    && (nd.pc.clean ==> nd.pc.errored == {})
    && (nd.pc.clean ==> forall s :: Names(e, s, n) && e.shards[s].lease != nd.lease ==>
          IsShard(s) && s >= nd.pc.next && RidesOldLease(n, nd, s))
  }

  ghost predicate NodeInv(e: Store, n: string, nd: Node) {
    && Granted(e, nd.lease, n)
    && GateInv(e, n, nd)
    && CacheInv(e, n, nd)
    && (nd.bound ==> AllRide(e, n, nd.lease))
    && (nd.pc.Applying? ==> ApplyInv(e, n, nd))
    && (nd.pc.Rebinding? ==> RebindInv(e, n, nd))
  }

  /** A change of the store that can only take keys from node n, and none on lease l while l lives. */
  ghost predicate Calm(e: Store, e': Store, n: string, l: nat) {
    && e.log <= e'.log
    && (Granted(e, l, n) ==> Granted(e', l, n))
    && (l in e'.live && l < |e.grants| ==> l in e.live && forall s :: Holds(e, s, n, l) ==> Holds(e', s, n, l))
    && (forall s :: Names(e', s, n) ==> Names(e, s, n) && e'.shards[s].lease == e.shards[s].lease)
  }

  lemma CalmKeepsNode(e: Store, e': Store, n: string, nd: Node)
    requires NodeInv(e, n, nd) && Calm(e, e', n, nd.lease)
    ensures NodeInv(e', n, nd)
  {
  }

  lemma ClaimKeeps(e: Store, n: string, nd: Node, ok: bool)
    requires StoreOk(e) && NodeInv(e, n, nd) && nd.pc.Applying? && nd.pc.claim != []
    ensures var r := AfterClaim(e, n, nd, ok); StoreOk(r.0) && NodeInv(r.0, n, r.1)
  {
  }

  lemma ReleaseKeeps(e: Store, n: string, nd: Node, ok: bool)
    requires StoreOk(e) && NodeInv(e, n, nd) && Enabled(e, nd, ReleaseNext)
    ensures var r := AfterRelease(e, n, nd, ok); StoreOk(r.0) && NodeInv(r.0, n, r.1)
  {
  }

  lemma LoadKeeps(w: Weight, e: Store, n: string, nd: Node)
    requires StoreOk(e) && NodeInv(e, n, nd) && nd.pc.Listed?
    ensures NodeInv(e, n, NodeStep(w, e, n, nd, LoadMap, true).1)
  {
    ListsExact(w, n, nd.pc.members, LoadShardMap(e));
  }

  lemma ReloadKeeps(w: Weight, e: Store, n: string, nd: Node)
    requires StoreOk(e) && NodeInv(e, n, nd) && Enabled(e, nd, Reload)
    ensures NodeInv(e, n, NodeStep(w, e, n, nd, Reload, true).1)
  {
  }

  lemma RebindSkipKeeps(e: Store, n: string, nd: Node)
    requires StoreOk(e) && NodeInv(e, n, nd) && Enabled(e, nd, RebindNext)
    requires !RidesOldLease(n, nd, nd.pc.next)
    ensures NodeInv(e, n, nd.(pc := nd.pc.(next := nd.pc.next + 1)))
  {
  }

  lemma RebindCommits(e: Store, n: string, nd: Node)
    requires Enabled(e, nd, RebindNext) && RebindInv(e, n, nd)
    requires RidesOldLease(n, nd, nd.pc.next) && Names(e, nd.pc.next, n)
    ensures RebindInv(PutShard(e, nd.pc.next, n, nd.lease), n, nd.(pc := nd.pc.(next := nd.pc.next + 1)))
  {
    var nd' := nd.(pc := nd.pc.(next := nd.pc.next + 1));
    assert forall x :: Secured(nd', n, x) ==> x == nd.pc.next || Secured(nd, n, x);
  }

  lemma RebindCommitKeeps(e: Store, n: string, nd: Node)
    requires NodeInv(e, n, nd) && Enabled(e, nd, RebindNext)
    requires RidesOldLease(n, nd, nd.pc.next) && Names(e, nd.pc.next, n)
    ensures NodeInv(PutShard(e, nd.pc.next, n, nd.lease), n, nd.(pc := nd.pc.(next := nd.pc.next + 1)))
  {
    RebindCommits(e, n, nd);
    hide RebindInv;
  }

  lemma RebindMissKeeps(e: Store, n: string, nd: Node, nd': Node)
    requires StoreOk(e) && NodeInv(e, n, nd) && Enabled(e, nd, RebindNext)
    requires RidesOldLease(n, nd, nd.pc.next)
    requires var s := nd.pc.next;
             || (nd' == nd.(pc := nd.pc.(next := s + 1, rejected := nd.pc.rejected + {s})) && !Names(e, s, n))
             || nd' == nd.(pc := nd.pc.(next := s + 1, errored := nd.pc.errored + {s}, clean := false))
    ensures NodeInv(e, n, nd')
  {
  }

  lemma RebindKeeps(e: Store, n: string, nd: Node, ok: bool)
    requires StoreOk(e) && NodeInv(e, n, nd) && Enabled(e, nd, RebindNext)
    ensures var r := AfterRebind(e, n, nd, ok); StoreOk(r.0) && NodeInv(r.0, n, r.1)
  {
    var s := nd.pc.next;
    if !RidesOldLease(n, nd, s) {
      RebindSkipKeeps(e, n, nd);
    } else if ok && Names(e, s, n) && nd.lease in e.live {
      PutShardOk(e, s, n, nd.lease);
      RebindCommitKeeps(e, n, nd);
    } else {
      RebindMissKeeps(e, n, nd, AfterRebind(e, n, nd, ok).1);
    }
  }

  lemma InstallKeeps(e: Store, n: string, nd: Node)
    requires StoreOk(e) && NodeInv(e, n, nd) && Enabled(e, nd, Install)
    ensures NodeInv(e, n, AfterInstall(n, nd))
  {
  }

  lemma NodeStepKeeps(w: Weight, e: Store, n: string, nd: Node, call: Call, ok: bool)
    requires StoreOk(e) && NodeInv(e, n, nd) && Enabled(e, nd, call)
    ensures var r := NodeStep(w, e, n, nd, call, ok); StoreOk(r.0) && NodeInv(r.0, n, r.1)
  {
    match call
    case ListMembers(_) =>
    case LoadMap => LoadKeeps(w, e, n, nd);
    case ClaimNext => ClaimKeeps(e, n, nd, ok);
    case MarkNext =>
    case ReleaseNext => ReleaseKeeps(e, n, nd, ok);
    case Reload => ReloadKeeps(w, e, n, nd);
    case RebindNext => RebindKeeps(e, n, nd, ok);
    case Install => InstallKeeps(e, n, nd);
  }

  /** A node's own calls never disturb another node's keys. */
  lemma NodeStepCalm(w: Weight, e: Store, n: string, nd: Node, call: Call, ok: bool, m: string, l: nat)
    requires Enabled(e, nd, call) && m != n
    ensures Calm(e, NodeStep(w, e, n, nd, call, ok).0, m, l)
  {
  }

  // -- The whole system --

  /** The server backs time g of this lease: it will not expire before g + ttl. */
  ghost predicate Backed(now: nat, e: Store, l: nat, ttl: nat, g: nat) {
    && g <= now
    && (l in e.live ==> g + LeaseTime(ttl) <= e.live[l])
    && (l !in e.live && l !in e.revoked ==> g + LeaseTime(ttl) <= now)
  }

  ghost predicate TimeInv(now: nat, e: Store, nd: Node) {
    && nd.granted <= nd.stamp <= now
    && Backed(now, e, nd.lease, nd.ttl, nd.granted)
    && (forall g :: g in nd.acks ==> Backed(now, e, nd.lease, nd.ttl, g))
  }

  /** While its lease lives, a process that has registered keeps its member key on that lease. */
  ghost predicate Registered(e: Store, n: string, l: nat) {
    l in e.live ==> n in e.members && e.members[n] == l
  }

  ghost predicate JoinInv(now: nat, e: Store, n: string, j: Join) {
    && Granted(e, j.lease, n)
    && Backed(now, e, j.lease, j.ttl, j.at)
    && (j.registered ==> Registered(e, n, j.lease))
    && (forall s :: s in e.shards ==> e.shards[s].lease != j.lease)
  }

  ghost predicate ProcessInv(now: nat, e: Store, n: string, nd: Node) {
    NodeInv(e, n, nd) && TimeInv(now, e, nd) && Registered(e, n, nd.lease)
  }

  ghost predicate Inv(sys: System) {
    && StoreOk(sys.etcd)
    && (forall n :: n in sys.joins ==> n !in sys.nodes)
    && (forall n :: n in sys.joins ==> JoinInv(sys.now, sys.etcd, n, sys.joins[n]))
    && (forall n :: n in sys.nodes ==> ProcessInv(sys.now, sys.etcd, n, sys.nodes[n]))
  }

  /** A change of the store and the clock that keeps everything said about the process of node n on
      lease l, joining or running. */
  ghost predicate CalmTime(now: nat, e: Store, now': nat, e': Store, n: string, l: nat) {
    && Calm(e, e', n, l)
    && now <= now'
    && e.revoked <= e'.revoked
    && (l < |e.grants| && l in e'.live ==> l in e.live && e.live[l] <= e'.live[l])
    && (l in e.live && l !in e'.live && l !in e'.revoked ==> e.live[l] <= now')
    && (l in e'.live && n in e.members && e.members[n] == l ==> n in e'.members && e'.members[n] == l)
    && (forall s :: s in e'.shards && e'.shards[s].owner == n ==> s in e.shards && e.shards[s].lease == e'.shards[s].lease)
  }

  lemma CalmKeepsProcess(now: nat, e: Store, now': nat, e': Store, n: string, nd: Node)
    requires ProcessInv(now, e, n, nd) && CalmTime(now, e, now', e', n, nd.lease)
    ensures ProcessInv(now', e', n, nd)
  {
    CalmKeepsNode(e, e', n, nd);
  }

  lemma CalmKeepsJoin(now: nat, e: Store, now': nat, e': Store, n: string, j: Join)
    requires JoinInv(now, e, n, j) && CalmTime(now, e, now', e', n, j.lease) && StoreOk(e')
    ensures JoinInv(now', e', n, j)
  {
    forall s | s in e'.shards ensures e'.shards[s].lease != j.lease {
      assert KeyOk(e', s);
    }
  }

  ghost predicate CalmForOthers(now: nat, e: Store, now': nat, e': Store, n: string) {
    forall m, l :: m != n && Granted(e, l, m) ==> CalmTime(now, e, now', e', m, l)
  }

  lemma OthersKept(sys: System, sys': System, n: string)
    requires Inv(sys) && StoreOk(sys'.etcd)
    requires forall m :: m in sys'.joins && m != n ==> m in sys.joins && sys'.joins[m] == sys.joins[m]
    requires forall m :: m in sys'.nodes && m != n ==> m in sys.nodes && sys'.nodes[m] == sys.nodes[m]
    requires CalmForOthers(sys.now, sys.etcd, sys'.now, sys'.etcd, n)
    ensures forall m :: m in sys'.joins && m != n ==> JoinInv(sys'.now, sys'.etcd, m, sys'.joins[m])
    ensures forall m :: m in sys'.nodes && m != n ==> ProcessInv(sys'.now, sys'.etcd, m, sys'.nodes[m])
  {
    forall m | m in sys'.joins && m != n ensures JoinInv(sys'.now, sys'.etcd, m, sys'.joins[m]) {
      CalmKeepsJoin(sys.now, sys.etcd, sys'.now, sys'.etcd, m, sys.joins[m]);
    }
    forall m | m in sys'.nodes && m != n ensures ProcessInv(sys'.now, sys'.etcd, m, sys'.nodes[m]) {
      CalmKeepsProcess(sys.now, sys.etcd, sys'.now, sys'.etcd, m, sys.nodes[m]);
    }
  }

  /** One running process moved, taking the store with it. */
  lemma ProcessMoved(sys: System, e': Store, n: string, nd': Node)
    requires Inv(sys) && n in sys.nodes && StoreOk(e') && ProcessInv(sys.now, e', n, nd')
    requires CalmForOthers(sys.now, sys.etcd, sys.now, e', n)
    ensures Inv(sys.(etcd := e', nodes := sys.nodes[n := nd']))
  {
    OthersKept(sys, sys.(etcd := e', nodes := sys.nodes[n := nd']), n);
  }

  lemma NodeStepFrame(w: Weight, e: Store, n: string, nd: Node, call: Call, ok: bool)
    requires Enabled(e, nd, call)
    ensures var r := NodeStep(w, e, n, nd, call, ok);
            && r.0.live == e.live && r.0.members == e.members && r.0.revoked == e.revoked && r.0.grants == e.grants
            && r.1.(pc := nd.pc, owned := nd.owned, releasing := nd.releasing, suspect := nd.suspect,
                    done := nd.done, bound := nd.bound) == nd
  {
  }

  lemma RoundKeepsInv(w: Weight, sys: System, n: string, call: Call, ok: bool)
    requires Inv(sys)
    ensures Inv(RoundStep(w, sys, n, call, ok))
  {
    if n in sys.nodes && !sys.nodes[n].closed && Enabled(sys.etcd, sys.nodes[n], call) {
      var e, nd := sys.etcd, sys.nodes[n];
      var r := NodeStep(w, e, n, nd, call, ok);
      NodeStepKeeps(w, e, n, nd, call, ok);
      NodeStepFrame(w, e, n, nd, call, ok);
      forall m, l | m != n && Granted(e, l, m) ensures CalmTime(sys.now, e, sys.now, r.0, m, l) {
        NodeStepCalm(w, e, n, nd, call, ok, m, l);
      }
      assert TimeInv(sys.now, r.0, r.1);
      ProcessMoved(sys, r.0, n, r.1);
    }
  }

  /** Only the store moved, calmly for everyone; "" is nobody's id. */
  lemma StoreMoved(sys: System, e': Store)
    requires Inv(sys) && StoreOk(e') && CalmForOthers(sys.now, sys.etcd, sys.now, e', "")
    ensures Inv(sys.(etcd := e'))
  {
    OthersKept(sys, sys.(etcd := e'), "");
    assert "" !in sys.joins && "" !in sys.nodes;
  }

  lemma DropCalm(now: nat, e: Store, l: nat, revoke: bool)
    requires StoreOk(e) && l in e.live && (!revoke ==> e.live[l] <= now)
    ensures CalmForOthers(now, e, now, if revoke then Revoke(e, l) else DropLease(e, l), "")
  {
  }

  lemma DropKeepsInv(sys: System, l: nat, revoke: bool)
    requires Inv(sys)
    requires l in sys.etcd.live && (!revoke ==> sys.etcd.live[l] <= sys.now)
    ensures Inv(sys.(etcd := if revoke then Revoke(sys.etcd, l) else DropLease(sys.etcd, l)))
  {
    var e' := if revoke then Revoke(sys.etcd, l) else DropLease(sys.etcd, l);
    DropLeaseOk(sys.etcd, l);
    DropCalm(sys.now, sys.etcd, l, revoke);
    StoreMoved(sys, e');
  }

  /** One join moved, taking the store with it. */
  lemma JoinMoved(sys: System, e': Store, n: string, j': Join)
    requires Inv(sys) && n !in sys.nodes && StoreOk(e') && JoinInv(sys.now, e', n, j')
    requires CalmForOthers(sys.now, sys.etcd, sys.now, e', n)
    ensures Inv(sys.(etcd := e', joins := sys.joins[n := j']))
  {
    OthersKept(sys, sys.(etcd := e', joins := sys.joins[n := j']), n);
  }

  lemma GrantCalm(now: nat, e: Store, n: string, expiry: nat)
    requires StoreOk(e)
    ensures CalmForOthers(now, e, now, Grant(e, n, expiry), n)
  {
  }

  lemma GrantKeepsInv(sys: System, n: string, ttl: nat)
    requires Inv(sys)
    ensures Inv(JoinStep(sys, JoinGrant(n, ttl)))
  {
    if n != "" && n !in sys.joins && n !in sys.nodes {
      var e := sys.etcd;
      var e' := Grant(e, n, sys.now + LeaseTime(ttl));
      GrantOk(e, n, sys.now + LeaseTime(ttl));
      forall s | s in e.shards ensures e.shards[s].lease != |e.grants| {
        assert KeyOk(e, s);
      }
      GrantCalm(sys.now, e, n, sys.now + LeaseTime(ttl));
      var j := Join(|e.grants|, ttl, sys.now, false, false);
      JoinMoved(sys, e', n, j);
      assert JoinStep(sys, JoinGrant(n, ttl)) == sys.(etcd := e', joins := sys.joins[n := j]);
    }
  }

  lemma PutKeepsInv(sys: System, n: string, ok: bool)
    requires Inv(sys)
    ensures Inv(JoinStep(sys, JoinPut(n, ok)))
  {
    if n in sys.joins && !sys.joins[n].registered && !sys.joins[n].failed {
      var j := sys.joins[n];
      if ok && j.lease in sys.etcd.live {
        PutMemberOk(sys.etcd, n, j.lease);
        JoinMoved(sys, PutMember(sys.etcd, n, j.lease).0, n, j.(registered := true));
      } else {
        JoinMoved(sys, sys.etcd, n, j.(failed := true));
      }
    }
  }

  lemma StartKeepsInv(sys: System, n: string, ok: bool)
    requires Inv(sys)
    ensures Inv(JoinStep(sys, JoinStart(n, ok)))
  {
    if n in sys.joins && sys.joins[n].registered && !sys.joins[n].failed {
      if ok {
        assert ProcessInv(sys.now, sys.etcd, n, StartNode(sys.joins[n], sys.now));
      } else {
        JoinMoved(sys, sys.etcd, n, sys.joins[n].(failed := true));
      }
    }
  }

  lemma RenewCalm(now: nat, e: Store, l: nat, expiry: nat)
    requires StoreOk(e)
    ensures CalmForOthers(now, e, now, Renew(e, l, expiry), "")
  {
  }

  lemma AckKeepsInv(sys: System, n: string)
    requires Inv(sys) && n in sys.nodes
    requires Backed(sys.now, sys.etcd, sys.nodes[n].lease, sys.nodes[n].ttl, sys.now)
    ensures Inv(sys.(nodes := sys.nodes[n := sys.nodes[n].(acks := sys.nodes[n].acks + {sys.now})]))
  {
    var nd := sys.nodes[n];
    var nd' := nd.(acks := nd.acks + {sys.now});
    assert NodeInv(sys.etcd, n, nd') by {
      assert nd.pc.Rebinding? ==> forall s :: Secured(nd', n, s) ==> Secured(nd, n, s);
    }
    ProcessMoved(sys, sys.etcd, n, nd');
  }

  lemma RenewStoreKeepsInv(sys: System, l: nat, expiry: nat)
    requires Inv(sys)
    ensures Inv(sys.(etcd := Renew(sys.etcd, l, expiry)))
  {
    RenewOk(sys.etcd, l, expiry);
    RenewCalm(sys.now, sys.etcd, l, expiry);
    StoreMoved(sys, Renew(sys.etcd, l, expiry));
  }

  lemma RenewKeepsInv(sys: System, n: string)
    requires Inv(sys) && n in sys.nodes && sys.nodes[n].lease in sys.etcd.live && !sys.nodes[n].closed
    ensures Inv(ProcessStep(sys, RenewLease(n)))
  {
    hide ProcessInv, JoinInv, StoreOk;
    var nd := sys.nodes[n];
    var e' := Renew(sys.etcd, nd.lease, sys.now + LeaseTime(nd.ttl));
    RenewStoreKeepsInv(sys, nd.lease, sys.now + LeaseTime(nd.ttl));
    AckKeepsInv(sys.(etcd := e'), n);
    assert ProcessStep(sys, RenewLease(n)) == sys.(etcd := e', nodes := sys.nodes[n := nd.(acks := nd.acks + {sys.now})]);
  }

  lemma ReceiveKeepsInv(sys: System, n: string, at: nat)
    requires Inv(sys)
    ensures Inv(ProcessStep(sys, ReceiveAck(n, at)))
  {
    if n in sys.nodes && at in sys.nodes[n].acks {
      var nd := sys.nodes[n];
      var nd' := nd.(stamp := sys.now, granted := at, acks := nd.acks - {at});
      assert NodeInv(sys.etcd, n, nd') by {
        assert nd.pc.Rebinding? ==> forall s :: Secured(nd', n, s) ==> Secured(nd, n, s);
      }
      ProcessMoved(sys, sys.etcd, n, nd');
    }
  }

  lemma MarkKeepsInv(sys: System, n: string, shard: int)
    requires Inv(sys)
    ensures Inv(ProcessStep(sys, Mark(n, shard)))
  {
  }

  lemma CloseKeepsInv(sys: System, n: string, ok: bool)
    requires Inv(sys)
    ensures Inv(ProcessStep(sys, Close(n, ok)))
  {
    if n in sys.nodes && sys.nodes[n].pc.Idle? {
      if ok && sys.nodes[n].lease in sys.etcd.live {
        DropKeepsInv(sys, sys.nodes[n].lease, true);
      }
      var e' := if ok then Revoke(sys.etcd, sys.nodes[n].lease) else sys.etcd;
      ProcessMoved(sys.(etcd := e'), e', n, sys.nodes[n].(closed := true));
    }
  }

  lemma JoinRevokeKeepsInv(sys: System, n: string, ok: bool)
    requires Inv(sys)
    ensures Inv(JoinStep(sys, JoinRevoke(n, ok)))
  {
    if n in sys.joins && sys.joins[n].failed && ok && sys.joins[n].lease in sys.etcd.live {
      DropKeepsInv(sys, sys.joins[n].lease, true);
    }
  }

  lemma TickKeepsInv(sys: System, d: nat)
    requires Inv(sys)
    ensures Inv(sys.(now := sys.now + d))
  {
  }

  /** Every step keeps the invariant. */
  lemma StepKeepsInv(w: Weight, sys: System, a: Action)
    requires Inv(sys)
    ensures Inv(Step(w, sys, a))
  {
    hide ProcessInv, JoinInv, StoreOk;
    match a
    case Tick(d) => TickKeepsInv(sys, d);
    case Expire(l) => if l in sys.etcd.live && sys.etcd.live[l] <= sys.now { DropKeepsInv(sys, l, false); }
    case RevokeLease(l) => if l in sys.etcd.live { DropKeepsInv(sys, l, true); }
    case Crash(_) =>
    case Round(n, call, ok) => RoundKeepsInv(w, sys, n, call, ok);
    case RenewLease(n) =>
      if n in sys.nodes && sys.nodes[n].lease in sys.etcd.live && !sys.nodes[n].closed {
        RenewKeepsInv(sys, n);
      }
    case ReceiveAck(n, at) => ReceiveKeepsInv(sys, n, at);
    case Mark(n, shard) => MarkKeepsInv(sys, n, shard);
    case Close(n, ok) => CloseKeepsInv(sys, n, ok);
    case JoinRevoke(n, ok) => JoinRevokeKeepsInv(sys, n, ok);
    case JoinGrant(n, ttl) => GrantKeepsInv(sys, n, ttl);
    case JoinPut(n, ok) => PutKeepsInv(sys, n, ok);
    case JoinStart(n, ok) => StartKeepsInv(sys, n, ok);
  }

  lemma {:induction false} RunKeepsInv(w: Weight, sys: System, acts: seq<Action>)
    requires Inv(sys)
    ensures Inv(Run(w, sys, acts))
  {
    if acts != [] {
      var k := |acts| - 1;
      RunKeepsInv(w, sys, acts[..k]);
      StepKeepsInv(w, Run(w, sys, acts[..k]), acts[k]);
    }
  }

  ghost predicate Reachable(w: Weight, sys: System) {
    exists acts :: sys == Run(w, Init, acts)
  }

  lemma ReachableInv(w: Weight, sys: System)
    requires Reachable(w, sys)
    ensures Inv(sys)
  {
    var acts :| sys == Run(w, Init, acts);
    RunKeepsInv(w, Init, acts);
  }
}
