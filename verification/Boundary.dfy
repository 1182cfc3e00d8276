/** Runs that leave firm ground: each condition of exclusive serving is needed. The runs are concrete,
    and they work for every shard. */
module Boundary {
  import opened Strings
  import opened Placement
  import opened Reconciling
  import opened Etcd
  import opened Protocol
  import opened Safety
  import opened Serving
  import opened Orphans

  /** Node n's round moved on; the clock, the leases, the members and everyone else did not. */
  ghost predicate Framed(sys: System, sys': System, n: string) {
    && n in sys.nodes && n in sys'.nodes
    && sys'.now == sys.now && sys'.joins == sys.joins
    && sys'.nodes == sys.nodes[n := sys'.nodes[n]]
    && sys'.etcd.live == sys.etcd.live && sys'.etcd.members == sys.etcd.members
    && sys'.etcd.revoked == sys.etcd.revoked && sys'.etcd.grants == sys.etcd.grants
    && var nd, nd' := sys.nodes[n], sys'.nodes[n];
    && nd'.lease == nd.lease && nd'.ttl == nd.ttl && nd'.stamp == nd.stamp && nd'.granted == nd.granted
    && nd'.acks == nd.acks && nd'.closed == nd.closed
  }

  lemma Call1(w: Weight, sys: System, n: string, call: Call) returns (sys': System)
    requires n in sys.nodes && !sys.nodes[n].closed && Enabled(sys.etcd, sys.nodes[n], call)
    ensures sys' == Step(w, sys, Round(n, call, true)) && Framed(sys, sys', n)
    ensures (sys'.etcd, sys'.nodes[n]) == NodeStep(w, sys.etcd, n, sys.nodes[n], call, true)
  {
    sys' := Step(w, sys, Round(n, call, true));
    NodeStepFrame(w, sys.etcd, n, sys.nodes[n], call, true);
    hide NodeStep;
  }

  lemma FramedTrans(sys: System, mid: System, sys': System, n: string)
    requires Framed(sys, mid, n) && Framed(mid, sys', n)
    ensures Framed(sys, sys', n)
  {
  }

  lemma RunCons(w: Weight, sys: System, a: Action, acts: seq<Action>)
    ensures Run(w, sys, [a] + acts) == Run(w, Step(w, sys, a), acts)
  {
    RunConcat(w, sys, [a], acts);
    assert Run(w, sys, [a]) == Step(w, Run(w, sys, []), a) by {
      assert [a][..0] == [];
    }
  }

  lemma {:induction false} ClaimAll(w: Weight, sys: System, n: string) returns (acts: seq<Action>, sys': System)
    requires n in sys.nodes && !sys.nodes[n].closed && sys.nodes[n].lease in sys.etcd.live
    requires sys.nodes[n].pc.Applying? && sys.nodes[n].pc.todo == []
    requires forall s :: s in sys.nodes[n].pc.claim ==> s !in sys.etcd.shards || Names(sys.etcd, s, n)
    ensures sys' == Run(w, sys, acts) && Framed(sys, sys', n)
    ensures var pc, pc' := sys.nodes[n].pc, sys'.nodes[n].pc;
            pc'.Applying? && pc'.claim == [] && pc'.todo == [] && pc'.release == pc.release
    ensures forall s :: Names(sys.etcd, s, n) || s in sys.nodes[n].pc.claim ==> Names(sys'.etcd, s, n)
    decreases |sys.nodes[n].pc.claim|
  {
    var claim := sys.nodes[n].pc.claim;
    if claim == [] {
      acts, sys' := [], sys;
    } else {
      var a := Round(n, ClaimNext, true);
      var mid := Call1(w, sys, n, ClaimNext);
      assert forall s :: s in claim ==> s == claim[0] || s in claim[1..];
      assert forall s :: s in claim[1..] ==> s in claim;
      assert mid.nodes[n].pc == sys.nodes[n].pc.(claim := claim[1..], clean := mid.nodes[n].pc.clean);
      assert Names(mid.etcd, claim[0], n);
      assert forall s :: s != claim[0] ==>
          (s in mid.etcd.shards <==> s in sys.etcd.shards) && (Names(mid.etcd, s, n) <==> Names(sys.etcd, s, n));
      hide Step, NodeStep;
      acts, sys' := ClaimAll(w, mid, n);
      FramedTrans(sys, mid, sys', n);
      RunCons(w, sys, a, acts);
      acts := [a] + acts;
    }
  }

  lemma {:induction false} RebindAll(w: Weight, sys: System, n: string) returns (acts: seq<Action>, sys': System)
    requires n in sys.nodes && !sys.nodes[n].closed && sys.nodes[n].pc.Rebinding?
    requires |sys.nodes[n].pc.om| == ShardCount && sys.nodes[n].pc.next <= ShardCount
    ensures sys' == Run(w, sys, acts) && Framed(sys, sys', n)
    ensures var pc, nd' := sys.nodes[n].pc, sys'.nodes[n];
            nd'.pc == Idle && nd'.owned == Cached(pc.om, n) && nd'.releasing <= (set s | s in pc.release)
    ensures forall s :: Names(sys.etcd, s, n) ==> Names(sys'.etcd, s, n)
    decreases ShardCount - sys.nodes[n].pc.next
  {
    if sys.nodes[n].pc.next == ShardCount {
      sys' := Call1(w, sys, n, Install);
      acts := [Round(n, Install, true)];
      RunCons(w, sys, acts[0], []);
      assert acts == [acts[0]] + [];
    } else {
      var a := Round(n, RebindNext, true);
      var mid := Call1(w, sys, n, RebindNext);
      assert mid.nodes[n].pc.next == sys.nodes[n].pc.next + 1 && mid.nodes[n].pc.om == sys.nodes[n].pc.om
             && mid.nodes[n].pc.release == sys.nodes[n].pc.release;
      assert forall s :: Names(sys.etcd, s, n) ==> Names(mid.etcd, s, n);
      hide Step, NodeStep;
      acts, sys' := RebindAll(w, mid, n);
      FramedTrans(sys, mid, sys', n);
      RunCons(w, sys, a, acts);
      acts := [a] + acts;
    }
  }

  lemma ReachRun(w: Weight, sys: System, acts: seq<Action>)
    requires Reachable(w, sys)
    ensures Reachable(w, Run(w, sys, acts))
  {
    var before :| sys == Run(w, Init, before);
    RunConcat(w, Init, before, acts);
  }

  lemma ReachStep(w: Weight, sys: System, a: Action) returns (sys': System)
    requires Reachable(w, sys)
    ensures sys' == Step(w, sys, a) && Reachable(w, sys')
  {
    sys' := Step(w, sys, a);
    ReachRun(w, sys, [a]);
    RunCons(w, sys, a, []);
    assert [a] == [a] + [];
  }

  lemma OwnersNamed(w: Weight, sys: System)
    requires Reachable(w, sys)
    ensures forall s :: s in sys.etcd.shards ==>
              && var k := sys.etcd.shards[s];
              && IsShard(s) && k.owner != "" && k.lease in sys.etcd.live && Granted(sys.etcd, k.lease, k.owner)
    ensures forall l :: l in sys.etcd.live ==> l < |sys.etcd.grants|
  {
    ReachableInv(w, sys);
    assert forall s :: s in sys.etcd.shards ==> KeyOk(sys.etcd, s);
  }

  /** A round begins: the node lists the members, loads the map, and has nothing to release. */
  lemma RoundBegins(w: Weight, sys: System, n: string, ms: seq<string>) returns (sys': System)
    requires Reachable(w, sys) && n in sys.nodes && n != "" && !sys.nodes[n].closed && sys.nodes[n].pc.Idle?
    requires Listing(ms, sys.etcd.members.Keys)
    requires forall s :: Names(sys.etcd, s, n) ==> Suggested(w, s, ms) == n
    ensures Reachable(w, sys') && Framed(sys, sys', n) && sys'.etcd == sys.etcd
    ensures sys'.nodes[n] == sys.nodes[n].(pc := Applying(Claims(w, n, ms, LoadShardMap(sys.etcd)), [], false, [], true))
  {
    hide Reachable, Step, Run;
    var s1 := Call1(w, sys, n, ListMembers(ms));
    var r1 := ReachStep(w, sys, Round(n, ListMembers(ms), true));
    sys' := Call1(w, s1, n, LoadMap);
    var r2 := ReachStep(w, s1, Round(n, LoadMap, true));
    NothingToRelease(w, sys.etcd, n, ms);
    FramedTrans(sys, s1, sys', n);
    hide Claims, Releases;
  }

  /** Everything is claimed and nothing is being released: reload, rebind and install. */
  lemma RoundEnds(w: Weight, sys: System, n: string) returns (sys': System)
    requires Reachable(w, sys) && n in sys.nodes && n != "" && !sys.nodes[n].closed
    requires Enabled(sys.etcd, sys.nodes[n], Reload) && sys.nodes[n].pc.release == []
    ensures Reachable(w, sys') && Framed(sys, sys', n) && sys'.nodes[n].pc == Idle
    ensures forall s :: IsShard(s) && Names(sys.etcd, s, n) ==>
              s in sys'.nodes[n].owned && s !in sys'.nodes[n].releasing && Names(sys'.etcd, s, n)
  {
    hide Reachable, Step, Run;
    var s1 := Call1(w, sys, n, Reload);
    var r1 := ReachStep(w, sys, Round(n, Reload, true));
    var acts;
    acts, sys' := RebindAll(w, s1, n);
    ReachRun(w, s1, acts);
    FramedTrans(sys, s1, sys', n);
  }

  /** A node that finds nothing of its own misplaced claims all it is the rendezvous owner of, and
      serves it. */
  lemma RoundServes(w: Weight, sys: System, n: string, ms: seq<string>) returns (sys': System)
    requires Reachable(w, sys) && n in sys.nodes && n != "" && !sys.nodes[n].closed && sys.nodes[n].pc.Idle?
    requires sys.nodes[n].lease in sys.etcd.live && Listing(ms, sys.etcd.members.Keys)
    requires forall s :: Names(sys.etcd, s, n) ==> Suggested(w, s, ms) == n
    ensures Reachable(w, sys') && Framed(sys, sys', n) && sys'.nodes[n].pc == Idle
    ensures forall s :: IsShard(s) && Suggested(w, s, ms) == n && (s in sys.etcd.shards ==> Names(sys.etcd, s, n)) ==>
              s in sys'.nodes[n].owned && s !in sys'.nodes[n].releasing && Names(sys'.etcd, s, n)
  {
    OwnersNamed(w, sys);
    hide Reachable, Step, Run;
    var s1 := RoundBegins(w, sys, n, ms);
    ListsExact(w, n, ms, LoadShardMap(sys.etcd));
    hide Claims, Releases;
    var acts, s2 := ClaimAll(w, s1, n);
    ReachRun(w, s1, acts);
    sys' := RoundEnds(w, s2, n);
    FramedTrans(sys, s1, s2, n);
    FramedTrans(sys, s2, sys', n);
  }

  lemma NothingToRelease(w: Weight, e: Store, n: string, ms: seq<string>)
    requires n != "" && forall s :: Names(e, s, n) ==> Suggested(w, s, ms) == n
    ensures Releases(w, n, ms, LoadShardMap(e)) == []
  {
    ListsExact(w, n, ms, LoadShardMap(e));
    var r := Releases(w, n, ms, LoadShardMap(e));
    if r != [] {
      var s := SomeElement(r);
    }
  }

  /** A process joins without a failure, in no time. */
  lemma JoinUp(w: Weight, sys: System, n: string, ttl: nat) returns (sys': System)
    requires Reachable(w, sys) && n != "" && n !in sys.joins && n !in sys.nodes
    ensures Reachable(w, sys')
    ensures var l := |sys.etcd.grants|;
            && sys'.now == sys.now && sys'.joins == sys.joins
            && sys'.nodes == sys.nodes[n := Node(l, ttl, sys.now, sys.now, {}, map[], {}, {}, Idle, 0, false, false)]
            && sys'.etcd == PutMember(Grant(sys.etcd, n, sys.now + LeaseTime(ttl)), n, l).0
  {
    hide Reachable;
    var s1 := ReachStep(w, sys, JoinGrant(n, ttl));
    var s2 := ReachStep(w, s1, JoinPut(n, true));
    sys' := ReachStep(w, s2, JoinStart(n, true));
  }

  lemma SoloListing(w: Weight, n: string)
    requires n != ""
    ensures Listing([n], {n}) && forall s :: Suggested(w, s, [n]) == n
  {
  }

  /** The first process: node "a" joins an empty store and comes to serve every shard. */
  lemma AloneServes(w: Weight) returns (sys: System)
    ensures Reachable(w, sys) && sys.now == 1 && sys.joins == map[] && sys.nodes.Keys == {"a"}
    ensures sys.etcd.grants == ["a"] && sys.etcd.live == map[0 := 1 + LeaseTime(10)] && sys.etcd.revoked == {}
    ensures sys.etcd.members == map["a" := 0]
    ensures var nd := sys.nodes["a"];
            && nd.lease == 0 && nd.ttl == 10 && nd.stamp == 1 && nd.granted == 1 && nd.acks == {} && !nd.closed
            && nd.pc == Idle && forall s :: IsShard(s) ==> s in nd.owned && s !in nd.releasing && Names(sys.etcd, s, "a")
  {
    assert Reachable(w, Init) by {
      assert Init == Run(w, Init, []);
    }
    var s1 := JoinUp(w, Init, "a", 10);
    SoloListing(w, "a");
    sys := RoundServes(w, s1, "a", ["a"]);
  }

  /** A second process joins once no key and no member is left, and comes to serve every shard too. */
  lemma SuccessorServes(w: Weight, sys: System) returns (sys': System)
    requires Reachable(w, sys) && sys.joins == map[] && sys.nodes.Keys == {"a"}
    requires sys.etcd.shards == map[] && sys.etcd.members == map[]
    ensures Reachable(w, sys') && sys'.now == sys.now && sys'.nodes.Keys == {"a", "b"} && sys'.nodes["a"] == sys.nodes["a"]
    ensures sys'.etcd.revoked == sys.etcd.revoked
    ensures var nd := sys'.nodes["b"];
            && nd.lease == |sys.etcd.grants| && nd.ttl == 10 && nd.stamp == nd.granted == sys.now
            && forall s :: IsShard(s) ==> s in nd.owned && s !in nd.releasing
  {
    var s1 := JoinUp(w, sys, "b", 10);
    SoloListing(w, "b");
    assert s1.etcd.members.Keys == {"b"};
    sys' := RoundServes(w, s1, "b", ["b"]);
  }

  /** The end of the only lease takes every key and every member. */
  lemma LastLeaseEnds(e: Store, l: nat)
    requires e.live.Keys == {l} && (forall s :: s in e.shards ==> e.shards[s].lease in e.live)
    requires forall m :: m in e.members ==> e.members[m] == l
    ensures DropLease(e, l).shards == map[] && DropLease(e, l).members == map[]
  {
    var e' := DropLease(e, l);
    assert forall s :: s !in e'.shards;
    assert forall m :: m !in e'.members;
    assert e'.shards.Keys == {} && e'.members.Keys == {};
  }

  /** Close: the revoked lease frees the keys at once, while the closed node's stamp is still fresh. */
  lemma CloseBreaksExclusion(w: Weight, s: int) returns (sys: System)
    requires IsShard(s)
    ensures Reachable(w, sys) && Servable(sys, "a", s) && Servable(sys, "b", s)
    ensures sys.nodes["a"].closed && Timely(sys.nodes["a"]) && Timely(sys.nodes["b"])
  {
    var s1 := AloneServes(w);
    var s2 := ReachStep(w, s1, Close("a", true));
    OwnersNamed(w, s1);
    LastLeaseEnds(s1.etcd, 0);
    assert s2.etcd.shards == map[] && s2.etcd.members == map[];
    hide Step, Reachable;
    sys := SuccessorServes(w, s2);
  }

  /** A late stamp: the renewal is granted at once but received only after the lease has run out. */
  lemma LateStampBreaksExclusion(w: Weight, s: int) returns (sys: System)
    requires IsShard(s)
    ensures Reachable(w, sys) && Servable(sys, "a", s) && Servable(sys, "b", s)
    ensures sys.etcd.revoked == {} && !Timely(sys.nodes["a"]) && Timely(sys.nodes["b"])
  {
    var s1 := AloneServes(w);
    OwnersNamed(w, s1);
    var s2 := ReachStep(w, s1, RenewLease("a"));
    var s3 := ReachStep(w, s2, Tick(LeaseTime(10)));
    LastLeaseEnds(s3.etcd, 0);
    var s4 := ReachStep(w, s3, Expire(0));
    var s5 := ReachStep(w, s4, ReceiveAck("a", 1));
    assert s5.etcd.shards == map[] && s5.etcd.members == map[];
    hide Step, Reachable;
    sys := SuccessorServes(w, s5);
  }

  lemma NothingToClaim(w: Weight, e: Store, n: string, ms: seq<string>)
    requires n != "" && forall s :: IsShard(s) ==> Names(e, s, n)
    ensures Claims(w, n, ms, LoadShardMap(e)) == []
  {
    ListsExact(w, n, ms, LoadShardMap(e));
    var c := Claims(w, n, ms, LoadShardMap(e));
    if c != [] {
      var s := SomeElement(c);
    }
  }

  function FavourB(m: string, s: int): nat {
    if m == "b" then 1 else 0
  }

  /** Node "a" crashes and comes up again within its TTL: its keys still ride the first lease. */
  lemma Restarts() returns (sys: System)
    ensures Reachable(FavourB, sys) && sys.now == 1 && sys.joins == map[] && sys.nodes.Keys == {"a"}
    ensures sys.etcd.grants == ["a", "a"] && sys.etcd.revoked == {} && sys.etcd.members == map["a" := 1]
    ensures sys.etcd.live == map[0 := 1 + LeaseTime(10), 1 := 1 + LeaseTime(10)]
    ensures forall s :: s in sys.etcd.shards ==> sys.etcd.shards[s].lease == 0
    ensures forall s :: IsShard(s) ==> Names(sys.etcd, s, "a")
    ensures sys.nodes["a"] == Node(1, 10, 1, 1, {}, map[], {}, {}, Idle, 0, false, false)
  {
    var s1 := AloneServes(FavourB);
    OwnersNamed(FavourB, s1);
    var s2 := ReachStep(FavourB, s1, Crash("a"));
    assert s2 == s1.(nodes := map[]);
    hide Reachable, Step;
    sys := JoinUp(FavourB, s2, "a", 10);
  }

  /** The restarted node loads, under its new lease, keys that ride the old one. */
  lemma RestartLoads() returns (sys: System)
    ensures Reachable(FavourB, sys) && sys.now == 1 && sys.joins == map[] && sys.nodes.Keys == {"a"}
    ensures sys.etcd.grants == ["a", "a"] && sys.etcd.revoked == {} && sys.etcd.members == map["a" := 1]
    ensures sys.etcd.live == map[0 := 1 + LeaseTime(10), 1 := 1 + LeaseTime(10)]
    ensures forall s :: s in sys.etcd.shards ==> sys.etcd.shards[s].lease == 0
    ensures var nd := sys.nodes["a"];
            && nd.lease == 1 && nd.ttl == 10 && nd.stamp == nd.granted == 1 && nd.acks == {} && !nd.closed
            && nd.pc.Rebinding? && |nd.pc.om| == ShardCount && nd.pc.next == 0 && nd.pc.release == []
            && forall s :: IsShard(s) ==> s in Cached(nd.pc.om, "a")
  {
    hide Reachable, Step;
    var s1 := Restarts();
    SoloListing(FavourB, "a");
    assert s1.etcd.members.Keys == {"a"};
    var s2 := RoundBegins(FavourB, s1, "a", ["a"]);
    NothingToClaim(FavourB, s1.etcd, "a", ["a"]);
    hide Claims, LoadShardMap, Listing, Suggested;
    sys := Call1(FavourB, s2, "a", Reload);
    var r := ReachStep(FavourB, s2, Round("a", Reload, true));
  }

  /** Orphaned owners: the lease the restarted node registered under runs out before the old one is
      noticed, and every shard is left with an owner that is no member. */
  lemma RestartOrphans(s: int) returns (sys: System)
    requires IsShard(s)
    ensures Reachable(FavourB, sys) && sys.etcd.members == map[] && Names(sys.etcd, s, "a") && !NoOrphans(sys.etcd)
  {
    hide Reachable;
    var s1 := Restarts();
    var s2 := ReachStep(FavourB, s1, Tick(LeaseTime(10)));
    sys := ReachStep(FavourB, s2, Expire(1));
    assert sys.etcd == DropLease(s1.etcd, 1);
    hide Step;
    assert sys.etcd.members.Keys == {};
    assert Names(s1.etcd, s, "a");
  }

  /** Both leases have run their time, and only the new one is renewed. */
  lemma KeepsNewLease(sys: System) returns (sys': System)
    requires Reachable(FavourB, sys) && sys.now == 1 && sys.nodes.Keys == {"a"}
    requires sys.etcd.live == map[0 := 1 + LeaseTime(10), 1 := 1 + LeaseTime(10)]
    requires var nd := sys.nodes["a"]; nd.lease == 1 && nd.ttl == 10 && nd.acks == {} && !nd.closed
    ensures Reachable(FavourB, sys') && sys'.now == 1 + LeaseTime(10) && sys'.joins == sys.joins
    ensures sys'.etcd == sys.etcd.(live := sys'.etcd.live) && 0 in sys'.etcd.live && sys'.etcd.live[0] == sys'.now
    ensures sys'.nodes == sys.nodes["a" := sys.nodes["a"].(stamp := sys'.now, granted := sys'.now)]
  {
    hide Reachable;
    var s1 := ReachStep(FavourB, sys, Tick(LeaseTime(10)));
    var s2 := ReachStep(FavourB, s1, RenewLease("a"));
    sys' := ReachStep(FavourB, s2, ReceiveAck("a", s1.now));
  }

  /** The old lease runs out while the restarted node keeps its new one alive. */
  lemma OldLeaseEnds(sys: System) returns (sys': System)
    requires Reachable(FavourB, sys) && sys.now == 1 && sys.nodes.Keys == {"a"}
    requires sys.etcd.live == map[0 := 1 + LeaseTime(10), 1 := 1 + LeaseTime(10)]
    requires sys.etcd.revoked == {} && sys.etcd.members == map["a" := 1]
    requires forall s :: s in sys.etcd.shards ==> sys.etcd.shards[s].lease == 0
    requires var nd := sys.nodes["a"]; nd.lease == 1 && nd.ttl == 10 && nd.acks == {} && !nd.closed
    ensures Reachable(FavourB, sys') && sys'.now == 1 + LeaseTime(10) && sys'.joins == sys.joins && sys'.nodes.Keys == {"a"}
    ensures sys'.etcd.shards == map[] && sys'.etcd.members == map["a" := 1] && sys'.etcd.revoked == {}
    ensures sys'.etcd.grants == sys.etcd.grants
    ensures sys'.nodes["a"] == sys.nodes["a"].(stamp := sys'.now, granted := sys'.now)
  {
    hide Reachable;
    var s1 := KeepsNewLease(sys);
    sys' := ReachStep(FavourB, s1, Expire(0));
    assert sys' == s1.(etcd := DropLease(s1.etcd, 0));
    hide Step;
    assert forall s :: s !in sys'.etcd.shards;
    assert sys'.etcd.shards.Keys == {};
    assert sys'.etcd.members == map["a" := 1];
  }

  lemma BothListed()
    ensures Listing(["a", "b"], {"a", "b"}) && forall s :: Suggested(FavourB, s, ["a", "b"]) == "b"
  {
    assert ["a", "b"][..1] == ["a"];
    SoloListing(FavourB, "a");
  }

  /** An ignored rebind: node "b" claims every shard in between, the rebinds are rejected, and the
      round installs the view it loaded before. */
  lemma FailedRebindBreaksExclusion(s: int) returns (sys: System)
    requires IsShard(s)
    ensures Reachable(FavourB, sys) && Servable(sys, "a", s) && Servable(sys, "b", s)
    ensures sys.etcd.revoked == {} && Timely(sys.nodes["a"]) && Timely(sys.nodes["b"])
  {
    hide Reachable, Step;
    var s1 := RestartLoads();
    var s2 := OldLeaseEnds(s1);
    var s3 := JoinUp(FavourB, s2, "b", 10);
    BothListed();
    assert s3.etcd.members.Keys == {"a", "b"};
    hide Listing, Suggested;
    var s4 := RoundServes(FavourB, s3, "b", ["a", "b"]);
    var acts;
    acts, sys := RebindAll(FavourB, s4, "a");
    ReachRun(FavourB, s4, acts);
  }
}
