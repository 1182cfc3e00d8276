/** The control-plane agent in the source's own form: objects whose methods update their fields and
    call etcd, proved to take exactly steps of the protocol. What the rest of the world does between two
    calls is a parameter, so the results hold for every interleaving. */
module Control {
  import opened Strings
  import opened Placement
  import opened Reconciling
  import opened Etcd
  import opened Protocol
  import opened Safety
  import opened Rounds

  /** An action of the environment of node `me`: the clock, the server, or another process. */
  predicate Foreign(a: Action, me: string) {
    match a
    case Tick(_) => true
    case Expire(_) => true
    case RevokeLease(_) => true
    case RenewLease(_) => true
    case _ => a.n != me
  }

  ghost predicate AllForeign(env: Schedule, me: string) {
    forall k, a :: a in env(k).others ==> Foreign(a, me)
  }

  lemma AloneSucceeds(env: Schedule)
    ensures Alone(env) ==> forall k :: env(k).ok
  {
  }

  lemma ForeignKeeps(w: Weight, sys: System, a: Action, me: string)
    requires Foreign(a, me)
    ensures me in sys.nodes ==>
              me in Step(w, sys, a).nodes
              && Step(w, sys, a).nodes[me] == sys.nodes[me].(acks := Step(w, sys, a).nodes[me].acks)
  {
  }

  lemma {:induction false} RunForeign(w: Weight, sys: System, acts: seq<Action>, me: string)
    requires forall a :: a in acts ==> Foreign(a, me)
    ensures me in sys.nodes ==>
              me in Run(w, sys, acts).nodes
              && Run(w, sys, acts).nodes[me] == sys.nodes[me].(acks := Run(w, sys, acts).nodes[me].acks)
  {
    hide Step, Foreign;
    if acts != [] {
      var k := |acts| - 1;
      assert acts[k] in acts && forall a :: a in acts[..k] ==> a in acts;
      RunForeign(w, sys, acts[..k], me);
      ForeignKeeps(w, Run(w, sys, acts[..k]), acts[k], me);
    }
  }

  /** The environment of node `me` neither starts, stops nor advances a process of that id. */
  ghost predicate SameJoin(sys: System, sys': System, me: string) {
    && (me in sys'.joins <==> me in sys.joins) && (me in sys'.nodes <==> me in sys.nodes)
    && (me in sys.joins && me in sys'.joins ==> sys'.joins[me] == sys.joins[me])
  }

  lemma ForeignJoinKeeps(w: Weight, sys: System, a: Action, me: string)
    requires Foreign(a, me)
    ensures SameJoin(sys, Step(w, sys, a), me)
  {
    hide NodeStep;
  }

  lemma {:induction false} RunForeignJoin(w: Weight, sys: System, acts: seq<Action>, me: string)
    requires forall a :: a in acts ==> Foreign(a, me)
    ensures SameJoin(sys, Run(w, sys, acts), me)
  {
    hide Step, Foreign;
    if acts != [] {
      var k := |acts| - 1;
      assert acts[k] in acts && forall a :: a in acts[..k] ==> a in acts;
      RunForeignJoin(w, sys, acts[..k], me);
      ForeignJoinKeeps(w, Run(w, sys, acts[..k]), acts[k], me);
    }
  }

  /** The member keys in the order etcd lists them. */
  method SortedKeys(live: set<string>) returns (members: seq<string>)
    requires "" !in live
    ensures Listing(members, live)
  {
    members := [];
    var rest := live;
    while rest != {}
      invariant StrictlySorted(members) && rest <= live
      invariant forall m :: m in members ==> m in live && m !in rest
      invariant forall m :: m in live && m !in rest ==> m in members
      invariant forall m, r :: m in members && r in rest ==> Less(m, r)
      decreases |rest|
    {
      var least := LeastKey(rest);
      members := members + [least];
      rest := rest - {least};
    }
  }

  method LeastKey(keys: set<string>) returns (least: string)
    requires keys != {}
    ensures least in keys && forall k :: k in keys && k != least ==> Less(least, k)
  {
    least :| least in keys;
    var seen := {least};
    while seen != keys
      invariant least in seen && seen <= keys
      invariant forall k :: k in seen && k != least ==> Less(least, k)
      decreases |keys - seen|
    {
      var k :| k in keys - seen;
      LessTotal(least, k);
      if Less(k, least) {
        forall x | x in seen && x != least ensures Less(k, x) {
          LessTransitive(k, least, x);
        }
        least := k;
      }
      assert keys - (seen + {k}) == (keys - seen) - {k};
      seen := seen + {k};
    }
  }

  /** `rows` are the keys a read of the ownership prefix returned, in whatever order. */
  ghost predicate RowsOf(rows: seq<int>, e: Store) {
    (forall s :: s in rows ==> s in e.shards) && (forall s :: IsShard(s) && s in e.shards ==> s in rows)
  }

  method GetRows(e: Store) returns (rows: seq<int>)
    ensures RowsOf(rows, e)
  {
    rows := [];
    for s := 0 to ShardCount
      invariant forall x :: x in rows ==> x in e.shards
      invariant forall x :: 0 <= x < s && x in e.shards ==> x in rows
    {
      if s in e.shards {
        rows := rows + [s];
      }
    }
  }

  /** The rows of the ownership prefix written into a fixed array; a key that is no shard is skipped. */
  method FillOwnershipMap(e: Store, rows: seq<int>) returns (om: seq<OwnerInfo>)
    requires RowsOf(rows, e)
    ensures om == LoadOwnershipMap(e)
  {
    var slots := new OwnerInfo[ShardCount](_ => Unowned);
    for i := 0 to |rows|
      invariant forall s :: IsShard(s) ==> slots[s] == if s in rows[..i] then e.shards[s] else Unowned
    {
      var s := rows[i];
      if 0 <= s < ShardCount {
        slots[s] := e.shards[s];
      }
      assert rows[..i + 1] == rows[..i] + [s];
    }
    assert rows[..|rows|] == rows;
    om := slots[..];
  }

  method FillShardMap(e: Store, rows: seq<int>) returns (sm: ShardMap)
    requires RowsOf(rows, e)
    ensures sm == LoadShardMap(e)
  {
    var slots := new string[ShardCount](_ => "");
    for i := 0 to |rows|
      invariant forall s :: IsShard(s) ==> slots[s] == if s in rows[..i] then e.shards[s].owner else ""
    {
      var s := rows[i];
      if 0 <= s < ShardCount {
        slots[s] := e.shards[s].owner;
      }
      assert rows[..i + 1] == rows[..i] + [s];
    }
    assert rows[..|rows|] == rows;
    sm := slots[..];
  }

  // -- The world outside one process --

  /** What the rest of the world knows of a running process: its lease and its keepalive stream. */
  function Session(lease: nat, ttl: nat, acks: set<nat>, closed: bool): Node {
    Node(lease, ttl, 0, 0, acks, map[], {}, {}, Idle, 0, false, closed)
  }

  /** The system without the memory of the process `me`. */
  function Outside(sys: System, me: string): System {
    sys.(joins := sys.joins - {me},
         nodes := if me in sys.nodes
                  then var nd := sys.nodes[me]; sys.nodes[me := Session(nd.lease, nd.ttl, nd.acks, nd.closed)]
                  else sys.nodes)
  }

  lemma OthersRoundOutside(w: Weight, sys: System, n: string, call: Call, ok: bool, me: string)
    requires n != me
    ensures RoundStep(w, Outside(sys, me), n, call, ok) == Outside(RoundStep(w, sys, n, call, ok), me)
  {
    hide NodeStep;
    assert RoundStep(w, Outside(sys, me), n, call, ok).nodes == Outside(RoundStep(w, sys, n, call, ok), me).nodes;
  }

  lemma OthersProcessOutside(sys: System, a: Action, me: string)
    requires a.RenewLease? || ((a.ReceiveAck? || a.Close? || a.Mark?) && a.n != me)
    ensures ProcessStep(Outside(sys, me), a) == Outside(ProcessStep(sys, a), me)
  {
    hide Renew, Revoke;
    assert ProcessStep(Outside(sys, me), a).nodes == Outside(ProcessStep(sys, a), me).nodes;
  }

  lemma OthersGrantOutside(sys: System, a: Action, me: string)
    requires a.JoinGrant? && a.n != me
    ensures JoinStep(Outside(sys, me), a) == Outside(JoinStep(sys, a), me)
  {
    hide Grant, PutMember, Revoke;
    assert JoinStep(Outside(sys, me), a).joins == Outside(JoinStep(sys, a), me).joins;
    assert JoinStep(Outside(sys, me), a).nodes == Outside(JoinStep(sys, a), me).nodes;
  }

  lemma OthersPutOutside(sys: System, a: Action, me: string)
    requires (a.JoinPut? || a.JoinRevoke?) && a.n != me
    ensures JoinStep(Outside(sys, me), a) == Outside(JoinStep(sys, a), me)
  {
    hide Grant, PutMember, Revoke;
    assert JoinStep(Outside(sys, me), a).joins == Outside(JoinStep(sys, a), me).joins;
    assert JoinStep(Outside(sys, me), a).nodes == Outside(JoinStep(sys, a), me).nodes;
  }

  lemma OthersStartOutside(sys: System, a: Action, me: string)
    requires a.JoinStart? && a.n != me
    ensures JoinStep(Outside(sys, me), a) == Outside(JoinStep(sys, a), me)
  {
    hide Grant, PutMember, Revoke;
    assert JoinStep(Outside(sys, me), a).joins == Outside(JoinStep(sys, a), me).joins;
    assert JoinStep(Outside(sys, me), a).nodes == Outside(JoinStep(sys, a), me).nodes;
  }

  /** What others do looks the same from outside. */
  lemma ForeignOutside(w: Weight, sys: System, a: Action, me: string)
    requires Foreign(a, me)
    ensures Step(w, Outside(sys, me), a) == Outside(Step(w, sys, a), me)
  {
    match a
    case Round(n, call, ok) =>
      hide Outside, RoundStep;
      OthersRoundOutside(w, sys, n, call, ok, me);
    case RenewLease(_) => hide Outside, ProcessStep; OthersProcessOutside(sys, a, me);
    case ReceiveAck(_, _) => hide Outside, ProcessStep; OthersProcessOutside(sys, a, me);
    case Close(_, _) => hide Outside, ProcessStep; OthersProcessOutside(sys, a, me);
    case Mark(_, _) => hide Outside, ProcessStep; OthersProcessOutside(sys, a, me);
    case Tick(_) =>
    case Expire(_) => hide DropLease;
    case RevokeLease(_) => hide Revoke;
    case Crash(n) =>
      assert Step(w, Outside(sys, me), a).joins == Outside(Step(w, sys, a), me).joins;
      assert Step(w, Outside(sys, me), a).nodes == Outside(Step(w, sys, a), me).nodes;
    case JoinGrant(_, _) => hide Outside, JoinStep; OthersGrantOutside(sys, a, me);
    case JoinStart(_, _) => hide Outside, JoinStep; OthersStartOutside(sys, a, me);
    case _ => hide Outside, JoinStep; OthersPutOutside(sys, a, me);
  }

  /** Closing shows in the store and ends the keepalive stream. */
  lemma CloseOutside(w: Weight, sys: System, me: string, ok: bool)
    requires me in sys.nodes && sys.nodes[me].pc.Idle?
    ensures var out := Outside(sys, me);
            Outside(Step(w, sys, Close(me, ok)), me) ==
              out.(etcd := if ok then Revoke(sys.etcd, sys.nodes[me].lease) else sys.etcd,
                   nodes := out.nodes[me := out.nodes[me].(closed := true)])
    ensures Step(w, sys, Close(me, ok)).nodes == sys.nodes[me := sys.nodes[me].(closed := true)]
  {
    hide Revoke;
  }

  /** A call of this node's round shows only in the store. */
  lemma RoundOutside(w: Weight, sys: System, me: string, call: Call, ok: bool)
    requires me in sys.nodes && !sys.nodes[me].closed && Enabled(sys.etcd, sys.nodes[me], call)
    ensures Outside(Step(w, sys, Round(me, call, ok)), me) ==
              Outside(sys, me).(etcd := NodeStep(w, sys.etcd, me, sys.nodes[me], call, ok).0)
  {
    NodeStepFrame(w, sys.etcd, me, sys.nodes[me], call, ok);
    hide NodeStep;
  }

  /** The effect of an etcd call that may fail: nothing at all if it does. */
  function Answer(e: Store, x: (Store, Txn), ok: bool): (Store, Txn) {
    if ok then x else (e, Failed)
  }

  /** The world as the process of node `me` meets it: `world` is what its etcd calls act on, with the
      arguments it gives them. `sys` and `trace` are history: the protocol state, and how it came about. */
  class Cluster {
    const w: Weight
    const me: string
    var world: System
    ghost var sys: System
    ghost var trace: seq<Action>

    ghost predicate Traced()
      reads this
    {
      sys == Run(w, Init, trace)
    }

    /** The world is what the protocol says, seen from outside this process. */
    ghost predicate Valid()
      reads this
    {
      Traced() && world == Outside(sys, me)
    }

    constructor (w: Weight, me: string)
      ensures Valid() && sys == Init && this.w == w && this.me == me && trace == []
    {
      this.w := w;
      this.me := me;
      world, sys, trace := Init, Init, [];
      new;
      assert Init.joins - {me} == map[];
    }

    /** One step of the protocol, in the history only. */
    ghost method Follow(a: Action)
      requires Traced()
      modifies this`sys, this`trace
      ensures Traced() && sys == Step(w, old(sys), a) && trace == old(trace) + [a]
    {
      hide Step;
      RunSnoc(w, Init, trace, a);
      sys := Step(w, sys, a);
      trace := trace + [a];
    }

    /** The rest of the world moves. */
    method Interfere(others: seq<Action>)
      requires Valid() && forall a :: a in others ==> Foreign(a, me)
      modifies this
      ensures Valid() && sys == Run(w, old(sys), others) && trace == old(trace) + others
    {
      hide Step, Foreign, Outside;
      for i := 0 to |others|
        invariant Valid() && sys == Run(w, old(sys), others[..i]) && trace == old(trace) + others[..i]
      {
        assert others[..i + 1] == others[..i] + [others[i]];
        RunSnoc(w, old(sys), others[..i], others[i]);
        ForeignOutside(w, sys, others[i], me);
        world := Step(w, world, others[i]);
        Follow(others[i]);
      }
      assert others[..|others|] == others;
    }

    // -- etcd as its client calls it --

    method ClaimShard(s: int, n: string, lease: nat, ok: bool) returns (r: Txn)
      modifies this`world
      ensures var x := Answer(old(world).etcd, Claim(old(world).etcd, s, n, lease), ok);
              world == old(world).(etcd := x.0) && r == x.1
    {
      var x := Answer(world.etcd, Claim(world.etcd, s, n, lease), ok);
      world, r := world.(etcd := x.0), x.1;
    }

    method RebindShard(s: int, n: string, lease: nat, ok: bool) returns (r: Txn)
      modifies this`world
      ensures var x := Answer(old(world).etcd, Rebind(old(world).etcd, s, n, lease), ok);
              world == old(world).(etcd := x.0) && r == x.1
    {
      var x := Answer(world.etcd, Rebind(world.etcd, s, n, lease), ok);
      world, r := world.(etcd := x.0), x.1;
    }

    method ReleaseShard(s: int, n: string, ok: bool) returns (r: Txn)
      modifies this`world
      ensures var x := Answer(old(world).etcd, Release(old(world).etcd, s, n), ok);
              world == old(world).(etcd := x.0) && r == x.1
    {
      var x := Answer(world.etcd, Release(world.etcd, s, n), ok);
      world, r := world.(etcd := x.0), x.1;
    }

    method GrantLease(n: string, ttl: nat) returns (lease: nat)
      modifies this`world
      ensures lease == |old(world).etcd.grants|
      ensures world == old(world).(etcd := Grant(old(world).etcd, n, old(world).now + LeaseTime(ttl)))
    {
      lease := |world.etcd.grants|;
      world := world.(etcd := Grant(world.etcd, n, world.now + LeaseTime(ttl)));
    }

    method PutMemberKey(n: string, lease: nat, ok: bool) returns (r: Txn)
      modifies this`world
      ensures var x := Answer(old(world).etcd, PutMember(old(world).etcd, n, lease), ok);
              world == old(world).(etcd := x.0) && r == x.1
    {
      var x := Answer(world.etcd, PutMember(world.etcd, n, lease), ok);
      world, r := world.(etcd := x.0), x.1;
    }

    method RevokeLease(lease: nat, ok: bool)
      modifies this`world
      ensures world == old(world).(etcd := if ok then Revoke(old(world).etcd, lease) else old(world).etcd)
    {
      if ok {
        world := world.(etcd := Revoke(world.etcd, lease));
      }
    }

    method StartKeepAlive(lease: nat, ttl: nat)
      modifies this`world
      ensures world == old(world).(nodes := old(world).nodes[me := Session(lease, ttl, {}, false)])
    {
      world := world.(nodes := world.nodes[me := Session(lease, ttl, {}, false)]);
    }

    method StopKeepAlive()
      requires me in world.nodes
      modifies this`world
      ensures world == old(world).(nodes := old(world).nodes[me := old(world).nodes[me].(closed := true)])
    {
      world := world.(nodes := world.nodes[me := world.nodes[me].(closed := true)]);
    }

    /** The keepalive stream hands over a renewal the server granted at time `at`. */
    method TakeAck(at: nat)
      requires me in world.nodes && at in world.nodes[me].acks
      modifies this`world
      ensures var nd := old(world).nodes[me];
              world == old(world).(nodes := old(world).nodes[me := nd.(acks := nd.acks - {at})])
    {
      var nd := world.nodes[me];
      world := world.(nodes := world.nodes[me := nd.(acks := nd.acks - {at})]);
    }
  }

  /** One catalog node's agent: its cached view, and the etcd calls it makes. */
  class Coordinator {
    const cluster: Cluster
    const nodeID: string
    const leaseID: nat
    var owned: map<int, nat>
    var releasing: set<int>

    /** The fields are what the protocol says of this node. */
    ghost predicate Mirrors()
      reads this, cluster
    {
      && cluster.Valid() && cluster.me == nodeID
      && nodeID in cluster.sys.nodes
      && var nd := cluster.sys.nodes[nodeID];
      && nd.lease == leaseID && nd.owned == owned && nd.releasing == releasing
    }

    ghost predicate Running()
      reads this, cluster
    {
      Mirrors() && !Me().closed
    }

    ghost function Me(): Node
      reads this, cluster
      requires nodeID in cluster.sys.nodes
    {
      cluster.sys.nodes[nodeID]
    }

    ghost predicate Applies(claim: seq<int>, todo: seq<int>, release: seq<int>)
      reads this, cluster
    {
      && Running()
      && Me().pc.Applying? && Me().pc.claim == claim && Me().pc.todo == todo && Me().pc.release == release
    }

    ghost predicate Rebinds(om: seq<OwnerInfo>, next: nat, release: seq<int>)
      reads this, cluster
    {
      && Running()
      && Me().pc.Rebinding? && Me().pc.om == om && Me().pc.next == next && Me().pc.release == release
      && |om| == ShardCount
    }

    /** The coordinator of a process that has just joined. */
    constructor (cluster: Cluster, nodeID: string)
      requires cluster.Valid() && cluster.me == nodeID
      requires nodeID in cluster.sys.nodes && !cluster.sys.nodes[nodeID].closed
      requires cluster.sys.nodes[nodeID].owned == map[] && cluster.sys.nodes[nodeID].releasing == {}
      ensures Running() && this.cluster == cluster && this.nodeID == nodeID
    {
      this.cluster := cluster;
      this.nodeID := nodeID;
      this.leaseID := cluster.world.nodes[nodeID].lease;
      owned := map[];
      releasing := {};
    }

    /** Anything may happen before a call, except to this node's own round. */
    method Await(turn: Turn)
      requires Running() && forall a :: a in turn.others ==> Foreign(a, nodeID)
      modifies cluster
      ensures Running() && cluster.trace == old(cluster.trace) + turn.others
      ensures Me() == old(Me()).(acks := Me().acks)
    {
      hide Run, Outside;
      RunForeign(cluster.w, cluster.sys, turn.others, nodeID);
      cluster.Interfere(turn.others);
    }

    /** The protocol takes the step this code has just taken: the store is already as that step leaves
        it. */
    ghost method Advance(call: Call, ok: bool)
      requires cluster.Traced() && cluster.me == nodeID && nodeID in cluster.sys.nodes
      requires !Me().closed && Enabled(cluster.sys.etcd, Me(), call)
      requires cluster.world ==
                 Outside(cluster.sys, nodeID).(etcd := NodeStep(cluster.w, cluster.sys.etcd, nodeID, Me(), call, ok).0)
      modifies cluster`sys, cluster`trace
      ensures cluster.Valid() && nodeID in cluster.sys.nodes
      ensures cluster.trace == old(cluster.trace) + [Round(nodeID, call, ok)]
      ensures (cluster.sys.etcd, Me()) == NodeStep(cluster.w, old(cluster.sys.etcd), nodeID, old(Me()), call, ok)
    {
      hide Run;
      RoundOutside(cluster.w, cluster.sys, nodeID, call, ok);
      hide Outside, NodeStep;
      cluster.Follow(Round(nodeID, call, ok));
    }

    /** Claim one shard under this node's lease; a failure is only logged. */
    method ClaimOne(s: int, turn: Turn, ghost claim: seq<int>, ghost release: seq<int>)
      requires Applies(claim, release, release) && !Me().pc.marked && claim != [] && claim[0] == s
      requires forall a :: a in turn.others ==> Foreign(a, nodeID)
      modifies cluster
      ensures Applies(claim[1..], release, release) && !Me().pc.marked && Me().done == old(Me().done)
      ensures cluster.trace == old(cluster.trace) + Played(turn, nodeID, ClaimNext)
    {
      hide Run, Step, Foreign;
      Await(turn);
      var _ := cluster.ClaimShard(s, nodeID, leaseID, turn.ok);
      Advance(ClaimNext, turn.ok);
    }

    /** The loop over the claim list. */
    method ApplyClaims(claim: seq<int>, ghost release: seq<int>, env: Schedule, start: nat) returns (k: nat)
      requires Applies(claim, release, release) && !Me().pc.marked && AllForeign(env, nodeID)
      modifies cluster
      ensures Applies([], release, release) && !Me().pc.marked && Me().done == old(Me().done)
      ensures cluster.trace == old(cluster.trace) + ClaimTrace(nodeID, env, start, |claim|) && k == start + |claim|
    {
      hide Run, Step, Outside;
      k := start;
      for i := 0 to |claim|
        invariant Applies(claim[i..], release, release) && !Me().pc.marked && Me().done == old(Me().done)
        invariant cluster.trace == old(cluster.trace) + ClaimTrace(nodeID, env, start, i) && k == start + i
      {
        ClaimOne(claim[i], env(k), claim[i..], release);
        k := k + 1;
      }
    }

    method MarkReleasing(shard: int)
      requires Running()
      modifies this, cluster
      ensures Running() && releasing == old(releasing) + {shard} && owned == old(owned)
      ensures cluster.world == old(cluster.world) && cluster.trace == old(cluster.trace) + [Mark(nodeID, shard)]
      ensures Me() == old(Me()).(releasing := releasing)
    {
      hide Run;
      releasing := releasing + {shard};
      cluster.Follow(Mark(nodeID, shard));
    }

    /** Graceful handoff of one shard: stop serving it, then release its key. */
    method ReleaseOne(s: int, turn: Turn, ghost todo: seq<int>, ghost release: seq<int>)
      requires Applies([], todo, release) && !Me().pc.marked && todo != [] && todo[0] == s
      requires forall a :: a in turn.others ==> Foreign(a, nodeID)
      modifies this, cluster
      ensures Applies([], todo[1..], release) && !Me().pc.marked && Me().done == old(Me().done)
      ensures owned == old(owned) && releasing == old(releasing) + {s}
      ensures cluster.trace == old(cluster.trace) + ([Round(nodeID, MarkNext, true)] + Played(turn, nodeID, ReleaseNext))
    {
      hide Run, Step, Foreign;
      releasing := releasing + {s};
      Advance(MarkNext, true);
      Await(turn);
      var _ := cluster.ReleaseShard(s, nodeID, turn.ok);
      Advance(ReleaseNext, turn.ok);
    }

    method ApplyReleases(release: seq<int>, env: Schedule, start: nat) returns (k: nat)
      requires Applies([], release, release) && !Me().pc.marked && AllForeign(env, nodeID)
      modifies this, cluster
      ensures Applies([], [], release) && Me().done == old(Me().done)
      ensures owned == old(owned) && forall s :: s in releasing <==> s in old(releasing) || s in release
      ensures cluster.trace == old(cluster.trace) + ReleaseTrace(nodeID, env, start, |release|) && k == start + |release|
    {
      hide Run, Step, Outside;
      k := start;
      for i := 0 to |release|
        invariant Applies([], release[i..], release) && !Me().pc.marked && Me().done == old(Me().done)
        invariant owned == old(owned) && forall s :: s in releasing <==> s in old(releasing) || s in release[..i]
        invariant cluster.trace == old(cluster.trace) + ReleaseTrace(nodeID, env, start, i) && k == start + i
      {
        ReleaseOne(release[i], env(k), release[i..], release);
        k := k + 1;
        assert release[..i + 1] == release[..i] + [release[i]];
      }
      assert release[..|release|] == release;
    }

    /** Move one key that rides another lease and is not being released; the outcome is not looked at. */
    method RebindOne(om: seq<OwnerInfo>, s: nat, release: seq<int>, turn: Turn)
      requires Rebinds(om, s, release) && s < ShardCount
      requires forall a :: a in turn.others ==> Foreign(a, nodeID)
      modifies cluster
      ensures Rebinds(om, s + 1, release) && Me().done == old(Me().done)
      ensures cluster.trace == old(cluster.trace) + RebindTurn(nodeID, leaseID, om, release, turn, s)
    {
      hide Run, Step, Foreign;
      if om[s].owner == nodeID && om[s].lease != leaseID && s !in release {
        Await(turn);
        var _ := cluster.RebindShard(s, nodeID, leaseID, turn.ok);
      }
      Advance(RebindNext, turn.ok);
    }

    method RebindOld(om: seq<OwnerInfo>, release: seq<int>, env: Schedule, start: nat)
      requires Rebinds(om, 0, release) && AllForeign(env, nodeID)
      modifies cluster
      ensures Rebinds(om, ShardCount, release) && Me().done == old(Me().done)
      ensures cluster.trace ==
                old(cluster.trace) + RebindTrace(nodeID, leaseID, om, release, env, start, ShardCount)
    {
      hide Run, Step, Outside;
      for s := 0 to ShardCount
        invariant Rebinds(om, s, release) && Me().done == old(Me().done)
        invariant cluster.trace == old(cluster.trace) + RebindTrace(nodeID, leaseID, om, release, env, start, s)
      {
        RebindOne(om, s, release, env(start + s));
      }
    }

    /** Replace the cached view by the one loaded in this round. */
    method InstallView(om: seq<OwnerInfo>, release: seq<int>)
      requires Rebinds(om, ShardCount, release)
      modifies this, cluster
      ensures Running() && Me().pc.Idle? && Me().done == old(Me().done) + 1
      ensures cluster.trace == old(cluster.trace) + [Round(nodeID, Install, true)]
      ensures forall s :: s in owned <==> IsShard(s) && om[s].owner == nodeID
      ensures forall s :: IsShard(s) && s in owned ==> owned[s] == om[s].term
      ensures forall s :: s in releasing <==> s in release && s in owned
    {
      hide Run, Step;
      var view: map<int, nat> := map[];
      for s := 0 to ShardCount
        invariant forall x :: x in view <==> 0 <= x < s && om[x].owner == nodeID
        invariant forall x :: x in view ==> view[x] == om[x].term
      {
        if om[s].owner == nodeID {
          view := view[s := om[s].term];
        }
      }
      var handoff: set<int> := {};
      for i := 0 to |release|
        invariant forall x :: x in handoff <==> x in release[..i] && x in view
      {
        assert release[..i + 1] == release[..i] + [release[i]];
        if release[i] in view {
          handoff := handoff + {release[i]};
        }
      }
      assert release[..|release|] == release;
      InstalledView(om, nodeID, release, view, handoff);
      owned, releasing := view, handoff;
      Advance(Install, true);
    }

    /** The first read: the live members. */
    method ListLive(turn: Turn) returns (members: seq<string>)
      requires Running() && Me().pc.Idle? && forall a :: a in turn.others ==> Foreign(a, nodeID)
      modifies cluster
      ensures Running() && Me().done == old(Me().done)
      ensures Listing(members, Run(cluster.w, Init, old(cluster.trace) + turn.others).etcd.members.Keys)
      ensures cluster.trace == old(cluster.trace) + Played(turn, nodeID, ListMembers(members))
      ensures Me().pc == if turn.ok then Listed(members) else Idle
    {
      hide Run, Step;
      Await(turn);
      MembersNamed(cluster.w, cluster.sys, cluster.trace);
      members := SortedKeys(cluster.world.etcd.members.Keys);
      Advance(ListMembers(members), turn.ok);
    }

    /** The second read: the shard map, and the lists that follow from it. */
    method LoadLists(turn: Turn, members: seq<string>) returns (claim: seq<int>, release: seq<int>)
      requires Running() && Me().pc == Listed(members) && forall a :: a in turn.others ==> Foreign(a, nodeID)
      modifies cluster
      ensures Running() && Me().done == old(Me().done)
      ensures var sm := LoadShardMap(Run(cluster.w, Init, old(cluster.trace) + turn.others).etcd);
              claim == Claims(cluster.w, nodeID, members, sm) && release == Releases(cluster.w, nodeID, members, sm)
      ensures cluster.trace == old(cluster.trace) + Played(turn, nodeID, LoadMap)
      ensures if turn.ok then Applies(claim, release, release) && !Me().pc.marked else Me().pc.Idle?
    {
      hide Run, Step;
      Await(turn);
      var rows := GetRows(cluster.world.etcd);
      var sm := FillShardMap(cluster.world.etcd, rows);
      Advance(LoadMap, turn.ok);
      claim, release := Reconcile(cluster.w, nodeID, members, sm);
    }

    /** The third read, the ownership map with terms and leases. */
    method LoadOwned(turn: Turn, release: seq<int>) returns (om: seq<OwnerInfo>)
      requires Applies([], [], release) && forall a :: a in turn.others ==> Foreign(a, nodeID)
      modifies cluster
      ensures Running() && Me().done == old(Me().done)
      ensures om == LoadOwnershipMap(Run(cluster.w, Init, old(cluster.trace) + turn.others).etcd)
      ensures cluster.trace == old(cluster.trace) + Played(turn, nodeID, Reload)
      ensures if turn.ok then Rebinds(om, 0, release) else Me().pc.Idle?
    {
      hide Run, Step;
      Await(turn);
      var rows := GetRows(cluster.world.etcd);
      om := FillOwnershipMap(cluster.world.etcd, rows);
      Advance(Reload, turn.ok);
    }

    /** The cached view is the one a round with this plan installs. */
    ghost predicate Shows(p: Plan)
      reads this
    {
      && |p.om| == ShardCount
      && (forall s :: s in owned <==> IsShard(s) && p.om[s].owner == nodeID)
      && (forall s :: IsShard(s) && s in owned ==> owned[s] == p.om[s].term)
      && (forall s :: s in releasing <==> s in p.release && s in owned)
    }

    /** The keys are as a round alone makes them of those in e, and the view is exactly this node's keys. */
    ghost predicate Reconciled(ms: seq<string>, e: Store)
      reads this, cluster
    {
      && Listing(ms, e.members.Keys)
      && (forall s :: IsShard(s) ==> Settled(cluster.w, ms, e, cluster.world.etcd, nodeID, leaseID, s))
      && Caught(e, cluster.world.etcd, nodeID, leaseID, owned, releasing)
    }

    lemma EndedAlone(before: seq<Action>, sys: System, p: Plan, env: Schedule)
      requires Mirrors() && sys == Run(cluster.w, Init, before) && nodeID in sys.nodes && sys.nodes[nodeID].lease == leaseID
      requires !sys.nodes[nodeID].closed && sys.nodes[nodeID].pc.Idle? && leaseID in sys.etcd.live
      requires Alone(env) && Planned(cluster.w, before, nodeID, p, env)
      requires cluster.trace == before + RoundTrace(nodeID, leaseID, p, env)
      ensures Reconciled(p.members, sys.etcd)
    {
      hide Run, Listing, Settled, Caught, Alone, Planned, RoundTrace;
      RoundAlone(cluster.w, before, sys, nodeID, p, env);
    }

    /** The part of a round after its second read. */
    method ApplyPlan(members: seq<string>, claim: seq<int>, release: seq<int>, env: Schedule)
      returns (completed: bool, ghost p: Plan)
      requires Applies(claim, release, release) && !Me().pc.marked && AllForeign(env, nodeID)
      modifies this, cluster
      ensures Running() && Me().pc.Idle? && Me().done == old(Me().done) + (if completed then 1 else 0)
      ensures p.members == members && p.claim == claim && p.release == release && |p.om| == ShardCount
      ensures completed <==> env(ReloadTurn(p)).ok
      ensures var applied := old(cluster.trace) + ClaimTrace(nodeID, env, 2, |claim|)
                             + ReleaseTrace(nodeID, env, 2 + |claim|, |release|);
              && p.om == LoadOwnershipMap(Run(cluster.w, Init, applied + env(ReloadTurn(p)).others).etcd)
              && cluster.trace ==
                   if completed
                   then applied + Played(env(ReloadTurn(p)), nodeID, Reload)
                        + RebindTrace(nodeID, leaseID, p.om, release, env, ReloadTurn(p) + 1, ShardCount)
                        + [Round(nodeID, Install, true)]
                   else applied + Played(env(ReloadTurn(p)), nodeID, Reload)
      ensures completed ==> Shows(p)
      ensures !completed ==> owned == old(owned) && forall s :: s in releasing <==> s in old(releasing) || s in release
    {
      hide Run, Step, Played, ClaimTrace, ReleaseTrace, RebindTrace, LoadOwnershipMap, Outside;
      var k := ApplyClaims(claim, release, env, 2);
      k := ApplyReleases(release, env, k);
      var om := LoadOwned(env(k), release);
      p := Plan(members, claim, release, om);
      completed := env(k).ok;
      if completed {
        RebindOld(om, release, env, k + 1);
        InstallView(om, release);
      }
    }

    /** The three reads of a round and what follows each. */
    method ReadAndApply(env: Schedule) returns (completed: bool, ghost p: Plan)
      requires Running() && Me().pc.Idle? && AllForeign(env, nodeID)
      modifies this, cluster
      ensures Running() && Me().pc.Idle? && Me().done == old(Me().done) + (if completed then 1 else 0)
      ensures cluster.trace == old(cluster.trace) + RoundTrace(nodeID, leaseID, p, env)
      ensures Planned(cluster.w, old(cluster.trace), nodeID, p, env)
      ensures completed <==> env(0).ok && env(1).ok && env(ReloadTurn(p)).ok
      ensures completed ==> Shows(p)
      ensures !completed ==> owned == old(owned)
      ensures !completed ==> forall s :: s in releasing <==>
                s in old(releasing) || (env(0).ok && env(1).ok && s in p.release)
    {
      hide Run, Step, Played, ClaimTrace, ReleaseTrace, RebindTrace, LoadOwnershipMap, LoadShardMap, Outside;
      hide Planned, RoundTrace, Listing, Claims, Releases, Foreign;
      completed := false;
      ghost var before := cluster.trace;
      var members := ListLive(env(0));
      p := Plan(members, [], [], []);
      if !env(0).ok {
        StopsEarly(cluster.w, before, nodeID, leaseID, p, env);
        return;
      }
      var claim, release := LoadLists(env(1), members);
      p := Plan(members, claim, release, []);
      if !env(1).ok {
        StopsEarly(cluster.w, before, nodeID, leaseID, p, env);
        return;
      }
      completed, p := ApplyPlan(members, claim, release, env);
      GetsToReload(cluster.w, before, nodeID, leaseID, p, env);
    }

    /** One round. `p` is what its reads saw. Its steps are exactly those of the plan, each with the
        outcome of its own call; it completes exactly when its three reads succeed, and then shows the
        ownership map of the third. An aborted round leaves the owned view alone and only adds marks. When
        nobody interferes and every call succeeds, every unowned shard this node is the rendezvous owner of
        becomes its own, every shard it should not have is given up, its keys on old leases come to this
        one, every other key stays, and the view is exactly the node's keys. */
    method ReconcileOnce(env: Schedule) returns (completed: bool, ghost p: Plan)
      requires Running() && Me().pc.Idle? && AllForeign(env, nodeID)
      modifies this, cluster
      ensures Running() && Me().pc.Idle? && Me().done == old(Me().done) + (if completed then 1 else 0)
      ensures cluster.trace == old(cluster.trace) + RoundTrace(nodeID, leaseID, p, env)
      ensures Planned(cluster.w, old(cluster.trace), nodeID, p, env)
      ensures completed <==> env(0).ok && env(1).ok && env(ReloadTurn(p)).ok
      ensures completed ==> Shows(p)
      ensures !completed ==> owned == old(owned)
      ensures !completed ==> forall s :: s in releasing <==>
                s in old(releasing) || (env(0).ok && env(1).ok && s in p.release)
      ensures Alone(env) && leaseID in old(cluster.world).etcd.live ==>
                completed && Reconciled(p.members, old(cluster.world).etcd)
    {
      assert cluster.world.etcd == cluster.sys.etcd;
      AloneSucceeds(env);
      hide Run, Outside, Planned, RoundTrace, Foreign, Alone, Reconciled;
      ghost var before, sys := cluster.trace, cluster.sys;
      completed, p := ReadAndApply(env);
      if Alone(env) && leaseID in sys.etcd.live {
        EndedAlone(before, sys, p, env);
      }
    }

    /** The per-request gate: the shard is owned, is not being handed off, and the lease was renewed less
        than half its TTL ago. */
    method IsServable(membership: Membership, hash: string -> nat, namespace: string) returns (servable: bool)
      requires Mirrors() && membership.Live() && membership.cluster == cluster && membership.nodeID == nodeID
      ensures var shard := ShardOf(hash, namespace);
              servable <==>
                && shard in owned && shard !in releasing
                && membership.lastKeepAlive != 0
                && 2 * (cluster.world.now - membership.lastKeepAlive) < membership.ttl * 1_000_000_000
      ensures servable <==> Servable(cluster.sys, nodeID, ShardOf(hash, namespace))
    {
      hide Run;
      var shard := ShardOf(hash, namespace);
      var own := shard in owned;
      var rel := shard in releasing;
      var recent := membership.Fresh(LeaseWindow(membership.ttl));
      servable := own && !rel && recent;
    }

    /** The cached term of a shard, 0 when it is not owned: the two cannot be confused. */
    method OwnerTerm(shard: int) returns (term: nat)
      requires Mirrors()
      ensures term == if shard in owned then owned[shard] else 0
      ensures term > 0 <==> shard in owned
      ensures term > 0 ==> Holding(shard, term, nodeID) in cluster.sys.etcd.log
    {
      RunKeepsInv(cluster.w, Init, cluster.trace);
      assert CacheInv(cluster.sys.etcd, nodeID, Me()) && LogOk(cluster.sys.etcd);
      term := if shard in owned then owned[shard] else 0;
    }

    /** Discovery: the members as they stood at the first read, and every shard's owner with its term as
        they stand at the second. */
    method RouteMap(first: Turn, second: Turn)
      returns (ok: bool, members: seq<string>, shardOwner: map<int, string>, shardTerm: map<int, nat>)
      requires Running() && forall a :: a in first.others + second.others ==> Foreign(a, nodeID)
      modifies cluster
      ensures Running() && (ok <==> first.ok && second.ok)
      ensures first.ok ==> cluster.trace == old(cluster.trace) + first.others + second.others
      ensures ok ==> Listing(members, Run(cluster.w, Init, old(cluster.trace) + first.others).etcd.members.Keys)
      ensures ok ==> SoundRoutes(cluster.sys.etcd, shardOwner, shardTerm)
    {
      ok, members, shardOwner, shardTerm := false, [], map[], map[];
      Await(first);
      if !first.ok {
        return;
      }
      MembersNamed(cluster.w, cluster.sys, cluster.trace);
      members := SortedKeys(cluster.world.etcd.members.Keys);
      Await(second);
      if !second.ok {
        return;
      }
      var rows := GetRows(cluster.world.etcd);
      var om := FillOwnershipMap(cluster.world.etcd, rows);
      shardOwner, shardTerm := CollectRoutes(om);
      KeysSound(cluster.w, cluster.sys, cluster.trace);
      hide Run, Step;
      assert forall s :: s in shardOwner.Keys <==> s in cluster.sys.etcd.shards.Keys;
      ok := true;
    }
  }

  lemma InstalledView(om: seq<OwnerInfo>, n: string, release: seq<int>, view: map<int, nat>, handoff: set<int>)
    requires |om| == ShardCount
    requires forall x :: x in view <==> 0 <= x < ShardCount && om[x].owner == n
    requires forall x :: x in view ==> view[x] == om[x].term
    requires forall x :: x in handoff <==> x in release && x in view
    ensures view == Cached(om, n) && handoff == set s | s in release && s in view
  {
    assert view.Keys == Cached(om, n).Keys by {
      assert forall s: int :: s in view <==> s in Cached(om, n);
    }
    var marks := set s | s in release && s in view;
    assert forall s: int :: s in handoff <==> s in marks;
    assert handoff <= marks && marks <= handoff;
  }

  /** The loop that keeps the owned shards of a loaded map, owner and term side by side. */
  method CollectRoutes(om: seq<OwnerInfo>) returns (owner: map<int, string>, term: map<int, nat>)
    requires |om| == ShardCount
    ensures owner.Keys == term.Keys
    ensures forall s :: s in owner <==> IsShard(s) && om[s].owner != ""
    ensures forall s :: IsShard(s) && s in owner ==> owner[s] == om[s].owner && term[s] == om[s].term
  {
    owner, term := map[], map[];
    for s := 0 to ShardCount
      invariant owner.Keys == term.Keys
      invariant forall x :: x in owner <==> 0 <= x < s && om[x].owner != ""
      invariant forall x :: 0 <= x < s && x in owner ==> owner[x] == om[x].owner && term[x] == om[x].term
    {
      if om[s].owner != "" {
        owner := owner[s := om[s].owner];
        term := term[s := om[s].term];
      }
    }
  }

  /** The maps hold exactly the ownership keys of e, owners and terms together, each in its history. */
  ghost predicate SoundRoutes(e: Store, owner: map<int, string>, term: map<int, nat>) {
    && owner.Keys == term.Keys == e.shards.Keys
    && (forall s :: s in owner ==>
          && IsShard(s) && owner[s] == e.shards[s].owner && term[s] == e.shards[s].term
          && owner[s] != "" && term[s] > 0 && Holding(s, term[s], owner[s]) in e.log)
  }

  lemma KeysSound(w: Weight, sys: System, trace: seq<Action>)
    requires sys == Run(w, Init, trace)
    ensures forall s :: s in sys.etcd.shards ==>
              && IsShard(s) && sys.etcd.shards[s].owner != "" && sys.etcd.shards[s].term > 0
              && Holding(s, sys.etcd.shards[s].term, sys.etcd.shards[s].owner) in sys.etcd.log
  {
    RunKeepsInv(w, Init, trace);
    assert forall s :: s in sys.etcd.shards ==> KeyOk(sys.etcd, s);
  }

  /** A node's liveness registration. */
  class Membership {
    const cluster: Cluster
    const nodeID: string
    const leaseID: nat
    const ttl: nat
    var lastKeepAlive: nat
    var closing: bool
    var lost: bool

    ghost predicate Live()
      reads this, cluster
    {
      && cluster.Valid() && cluster.me == nodeID
      && nodeID in cluster.sys.nodes
      && var nd := cluster.sys.nodes[nodeID];
      && nd.lease == leaseID && nd.ttl == ttl && nd.stamp == lastKeepAlive && nd.closed == closing
    }

    /** Registration is complete: the initial registration counts as fresh. */
    constructor (cluster: Cluster, nodeID: string, leaseID: nat, ttl: nat)
      requires cluster.Valid() && cluster.me == nodeID && nodeID in cluster.sys.nodes
      requires var nd := cluster.sys.nodes[nodeID];
               nd.lease == leaseID && nd.ttl == ttl && nd.stamp == cluster.sys.now && !nd.closed
      ensures Live() && !closing && !lost && lastKeepAlive == cluster.world.now
      ensures this.cluster == cluster && this.nodeID == nodeID && this.leaseID == leaseID && this.ttl == ttl
    {
      this.cluster, this.nodeID, this.leaseID, this.ttl := cluster, nodeID, leaseID, ttl;
      lastKeepAlive := cluster.world.now;
      closing, lost := false, false;
    }

    method Fresh(window: nat) returns (recent: bool)
      requires Live()
      ensures recent <==> lastKeepAlive != 0 && cluster.world.now - lastKeepAlive < window
      ensures recent <==> Protocol.Fresh(cluster.sys.now, cluster.sys.nodes[nodeID].stamp, window)
    {
      if lastKeepAlive == 0 {
        return false;
      }
      recent := cluster.world.now - lastKeepAlive < window;
    }

    /** The keepalive goroutine receives a renewal the server granted at time `at`. */
    method OnKeepAlive(at: nat)
      requires Live() && at in cluster.world.nodes[nodeID].acks
      modifies this, cluster
      ensures Live() && lastKeepAlive == cluster.world.now == old(cluster.world.now)
      ensures closing == old(closing) && lost == old(lost) && cluster.trace == old(cluster.trace) + [ReceiveAck(nodeID, at)]
    {
      hide Run;
      cluster.TakeAck(at);
      lastKeepAlive := cluster.world.now;
      cluster.Follow(ReceiveAck(nodeID, at));
    }

    /** The keepalive channel closed: a loss, unless the node is leaving on purpose. */
    method OnChannelClosed()
      requires Live()
      modifies this`lost
      ensures Live() && lost == (old(lost) || !closing)
    {
      if !closing {
        lost := true;
      }
    }

    /** Leave: if the revocation goes through, nothing rides the lease any more. */
    method Close(ok: bool)
      requires Live() && cluster.sys.nodes[nodeID].pc.Idle?
      modifies this, cluster
      ensures Live() && closing && lost == old(lost) && lastKeepAlive == old(lastKeepAlive)
      ensures ok ==> Freed(cluster.world.etcd, leaseID)
      ensures cluster.trace == old(cluster.trace) + [Protocol.Close(nodeID, ok)]
    {
      hide Run, Inv, StoreOk, Freed;
      InvTraced(cluster.w, cluster.sys, cluster.trace);
      RevokeFrees(cluster.sys.etcd, leaseID);
      CloseOutside(cluster.w, cluster.sys, nodeID, ok);
      hide Step, Revoke;
      closing := true;
      cluster.StopKeepAlive();
      cluster.RevokeLease(leaseID, ok);
      cluster.Follow(Protocol.Close(nodeID, ok));
    }
  }

  /** No key and no member rides the lease. */
  ghost predicate Freed(e: Store, l: nat) {
    && (forall s :: s in e.shards ==> e.shards[s].lease != l)
    && (forall m :: m in e.members ==> e.members[m] != l)
  }

  lemma RevokeFrees(e: Store, l: nat)
    requires StoreOk(e)
    ensures Freed(Revoke(e, l), l) && l !in Revoke(e, l).live
  {
    assert forall s :: s in e.shards ==> KeyOk(e, s);
  }

  lemma InvTraced(w: Weight, sys: System, trace: seq<Action>)
    requires sys == Run(w, Init, trace)
    ensures Inv(sys) && StoreOk(sys.etcd)
  {
    RunKeepsInv(w, Init, trace);
  }

  lemma MembersNamed(w: Weight, sys: System, trace: seq<Action>)
    requires sys == Run(w, Init, trace)
    ensures "" !in sys.etcd.members
  {
    InvTraced(w, sys, trace);
  }

  /** A process of this id has been granted the lease and is inside `JoinMembership`. */
  ghost predicate Joining(cluster: Cluster, nodeID: string, lease: nat, ttl: nat)
    reads cluster
  {
    && cluster.Valid() && cluster.me == nodeID
    && nodeID in cluster.sys.joins && nodeID !in cluster.sys.nodes
    && cluster.sys.joins[nodeID].lease == lease && cluster.sys.joins[nodeID].ttl == ttl
  }

  /** Let the rest of the world move while a process of this id is joining, or before it does. */
  method AwaitJoin(cluster: Cluster, turn: Turn)
    requires cluster.Valid() && forall a :: a in turn.others ==> Foreign(a, cluster.me)
    modifies cluster
    ensures cluster.Valid() && cluster.trace == old(cluster.trace) + turn.others
    ensures SameJoin(old(cluster.sys), cluster.sys, cluster.me)
    ensures turn.others == [] ==> cluster.world == old(cluster.world)
  {
    RunNothing(cluster.w, cluster.sys);
    hide Run, Outside;
    RunForeignJoin(cluster.w, cluster.sys, turn.others, cluster.me);
    cluster.Interfere(turn.others);
  }

  /** The member put: it succeeds exactly when the call does and the lease still lives. */
  method Register(cluster: Cluster, nodeID: string, lease: nat, ok: bool, ghost ttl: nat) returns (registered: bool)
    requires Joining(cluster, nodeID, lease, ttl)
    requires !cluster.sys.joins[nodeID].registered && !cluster.sys.joins[nodeID].failed
    modifies cluster
    ensures Joining(cluster, nodeID, lease, ttl) && cluster.trace == old(cluster.trace) + [JoinPut(nodeID, ok)]
    ensures registered <==> ok && lease in old(cluster.world).etcd.live
    ensures cluster.sys.joins[nodeID] == old(cluster.sys.joins[nodeID]).(registered := registered, failed := !registered)
    ensures registered ==> nodeID in cluster.world.etcd.members && cluster.world.etcd.members[nodeID] == lease
    ensures cluster.world.etcd.live == old(cluster.world).etcd.live
  {
    hide Run;
    var r := cluster.PutMemberKey(nodeID, lease, ok);
    registered := r.Committed?;
    cluster.Follow(JoinPut(nodeID, ok));
    assert cluster.sys.joins - {nodeID} == old(cluster.sys.joins) - {nodeID};
  }

  /** Best-effort revocation after a failed join; if it goes through, the lease and all it carried end. */
  method GiveBack(cluster: Cluster, nodeID: string, lease: nat, turn: Turn, ghost ttl: nat)
    requires Joining(cluster, nodeID, lease, ttl) && cluster.sys.joins[nodeID].failed
    requires forall a :: a in turn.others ==> Foreign(a, nodeID)
    modifies cluster
    ensures cluster.Valid() && cluster.trace == old(cluster.trace) + (turn.others + [JoinRevoke(nodeID, turn.ok)])
    ensures nodeID !in cluster.sys.joins && nodeID !in cluster.sys.nodes
    ensures turn.ok ==> lease !in cluster.world.etcd.live && Freed(cluster.world.etcd, lease)
  {
    hide Run, Freed;
    AwaitJoin(cluster, turn);
    InvTraced(cluster.w, cluster.sys, cluster.trace);
    RevokeFrees(cluster.sys.etcd, lease);
    hide Inv;
    ghost var joins := cluster.sys.joins;
    cluster.RevokeLease(lease, turn.ok);
    cluster.Follow(JoinRevoke(nodeID, turn.ok));
    assert cluster.sys.joins - {nodeID} == joins - {nodeID};
  }

  /** Grant a lease: the join begins. */
  method BeginJoin(cluster: Cluster, nodeID: string, ttl: nat) returns (lease: nat)
    requires cluster.Valid() && cluster.me == nodeID
    requires nodeID != "" && nodeID !in cluster.sys.joins && nodeID !in cluster.sys.nodes
    modifies cluster
    ensures Joining(cluster, nodeID, lease, ttl) && cluster.trace == old(cluster.trace) + [JoinGrant(nodeID, ttl)]
    ensures !cluster.sys.joins[nodeID].registered && !cluster.sys.joins[nodeID].failed
    ensures lease == |old(cluster.world).etcd.grants| && lease in cluster.world.etcd.live
  {
    hide Run;
    lease := cluster.GrantLease(nodeID, ttl);
    cluster.Follow(JoinGrant(nodeID, ttl));
    assert cluster.sys.joins - {nodeID} == old(cluster.sys.joins) - {nodeID};
  }

  /** Keepalive starts, or fails to: the join ends. */
  method EndJoin(cluster: Cluster, nodeID: string, lease: nat, ttl: nat, ok: bool) returns (m: Membership?)
    requires Joining(cluster, nodeID, lease, ttl)
    requires cluster.sys.joins[nodeID].registered && !cluster.sys.joins[nodeID].failed
    modifies cluster
    ensures cluster.Valid() && cluster.trace == old(cluster.trace) + [JoinStart(nodeID, ok)]
    ensures m != null <==> ok
    ensures m != null ==> Joined(cluster, nodeID, ttl, m) && m.leaseID == lease
    ensures m == null ==> Joining(cluster, nodeID, lease, ttl) && cluster.sys.joins[nodeID].failed
    ensures cluster.world.etcd == old(cluster.world).etcd
  {
    hide Run;
    m := null;
    if ok {
      cluster.StartKeepAlive(lease, ttl);
    }
    cluster.Follow(JoinStart(nodeID, ok));
    assert cluster.sys.joins - {nodeID} == old(cluster.sys.joins) - {nodeID};
    if ok {
      m := new Membership(cluster, nodeID, lease, ttl);
    }
  }

  /** m is the registration of a process that has just joined: fresh, owning nothing yet, and listed for
      as long as its lease lives. */
  ghost predicate Joined(cluster: Cluster, nodeID: string, ttl: nat, m: Membership)
    reads cluster, m, m.cluster
  {
    && m.Live() && m.cluster == cluster && m.nodeID == nodeID && m.ttl == ttl
    && m.lastKeepAlive == cluster.world.now && !m.closing && !m.lost && nodeID !in cluster.sys.joins
    && var nd := cluster.sys.nodes[nodeID]; nd.owned == map[] && nd.releasing == {} && nd.pc.Idle?
  }

  /** The history of a join up to the member put, the lease granted in it, and whether that lease is alive
      when the member key is put. */
  function GrantTrace(me: string, ttl: nat, env: Schedule): seq<Action> {
    env(0).others + [JoinGrant(me, ttl)] + env(1).others
  }

  ghost function LeaseGranted(w: Weight, before: seq<Action>, env: Schedule): nat {
    |Run(w, Init, before + env(0).others).etcd.grants|
  }

  ghost predicate AliveAtPut(w: Weight, before: seq<Action>, me: string, ttl: nat, env: Schedule) {
    LeaseGranted(w, before, env) in Run(w, Init, before + GrantTrace(me, ttl, env)).etcd.live
  }

  /** The steps of a join. */
  function JoinTrace(me: string, ttl: nat, env: Schedule, registered: bool): seq<Action> {
    if !env(0).ok then env(0).others else
      var put := GrantTrace(me, ttl, env) + [JoinPut(me, env(1).ok)];
      if !registered then put + (env(2).others + [JoinRevoke(me, env(2).ok)])
      else if env(2).ok then put + env(2).others + [JoinStart(me, true)]
      else put + env(2).others + [JoinStart(me, false)] + (env(3).others + [JoinRevoke(me, env(3).ok)])
  }

  /** The call that gives the lease back when a join fails. */
  function GiveBackTurn(registered: bool): nat {
    if registered then 3 else 2
  }

  lemma ListedWhileAlive(cluster: Cluster, nodeID: string, ttl: nat, m: Membership)
    requires Joined(cluster, nodeID, ttl, m)
    ensures m.leaseID in cluster.world.etcd.live ==>
              nodeID in cluster.world.etcd.members && cluster.world.etcd.members[nodeID] == m.leaseID
  {
    InvTraced(cluster.w, cluster.sys, cluster.trace);
    var sys := cluster.sys;
    assert ProcessInv(sys.now, sys.etcd, nodeID, sys.nodes[nodeID]);
  }

  /** The first half of a join: grant a lease and register under it. `before` is the history before the
      join, whose first wait is over. */
  method Enroll(cluster: Cluster, nodeID: string, ttl: nat, env: Schedule, ghost before: seq<Action>)
    returns (registered: bool, lease: nat)
    requires cluster.Valid() && cluster.me == nodeID && AllForeign(env, nodeID)
    requires nodeID != "" && nodeID !in cluster.sys.joins && nodeID !in cluster.sys.nodes
    requires cluster.trace == before + env(0).others
    modifies cluster
    ensures Joining(cluster, nodeID, lease, ttl) && lease == LeaseGranted(cluster.w, before, env)
    ensures registered <==> env(1).ok && AliveAtPut(cluster.w, before, nodeID, ttl, env)
    ensures cluster.sys.joins[nodeID].registered == registered && cluster.sys.joins[nodeID].failed == !registered
    ensures cluster.trace == before + (GrantTrace(nodeID, ttl, env) + [JoinPut(nodeID, env(1).ok)])
    ensures Alone(env) ==> registered && lease in cluster.world.etcd.live
  {
    hide Run, Step;
    lease := BeginJoin(cluster, nodeID, ttl);
    AwaitJoin(cluster, env(1));
    assert cluster.trace == before + GrantTrace(nodeID, ttl, env);
    registered := Register(cluster, nodeID, lease, env(1).ok, ttl);
    assert Alone(env) ==> env(1) == Turn([], true);
  }

  /** Grant a lease, register under it and start keepalive. It succeeds exactly when the three calls do and
      the lease is still alive when the member key is put; in particular when nobody interferes. On success
      the registration counts as fresh, owns nothing yet, and is listed while its lease lives. On a failure
      no process is left behind, and if the lease is given back, it is dead and nothing rides it. */
  method JoinMembership(cluster: Cluster, nodeID: string, ttl: nat, env: Schedule) returns (m: Membership?)
    requires cluster.Valid() && cluster.me == nodeID && AllForeign(env, nodeID)
    requires nodeID != "" && nodeID !in cluster.sys.joins && nodeID !in cluster.sys.nodes
    modifies cluster
    ensures cluster.Valid() && nodeID !in cluster.sys.joins
    ensures var registered := env(1).ok && AliveAtPut(cluster.w, old(cluster.trace), nodeID, ttl, env);
            && (m != null <==> env(0).ok && registered && env(2).ok)
            && cluster.trace == old(cluster.trace) + JoinTrace(nodeID, ttl, env, registered)
            && (m == null && env(0).ok && env(GiveBackTurn(registered)).ok ==>
                  var lease := LeaseGranted(cluster.w, old(cluster.trace), env);
                  lease !in cluster.world.etcd.live && Freed(cluster.world.etcd, lease))
    ensures m != null ==> Joined(cluster, nodeID, ttl, m)
    ensures m != null && m.leaseID in cluster.world.etcd.live ==>
              nodeID in cluster.world.etcd.members && cluster.world.etcd.members[nodeID] == m.leaseID
    ensures m == null ==> nodeID !in cluster.sys.nodes
    ensures Alone(env) ==> m != null && m.leaseID in cluster.world.etcd.live
  {
    hide Run, Step, Outside, Foreign, Freed, AliveAtPut, LeaseGranted, GrantTrace, Joined, JoinTrace;
    m := null;
    ghost var before := cluster.trace;
    AloneTurns(env);
    hide Alone;
    AwaitJoin(cluster, env(0));
    JoinTraceParts(before, nodeID, ttl, env);
    if !env(0).ok {
      return;
    }
    var registered, lease := Enroll(cluster, nodeID, ttl, env, before);
    if !registered {
      GiveBack(cluster, nodeID, lease, env(2), ttl);
      return;
    }
    AwaitJoin(cluster, env(2));
    m := EndJoin(cluster, nodeID, lease, ttl, env(2).ok);
    if m == null {
      GiveBack(cluster, nodeID, lease, env(3), ttl);
    } else {
      NowRunning(cluster, nodeID, ttl, m);
      ListedWhileAlive(cluster, nodeID, ttl, m);
    }
  }

  lemma AloneTurns(env: Schedule)
    ensures Alone(env) ==> forall k :: env(k).ok && env(k).others == []
  {
  }

  lemma JoinTraceParts(before: seq<Action>, me: string, ttl: nat, env: Schedule)
    ensures var put := before + (GrantTrace(me, ttl, env) + [JoinPut(me, env(1).ok)]);
            && (!env(0).ok ==> forall r :: before + JoinTrace(me, ttl, env, r) == before + env(0).others)
            && (env(0).ok ==>
                  && before + JoinTrace(me, ttl, env, false) == put + (env(2).others + [JoinRevoke(me, env(2).ok)])
                  && before + JoinTrace(me, ttl, env, true) ==
                       put + env(2).others + [JoinStart(me, env(2).ok)]
                       + if env(2).ok then [] else env(3).others + [JoinRevoke(me, env(3).ok)])
  {
    hide GrantTrace;
  }

  lemma NowRunning(cluster: Cluster, nodeID: string, ttl: nat, m: Membership)
    requires Joined(cluster, nodeID, ttl, m)
    ensures nodeID !in cluster.sys.joins
  {
  }

  // -- When the gate opens --

  /** The gate opens and closes shard by shard and by the clock alone: while node n takes no step of its
      own, it serves exactly the shards it has cached and not marked, for as long as its last renewal is
      less than half its TTL ago. */
  lemma ServesUntilStale(w: Weight, sys: System, acts: seq<Action>, n: string, s: int)
    requires n in sys.nodes && forall a :: a in acts ==> Foreign(a, n)
    ensures var nd, late := sys.nodes[n], Run(w, sys, acts);
            Servable(late, n, s) <==>
              && s in nd.owned && s !in nd.releasing
              && nd.stamp != 0 && 2 * (late.now - nd.stamp) < nd.ttl * 1_000_000_000
  {
    RunForeign(w, sys, acts, n);
    hide Run, Foreign;
  }

  /** After a completed round the node serves every key loaded as its own and not on its release list, and
      no other, until its stamp grows stale. */
  lemma RoundOpensGate(w: Weight, sys: System, acts: seq<Action>, n: string, s: int)
    requires n in sys.nodes && !sys.nodes[n].closed && Enabled(sys.etcd, sys.nodes[n], Install)
    requires forall a :: a in acts ==> Foreign(a, n)
    ensures var nd, late := sys.nodes[n], Run(w, Step(w, sys, Round(n, Install, true)), acts);
            Servable(late, n, s) <==>
              && IsShard(s) && nd.pc.om[s].owner == n && s !in nd.pc.release
              && nd.stamp != 0 && 2 * (late.now - nd.stamp) < nd.ttl * 1_000_000_000
  {
    var sys' := Step(w, sys, Round(n, Install, true));
    assert sys'.nodes[n] == AfterInstall(n, sys.nodes[n]);
    hide Step;
    ServesUntilStale(w, sys', acts, n, s);
  }
}
