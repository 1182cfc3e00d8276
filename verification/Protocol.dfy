/** The shard-ownership protocol as a state machine. Every etcd call of every node is one step, so
    rounds of `reconcileOnce` interleave call by call, and any call may fail without taking effect. */
module Protocol {
  import opened Placement
  import opened Reconciling
  import opened Etcd

  /** Time is in nanoseconds, lease TTLs in seconds. */
  function LeaseTime(ttl: nat): nat {
    ttl * 1_000_000_000
  }

  function LeaseWindow(ttl: nat): nat {
    LeaseTime(ttl) / 2
  }

  /** Where a node stands inside `reconcileOnce`. `clean` is history: no call has failed so far. */
  datatype PC =
    | Idle
    | Listed(members: seq<string>)
    | Applying(claim: seq<int>, todo: seq<int>, marked: bool, release: seq<int>, clean: bool)
    | Rebinding(om: seq<OwnerInfo>, next: nat, release: seq<int>,
                rejected: set<int>, errored: set<int>, clean: bool)

  /** One running process. History: `granted` is the server time of the grant or renewal that `stamp`
      recorded, `acks` the renewals not yet received, `suspect` the shards cached without a successful
      rebind, `bound` whether some round of this process ran without a failed call, and `done` the
      number of rounds completed. */
  datatype Node = Node(
    lease: nat, ttl: nat,
    stamp: nat, granted: nat, acks: set<nat>,
    owned: map<int, nat>, releasing: set<int>, suspect: set<int>,
    pc: PC, done: nat, bound: bool, closed: bool)

  /** A process that is still inside `JoinMembership`. */
  datatype Join = Join(lease: nat, ttl: nat, at: nat, registered: bool, failed: bool)

  datatype System = System(now: nat, etcd: Store, joins: map<string, Join>, nodes: map<string, Node>)

  datatype Call =
    | ListMembers(members: seq<string>)
    | LoadMap
    | ClaimNext
    | MarkNext
    | ReleaseNext
    | Reload
    | RebindNext
    | Install

  datatype Action =
    | Tick(d: nat)
    | JoinGrant(n: string, ttl: nat)
    | JoinPut(n: string, ok: bool)
    | JoinStart(n: string, ok: bool)
    | JoinRevoke(n: string, ok: bool)
    | RenewLease(n: string)
    | ReceiveAck(n: string, at: nat)
    | Expire(lease: nat)
    | RevokeLease(lease: nat)
    | Close(n: string, ok: bool)
    | Crash(n: string)
    | Mark(n: string, shard: int)
    | Round(n: string, call: Call, ok: bool)

  const Init := System(1, Empty, map[], map[])

  // -- One call of one node's reconcile round --

  function Cached(om: seq<OwnerInfo>, n: string): map<int, nat>
    requires |om| == ShardCount
  {
    map s | 0 <= s < ShardCount && om[s].owner == n :: om[s].term
  }

  function AfterClaim(e: Store, n: string, nd: Node, ok: bool): (Store, Node)
    requires nd.pc.Applying? && nd.pc.claim != []
  {
    var r := if ok then Claim(e, nd.pc.claim[0], n, nd.lease) else (e, Failed);
    (r.0, nd.(pc := nd.pc.(claim := nd.pc.claim[1..], clean := nd.pc.clean && !r.1.Failed?)))
  }

  function AfterRelease(e: Store, n: string, nd: Node, ok: bool): (Store, Node)
    requires nd.pc.Applying? && nd.pc.todo != []
  {
    var r := if ok then Release(e, nd.pc.todo[0], n) else (e, Failed);
    (r.0, nd.(pc := nd.pc.(todo := nd.pc.todo[1..], marked := false, clean := nd.pc.clean && !r.1.Failed?)))
  }

  predicate RidesOldLease(n: string, nd: Node, s: nat)
    requires nd.pc.Rebinding? && s < |nd.pc.om|
  {
    nd.pc.om[s].owner == n && nd.pc.om[s].lease != nd.lease && s !in nd.pc.release
  }

  function AfterRebind(e: Store, n: string, nd: Node, ok: bool): (Store, Node)
    requires nd.pc.Rebinding? && nd.pc.next < |nd.pc.om|
  {
    var pc := nd.pc.(next := nd.pc.next + 1);
    var s := nd.pc.next;
    if !RidesOldLease(n, nd, s) then (e, nd.(pc := pc))
    else
      var r := if ok then Rebind(e, s, n, nd.lease) else (e, Failed);
      match r.1
      case Committed(_) => (r.0, nd.(pc := pc))
      case Rejected => (r.0, nd.(pc := pc.(rejected := pc.rejected + {s})))
      case Failed => (r.0, nd.(pc := pc.(errored := pc.errored + {s}, clean := false)))
  }

  /** The end of a round: replace the cached view. The rebinds' success flags are not consulted. */
  function AfterInstall(n: string, nd: Node): Node
    requires nd.pc.Rebinding? && |nd.pc.om| == ShardCount
  {
    var owned := Cached(nd.pc.om, n);
    nd.(owned := owned,
        releasing := (set s | s in nd.pc.release && s in owned),
        suspect := nd.pc.rejected + nd.pc.errored,
        pc := Idle, done := nd.done + 1, bound := nd.bound || nd.pc.clean)
  }

  predicate Enabled(e: Store, nd: Node, call: Call) {
    match call
    case ListMembers(members) => nd.pc.Idle? && Listing(members, e.members.Keys)
    case LoadMap => nd.pc.Listed?
    case ClaimNext => nd.pc.Applying? && nd.pc.claim != []
    case MarkNext => nd.pc.Applying? && nd.pc.claim == [] && nd.pc.todo != [] && !nd.pc.marked
    case ReleaseNext => nd.pc.Applying? && nd.pc.claim == [] && nd.pc.todo != [] && nd.pc.marked
    case Reload => nd.pc.Applying? && nd.pc.claim == [] && nd.pc.todo == []
    case RebindNext => nd.pc.Rebinding? && nd.pc.next < ShardCount == |nd.pc.om|
    case Install => nd.pc.Rebinding? && nd.pc.next == ShardCount == |nd.pc.om|
  }

  function NodeStep(w: Weight, e: Store, n: string, nd: Node, call: Call, ok: bool): (Store, Node)
    requires Enabled(e, nd, call)
  {
    match call
    case ListMembers(members) => (e, nd.(pc := if ok then Listed(members) else Idle))
    case LoadMap =>
      var sm := LoadShardMap(e);
      var release := Releases(w, n, nd.pc.members, sm);
      (e, nd.(pc := if ok then Applying(Claims(w, n, nd.pc.members, sm), release, false, release, true) else Idle))
    case ClaimNext => AfterClaim(e, n, nd, ok)
    case MarkNext => (e, nd.(releasing := nd.releasing + {nd.pc.todo[0]}, pc := nd.pc.(marked := true)))
    case ReleaseNext => AfterRelease(e, n, nd, ok)
    case Reload =>
      (e, nd.(pc := if ok then Rebinding(LoadOwnershipMap(e), 0, nd.pc.release, {}, {}, nd.pc.clean) else Idle))
    case RebindNext => AfterRebind(e, n, nd, ok)
    case Install => (e, AfterInstall(n, nd))
  }

  // -- The whole system; an action that is not enabled changes nothing --

  function StartNode(j: Join, now: nat): Node {
    Node(j.lease, j.ttl, now, j.at, {}, map[], {}, {}, Idle, 0, false, false)
  }

  function JoinStep(sys: System, a: Action): System
    requires a.JoinGrant? || a.JoinPut? || a.JoinStart? || a.JoinRevoke?
  {
    if a.JoinGrant? then
      if a.n == "" || a.n in sys.joins || a.n in sys.nodes then sys
      else sys.(etcd := Grant(sys.etcd, a.n, sys.now + LeaseTime(a.ttl)),
                joins := sys.joins[a.n := Join(|sys.etcd.grants|, a.ttl, sys.now, false, false)])
    else if a.n !in sys.joins then sys
    else
      var j := sys.joins[a.n];
      if a.JoinPut? && !j.registered && !j.failed then
        var r := if a.ok then PutMember(sys.etcd, a.n, j.lease) else (sys.etcd, Failed);
        sys.(etcd := r.0,
             joins := sys.joins[a.n := if r.1.Committed? then j.(registered := true) else j.(failed := true)])
      else if a.JoinStart? && j.registered && !j.failed then
        if a.ok then sys.(joins := sys.joins - {a.n}, nodes := sys.nodes[a.n := StartNode(j, sys.now)])
        else sys.(joins := sys.joins[a.n := j.(failed := true)])
      else if a.JoinRevoke? && j.failed then
        sys.(etcd := if a.ok then Revoke(sys.etcd, j.lease) else sys.etcd, joins := sys.joins - {a.n})
      else sys
  }

  /** Keepalive, close, crash and marking of a running process. */
  function ProcessStep(sys: System, a: Action): System
    requires a.RenewLease? || a.ReceiveAck? || a.Close? || a.Mark?
  {
    if a.n !in sys.nodes then sys
    else
      var nd := sys.nodes[a.n];
      match a
      case RenewLease(n) =>
        if nd.lease !in sys.etcd.live || nd.closed then sys
        else sys.(etcd := Renew(sys.etcd, nd.lease, sys.now + LeaseTime(nd.ttl)),
                  nodes := sys.nodes[n := nd.(acks := nd.acks + {sys.now})])
      case ReceiveAck(n, at) =>
        if at !in nd.acks then sys
        else sys.(nodes := sys.nodes[n := nd.(stamp := sys.now, granted := at, acks := nd.acks - {at})])
      case Close(n, ok) =>
        if !nd.pc.Idle? then sys
        else sys.(etcd := if ok then Revoke(sys.etcd, nd.lease) else sys.etcd,
                  nodes := sys.nodes[n := nd.(closed := true)])
      case Mark(n, shard) => sys.(nodes := sys.nodes[n := nd.(releasing := nd.releasing + {shard})])
  }

  function RoundStep(w: Weight, sys: System, n: string, call: Call, ok: bool): System {
    if n !in sys.nodes || sys.nodes[n].closed || !Enabled(sys.etcd, sys.nodes[n], call) then sys
    else
      var r := NodeStep(w, sys.etcd, n, sys.nodes[n], call, ok);
      sys.(etcd := r.0, nodes := sys.nodes[n := r.1])
  }

  function Step(w: Weight, sys: System, a: Action): System {
    match a
    case Tick(d) => sys.(now := sys.now + d)
    case Expire(l) =>
      if l in sys.etcd.live && sys.etcd.live[l] <= sys.now then sys.(etcd := DropLease(sys.etcd, l)) else sys
    case RevokeLease(l) => sys.(etcd := Revoke(sys.etcd, l))
    case Crash(n) => sys.(joins := sys.joins - {n}, nodes := sys.nodes - {n})
    case Round(n, call, ok) => RoundStep(w, sys, n, call, ok)
    case RenewLease(_) => ProcessStep(sys, a)
    case ReceiveAck(_, _) => ProcessStep(sys, a)
    case Close(_, _) => ProcessStep(sys, a)
    case Mark(_, _) => ProcessStep(sys, a)
    case _ => JoinStep(sys, a)
  }

  function Run(w: Weight, sys: System, acts: seq<Action>): System {
    if acts == [] then sys else Step(w, Run(w, sys, acts[..|acts| - 1]), acts[|acts| - 1])
  }

  lemma RunSnoc(w: Weight, sys: System, acts: seq<Action>, a: Action)
    ensures Run(w, sys, acts + [a]) == Step(w, Run(w, sys, acts), a)
  {
    hide Step;
    assert (acts + [a])[..|acts|] == acts;
  }

  lemma {:induction false} RunConcat(w: Weight, sys: System, acts: seq<Action>, more: seq<Action>)
    ensures Run(w, sys, acts + more) == Run(w, Run(w, sys, acts), more)
  {
    hide Step;
    if more == [] {
      assert acts + more == acts;
    } else {
      var k := |more| - 1;
      RunConcat(w, sys, acts, more[..k]);
      assert (acts + more)[..|acts + more| - 1] == acts + more[..k];
    }
  }

  // -- The request gate --

  predicate Fresh(now: nat, stamp: nat, window: nat) {
    stamp != 0 && now - stamp < window
  }

  ghost predicate Servable(sys: System, n: string, s: int) {
    && n in sys.nodes
    && var nd := sys.nodes[n];
    && s in nd.owned && s !in nd.releasing && Fresh(sys.now, nd.stamp, LeaseWindow(nd.ttl))
  }
}
