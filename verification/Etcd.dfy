/** The etcd keyspace the control plane lives in: leases, member keys and ownership keys, with the
    transactions of routing/ownership.go as atomic steps. `grants`, `revoked` and `log` are history:
    who was granted each lease, which leases were revoked, and every put on an ownership key. */
module Etcd {
  import opened Placement
  import opened Reconciling

  /** An ownership key: its value, its modRevision (the term) and the lease it rides. */
  datatype OwnerInfo = OwnerInfo(owner: string, term: nat, lease: nat)

  datatype Holding = Holding(shard: int, term: nat, owner: string)

  datatype Store = Store(
    rev: nat,
    grants: seq<string>,        // lease id -> the node it was granted to
    live: map<nat, nat>,        // lease id -> earliest time it may expire
    revoked: set<nat>,
    members: map<string, nat>,  // member key -> lease
    shards: map<int, OwnerInfo>,
    log: set<Holding>)

  datatype Txn = Committed(term: nat) | Rejected | Failed

  const Empty := Store(1, [], map[], {}, map[], map[], {})
  const Unowned := OwnerInfo("", 0, 0)

  function PutShard(e: Store, s: int, n: string, l: nat): Store {
    e.(rev := e.rev + 1,
       shards := e.shards[s := OwnerInfo(n, e.rev + 1, l)],
       log := e.log + {Holding(s, e.rev + 1, n)})
  }

  predicate Names(e: Store, s: int, n: string) {
    s in e.shards && e.shards[s].owner == n
  }

  /** Put if the key is absent. */
  function Claim(e: Store, s: int, n: string, l: nat): (Store, Txn) {
    if s in e.shards then (e, Rejected)
    else if l !in e.live then (e, Failed)
    else (PutShard(e, s, n, l), Committed(e.rev + 1))
  }

  /** Put under a new lease if the value is still n; a comparison on an absent key fails. */
  function Rebind(e: Store, s: int, n: string, l: nat): (Store, Txn) {
    if !Names(e, s, n) then (e, Rejected)
    else if l !in e.live then (e, Failed)
    else (PutShard(e, s, n, l), Committed(e.rev + 1))
  }

  /** Delete if the value is still n. */
  function Release(e: Store, s: int, n: string): (Store, Txn) {
    if !Names(e, s, n) then (e, Rejected)
    else (e.(rev := e.rev + 1, shards := e.shards - {s}), Committed(e.rev + 1))
  }

  function Grant(e: Store, n: string, expiry: nat): Store {
    e.(grants := e.grants + [n], live := e.live[|e.grants| := expiry])
  }

  function PutMember(e: Store, n: string, l: nat): (Store, Txn) {
    if l !in e.live then (e, Failed)
    else (e.(rev := e.rev + 1, members := e.members[n := l]), Committed(e.rev + 1))
  }

  function Renew(e: Store, l: nat, expiry: nat): Store {
    if l in e.live && e.live[l] <= expiry then e.(live := e.live[l := expiry]) else e
  }

  /** End a lease: every key attached to it goes in one revision. */
  function DropLease(e: Store, l: nat): Store {
    var members := map m | m in e.members && e.members[m] != l :: e.members[m];
    var shards := map s | s in e.shards && e.shards[s].lease != l :: e.shards[s];
    e.(rev := if members == e.members && shards == e.shards then e.rev else e.rev + 1,
       live := e.live - {l}, members := members, shards := shards)
  }

  function Revoke(e: Store, l: nat): Store {
    if l in e.live then DropLease(e, l).(revoked := e.revoked + {l}) else e
  }

  function LoadShardMap(e: Store): (sm: ShardMap) {
    seq(ShardCount, s => if s in e.shards then e.shards[s].owner else "")
  }

  function LoadOwnershipMap(e: Store): (om: seq<OwnerInfo>)
    ensures |om| == ShardCount
    ensures forall s :: IsShard(s) ==> om[s] == if s in e.shards then e.shards[s] else Unowned
  {
    seq(ShardCount, s => if s in e.shards then e.shards[s] else Unowned)
  }

  // -- What holds of every reachable store --

  ghost predicate Granted(e: Store, l: nat, n: string) {
    l < |e.grants| && e.grants[l] == n
  }

  ghost predicate KeyOk(e: Store, s: int) {
    s in e.shards ==>
      && var k := e.shards[s];
      && IsShard(s)
      && k.lease in e.live && Granted(e, k.lease, k.owner)
      && Holding(s, k.term, k.owner) in e.log
      && (forall h :: h in e.log && h.shard == s ==> h.term <= k.term)
  }

  ghost predicate LogOk(e: Store) {
    && (forall h :: h in e.log ==> 0 < h.term <= e.rev)
    && (forall g, h :: g in e.log && h in e.log && g.term == h.term ==> g == h)
  }

  ghost predicate StoreOk(e: Store) {
    && (forall l :: l in e.live ==> l < |e.grants|)
    && (forall l :: 0 <= l < |e.grants| ==> e.grants[l] != "")
    && (forall m :: m in e.members ==> e.members[m] in e.live && Granted(e, e.members[m], m))
    && LogOk(e)
    && (forall s :: s in e.shards ==> KeyOk(e, s))
  }

  /** What the claim and rebind transactions return: they commit exactly when the key is absent, or names
      this node, and the lease lives; the term returned is then that of the key just written, above every
      term ever used. Otherwise nothing changes, and no other key ever does. */
  lemma TxnReturnsTerm(e: Store, s: int, n: string, l: nat, claim: bool)
    requires StoreOk(e)
    ensures var x := if claim then Claim(e, s, n, l) else Rebind(e, s, n, l);
            && (x.1.Committed? <==> l in e.live && if claim then s !in e.shards else Names(e, s, n))
            && (x.1.Rejected? <==> if claim then s in e.shards else !Names(e, s, n))
            && (if x.1.Committed? then
                  && s in x.0.shards && x.0.shards[s] == OwnerInfo(n, x.1.term, l)
                  && (forall h :: h in e.log ==> h.term < x.1.term)
                  && (forall k :: k != s ==>
                        && (k in x.0.shards <==> k in e.shards)
                        && (k in e.shards ==> x.0.shards[k] == e.shards[k]))
                else x.0 == e)
  {
    assert LogOk(e);
  }

  lemma PutShardOk(e: Store, s: int, n: string, l: nat)
    requires StoreOk(e) && IsShard(s) && l in e.live && Granted(e, l, n)
    ensures StoreOk(PutShard(e, s, n, l))
  {
  }

  lemma DropLeaseOk(e: Store, l: nat)
    requires StoreOk(e)
    ensures StoreOk(DropLease(e, l)) && StoreOk(Revoke(e, l))
  {
  }

  lemma GrantOk(e: Store, n: string, expiry: nat)
    requires StoreOk(e) && n != ""
    ensures StoreOk(Grant(e, n, expiry))
  {
  }

  lemma PutMemberOk(e: Store, n: string, l: nat)
    requires StoreOk(e) && Granted(e, l, n)
    ensures StoreOk(PutMember(e, n, l).0)
  {
  }

  lemma RenewOk(e: Store, l: nat, expiry: nat)
    requires StoreOk(e)
    ensures StoreOk(Renew(e, l, expiry))
  {
  }
}
