/** The client's discovery router (client/router.go). Every remote outcome is a parameter: whether a
    dial, a route-map request or a call succeeds, and with what. */
module Routing {
  import opened Placement
  import opened Reconciling
  import opened Etcd
  import opened Protocol
  import opened Safety
  import opened Serving
  import opened Control

  datatype Code = Unavailable | DeadlineExceeded | OtherCode

  /** An error: whether it is marked retriable, its transport code, and its message. */
  datatype Error = Error(retriable: bool, code: Code, message: string)

  datatype Maybe<T> = Nothing | Just(value: T)

  /** What happens when a node is asked for the route map: dialling it if it is not pooled, the transport
      error, the status in the response, and the maps it carries. */
  datatype Reply = Reply(dialErr: Maybe<Error>, transport: Maybe<Error>, status: Maybe<Error>,
                         owner: map<int, string>, term: map<int, nat>)

  /** One invocation of the caller's function: the transport error, the status in the response, and
      whether the server applied the call. */
  datatype CallResult = CallResult(transport: Maybe<Error>, status: Maybe<Error>, applied: bool)

  /** What one attempt meets: whether the caller has given up, and the network. */
  datatype Attempt = Attempt(
    cancelled: Maybe<Error>, discover: nat -> Reply, dialErr: Maybe<Error>, call: CallResult, rediscover: nat -> Reply)

  datatype Route = Route(owner: string, term: nat)

  datatype Connection = Connection(target: string)

  const MaxAttempts: nat := 4
  const NoNode := Error(true, OtherCode, "no catalog node reachable for route map")
  const NoOwner := Error(true, OtherCode, "namespace has no owner yet")

  /** The transport error wins; otherwise the error carried in the status counts. */
  function CallErr(r: CallResult): Maybe<Error> {
    if r.transport.Just? then r.transport else r.status
  }

  predicate Succeeded(r: CallResult) {
    r.transport.Nothing? && r.status.Nothing?
  }

  predicate IsRetriableRejection(e: Error) {
    e.retriable
  }

  predicate IsAmbiguousTransport(e: Error) {
    e.code == Unavailable || e.code == DeadlineExceeded
  }

  predicate Retries(r: CallResult, retryAmbiguous: bool) {
    match CallErr(r)
    case Nothing => false
    case Just(e) => IsRetriableRejection(e) || (retryAmbiguous && IsAmbiguousTransport(e))
  }

  /** What is retried, by transport error and status. A success is not. A rejection marked retriable is, in
      both modes, also when it comes in the status of a response that arrived. A transport failure that
      leaves the outcome open is retried for idempotent calls only, and any other error never. */
  lemma RetryCases(r: CallResult, retryAmbiguous: bool)
    ensures r.transport == Nothing && r.status == Nothing ==> !Retries(r, retryAmbiguous)
    ensures r.transport == Nothing && r.status.Just? && r.status.value.retriable ==> Retries(r, retryAmbiguous)
    ensures r.transport.Just? && r.transport.value.retriable ==> Retries(r, retryAmbiguous)
    ensures r.transport.Just? && !r.transport.value.retriable && r.transport.value.code in {Unavailable, DeadlineExceeded} ==>
              (Retries(r, retryAmbiguous) <==> retryAmbiguous)
    ensures r.transport.Just? && !r.transport.value.retriable && r.transport.value.code == OtherCode ==>
              !Retries(r, retryAmbiguous)
    ensures r.transport == Nothing && r.status.Just? && !r.status.value.retriable && r.status.value.code == OtherCode ==>
              !Retries(r, retryAmbiguous)
  {
  }

  function Owners(owner: map<int, string>): set<string> {
    set item | item in owner.Items :: item.1
  }

  /** A route map: owners and their terms. */
  datatype View = View(owner: map<int, string>, term: map<int, nat>)

  /** What a router holds: its route map and the addresses it has connections to. */
  datatype Hand = Hand(view: View, pool: set<string>)

  /** Owner and term of a shard side by side; "" and 0 when unknown. */
  function RouteIn(v: View, shard: int): Route {
    Route(if shard in v.owner then v.owner[shard] else "", if shard in v.term then v.term[shard] else 0)
  }

  predicate Known(v: View, shard: int) {
    RouteIn(v, shard).owner != ""
  }

  function ViewOf(r: Reply): View {
    View(r.owner, r.term)
  }

  // -- Asking for the route map --

  /** The order of asking: the bootstrap nodes as given, then one address for each entry of the map. */
  ghost predicate Order(bootstrap: seq<string>, owner: map<int, string>, addrs: seq<string>) {
    && |addrs| == |bootstrap| + |owner| && bootstrap <= addrs
    && (forall a :: a in addrs[|bootstrap|..] <==> a in Owners(owner))
  }

  /** Address a has a connection once the first n addresses have been tried. */
  ghost predicate PooledBy(pool: set<string>, addrs: seq<string>, net: nat -> Reply, n: nat, a: string) {
    a in pool || exists j :: 0 <= j < n <= |addrs| && addrs[j] == a && net(j).dialErr.Nothing?
  }

  /** Node i is reached, and answers without an error of transport or status. */
  ghost predicate Answering(pool: set<string>, addrs: seq<string>, net: nat -> Reply, i: nat) {
    && i < |addrs| && PooledBy(pool, addrs, net, i + 1, addrs[i])
    && net(i).transport.Nothing? && net(i).status.Nothing?
  }

  /** Whom a request for the route map went to, in order, and who answered; nobody if `at` is past the end. */
  datatype Inquiry = Inquiry(addrs: seq<string>, at: nat)

  /** What asking does: the first node that is reached and answers replaces the route map whole, and the
      pool keeps only bootstrap nodes and owners of the new one; if nobody answers the map stays. */
  ghost predicate Asked(bootstrap: seq<string>, net: nat -> Reply, before: Hand, after: Hand, q: Inquiry) {
    && Order(bootstrap, before.view.owner, q.addrs) && q.at <= |q.addrs|
    && (forall j :: 0 <= j < q.at ==> !Answering(before.pool, q.addrs, net, j))
    && (if q.at < |q.addrs| then
          && Answering(before.pool, q.addrs, net, q.at) && after.view == ViewOf(net(q.at))
          && (forall a :: a in after.pool <==>
                PooledBy(before.pool, q.addrs, net, q.at + 1, a) && (a in bootstrap || a in Owners(after.view.owner)))
        else
          && after.view == before.view
          && (forall a :: a in after.pool <==> PooledBy(before.pool, q.addrs, net, |q.addrs|, a)))
  }

  /** The error of trying node i: of dialling it, of transport, or in the status. */
  ghost function TryErr(pool: set<string>, addrs: seq<string>, net: nat -> Reply, i: nat): Maybe<Error>
    requires i < |addrs|
  {
    if !PooledBy(pool, addrs, net, i + 1, addrs[i]) then net(i).dialErr
    else if net(i).transport.Just? then net(i).transport else net(i).status
  }

  /** The error of asking: that of the last node tried, or one of its own if there was none to try. */
  ghost function AskErr(pool: set<string>, net: nat -> Reply, q: Inquiry): Maybe<Error> {
    if q.at < |q.addrs| then Nothing
    else if q.addrs == [] then Just(NoNode)
    else TryErr(pool, q.addrs, net, |q.addrs| - 1)
  }

  lemma AskErrExact(bootstrap: seq<string>, net: nat -> Reply, before: Hand, after: Hand, q: Inquiry)
    requires Asked(bootstrap, net, before, after, q)
    ensures AskErr(before.pool, net, q).Just? <==> q.at == |q.addrs|
  {
    if q.at == |q.addrs| && q.addrs != [] {
      assert !Answering(before.pool, q.addrs, net, |q.addrs| - 1);
    }
  }

  lemma CandidateCurrent(bootstrap: seq<string>, owner: map<int, string>, addrs: seq<string>, i: nat)
    requires Order(bootstrap, owner, addrs) && i < |addrs|
    ensures addrs[i] in bootstrap || addrs[i] in Owners(owner)
  {
    if i >= |bootstrap| {
      assert addrs[i] == addrs[|bootstrap|..][i - |bootstrap|];
    }
  }

  lemma PooledGrows(pool: set<string>, addrs: seq<string>, net: nat -> Reply, i: nat)
    requires i < |addrs|
    ensures forall a :: PooledBy(pool, addrs, net, i + 1, a) <==>
              PooledBy(pool, addrs, net, i, a) || (a == addrs[i] && net(i).dialErr.Nothing?)
  {
    forall a ensures PooledBy(pool, addrs, net, i + 1, a) <==>
                       PooledBy(pool, addrs, net, i, a) || (a == addrs[i] && net(i).dialErr.Nothing?)
    {
      if PooledBy(pool, addrs, net, i + 1, a) && a !in pool {
        var j :| 0 <= j < i + 1 && addrs[j] == a && net(j).dialErr.Nothing?;
        assert j == i || PooledBy(pool, addrs, net, i, a);
      }
    }
  }

  /** The addresses the first n tries sent a request to: those that were reached. */
  ghost function Requests(pool: set<string>, addrs: seq<string>, net: nat -> Reply, n: nat): seq<string>
    requires n <= |addrs|
  {
    if n == 0 then [] else
      Requests(pool, addrs, net, n - 1)
      + if PooledBy(pool, addrs, net, n, addrs[n - 1]) then [addrs[n - 1]] else []
  }

  ghost function AsksOf(pool: set<string>, net: nat -> Reply, q: Inquiry): seq<string>
    requires q.at <= |q.addrs|
  {
    Requests(pool, q.addrs, net, if q.at < |q.addrs| then q.at + 1 else q.at)
  }

  /** The first i nodes have been tried without an answer: these addresses are pooled now, these were sent
      a request, and the last error was this. */
  ghost predicate Trying(pool: set<string>, addrs: seq<string>, net: nat -> Reply, i: nat,
                         pooled: set<string>, sent: seq<string>, err: Maybe<Error>)
  {
    && i <= |addrs|
    && (forall a :: a in pooled <==> PooledBy(pool, addrs, net, i, a))
    && (forall j :: 0 <= j < i ==> !Answering(pool, addrs, net, j))
    && sent == Requests(pool, addrs, net, i)
    && if i == 0 then err.Nothing? else err.Just? && err == TryErr(pool, addrs, net, i - 1)
  }

  /** Node i is the first to answer. */
  ghost predicate Answered(pool: set<string>, addrs: seq<string>, net: nat -> Reply, i: nat,
                           pooled: set<string>, sent: seq<string>)
  {
    && i < |addrs| && Answering(pool, addrs, net, i) && (forall j :: 0 <= j < i ==> !Answering(pool, addrs, net, j))
    && (forall a :: a in pooled <==> PooledBy(pool, addrs, net, i + 1, a))
    && sent == Requests(pool, addrs, net, i + 1)
  }

  lemma NobodyTried(pool: set<string>, addrs: seq<string>, net: nat -> Reply)
    ensures Trying(pool, addrs, net, 0, pool, [], Nothing)
  {
  }

  /** One more node is tried. */
  lemma TryingOn(pool: set<string>, addrs: seq<string>, net: nat -> Reply, i: nat, pooled: set<string>, sent: seq<string>,
                 err: Maybe<Error>, pooled': set<string>, sent': seq<string>, err': Maybe<Error>)
    requires i < |addrs| && Trying(pool, addrs, net, i, pooled, sent, err)
    requires var reached := addrs[i] in pooled || net(i).dialErr.Nothing?;
             && pooled' == (if reached then pooled + {addrs[i]} else pooled)
             && sent' == sent + (if reached then [addrs[i]] else [])
             && err' == if !reached then net(i).dialErr
                        else if net(i).transport.Just? then net(i).transport else net(i).status
    ensures err'.Just? ==> Trying(pool, addrs, net, i + 1, pooled', sent', err')
    ensures err'.Nothing? ==> Answered(pool, addrs, net, i, pooled', sent')
  {
    PooledGrows(pool, addrs, net, i);
    hide PooledBy;
  }

  lemma AskedOne(bootstrap: seq<string>, net: nat -> Reply, before: Hand, after: Hand, pooled: set<string>, sent: seq<string>,
                 q: Inquiry)
    requires Order(bootstrap, before.view.owner, q.addrs)
    requires Answered(before.pool, q.addrs, net, q.at, pooled, sent)
    requires after.view == ViewOf(net(q.at))
    requires forall a :: a in after.pool <==> a in pooled && (a in bootstrap || a in Owners(after.view.owner))
    ensures Asked(bootstrap, net, before, after, q) && AskErr(before.pool, net, q) == Nothing
    ensures sent == AsksOf(before.pool, net, q)
  {
    hide Order, PooledBy, Answering, Requests;
  }

  lemma AskedNobody(bootstrap: seq<string>, net: nat -> Reply, before: Hand, after: Hand, sent: seq<string>,
                    err: Maybe<Error>, q: Inquiry)
    requires Order(bootstrap, before.view.owner, q.addrs) && q.at == |q.addrs| && after.view == before.view
    requires Trying(before.pool, q.addrs, net, |q.addrs|, after.pool, sent, err)
    ensures Asked(bootstrap, net, before, after, q) && sent == AsksOf(before.pool, net, q)
    ensures AskErr(before.pool, net, q) == if err.Nothing? then Just(NoNode) else err
  {
    hide Order, PooledBy, Answering, Requests;
  }

  // -- One attempt --

  /** What one attempt did: what the router held before it, when it came to dial, and after it; whether it
      called; its error; and the two inquiries it may have made. */
  datatype Tried = Tried(before: Hand, mid: Hand, after: Hand, called: bool, err: Maybe<Error>,
                         first: Inquiry, second: Inquiry)

  /** An attempt in terms of what the network did. It asks for the route map exactly if no owner is known.
      It calls exactly if an owner is known then and is pooled or can be dialled. It asks again exactly if it
      could not call a known owner or the call is to be retried. */
  ghost predicate Attempted(bootstrap: seq<string>, shard: int, retryAmbiguous: bool, turn: Attempt, t: Tried) {
    && (if Known(t.before.view, shard) then t.mid == t.before else Asked(bootstrap, turn.discover, t.before, t.mid, t.first))
    && var owner := RouteIn(t.mid.view, shard).owner;
    && (t.called <==> owner != "" && (owner in t.mid.pool || turn.dialErr.Nothing?))
    && var dialled := if t.called then Hand(t.mid.view, t.mid.pool + {owner}) else t.mid;
    && (if owner != "" && (t.called ==> Retries(turn.call, retryAmbiguous))
        then Asked(bootstrap, turn.rediscover, dialled, t.after, t.second) else t.after == dialled)
    && t.err == if t.called then CallErr(turn.call) else if owner != "" then turn.dialErr
                else if t.first.at < |t.first.addrs| then Just(NoOwner) else AskErr(t.before.pool, turn.discover, t.first)
  }

  /** One invocation of the caller's function: over which connection, with which term, and the result. */
  datatype Invocation = Invocation(addr: string, term: nat, result: CallResult)

  /** The catalog nodes as the client reaches them. History: `calls` are the invocations of the caller's
      function, `asks` the addresses asked for the route map. */
  class Remote {
    ghost var calls: seq<Invocation>
    ghost var asks: seq<string>

    constructor ()
      ensures calls == [] && asks == []
    {
      calls, asks := [], [];
    }

    /** Call over a connection, and reduce the outcome to the error to act on. */
    method Invoke(c: Connection, term: nat, result: CallResult) returns (err: Maybe<Error>)
      modifies this
      ensures calls == old(calls) + [Invocation(c.target, term, result)] && asks == old(asks)
      ensures err.Nothing? <==> result.transport.Nothing? && result.status.Nothing?
      ensures err == CallErr(result)
    {
      calls := calls + [Invocation(c.target, term, result)];
      if result.transport.Just? {
        return result.transport;
      }
      return result.status;
    }

    method GetRouteMap(c: Connection, r: Reply) returns (err: Maybe<Error>)
      modifies this
      ensures asks == old(asks) + [c.target] && calls == old(calls)
      ensures err == if r.transport.Just? then r.transport else r.status
    {
      asks := asks + [c.target];
      if r.transport.Just? {
        return r.transport;
      }
      return r.status;
    }
  }

  class Router {
    const bootstrap: seq<string>
    var shardOwner: map<int, string>
    var shardTerm: map<int, nat>
    var conns: map<string, Connection>

    /** Every pooled connection goes to the address it is kept under, a bootstrap node or a current owner. */
    ghost predicate Tracked()
      reads this
    {
      forall a :: a in conns ==> conns[a].target == a && (a in bootstrap || a in Owners(shardOwner))
    }

    ghost function Here(): Hand
      reads this
    {
      Hand(View(shardOwner, shardTerm), conns.Keys)
    }

    constructor (bootstrap: seq<string>)
      ensures Tracked() && this.bootstrap == bootstrap && Here() == Hand(View(map[], map[]), {})
    {
      this.bootstrap := bootstrap;
      shardOwner, shardTerm, conns := map[], map[], map[];
    }

    method Close()
      modifies this
      ensures Tracked() && Here() == old(Here()).(pool := {})
    {
      conns := map[];
    }

    method EvictStaleConns(owner: map<int, string>)
      modifies this`conns
      ensures forall a :: a in conns <==> a in old(conns) && (a in Owners(owner) || a in bootstrap)
      ensures forall a :: a in conns ==> conns[a] == old(conns)[a]
    {
      var rest := conns.Keys;
      while rest != {}
        invariant rest <= old(conns).Keys && conns.Keys <= old(conns).Keys
        invariant forall a :: a in old(conns) ==> (a in conns <==> a in rest || a in Owners(owner) || a in bootstrap)
        invariant forall a :: a in conns ==> conns[a] == old(conns)[a]
        decreases |rest|
      {
        var addr :| addr in rest;
        if addr !in Owners(owner) && addr !in bootstrap {
          conns := conns - {addr};
        }
        rest := rest - {addr};
      }
    }

    /** A connection to the address: the pooled one, or a new one if it can be dialled. */
    method Conn(addr: string, dialErr: Maybe<Error>) returns (c: Maybe<Connection>)
      requires forall a :: a in conns ==> conns[a].target == a
      modifies this`conns
      ensures c == if addr in old(conns) || dialErr.Nothing? then Just(Connection(addr)) else Nothing
      ensures conns == if c.Just? then old(conns)[addr := Connection(addr)] else old(conns)
    {
      if addr in conns {
        assert conns[addr] == Connection(addr) && conns == conns[addr := conns[addr]];
        return Just(conns[addr]);
      }
      if dialErr.Just? {
        return Nothing;
      }
      var made := Connection(addr);
      conns := conns[addr := made];
      return Just(made);
    }

    /** The addresses to ask: the bootstrap nodes, then the current owners in map order. */
    method Candidates() returns (addrs: seq<string>)
      ensures Order(bootstrap, shardOwner, addrs)
    {
      addrs := bootstrap;
      var rest := shardOwner.Items;
      while rest != {}
        invariant rest <= shardOwner.Items && |addrs| + |rest| == |bootstrap| + |shardOwner.Items| && bootstrap <= addrs
        invariant forall a :: a in addrs[|bootstrap|..] ==> a in Owners(shardOwner)
        invariant forall it :: it in shardOwner.Items && it !in rest ==> it.1 in addrs[|bootstrap|..]
        decreases |rest|
      {
        var item :| item in rest;
        assert item in shardOwner.Items;
        assert (addrs + [item.1])[|bootstrap|..] == addrs[|bootstrap|..] + [item.1];
        addrs := addrs + [item.1];
        rest := rest - {item};
      }
    }

    /** Ask one node, dialling it first if it is not pooled. */
    method AskNode(remote: Remote, addr: string, r: Reply) returns (err: Maybe<Error>)
      requires Tracked() && (addr in bootstrap || addr in Owners(shardOwner))
      modifies this`conns, remote
      ensures Tracked() && remote.calls == old(remote.calls)
      ensures var reached := addr in old(conns) || r.dialErr.Nothing?;
              && conns.Keys == (if reached then old(conns).Keys + {addr} else old(conns).Keys)
              && remote.asks == old(remote.asks) + (if reached then [addr] else [])
              && err == if !reached then r.dialErr else if r.transport.Just? then r.transport else r.status
    {
      var c := Conn(addr, r.dialErr);
      if c.Nothing? {
        return r.dialErr;
      }
      assert conns.Keys == old(conns).Keys + {addr};
      err := remote.GetRouteMap(c.value, r);
    }

    /** Take a route map whole, and drop the connections it makes stale. */
    method Adopt(owner: map<int, string>, term: map<int, nat>)
      requires Tracked()
      modifies this
      ensures Tracked() && shardOwner == owner && shardTerm == term
      ensures forall a :: a in conns <==> a in old(conns) && (a in bootstrap || a in Owners(owner))
    {
      shardOwner := owner;
      shardTerm := term;
      EvictStaleConns(owner);
    }

    /** Try the next candidate. */
    method TryNode(remote: Remote, addrs: seq<string>, i: nat, net: nat -> Reply,
                   ghost pool: set<string>, ghost sent: seq<string>, ghost last: Maybe<Error>)
      returns (err: Maybe<Error>, ghost more: seq<string>)
      requires Tracked() && i < |addrs| && (addrs[i] in bootstrap || addrs[i] in Owners(shardOwner))
      requires Trying(pool, addrs, net, i, conns.Keys, sent, last)
      modifies this`conns, remote
      ensures Tracked() && remote.calls == old(remote.calls) && remote.asks == old(remote.asks) + more
      ensures err.Just? ==> Trying(pool, addrs, net, i + 1, conns.Keys, sent + more, err)
      ensures err.Nothing? ==> Answered(pool, addrs, net, i, conns.Keys, sent + more)
    {
      hide Trying, Answered, Owners, Router.Tracked, PooledBy;
      ghost var pooled := conns.Keys;
      err := AskNode(remote, addrs[i], net(i));
      more := if addrs[i] in pooled || net(i).dialErr.Nothing? then [addrs[i]] else [];
      TryingOn(pool, addrs, net, i, pooled, sent, last, conns.Keys, sent + more, err);
    }

    /** The answer of the candidate that was asked last replaces the route map. */
    method TakeAnswer(r: Reply, ghost net: nat -> Reply, ghost before: Hand, ghost sent: seq<string>, ghost q: Inquiry)
      requires Tracked() && Order(bootstrap, before.view.owner, q.addrs) && r == net(q.at)
      requires Answered(before.pool, q.addrs, net, q.at, conns.Keys, sent)
      modifies this
      ensures Tracked() && Asked(bootstrap, net, before, Here(), q)
      ensures AskErr(before.pool, net, q) == Nothing && sent == AsksOf(before.pool, net, q)
    {
      hide Order, Answered, Asked, AskErr, AsksOf, PooledBy;
      ghost var pooled := conns.Keys;
      Adopt(r.owner, r.term);
      AskedOne(bootstrap, net, before, Here(), pooled, sent, q);
    }

    /** Take the first route map that a node which is reached answers with; keep everything on failure. */
    method Refresh(remote: Remote, net: nat -> Reply) returns (err: Maybe<Error>, ghost q: Inquiry)
      requires Tracked()
      modifies this, remote
      ensures Tracked() && Asked(bootstrap, net, old(Here()), Here(), q)
      ensures err == AskErr(old(Here()).pool, net, q)
      ensures remote.asks == old(remote.asks) + AsksOf(old(Here()).pool, net, q) && remote.calls == old(remote.calls)
    {
      ghost var before := Here();
      var addrs := Candidates();
      hide Order, Trying, Answered, Owners, Router.Tracked, Asked, AskErr, AsksOf, PooledBy;
      err := Nothing;
      ghost var sent: seq<string> := [];
      NobodyTried(before.pool, addrs, net);
      for i := 0 to |addrs|
        invariant Tracked() && shardOwner == old(shardOwner) && shardTerm == old(shardTerm)
        invariant Trying(before.pool, addrs, net, i, conns.Keys, sent, err)
        invariant remote.asks == old(remote.asks) + sent && remote.calls == old(remote.calls)
      {
        ghost var more, asks := [], remote.asks;
        CandidateCurrent(bootstrap, shardOwner, addrs, i);
        err, more := TryNode(remote, addrs, i, net, before.pool, sent, err);
        assert asks + more == old(remote.asks) + (sent + more);
        sent := sent + more;
        if err.Nothing? {
          q := Inquiry(addrs, i);
          TakeAnswer(net(i), net, before, sent, q);
          return;
        }
      }
      q := Inquiry(addrs, |addrs|);
      AskedNobody(bootstrap, net, before, Here(), sent, err, q);
      if err.Nothing? {
        err := Just(NoNode);
      }
    }

    /** Owner and term of a shard in one read. */
    method RouteFor(shard: int) returns (route: Route)
      ensures route == RouteIn(Here().view, shard)
    {
      var owner := if shard in shardOwner then shardOwner[shard] else "";
      var term := if shard in shardTerm then shardTerm[shard] else 0;
      route := Route(owner, term);
    }

    /** Find the route, asking for the route map once if it is unknown. */
    method Discover(remote: Remote, shard: int, net: nat -> Reply)
      returns (route: Route, err: Maybe<Error>, ghost q: Inquiry)
      requires Tracked()
      modifies this, remote
      ensures Tracked() && route == RouteIn(Here().view, shard) && remote.calls == old(remote.calls)
      ensures if Known(old(Here()).view, shard) then Here() == old(Here()) && remote.asks == old(remote.asks)
              else && Asked(bootstrap, net, old(Here()), Here(), q)
                   && remote.asks == old(remote.asks) + AsksOf(old(Here()).pool, net, q)
      ensures route.owner == "" ==>
                err == if q.at < |q.addrs| then Just(NoOwner) else AskErr(old(Here()).pool, net, q)
    {
      hide Order, PooledBy, Answering;
      ghost var before := Here();
      err, q := Nothing, Inquiry([], 0);
      route := RouteFor(shard);
      if route.owner == "" {
        err, q := Refresh(remote, net);
        AskErrExact(bootstrap, net, before, Here(), q);
        if err.Nothing? {
          route := RouteFor(shard);
          if route.owner == "" {
            err := Just(NoOwner);
          }
        }
      }
    }

    /** Connect to the owner a route names; the pool stays tracked because the owner is current. */
    method Dial(route: Route, dialErr: Maybe<Error>, ghost shard: int) returns (c: Maybe<Connection>)
      requires Tracked() && Known(Here().view, shard) && route == RouteIn(Here().view, shard)
      modifies this`conns
      ensures Tracked()
      ensures c == if route.owner in old(Here()).pool || dialErr.Nothing? then Just(Connection(route.owner)) else Nothing
      ensures Here() == if c.Just? then old(Here()).(pool := old(Here()).pool + {route.owner}) else old(Here())
    {
      assert (shard, route.owner) in shardOwner.Items;
      c := Conn(route.owner, dialErr);
      assert c.Just? ==> conns.Keys == old(conns).Keys + {route.owner};
    }

    /** One attempt that was not cancelled: find the route, dial, call, and ask again before a retry. */
    method Try(remote: Remote, shard: int, retryAmbiguous: bool, turn: Attempt)
      returns (again: bool, err: Maybe<Error>, ghost t: Tried)
      requires Tracked()
      modifies this, remote
      ensures Tracked() && Attempted(bootstrap, shard, retryAmbiguous, turn, t)
      ensures t.before == old(Here()) && t.after == Here() && t.err == err
      ensures again <==> (t.called ==> Retries(turn.call, retryAmbiguous))
      ensures remote.calls == old(remote.calls) + CallsOf(turn, shard, t)
      ensures var owner := RouteIn(t.mid.view, shard).owner;
              remote.asks ==
                old(remote.asks)
                + (if Known(t.before.view, shard) then [] else AsksOf(t.before.pool, turn.discover, t.first))
                + (if owner != "" && (t.called ==> Retries(turn.call, retryAmbiguous))
                   then AsksOf(if t.called then t.mid.pool + {owner} else t.mid.pool, turn.rediscover, t.second) else [])
    {
      hide Asked, RouteIn, Router.Tracked, AsksOf, AskErr;
      ghost var before := Here();
      var route, missing;
      ghost var q;
      route, missing, q := Discover(remote, shard, turn.discover);
      t := Tried(before, Here(), Here(), false, missing, q, q);
      if route.owner == "" {
        return true, missing, t;
      }
      var c := Dial(route, turn.dialErr, shard);
      if c.Nothing? {
        var ignored;
        ignored, q := Refresh(remote, turn.rediscover);
        t := t.(after := Here(), err := turn.dialErr, second := q);
        return true, turn.dialErr, t;
      }
      err := remote.Invoke(c.value, route.term, turn.call);
      t := t.(after := Here(), called := true, err := err);
      again := err.Just? && (IsRetriableRejection(err.value) || (retryAmbiguous && IsAmbiguousTransport(err.value)));
      if again {
        var ignored;
        ignored, q := Refresh(remote, turn.rediscover);
        t := t.(after := Here(), second := q);
      }
    }

    /** Run a call against the owner of a shard, redirecting after a rejection that was not applied and,
        for idempotent calls, after an ambiguous failure. `log` tells what each attempt did. It ends after
        four attempts, when the caller gives up, or with an outcome that stands; the error is that of the
        last attempt or the caller's own, and there is none exactly if the last call came back clean. */
    method Do(remote: Remote, shard: int, retryAmbiguous: bool, env: nat -> Attempt)
      returns (err: Maybe<Error>, ghost log: seq<Tried>)
      requires Tracked()
      modifies this, remote
      ensures Tracked() && Chain(bootstrap, shard, retryAmbiguous, env, log, old(Here()), Here())
      ensures |log| == 4 || env(|log|).cancelled.Just? || Final(retryAmbiguous, env, log)
      ensures remote.calls == old(remote.calls) + Calls(env, shard, log)
      ensures err == if |log| == 4 || Final(retryAmbiguous, env, log) then log[|log| - 1].err else env(|log|).cancelled
      ensures err.Nothing? <==>
                && log != [] && log[|log| - 1].called
                && env(|log| - 1).call.transport.Nothing? && env(|log| - 1).call.status.Nothing?
    {
      hide Attempted, Chain, Calls, Retries;
      log := [];
      err := Nothing;
      ChainStarts(bootstrap, shard, retryAmbiguous, env, Here());
      for attempt := 0 to MaxAttempts
        invariant Tracked() && |log| == attempt && !Final(retryAmbiguous, env, log)
        invariant log != [] ==> err == log[|log| - 1].err && err.Just?
        invariant log != [] && log[|log| - 1].called ==> !Succeeded(env(|log| - 1).call)
        invariant Chain(bootstrap, shard, retryAmbiguous, env, log, old(Here()), Here())
        invariant remote.calls == old(remote.calls) + Calls(env, shard, log)
      {
        if env(attempt).cancelled.Just? {
          return env(attempt).cancelled, log;
        }
        ghost var before := Here();
        ghost var t;
        var again;
        again, err, t := Try(remote, shard, retryAmbiguous, env(attempt));
        ChainGrows(bootstrap, shard, retryAmbiguous, env, log, old(Here()), before, t);
        log := log + [t];
        AttemptErr(bootstrap, shard, retryAmbiguous, env(attempt), t);
        RetryCases(env(attempt).call, retryAmbiguous);
        if !again {
          return;
        }
      }
    }
  }

  function CallsOf(turn: Attempt, shard: int, t: Tried): seq<Invocation> {
    if t.called then
      var route := RouteIn(t.mid.view, shard);
      [Invocation(route.owner, route.term, turn.call)]
    else []
  }

  /** The invocations of a run, in order: one for each attempt that called, with the route it had then. */
  function Calls(env: nat -> Attempt, shard: int, log: seq<Tried>): seq<Invocation> {
    if log == [] then [] else
      var k := |log| - 1;
      Calls(env, shard, log[..k]) + CallsOf(env(k), shard, log[k])
  }

  /** The last attempt called and its outcome stands. */
  ghost predicate Final(retryAmbiguous: bool, env: nat -> Attempt, log: seq<Tried>) {
    log != [] && log[|log| - 1].called && !Retries(env(|log| - 1).call, retryAmbiguous)
  }

  /** The attempts of a run, each beginning with the route map the one before left. No attempt begins once
      the caller has cancelled, and only the last may be final. */
  ghost predicate Chain(bootstrap: seq<string>, shard: int, retryAmbiguous: bool, env: nat -> Attempt,
                        log: seq<Tried>, start: Hand, end: Hand)
  {
    && |log| <= 4
    && (forall k :: 0 <= k < |log| ==>
          env(k).cancelled.Nothing? && Attempted(bootstrap, shard, retryAmbiguous, env(k), log[k]))
    && (forall i, j :: 0 <= i < j < |log| && j == i + 1 ==> log[j].before == log[i].after)
    && (forall k :: 0 <= k < |log| - 1 && log[k].called ==> Retries(env(k).call, retryAmbiguous))
    && (if log == [] then end == start else log[0].before == start && log[|log| - 1].after == end)
  }

  lemma ChainStarts(bootstrap: seq<string>, shard: int, retryAmbiguous: bool, env: nat -> Attempt, start: Hand)
    ensures Chain(bootstrap, shard, retryAmbiguous, env, [], start, start) && Calls(env, shard, []) == []
  {
  }

  lemma ChainGrows(bootstrap: seq<string>, shard: int, retryAmbiguous: bool, env: nat -> Attempt,
                   log: seq<Tried>, start: Hand, mid: Hand, t: Tried)
    requires Chain(bootstrap, shard, retryAmbiguous, env, log, start, mid) && |log| < 4
    requires !Final(retryAmbiguous, env, log) && env(|log|).cancelled.Nothing?
    requires Attempted(bootstrap, shard, retryAmbiguous, env(|log|), t) && t.before == mid
    ensures Chain(bootstrap, shard, retryAmbiguous, env, log + [t], start, t.after)
    ensures Calls(env, shard, log + [t]) == Calls(env, shard, log) + CallsOf(env(|log|), shard, t)
  {
    hide Attempted, Retries;
    var all := log + [t];
    assert all[..|log|] == log && all[|log|] == t;
    assert forall k :: 0 <= k < |log| ==> all[k] == log[k];
  }

  /** Transparent failover: when the call of some attempt is retried, the first node that is reached and
      answers the request for the route map knows an owner, and that owner is pooled or can be dialled and
      answers without an error, the next attempt is the last, calls that owner with its term, and succeeds. */
  lemma FailoverIsTransparent(bootstrap: seq<string>, shard: int, retryAmbiguous: bool, env: nat -> Attempt,
                              log: seq<Tried>, start: Hand, end: Hand, k: nat, i: nat)
    requires Chain(bootstrap, shard, retryAmbiguous, env, log, start, end)
    requires |log| == 4 || env(|log|).cancelled.Just? || Final(retryAmbiguous, env, log)
    requires k < |log| && k < 3 && log[k].called && Retries(env(k).call, retryAmbiguous)
    requires var pool := log[k].mid.pool + {RouteIn(log[k].mid.view, shard).owner};
             && Answering(pool, log[k].second.addrs, env(k).rediscover, i)
             && forall j :: 0 <= j < i ==> !Answering(pool, log[k].second.addrs, env(k).rediscover, j)
    requires Known(ViewOf(env(k).rediscover(i)), shard) && env(k + 1).cancelled.Nothing?
    requires env(k + 1).dialErr.Nothing? || RouteIn(ViewOf(env(k).rediscover(i)), shard).owner in log[k].after.pool
    requires env(k + 1).call.transport.Nothing? && env(k + 1).call.status.Nothing?
    ensures |log| == k + 2 && Final(retryAmbiguous, env, log) && log[k + 1].err.Nothing?
    ensures var route := RouteIn(ViewOf(env(k).rediscover(i)), shard);
            Calls(env, shard, log) ==
              Calls(env, shard, log[..k + 1]) + [Invocation(route.owner, route.term, env(k + 1).call)]
  {
    hide RouteIn, Calls, Answering, Attempted, Retries;
    assert |log| > k + 1;
    assert Attempted(bootstrap, shard, retryAmbiguous, env(k), log[k]);
    assert Attempted(bootstrap, shard, retryAmbiguous, env(k + 1), log[k + 1]);
    assert log[k + 1].before == log[k].after;
    RetryTakesAnswer(bootstrap, shard, retryAmbiguous, env(k), log[k], i);
    RetryCases(env(k + 1).call, retryAmbiguous);
    KnownIsCalled(bootstrap, shard, retryAmbiguous, env(k + 1), log[k + 1]);
    AttemptErr(bootstrap, shard, retryAmbiguous, env(k + 1), log[k + 1]);
    assert log[..k + 1] + [log[k + 1]] == log;
    LastCall(env, shard, log);
  }

  /** After a retried call the route map is that of the first node that answers. */
  lemma RetryTakesAnswer(bootstrap: seq<string>, shard: int, retryAmbiguous: bool, turn: Attempt, t: Tried, i: nat)
    requires Attempted(bootstrap, shard, retryAmbiguous, turn, t) && t.called && Retries(turn.call, retryAmbiguous)
    requires var pool := t.mid.pool + {RouteIn(t.mid.view, shard).owner};
             && Answering(pool, t.second.addrs, turn.rediscover, i)
             && forall j :: 0 <= j < i ==> !Answering(pool, t.second.addrs, turn.rediscover, j)
    ensures t.after.view == ViewOf(turn.rediscover(i))
  {
    AnsweringInside(t.mid.pool + {RouteIn(t.mid.view, shard).owner}, t.second.addrs, turn.rediscover, i);
    hide Answering, PooledBy, Order, RouteIn;
    assert t.second.at == i;
  }

  lemma KnownIsCalled(bootstrap: seq<string>, shard: int, retryAmbiguous: bool, turn: Attempt, t: Tried)
    requires Attempted(bootstrap, shard, retryAmbiguous, turn, t) && Known(t.before.view, shard)
    requires turn.dialErr.Nothing? || RouteIn(t.before.view, shard).owner in t.before.pool
    ensures var route := RouteIn(t.before.view, shard);
            t.called && CallsOf(turn, shard, t) == [Invocation(route.owner, route.term, turn.call)]
  {
  }

  lemma AnsweringInside(pool: set<string>, addrs: seq<string>, net: nat -> Reply, i: nat)
    requires Answering(pool, addrs, net, i)
    ensures i < |addrs|
  {
  }

  lemma LastCall(env: nat -> Attempt, shard: int, log: seq<Tried>)
    requires log != []
    ensures var k := |log| - 1; Calls(env, shard, log) == Calls(env, shard, log[..k]) + CallsOf(env(k), shard, log[k])
  {
  }

  /** An attempt has no error exactly if it called and the call came back without one. */
  lemma AttemptErr(bootstrap: seq<string>, shard: int, retryAmbiguous: bool, turn: Attempt, t: Tried)
    requires Attempted(bootstrap, shard, retryAmbiguous, turn, t)
    ensures t.err.Nothing? <==> t.called && turn.call.transport.Nothing? && turn.call.status.Nothing?
    ensures t.called && Retries(turn.call, retryAmbiguous) ==> t.err.Just?
  {
    if !Known(t.before.view, shard) {
      AskErrExact(bootstrap, turn.discover, t.before, t.mid, t.first);
    }
    hide Asked;
  }

  /** Which attempts call: those whose owner is cached, or learnt from the first node that answers, and is
      pooled or can be dialled. The call goes over a connection to that owner, with that owner's term. */
  lemma KnownOwnerIsCalled(bootstrap: seq<string>, shard: int, retryAmbiguous: bool, turn: Attempt, t: Tried)
    requires Attempted(bootstrap, shard, retryAmbiguous, turn, t)
    ensures var answered := t.first.at < |t.first.addrs|;
            var view := if Known(t.before.view, shard) || !answered then t.before.view else ViewOf(turn.discover(t.first.at));
            var route := RouteIn(view, shard);
            && (t.called <==> route.owner != "" && (route.owner in t.mid.pool || turn.dialErr.Nothing?))
            && CallsOf(turn, shard, t) == (if t.called then [Invocation(route.owner, route.term, turn.call)] else [])
            && (t.called && !Retries(turn.call, retryAmbiguous) ==> route.owner in t.after.pool)
  {
  }

  // -- Routes and the ownership history --

  /** A route map in which every owner and its term stand in the ownership history. */
  ghost predicate SoundMap(v: View, history: set<Holding>) {
    forall s :: s in v.owner && v.owner[s] != "" ==>
      s in v.term && v.term[s] > 0 && Holding(s, v.term[s], v.owner[s]) in history
  }

  ghost predicate SoundReplies(net: nat -> Reply, history: set<Holding>) {
    forall i :: SoundMap(ViewOf(net(i)), history)
  }

  ghost predicate SoundEnv(env: nat -> Attempt, history: set<Holding>) {
    forall k :: SoundReplies(env(k).discover, history) && SoundReplies(env(k).rediscover, history)
  }

  lemma AttemptKeepsSound(bootstrap: seq<string>, shard: int, retryAmbiguous: bool, turn: Attempt, t: Tried,
                          history: set<Holding>)
    requires Attempted(bootstrap, shard, retryAmbiguous, turn, t) && SoundMap(t.before.view, history)
    requires SoundReplies(turn.discover, history) && SoundReplies(turn.rediscover, history)
    ensures SoundMap(t.mid.view, history) && SoundMap(t.after.view, history)
  {
    hide SoundMap;
  }

  lemma ChainPrefix(bootstrap: seq<string>, shard: int, retryAmbiguous: bool, env: nat -> Attempt,
                    log: seq<Tried>, start: Hand, end: Hand)
    requires Chain(bootstrap, shard, retryAmbiguous, env, log, start, end) && log != []
    ensures var k := |log| - 1;
            && Chain(bootstrap, shard, retryAmbiguous, env, log[..k], start, log[k].before)
            && Attempted(bootstrap, shard, retryAmbiguous, env(k), log[k]) && log[k].after == end
            && !Final(retryAmbiguous, env, log[..k])
  {
    hide Attempted, Retries;
  }

  /** Route soundness: if the route map in hand and every answer are sound, so are the map a run leaves and
      every route it calls by. */
  lemma {:induction false} RunKeepsSound(bootstrap: seq<string>, shard: int, retryAmbiguous: bool, env: nat -> Attempt,
                                         log: seq<Tried>, start: Hand, end: Hand, history: set<Holding>)
    requires Chain(bootstrap, shard, retryAmbiguous, env, log, start, end)
    requires SoundMap(start.view, history) && SoundEnv(env, history)
    ensures SoundMap(end.view, history)
    ensures forall c :: c in Calls(env, shard, log) ==>
              c.addr != "" && c.term > 0 && Holding(shard, c.term, c.addr) in history
  {
    if log != [] {
      var k := |log| - 1;
      ChainPrefix(bootstrap, shard, retryAmbiguous, env, log, start, end);
      RunKeepsSound(bootstrap, shard, retryAmbiguous, env, log[..k], start, log[k].before, history);
      assert SoundReplies(env(k).discover, history) && SoundReplies(env(k).rediscover, history);
      assert log[k].called ==> Known(log[k].mid.view, shard);
      hide Chain, Attempted, SoundReplies, SoundEnv;
      AttemptKeepsSound(bootstrap, shard, retryAmbiguous, env(k), log[k], history);
      LastCall(env, shard, log);
    }
  }

  function Results(calls: seq<Invocation>): seq<CallResult> {
    seq(|calls|, i requires 0 <= i < |calls| => calls[i].result)
  }

  /** The results of a run are those of the attempts before and that of the last, if it called. */
  lemma LastResult(env: nat -> Attempt, shard: int, log: seq<Tried>)
    requires log != []
    ensures var k := |log| - 1;
            Results(Calls(env, shard, log)) ==
              Results(Calls(env, shard, log[..k])) + if log[k].called then [env(k).call] else []
  {
  }

  ghost predicate WellMade(retryAmbiguous: bool, env: nat -> Attempt, log: seq<Tried>, made: seq<CallResult>) {
    && |made| <= |log| && Shaped(made, retryAmbiguous)
    && (if Final(retryAmbiguous, env, log) then made != [] && made[|made| - 1] == env(|log| - 1).call
        else AllRetried(made, retryAmbiguous))
  }

  lemma MadeGrows(retryAmbiguous: bool, env: nat -> Attempt, log: seq<Tried>, made: seq<CallResult>)
    requires log != [] && WellMade(retryAmbiguous, env, log[..|log| - 1], made)
    requires !Final(retryAmbiguous, env, log[..|log| - 1])
    ensures var k := |log| - 1;
            WellMade(retryAmbiguous, env, log, made + if log[k].called then [env(k).call] else [])
  {
    hide Retries;
    var k := |log| - 1;
    if log[k].called {
      RetriedThen(made, env(k).call, retryAmbiguous);
    } else {
      assert made + [] == made;
    }
  }

  /** What the invocations of a run look like: at most four, every one but the last retried, and the last
      the final one if the run ended in one. */
  lemma {:induction false} CallsShaped(bootstrap: seq<string>, shard: int, retryAmbiguous: bool, env: nat -> Attempt,
                                       log: seq<Tried>, start: Hand, end: Hand)
    requires Chain(bootstrap, shard, retryAmbiguous, env, log, start, end)
    ensures WellMade(retryAmbiguous, env, log, Results(Calls(env, shard, log)))
  {
    if log != [] {
      hide Chain, Attempted, Calls, WellMade, Final;
      var k := |log| - 1;
      ChainPrefix(bootstrap, shard, retryAmbiguous, env, log, start, end);
      CallsShaped(bootstrap, shard, retryAmbiguous, env, log[..k], start, log[k].before);
      LastResult(env, shard, log);
      MadeGrows(retryAmbiguous, env, log, Results(Calls(env, shard, log[..k])));
    }
  }

  ghost predicate AllRetried(made: seq<CallResult>, retryAmbiguous: bool) {
    forall r :: r in made ==> Retries(r, retryAmbiguous)
  }

  lemma RetriedThen(made: seq<CallResult>, r: CallResult, retryAmbiguous: bool)
    requires AllRetried(made, retryAmbiguous)
    ensures Shaped(made + [r], retryAmbiguous)
    ensures Retries(r, retryAmbiguous) ==> AllRetried(made + [r], retryAmbiguous)
  {
    assert forall i :: 0 <= i < |made| ==> (made + [r])[i] in made;
  }

  // -- At most once --

  /** Every invocation but the last was one that is retried. */
  predicate Shaped(made: seq<CallResult>, retryAmbiguous: bool) {
    forall i :: 0 <= i < |made| - 1 ==> Retries(made[i], retryAmbiguous)
  }

  function TimesApplied(made: seq<CallResult>): nat {
    if made == [] then 0 else TimesApplied(made[..|made| - 1]) + if made[|made| - 1].applied then 1 else 0
  }

  lemma {:induction false} NoneApplied(made: seq<CallResult>)
    requires forall r :: r in made ==> !r.applied
    ensures TimesApplied(made) == 0
  {
    if made != [] {
      var k := |made| - 1;
      assert made[k] in made && forall r :: r in made[..k] ==> r in made;
      NoneApplied(made[..k]);
    }
  }

  /** At most once: if what is retried was never applied, the whole run applies the call at most once,
      and exactly once when it ends in success. */
  lemma AtMostOnce(made: seq<CallResult>, retryAmbiguous: bool)
    requires Shaped(made, retryAmbiguous)
    requires forall r :: r in made && Retries(r, retryAmbiguous) ==> !r.applied
    requires forall r :: r in made && r.transport.Nothing? && r.status.Nothing? ==> r.applied
    ensures TimesApplied(made) <= 1
    ensures made != [] && made[|made| - 1].transport.Nothing? && made[|made| - 1].status.Nothing? ==> TimesApplied(made) == 1
  {
    if made != [] {
      var k := |made| - 1;
      assert made[k] in made;
      forall r | r in made[..k] ensures !r.applied {
        var i :| 0 <= i < k && made[i] == r;
        assert made[i] in made;
      }
      NoneApplied(made[..k]);
    }
  }

  /** At most once, for a whole run of `Do`: whatever the network does, if no answer that is retried was
      applied, the call is applied at most once, and exactly once when the run ends in success. */
  lemma RunAppliesAtMostOnce(bootstrap: seq<string>, shard: int, retryAmbiguous: bool, env: nat -> Attempt,
                             log: seq<Tried>, start: Hand, end: Hand)
    requires Chain(bootstrap, shard, retryAmbiguous, env, log, start, end)
    requires forall k :: Retries(env(k).call, retryAmbiguous) ==> !env(k).call.applied
    requires forall k :: Succeeded(env(k).call) ==> env(k).call.applied
    ensures TimesApplied(Results(Calls(env, shard, log))) <= 1
    ensures log != [] && log[|log| - 1].called && Succeeded(env(|log| - 1).call) ==>
              TimesApplied(Results(Calls(env, shard, log))) == 1
  {
    var made := Results(Calls(env, shard, log));
    CallsShaped(bootstrap, shard, retryAmbiguous, env, log, start, end);
    ResultsOfEnv(env, shard, log);
    hide Retries, Calls, Chain;
    AtMostOnce(made, retryAmbiguous);
  }

  lemma {:induction false} ResultsOfEnv(env: nat -> Attempt, shard: int, log: seq<Tried>)
    ensures forall r :: r in Results(Calls(env, shard, log)) ==> exists k :: env(k).call == r
  {
    if log != [] {
      ResultsOfEnv(env, shard, log[..|log| - 1]);
      LastResult(env, shard, log);
      hide Calls, Results;
    }
  }

  /** The condition is exact: over everything a server may answer, runs apply a call at most once if and
      only if no answer that is retried was applied. */
  lemma AtMostOnceExact(server: CallResult -> bool, retryAmbiguous: bool, success: CallResult)
    requires server(success) && Succeeded(success) && success.applied
    requires forall r :: server(r) && Succeeded(r) ==> r.applied
    ensures (forall made :: Shaped(made, retryAmbiguous) && |made| <= 4 && (forall r :: r in made ==> server(r)) ==>
               TimesApplied(made) <= 1)
            <==> (forall r :: server(r) && Retries(r, retryAmbiguous) ==> !r.applied)
  {
    if r :| server(r) && Retries(r, retryAmbiguous) && r.applied {
      var made := [r, success];
      assert made[..1] == [r] && [r][..0] == [];
      assert TimesApplied([r]) == 1;
      assert TimesApplied(made) == 2;
    } else {
      forall made | Shaped(made, retryAmbiguous) && |made| <= 4 && (forall r :: r in made ==> server(r))
        ensures TimesApplied(made) <= 1
      {
        AtMostOnce(made, retryAmbiguous);
      }
    }
  }

  /** Why idempotence matters: honest rejections do not make an ambiguous failure safe to retry. */
  lemma AmbiguousRetryAppliesTwice()
    ensures var lost := CallResult(Just(Error(false, Unavailable, "")), Nothing, true);
            var made := [lost, CallResult(Nothing, Nothing, true)];
            Shaped(made, true) && !Shaped(made, false) && TimesApplied(made) == 2
  {
    var lost := CallResult(Just(Error(false, Unavailable, "")), Nothing, true);
    var made := [lost, CallResult(Nothing, Nothing, true)];
    assert made[..1] == [lost] && [lost][..0] == [];
    assert !Retries(made[0], false);
    assert TimesApplied([lost]) == 1;
  }

  // -- The pool --

  lemma {:induction false} SubsetCard(a: set<string>, b: set<string>)
    requires a <= b
    ensures |a| <= |b|
  {
    if a != {} {
      var x :| x in a;
      SubsetCard(a - {x}, b - {x});
    }
  }

  lemma {:induction false} OwnersCard(items: set<(int, string)>)
    ensures |set item | item in items :: item.1| <= |items|
  {
    if items != {} {
      var x :| x in items;
      OwnersCard(items - {x});
      var all, most := set item | item in items :: item.1, set item | item in items - {x} :: item.1;
      assert all <= most + {x.1};
      SubsetCard(all, most + {x.1});
    }
  }

  lemma {:induction false} ElementsCard(xs: seq<string>)
    ensures |set x | x in xs| <= |xs|
  {
    if xs != [] {
      var k := |xs| - 1;
      ElementsCard(xs[..k]);
      assert (set x | x in xs) == (set x | x in xs[..k]) + {xs[k]};
    }
  }

  lemma {:induction false} ShardsCard(shards: set<int>, n: nat)
    requires forall s :: s in shards ==> 0 <= s < n
    ensures |shards| <= n
  {
    if n > 0 {
      ShardsCard(shards - {n - 1}, n - 1);
    } else {
      assert forall s: int :: s !in shards;
      assert shards <= {};
    }
  }

  /** Pool tracking bounds the pool: one connection for each bootstrap node and each shard. */
  lemma PoolBound(conns: set<string>, bootstrap: seq<string>, owner: map<int, string>)
    requires forall a :: a in conns ==> a in bootstrap || a in Owners(owner)
    ensures |conns| <= |bootstrap| + |owner|
    ensures (forall s :: s in owner ==> IsShard(s)) ==> |conns| <= |bootstrap| + 256
  {
    var b := set x | x in bootstrap;
    assert conns <= b + Owners(owner);
    SubsetCard(conns, b + Owners(owner));
    ElementsCard(bootstrap);
    OwnersCard(owner.Items);
    assert |b + Owners(owner)| <= |b| + |Owners(owner)|;
    if forall s :: s in owner ==> IsShard(s) {
      ShardsCard(owner.Keys, 256);
    }
  }

  // -- From etcd to the called node --

  /** A route map served from any state of a run is sound for the history of every later state. */
  lemma ServedRoutesAreSound(w: Weight, acts: seq<Action>, more: seq<Action>, owner: map<int, string>, term: map<int, nat>)
    requires SoundRoutes(Run(w, Init, acts).etcd, owner, term)
    ensures SoundMap(View(owner, term), Run(w, Init, acts + more).etcd.log)
  {
    RunConcat(w, Init, acts, more);
    RunKeepsInv(w, Init, acts);
    LogGrows(w, Run(w, Init, acts), more);
  }

  /** End to end: the address a call goes to is the only node that ever caches the stamped term. */
  lemma CalledNodeHoldsTerm(w: Weight, sys: System, shard: int, c: Invocation, n: string)
    requires Reachable(w, sys) && Holding(shard, c.term, c.addr) in sys.etcd.log
    requires n in sys.nodes && shard in sys.nodes[n].owned && sys.nodes[n].owned[shard] == c.term
    ensures n == c.addr
  {
    ReachableInv(w, sys);
    assert ProcessInv(sys.now, sys.etcd, n, sys.nodes[n]);
    assert Holding(shard, c.term, n) in sys.etcd.log;
  }

}
