/** The exact steps of one reconcile round, given what happens before each of its calls and which of
    them succeed; and what a round achieves when nobody interferes. */
module Rounds {
  import opened Placement
  import opened Reconciling
  import opened Etcd
  import opened Protocol
  import opened Safety
  import opened Convergence

  /** What happens before one etcd call, and whether that call succeeds. */
  datatype Turn = Turn(others: seq<Action>, ok: bool)

  type Schedule = nat -> Turn

  /** One turn of node `me`. */
  function Played(turn: Turn, me: string, call: Call): seq<Action> {
    turn.others + [Round(me, call, turn.ok)]
  }

  /** The first n claims, from turn `start` on. */
  function ClaimTrace(me: string, env: Schedule, start: nat, n: nat): seq<Action> {
    if n == 0 then [] else ClaimTrace(me, env, start, n - 1) + Played(env(start + n - 1), me, ClaimNext)
  }

  /** The first n releases: each shard is marked, then released. */
  function ReleaseTrace(me: string, env: Schedule, start: nat, n: nat): seq<Action> {
    if n == 0 then [] else
      ReleaseTrace(me, env, start, n - 1) + ([Round(me, MarkNext, true)] + Played(env(start + n - 1), me, ReleaseNext))
  }

  /** The loaded key of shard s is this node's, rides another lease, and is not being released. */
  predicate MustRebind(me: string, lease: nat, om: seq<OwnerInfo>, release: seq<int>, s: nat)
    requires s < |om|
  {
    om[s].owner == me && om[s].lease != lease && s !in release
  }

  function RebindTurn(me: string, lease: nat, om: seq<OwnerInfo>, release: seq<int>, turn: Turn, s: nat): seq<Action>
    requires s < |om|
  {
    if MustRebind(me, lease, om, release, s) then Played(turn, me, RebindNext) else [Round(me, RebindNext, turn.ok)]
  }

  /** The rebind loop over the shards below n; only a shard that must be rebound takes a call. */
  function RebindTrace(me: string, lease: nat, om: seq<OwnerInfo>, release: seq<int>, env: Schedule, start: nat, n: nat)
    : seq<Action>
    requires n <= |om|
  {
    if n == 0 then [] else
      RebindTrace(me, lease, om, release, env, start, n - 1)
      + RebindTurn(me, lease, om, release, env(start + n - 1), n - 1)
  }

  /** What the three reads of a round gave. */
  datatype Plan = Plan(members: seq<string>, claim: seq<int>, release: seq<int>, om: seq<OwnerInfo>)

  function ReloadTurn(p: Plan): nat {
    2 + |p.claim| + |p.release|
  }

  /** The round up to its second read, up to its third, and to its end. */
  function LoadTrace(me: string, p: Plan, env: Schedule): seq<Action> {
    Played(env(0), me, ListMembers(p.members))
  }

  function ApplyTrace(me: string, p: Plan, env: Schedule): seq<Action> {
    LoadTrace(me, p, env) + Played(env(1), me, LoadMap)
    + ClaimTrace(me, env, 2, |p.claim|) + ReleaseTrace(me, env, 2 + |p.claim|, |p.release|)
  }

  function RoundTrace(me: string, lease: nat, p: Plan, env: Schedule): seq<Action> {
    if !env(0).ok then LoadTrace(me, p, env)
    else if !env(1).ok then LoadTrace(me, p, env) + Played(env(1), me, LoadMap)
    else if !env(ReloadTurn(p)).ok then ApplyTrace(me, p, env) + Played(env(ReloadTurn(p)), me, Reload)
    else
      ApplyTrace(me, p, env) + Played(env(ReloadTurn(p)), me, Reload)
      + RebindTrace(me, lease, p.om, p.release, env, ReloadTurn(p) + 1, |p.om|) + [Round(me, Install, true)]
  }

  /** The plan is what the reads see: the members at the first, the lists of the map at the second, the
      ownership map at the third. `before` is the history before the round. */
  ghost predicate Planned(w: Weight, before: seq<Action>, me: string, p: Plan, env: Schedule) {
    && (env(0).ok ==> Listing(p.members, Run(w, Init, before + env(0).others).etcd.members.Keys))
    && (env(0).ok && env(1).ok ==>
          var sm := LoadShardMap(Run(w, Init, before + (LoadTrace(me, p, env) + env(1).others)).etcd);
          p.claim == Claims(w, me, p.members, sm) && p.release == Releases(w, me, p.members, sm))
    && (env(0).ok && env(1).ok && env(ReloadTurn(p)).ok ==>
          p.om == LoadOwnershipMap(Run(w, Init, before + (ApplyTrace(me, p, env) + env(ReloadTurn(p)).others)).etcd))
  }

  /** A round that stops at its first or second read. */
  lemma StopsEarly(w: Weight, before: seq<Action>, me: string, lease: nat, p: Plan, env: Schedule)
    requires !env(0).ok || !env(1).ok
    requires env(0).ok ==> Listing(p.members, Run(w, Init, before + env(0).others).etcd.members.Keys)
    ensures Planned(w, before, me, p, env)
    ensures before + RoundTrace(me, lease, p, env) ==
              before + Played(env(0), me, ListMembers(p.members)) + if env(0).ok then Played(env(1), me, LoadMap) else []
  {
    hide Run, Listing, ApplyTrace;
  }

  /** The trace of a round up to its third read, as it grows. */
  function Grown(before: seq<Action>, me: string, p: Plan, env: Schedule): seq<Action> {
    before + Played(env(0), me, ListMembers(p.members)) + Played(env(1), me, LoadMap)
    + ClaimTrace(me, env, 2, |p.claim|) + ReleaseTrace(me, env, 2 + |p.claim|, |p.release|)
  }

  lemma GrownIs(before: seq<Action>, me: string, p: Plan, env: Schedule)
    ensures Grown(before, me, p, env) == before + ApplyTrace(me, p, env)
    ensures before + Played(env(0), me, ListMembers(p.members)) + env(1).others ==
              before + (LoadTrace(me, p, env) + env(1).others)
  {
    hide ClaimTrace, ReleaseTrace, Played;
  }

  /** A round that gets to its third read. */
  lemma GetsToReload(w: Weight, before: seq<Action>, me: string, lease: nat, p: Plan, env: Schedule)
    requires env(0).ok && env(1).ok
    requires Listing(p.members, Run(w, Init, before + env(0).others).etcd.members.Keys)
    requires var sm := LoadShardMap(Run(w, Init, before + Played(env(0), me, ListMembers(p.members)) + env(1).others).etcd);
             p.claim == Claims(w, me, p.members, sm) && p.release == Releases(w, me, p.members, sm)
    requires p.om == LoadOwnershipMap(Run(w, Init, Grown(before, me, p, env) + env(ReloadTurn(p)).others).etcd)
    ensures Planned(w, before, me, p, env)
    ensures var reloaded := Grown(before, me, p, env) + Played(env(ReloadTurn(p)), me, Reload);
            before + RoundTrace(me, lease, p, env) ==
              if env(ReloadTurn(p)).ok
              then reloaded + RebindTrace(me, lease, p.om, p.release, env, ReloadTurn(p) + 1, ShardCount)
                   + [Round(me, Install, true)]
              else reloaded
  {
    GrownIs(before, me, p, env);
    hide Run, Listing, Claims, Releases, LoadShardMap, LoadOwnershipMap, ApplyTrace, Grown, RebindTrace, Played, LoadTrace;
    assert before + ApplyTrace(me, p, env) + env(ReloadTurn(p)).others ==
           before + (ApplyTrace(me, p, env) + env(ReloadTurn(p)).others);
  }

  // -- Quiet rounds --

  ghost predicate QuietTurns(env: Schedule) {
    forall k :: env(k).ok && forall a :: a in env(k).others ==> Quiet(a)
  }

  ghost predicate AllQuiet(acts: seq<Action>) {
    forall a :: a in acts ==> Quiet(a)
  }

  lemma PlayedQuiet(env: Schedule, k: nat, me: string, call: Call)
    requires QuietTurns(env)
    ensures AllQuiet(Played(env(k), me, call))
  {
  }

  lemma QuietJoined(a: seq<Action>, b: seq<Action>)
    requires AllQuiet(a) && AllQuiet(b)
    ensures AllQuiet(a + b)
  {
  }

  lemma {:induction false} ClaimsQuiet(me: string, env: Schedule, start: nat, n: nat)
    requires QuietTurns(env)
    ensures AllQuiet(ClaimTrace(me, env, start, n))
  {
    hide AllQuiet, QuietTurns, Played;
    if n == 0 {
      NothingQuiet();
    } else {
      ClaimsQuiet(me, env, start, n - 1);
      PlayedQuiet(env, start + n - 1, me, ClaimNext);
      QuietJoined(ClaimTrace(me, env, start, n - 1), Played(env(start + n - 1), me, ClaimNext));
    }
  }

  lemma NothingQuiet()
    ensures AllQuiet([])
  {
  }

  lemma {:induction false} ReleasesQuiet(me: string, env: Schedule, start: nat, n: nat)
    requires QuietTurns(env)
    ensures AllQuiet(ReleaseTrace(me, env, start, n))
  {
    hide QuietTurns, Played;
    if n != 0 {
      ReleasesQuiet(me, env, start, n - 1);
      PlayedQuiet(env, start + n - 1, me, ReleaseNext);
    }
  }

  lemma {:induction false} RebindsQuiet(me: string, lease: nat, om: seq<OwnerInfo>, release: seq<int>, env: Schedule,
                                        start: nat, n: nat)
    requires QuietTurns(env) && n <= |om|
    ensures AllQuiet(RebindTrace(me, lease, om, release, env, start, n))
  {
    if n != 0 {
      RebindsQuiet(me, lease, om, release, env, start, n - 1);
      PlayedQuiet(env, start + n - 1, me, RebindNext);
      assert env(start + n - 1).ok;
      hide QuietTurns, Played;
    }
  }

  lemma ApplyQuiet(me: string, p: Plan, env: Schedule)
    requires QuietTurns(env)
    ensures AllQuiet(ApplyTrace(me, p, env))
  {
    hide AllQuiet, QuietTurns, Played, ClaimTrace, ReleaseTrace;
    PlayedQuiet(env, 0, me, ListMembers(p.members));
    PlayedQuiet(env, 1, me, LoadMap);
    ClaimsQuiet(me, env, 2, |p.claim|);
    ReleasesQuiet(me, env, 2 + |p.claim|, |p.release|);
    var opening, claims := LoadTrace(me, p, env) + Played(env(1), me, LoadMap), ClaimTrace(me, env, 2, |p.claim|);
    QuietJoined(LoadTrace(me, p, env), Played(env(1), me, LoadMap));
    QuietJoined(opening, claims);
    QuietJoined(opening + claims, ReleaseTrace(me, env, 2 + |p.claim|, |p.release|));
  }

  lemma QuietRoundTrace(me: string, lease: nat, p: Plan, env: Schedule)
    requires QuietTurns(env)
    ensures RoundTrace(me, lease, p, env) ==
              ApplyTrace(me, p, env) + Played(env(ReloadTurn(p)), me, Reload)
              + RebindTrace(me, lease, p.om, p.release, env, ReloadTurn(p) + 1, |p.om|) + [Round(me, Install, true)]
  {
    assert env(0).ok && env(1).ok && env(ReloadTurn(p)).ok;
  }

  /** When every call of a round succeeds and what happens in between is quiet, the round is quiet: the
      convergence theorems are about such rounds. */
  lemma RoundQuiet(me: string, lease: nat, p: Plan, env: Schedule)
    requires QuietTurns(env)
    ensures AllQuiet(RoundTrace(me, lease, p, env))
  {
    assert AllQuiet([Round(me, Install, true)]);
    hide AllQuiet, QuietTurns, Played, ApplyTrace, RebindTrace, RoundTrace;
    var k := ReloadTurn(p);
    QuietRoundTrace(me, lease, p, env);
    ApplyQuiet(me, p, env);
    PlayedQuiet(env, k, me, Reload);
    RebindsQuiet(me, lease, p.om, p.release, env, k + 1, |p.om|);
    var reloaded := ApplyTrace(me, p, env) + Played(env(k), me, Reload);
    var loop := RebindTrace(me, lease, p.om, p.release, env, k + 1, |p.om|);
    QuietJoined(ApplyTrace(me, p, env), Played(env(k), me, Reload));
    QuietJoined(reloaded, loop);
    QuietJoined(reloaded + loop, [Round(me, Install, true)]);
  }

  // -- A round alone --

  /** Every call succeeds and nobody interferes. */
  ghost predicate Alone(env: Schedule) {
    forall k :: env(k) == Turn([], true)
  }

  lemma PlayedAlone(env: Schedule, k: nat, me: string, call: Call)
    requires Alone(env)
    ensures env(k).ok && env(k).others == [] && Played(env(k), me, call) == [Round(me, call, true)]
  {
    assert env(k) == Turn([], true);
  }

  /** Node `me` may take this step of its round. */
  ghost predicate Ready(sys: System, me: string) {
    me in sys.nodes && !sys.nodes[me].closed && sys.nodes[me].lease in sys.etcd.live
  }

  /** Only this node's memory and the ownership keys have changed. */
  ghost predicate OnlyMine(sys: System, sys': System, me: string) {
    && Ready(sys, me) && Ready(sys', me)
    && sys' == sys.(etcd := sys'.etcd, nodes := sys.nodes[me := sys'.nodes[me]])
    && sys'.etcd == sys.etcd.(rev := sys'.etcd.rev, shards := sys'.etcd.shards, log := sys'.etcd.log)
    && var nd, nd' := sys.nodes[me], sys'.nodes[me];
    && nd' == nd.(pc := nd'.pc, owned := nd'.owned, releasing := nd'.releasing, suspect := nd'.suspect,
                  done := nd'.done, bound := nd'.bound)
  }

  lemma OnlyMineTrans(sys: System, mid: System, sys': System, me: string)
    requires OnlyMine(sys, mid, me) && OnlyMine(mid, sys', me)
    ensures OnlyMine(sys, sys', me)
  {
  }

  lemma StepAlone(w: Weight, sys: System, me: string, call: Call)
    requires Ready(sys, me) && Enabled(sys.etcd, sys.nodes[me], call)
    ensures var sys' := Step(w, sys, Round(me, call, true));
            && OnlyMine(sys, sys', me)
            && (sys'.etcd, sys'.nodes[me]) == NodeStep(w, sys.etcd, me, sys.nodes[me], call, true)
  {
    NodeStepFrame(w, sys.etcd, me, sys.nodes[me], call, true);
    var r := NodeStep(w, sys.etcd, me, sys.nodes[me], call, true);
    assert r.0 == sys.etcd.(rev := r.0.rev, shards := r.0.shards, log := r.0.log);
  }

  ghost predicate SameKey(e: Store, e': Store, s: int) {
    (s in e'.shards <==> s in e.shards) && (s in e.shards && s in e'.shards ==> e'.shards[s] == e.shards[s])
  }

  /** After k claims alone: those shards are held, and nothing else has changed. */
  ghost predicate Claimed(sys: System, sys': System, me: string, k: nat)
    requires Ready(sys, me) && sys.nodes[me].pc.Applying? && k <= |sys.nodes[me].pc.claim|
  {
    var nd := sys.nodes[me];
    && OnlyMine(sys, sys', me)
    && sys'.nodes[me] == nd.(pc := nd.pc.(claim := nd.pc.claim[k..]))
    && (forall s :: if s in nd.pc.claim[..k] then Holds(sys'.etcd, s, me, nd.lease) else SameKey(sys.etcd, sys'.etcd, s))
  }

  lemma ClaimedMore(w: Weight, sys: System, mid: System, me: string, k: nat)
    requires Ready(sys, me) && sys.nodes[me].pc.Applying? && k < |sys.nodes[me].pc.claim|
    requires Increasing(sys.nodes[me].pc.claim) && sys.nodes[me].pc.claim[k] !in sys.etcd.shards
    requires Claimed(sys, mid, me, k)
    ensures Claimed(sys, Step(w, mid, Round(me, ClaimNext, true)), me, k + 1)
  {
    var claim := sys.nodes[me].pc.claim;
    StepAlone(w, mid, me, ClaimNext);
    var sys' := Step(w, mid, Round(me, ClaimNext, true));
    OnlyMineTrans(sys, mid, sys', me);
    hide Step;
    assert claim[k] !in claim[..k];
    assert SameKey(sys.etcd, mid.etcd, claim[k]);
    assert claim[..k + 1] == claim[..k] + [claim[k]] && claim[k..][1..] == claim[k + 1..];
    assert claim[k..][0] == claim[k];
    hide OnlyMine;
  }

  lemma RunNothing(w: Weight, sys: System)
    ensures Run(w, sys, []) == sys
  {
  }

  lemma NothingClaimed(sys: System, me: string)
    requires Ready(sys, me) && sys.nodes[me].pc.Applying?
    ensures Claimed(sys, sys, me, 0)
  {
    assert sys.nodes[me].pc.claim[0..] == sys.nodes[me].pc.claim;
    assert sys.nodes == sys.nodes[me := sys.nodes[me]];
  }

  lemma {:induction false} ClaimsAlone(w: Weight, sys: System, me: string, env: Schedule, start: nat, k: nat)
    requires Alone(env) && Ready(sys, me) && sys.nodes[me].pc.Applying? && k <= |sys.nodes[me].pc.claim|
    requires Increasing(sys.nodes[me].pc.claim) && forall s :: s in sys.nodes[me].pc.claim ==> s !in sys.etcd.shards
    ensures Claimed(sys, Run(w, sys, ClaimTrace(me, env, start, k)), me, k)
  {
    hide Step, Run, Claimed, OnlyMine;
    if k == 0 {
      RunNothing(w, sys);
      NothingClaimed(sys, me);
    } else {
      ClaimsAlone(w, sys, me, env, start, k - 1);
      PlayedAlone(env, start + k - 1, me, ClaimNext);
      var init := ClaimTrace(me, env, start, k - 1);
      RunSnoc(w, sys, init, Round(me, ClaimNext, true));
      assert sys.nodes[me].pc.claim[k - 1] in sys.nodes[me].pc.claim;
      ClaimedMore(w, sys, Run(w, sys, init), me, k - 1);
    }
  }

  /** After k releases alone: those shards are gone, and nothing else but the marks has changed. */
  ghost predicate Released(sys: System, sys': System, me: string, k: nat)
    requires Ready(sys, me) && sys.nodes[me].pc.Applying? && k <= |sys.nodes[me].pc.todo|
  {
    && OnlyMine(sys, sys', me)
    && var nd, nd' := sys.nodes[me], sys'.nodes[me];
    && nd' == nd.(pc := nd.pc.(todo := nd.pc.todo[k..]), releasing := nd'.releasing)
    && (forall s :: if s in nd.pc.todo[..k] then s !in sys'.etcd.shards else SameKey(sys.etcd, sys'.etcd, s))
  }

  lemma ReleasedMore(w: Weight, sys: System, mid: System, me: string, k: nat)
    requires Ready(sys, me) && sys.nodes[me].pc.Applying? && k < |sys.nodes[me].pc.todo|
    requires sys.nodes[me].pc.claim == [] && !sys.nodes[me].pc.marked && Increasing(sys.nodes[me].pc.todo)
    requires Names(sys.etcd, sys.nodes[me].pc.todo[k], me) && Released(sys, mid, me, k)
    ensures Released(sys, Step(w, Step(w, mid, Round(me, MarkNext, true)), Round(me, ReleaseNext, true)), me, k + 1)
  {
    var todo := sys.nodes[me].pc.todo;
    StepAlone(w, mid, me, MarkNext);
    var marked := Step(w, mid, Round(me, MarkNext, true));
    StepAlone(w, marked, me, ReleaseNext);
    var sys' := Step(w, marked, Round(me, ReleaseNext, true));
    OnlyMineTrans(sys, mid, marked, me);
    OnlyMineTrans(sys, marked, sys', me);
    hide Step;
    assert todo[k] !in todo[..k];
    assert SameKey(sys.etcd, mid.etcd, todo[k]);
    assert todo[..k + 1] == todo[..k] + [todo[k]] && todo[k..][1..] == todo[k + 1..] && todo[k..][0] == todo[k];
    hide OnlyMine;
  }

  lemma NothingReleased(sys: System, me: string)
    requires Ready(sys, me) && sys.nodes[me].pc.Applying?
    ensures Released(sys, sys, me, 0)
  {
    assert sys.nodes[me].pc.todo[0..] == sys.nodes[me].pc.todo;
    assert sys.nodes == sys.nodes[me := sys.nodes[me]];
  }

  lemma {:induction false} ReleasesAlone(w: Weight, sys: System, me: string, env: Schedule, start: nat, k: nat)
    requires Alone(env) && Ready(sys, me) && sys.nodes[me].pc.Applying? && k <= |sys.nodes[me].pc.todo|
    requires sys.nodes[me].pc.claim == [] && !sys.nodes[me].pc.marked && Increasing(sys.nodes[me].pc.todo)
    requires forall s :: s in sys.nodes[me].pc.todo ==> Names(sys.etcd, s, me)
    ensures Released(sys, Run(w, sys, ReleaseTrace(me, env, start, k)), me, k)
  {
    hide Step, Run, Released, OnlyMine, Names;
    if k == 0 {
      RunNothing(w, sys);
      NothingReleased(sys, me);
    } else {
      ReleasesAlone(w, sys, me, env, start, k - 1);
      PlayedAlone(env, start + k - 1, me, ReleaseNext);
      var init, mark, drop := ReleaseTrace(me, env, start, k - 1), Round(me, MarkNext, true), Round(me, ReleaseNext, true);
      assert ReleaseTrace(me, env, start, k) == init + [mark] + [drop];
      RunSnoc(w, sys, init, mark);
      RunSnoc(w, sys, init + [mark], drop);
      assert sys.nodes[me].pc.todo[k - 1] in sys.nodes[me].pc.todo;
      ReleasedMore(w, sys, Run(w, sys, init), me, k - 1);
    }
  }

  /** After the rebind loop alone over the shards below k: each that had to be rebound is held on this
      lease, and nothing else has changed. */
  ghost predicate Rebound(sys: System, sys': System, me: string, k: nat)
    requires Ready(sys, me) && sys.nodes[me].pc.Rebinding? && k <= |sys.nodes[me].pc.om| == ShardCount
  {
    var nd := sys.nodes[me];
    && OnlyMine(sys, sys', me)
    && sys'.nodes[me] == nd.(pc := nd.pc.(next := k))
    && (forall s :: if 0 <= s < k && MustRebind(me, nd.lease, nd.pc.om, nd.pc.release, s)
                    then Holds(sys'.etcd, s, me, nd.lease) else SameKey(sys.etcd, sys'.etcd, s))
  }

  lemma ReboundMore(w: Weight, sys: System, mid: System, me: string, k: nat)
    requires Ready(sys, me) && sys.nodes[me].pc.Rebinding? && k < |sys.nodes[me].pc.om| == ShardCount
    requires sys.nodes[me].pc.om == LoadOwnershipMap(sys.etcd) && me != "" && Rebound(sys, mid, me, k)
    ensures Rebound(sys, Step(w, mid, Round(me, RebindNext, true)), me, k + 1)
  {
    StepAlone(w, mid, me, RebindNext);
    var sys' := Step(w, mid, Round(me, RebindNext, true));
    OnlyMineTrans(sys, mid, sys', me);
    hide Step;
    var nd := sys.nodes[me];
    var must := MustRebind(me, nd.lease, nd.pc.om, nd.pc.release, k);
    assert SameKey(sys.etcd, mid.etcd, k);
    assert must ==> Names(mid.etcd, k, me);
    assert if must then sys'.etcd == PutShard(mid.etcd, k, me, nd.lease) else sys'.etcd == mid.etcd;
    hide OnlyMine, NodeStep, LoadOwnershipMap;
    forall s ensures if 0 <= s < k + 1 && MustRebind(me, nd.lease, nd.pc.om, nd.pc.release, s)
                     then Holds(sys'.etcd, s, me, nd.lease) else SameKey(sys.etcd, sys'.etcd, s)
    {
      assert if 0 <= s < k && MustRebind(me, nd.lease, nd.pc.om, nd.pc.release, s)
             then Holds(mid.etcd, s, me, nd.lease) else SameKey(sys.etcd, mid.etcd, s);
    }
  }

  lemma NothingRebound(sys: System, me: string)
    requires Ready(sys, me) && sys.nodes[me].pc.Rebinding? && |sys.nodes[me].pc.om| == ShardCount
    requires sys.nodes[me].pc.next == 0
    ensures Rebound(sys, sys, me, 0)
  {
    assert sys.nodes == sys.nodes[me := sys.nodes[me]];
  }

  lemma {:induction false} RebindsAlone(w: Weight, sys: System, me: string, env: Schedule, start: nat, k: nat)
    requires Alone(env) && Ready(sys, me) && sys.nodes[me].pc.Rebinding? && k <= |sys.nodes[me].pc.om| == ShardCount
    requires sys.nodes[me].pc.om == LoadOwnershipMap(sys.etcd) && me != "" && sys.nodes[me].pc.next == 0
    ensures var nd := sys.nodes[me];
            Rebound(sys, Run(w, sys, RebindTrace(me, nd.lease, nd.pc.om, nd.pc.release, env, start, k)), me, k)
  {
    hide Step, Run, Rebound, OnlyMine, LoadOwnershipMap;
    if k == 0 {
      RunNothing(w, sys);
      NothingRebound(sys, me);
    } else {
      var nd := sys.nodes[me];
      RebindsAlone(w, sys, me, env, start, k - 1);
      PlayedAlone(env, start + k - 1, me, RebindNext);
      var init := RebindTrace(me, nd.lease, nd.pc.om, nd.pc.release, env, start, k - 1);
      RunSnoc(w, sys, init, Round(me, RebindNext, true));
      ReboundMore(w, sys, Run(w, sys, init), me, k - 1);
    }
  }

  /** What one round of node `me` alone makes of shard s: an unowned shard it is the rendezvous owner of
      becomes its own, a shard it should not have is given up, its own keys on other leases come to this
      one, and every other key stays as it was. */
  ghost predicate Settled(w: Weight, ms: seq<string>, e: Store, e': Store, me: string, lease: nat, s: int) {
    if s !in e.shards then if Suggested(w, s, ms) == me then Holds(e', s, me, lease) else s !in e'.shards
    else if e.shards[s].owner != me then SameKey(e, e', s)
    else if Suggested(w, s, ms) != me then s !in e'.shards
    else if e.shards[s].lease == lease then SameKey(e, e', s)
    else Holds(e', s, me, lease)
  }

  /** The view a round alone leaves: exactly the node's keys, each servable, with the terms they had when
      they were loaded; only a rebound key has a newer one. */
  ghost predicate Caught(e: Store, e': Store, me: string, lease: nat, owned: map<int, nat>, releasing: set<int>) {
    && (forall s :: s in owned <==> Names(e', s, me))
    && (forall s :: s !in releasing)
    && (forall s :: s in owned && s in e'.shards ==>
          owned[s] == if Names(e, s, me) then e.shards[s].term else e'.shards[s].term)
  }

  /** The two reads of a round alone only move the node on. */
  lemma ReadsAlone(w: Weight, sys: System, me: string, members: seq<string>)
    requires Ready(sys, me) && sys.nodes[me].pc.Idle? && Listing(members, sys.etcd.members.Keys)
    ensures var mid := Step(w, sys, Round(me, ListMembers(members), true));
            var sm := LoadShardMap(sys.etcd);
            var claim, release := Claims(w, me, members, sm), Releases(w, me, members, sm);
            && mid.etcd == sys.etcd
            && Step(w, mid, Round(me, LoadMap, true)) ==
                 sys.(nodes := sys.nodes[me := sys.nodes[me].(pc := Applying(claim, release, false, release, true))])
  {
    hide Listing, Claims, Releases, LoadShardMap;
  }

  /** The plan of a round alone is made from the state it begins in. */
  lemma BeginsAlone(w: Weight, before: seq<Action>, me: string, p: Plan, env: Schedule)
    requires var sys := Run(w, Init, before); Ready(sys, me) && sys.nodes[me].pc.Idle?
    requires Alone(env) && Planned(w, before, me, p, env)
    ensures var sys := Run(w, Init, before);
            && Listing(p.members, sys.etcd.members.Keys)
            && p.claim == Claims(w, me, p.members, LoadShardMap(sys.etcd))
            && p.release == Releases(w, me, p.members, LoadShardMap(sys.etcd))
            && Run(w, Init, before + (LoadTrace(me, p, env) + Played(env(1), me, LoadMap))) ==
                 sys.(nodes := sys.nodes[me := sys.nodes[me].(pc := Applying(p.claim, p.release, false, p.release, true))])
  {
    hide Listing, Claims, Releases, LoadShardMap, LoadOwnershipMap, Run, Step, ApplyTrace;
    var sys := Run(w, Init, before);
    PlayedAlone(env, 0, me, ListMembers(p.members));
    PlayedAlone(env, 1, me, LoadMap);
    var list, load := Round(me, ListMembers(p.members), true), Round(me, LoadMap, true);
    assert before + env(0).others == before;
    assert before + (LoadTrace(me, p, env) + env(1).others) == before + [list];
    assert before + (LoadTrace(me, p, env) + Played(env(1), me, LoadMap)) == before + [list] + [load];
    RunSnoc(w, Init, before, list);
    RunSnoc(w, Init, before + [list], load);
    ReadsAlone(w, sys, me, p.members);
  }

  /** Each shard after the lists have been applied. */
  ghost predicate Applied(w: Weight, ms: seq<string>, e: Store, e': Store, me: string, lease: nat) {
    forall s ::
      if s !in e.shards then if IsShard(s) && Suggested(w, s, ms) == me then Holds(e', s, me, lease) else s !in e'.shards
      else if e.shards[s].owner == me && Suggested(w, s, ms) != me then s !in e'.shards
      else SameKey(e, e', s)
  }

  /** What the lists hold, in terms of the keys. */
  ghost predicate ListsOf(w: Weight, ms: seq<string>, e: Store, me: string, claim: seq<int>, release: seq<int>) {
    && Increasing(claim) && Increasing(release)
    && (forall s :: s in claim <==> IsShard(s) && s !in e.shards && Suggested(w, s, ms) == me)
    && (forall s :: s in release <==> Names(e, s, me) && Suggested(w, s, ms) != me)
  }

  lemma ListsFromKeys(w: Weight, ms: seq<string>, sys: System, me: string)
    requires Inv(sys) && me != ""
    ensures ListsOf(w, ms, sys.etcd, me, Claims(w, me, ms, LoadShardMap(sys.etcd)), Releases(w, me, ms, LoadShardMap(sys.etcd)))
  {
    ListsExact(w, me, ms, LoadShardMap(sys.etcd));
    assert forall s :: s in sys.etcd.shards ==> KeyOk(sys.etcd, s) && sys.etcd.shards[s].owner != "";
    hide Inv, Claims, Releases, Suggested;
  }

  lemma AppliedLists(w: Weight, ms: seq<string>, sys: System, mid: System, sys': System, me: string)
    requires Ready(sys, me) && sys.nodes[me].pc.Applying?
    requires var pc := sys.nodes[me].pc; ListsOf(w, ms, sys.etcd, me, pc.claim, pc.todo) && Claimed(sys, mid, me, |pc.claim|)
    requires Released(mid, sys', me, |sys.nodes[me].pc.todo|)
    ensures Applied(w, ms, sys.etcd, sys'.etcd, me, sys.nodes[me].lease) && OnlyMine(sys, sys', me)
    ensures var nd, nd' := sys.nodes[me], sys'.nodes[me];
            nd' == nd.(pc := nd.pc.(claim := [], todo := []), releasing := nd'.releasing)
  {
    OnlyMineTrans(sys, mid, sys', me);
    var claim, todo := sys.nodes[me].pc.claim, sys.nodes[me].pc.todo;
    assert claim[..|claim|] == claim && claim[|claim|..] == [] && todo[..|todo|] == todo && todo[|todo|..] == [];
    hide OnlyMine, Suggested;
    forall s ensures if s !in sys.etcd.shards
                     then if IsShard(s) && Suggested(w, s, ms) == me then Holds(sys'.etcd, s, me, sys.nodes[me].lease)
                          else s !in sys'.etcd.shards
                     else if sys.etcd.shards[s].owner == me && Suggested(w, s, ms) != me then s !in sys'.etcd.shards
                     else SameKey(sys.etcd, sys'.etcd, s)
    {
      assert if s in claim then Holds(mid.etcd, s, me, sys.nodes[me].lease) else SameKey(sys.etcd, mid.etcd, s);
      assert if s in todo then s !in sys'.etcd.shards else SameKey(mid.etcd, sys'.etcd, s);
    }
  }

  lemma HeldWhileClaiming(w: Weight, ms: seq<string>, sys: System, mid: System, me: string)
    requires Ready(sys, me) && sys.nodes[me].pc.Applying?
    requires var pc := sys.nodes[me].pc; ListsOf(w, ms, sys.etcd, me, pc.claim, pc.todo) && Claimed(sys, mid, me, |pc.claim|)
    ensures Ready(mid, me) && mid.nodes[me].pc == sys.nodes[me].pc.(claim := [])
    ensures forall s :: s in sys.nodes[me].pc.todo ==> Names(mid.etcd, s, me)
  {
    var claim := sys.nodes[me].pc.claim;
    assert claim[..|claim|] == claim && claim[|claim|..] == [];
    hide Suggested;
    forall s | s in sys.nodes[me].pc.todo ensures Names(mid.etcd, s, me) {
      assert s !in claim;
      assert SameKey(sys.etcd, mid.etcd, s);
    }
  }

  /** The lists of a round alone, applied. */
  lemma AppliesAlone(w: Weight, ms: seq<string>, sys: System, me: string, env: Schedule)
    requires Ready(sys, me) && Alone(env) && sys.nodes[me].pc.Applying? && !sys.nodes[me].pc.marked
    requires var pc := sys.nodes[me].pc; ListsOf(w, ms, sys.etcd, me, pc.claim, pc.todo)
    ensures var nd := sys.nodes[me];
            var sys' := Run(w, sys, ClaimTrace(me, env, 2, |nd.pc.claim|)
                                    + ReleaseTrace(me, env, 2 + |nd.pc.claim|, |nd.pc.todo|));
            && OnlyMine(sys, sys', me) && Applied(w, ms, sys.etcd, sys'.etcd, me, nd.lease)
            && sys'.nodes[me] == nd.(pc := nd.pc.(claim := [], todo := []), releasing := sys'.nodes[me].releasing)
  {
    hide Run, Step, ClaimTrace, ReleaseTrace, Claimed, Released, Applied, OnlyMine;
    var c, r := |sys.nodes[me].pc.claim|, |sys.nodes[me].pc.todo|;
    RunConcat(w, sys, ClaimTrace(me, env, 2, c), ReleaseTrace(me, env, 2 + c, r));
    ClaimsAlone(w, sys, me, env, 2, c);
    var mid := Run(w, sys, ClaimTrace(me, env, 2, c));
    HeldWhileClaiming(w, ms, sys, mid, me);
    ReleasesAlone(w, mid, me, env, 2 + c, r);
    AppliedLists(w, ms, sys, mid, Run(w, mid, ReleaseTrace(me, env, 2 + c, r)), me);
  }

  /** What the reload, the rebinds and the install of a round alone make of a state. */
  ghost predicate Ended(sys: System, sys': System, me: string) {
    && OnlyMine(sys, sys', me) && sys.nodes[me].pc.Applying?
    && var nd, om := sys.nodes[me], LoadOwnershipMap(sys.etcd);
    && sys'.nodes[me].owned == Cached(om, me)
    && sys'.nodes[me].releasing == (set s | s in nd.pc.release && s in Cached(om, me))
    && (forall s :: if IsShard(s) && MustRebind(me, nd.lease, om, nd.pc.release, s)
                    then Holds(sys'.etcd, s, me, nd.lease) else SameKey(sys.etcd, sys'.etcd, s))
  }

  lemma ReloadStep(w: Weight, sys: System, me: string)
    requires Ready(sys, me) && Enabled(sys.etcd, sys.nodes[me], Reload)
    ensures var nd, s1 := sys.nodes[me], Step(w, sys, Round(me, Reload, true));
            && OnlyMine(sys, s1, me) && s1.etcd == sys.etcd
            && s1.nodes[me] == nd.(pc := Rebinding(LoadOwnershipMap(sys.etcd), 0, nd.pc.release, {}, {}, nd.pc.clean))
    ensures Run(w, sys, [Round(me, Reload, true)]) == Step(w, sys, Round(me, Reload, true))
  {
    StepAlone(w, sys, me, Reload);
    RunNothing(w, sys);
    assert [Round(me, Reload, true)] == [] + [Round(me, Reload, true)];
    RunSnoc(w, sys, [], Round(me, Reload, true));
  }

  lemma InstallStep(w: Weight, sys: System, s1: System, s2: System, me: string)
    requires OnlyMine(sys, s1, me) && s1.etcd == sys.etcd && sys.nodes[me].pc.Applying?
    requires var nd := sys.nodes[me];
             s1.nodes[me] == nd.(pc := Rebinding(LoadOwnershipMap(sys.etcd), 0, nd.pc.release, {}, {}, nd.pc.clean))
    requires Rebound(s1, s2, me, ShardCount)
    ensures Ended(sys, Step(w, s2, Round(me, Install, true)), me)
  {
    StepAlone(w, s2, me, Install);
    var sys' := Step(w, s2, Round(me, Install, true));
    OnlyMineTrans(sys, s1, s2, me);
    OnlyMineTrans(sys, s2, sys', me);
    hide Step, OnlyMine, Holds, SameKey, LoadOwnershipMap;
  }

  /** The reload of a round alone, and its rebinds and install, which end it. */
  lemma EndsAlone(w: Weight, sys: System, me: string, env: Schedule, start: nat)
    requires Ready(sys, me) && Alone(env) && me != "" && Enabled(sys.etcd, sys.nodes[me], Reload)
    ensures var nd, om := sys.nodes[me], LoadOwnershipMap(sys.etcd);
            Ended(sys, Run(w, sys, [Round(me, Reload, true)]
                                   + RebindTrace(me, nd.lease, om, nd.pc.release, env, start, ShardCount)
                                   + [Round(me, Install, true)]), me)
  {
    hide Run, Step, RebindTrace, Rebound, Ended, OnlyMine;
    var nd, om := sys.nodes[me], LoadOwnershipMap(sys.etcd);
    hide LoadOwnershipMap;
    var first, last := Round(me, Reload, true), Round(me, Install, true);
    var loop := RebindTrace(me, nd.lease, om, nd.pc.release, env, start, ShardCount);
    ReloadStep(w, sys, me);
    var s1 := Step(w, sys, first);
    RebindsAlone(w, s1, me, env, start, ShardCount);
    RunConcat(w, sys, [first], loop);
    RunSnoc(w, sys, [first] + loop, last);
    InstallStep(w, sys, s1, Run(w, s1, loop), me);
  }

  /** The keys after the lists are applied and the old keys rebound. */
  lemma SettledAndCaught(w: Weight, ms: seq<string>, e: Store, mid: Store, e': Store, me: string, lease: nat,
                         claim: seq<int>, release: seq<int>, owned: map<int, nat>, releasing: set<int>)
    requires me != "" && ListsOf(w, ms, e, me, claim, release) && Applied(w, ms, e, mid, me, lease)
    requires forall s :: s in e.shards ==> IsShard(s)
    requires forall s :: if IsShard(s) && MustRebind(me, lease, LoadOwnershipMap(mid), release, s)
                         then Holds(e', s, me, lease) else SameKey(mid, e', s)
    requires owned == Cached(LoadOwnershipMap(mid), me) && releasing == set s | s in release && s in owned
    ensures forall s :: IsShard(s) ==> Settled(w, ms, e, e', me, lease, s)
    ensures Caught(e, e', me, lease, owned, releasing)
  {
    hide Suggested;
    forall s ensures IsShard(s) ==> Settled(w, ms, e, e', me, lease, s)
             ensures s in owned <==> Names(e', s, me)
             ensures s !in releasing
             ensures s in owned && s in e'.shards ==>
                       owned[s] == if Names(e, s, me) then e.shards[s].term else e'.shards[s].term
    {
      assert if s !in e.shards
             then if IsShard(s) && Suggested(w, s, ms) == me then Holds(mid, s, me, lease) else s !in mid.shards
             else if e.shards[s].owner == me && Suggested(w, s, ms) != me then s !in mid.shards
             else SameKey(e, mid, s);
      assert if IsShard(s) && MustRebind(me, lease, LoadOwnershipMap(mid), release, s)
             then Holds(e', s, me, lease) else SameKey(mid, e', s);
    }
  }

  function EndTrace(me: string, lease: nat, p: Plan, env: Schedule): seq<Action>
    requires |p.om| == ShardCount
  {
    [Round(me, Reload, true)] + RebindTrace(me, lease, p.om, p.release, env, ReloadTurn(p) + 1, ShardCount)
    + [Round(me, Install, true)]
  }

  lemma RoundTraceParts(me: string, lease: nat, p: Plan, env: Schedule, before: seq<Action>)
    requires Alone(env) && |p.om| == ShardCount
    ensures before + RoundTrace(me, lease, p, env) == before + ApplyTrace(me, p, env) + EndTrace(me, lease, p, env)
  {
    hide ApplyTrace, RebindTrace;
    PlayedAlone(env, 0, me, ListMembers(p.members));
    PlayedAlone(env, 1, me, LoadMap);
    PlayedAlone(env, ReloadTurn(p), me, Reload);
  }

  lemma ReloadedAlone(w: Weight, before: seq<Action>, me: string, p: Plan, env: Schedule)
    requires Alone(env) && Planned(w, before, me, p, env)
    ensures p.om == LoadOwnershipMap(Run(w, Init, before + ApplyTrace(me, p, env)).etcd)
  {
    hide Run, ApplyTrace, Listing, Claims, Releases, LoadOwnershipMap, LoadShardMap;
    PlayedAlone(env, 0, me, ListMembers(p.members));
    PlayedAlone(env, 1, me, LoadMap);
    PlayedAlone(env, ReloadTurn(p), me, Reload);
    assert before + (ApplyTrace(me, p, env) + env(ReloadTurn(p)).others) == before + ApplyTrace(me, p, env);
  }

  /** The first half of a round alone, from the reads to the reload. */
  ghost predicate Half(w: Weight, sys: System, mid: System, me: string, p: Plan) {
    && OnlyMine(sys, mid, me)
    && Listing(p.members, sys.etcd.members.Keys) && ListsOf(w, p.members, sys.etcd, me, p.claim, p.release)
    && Applied(w, p.members, sys.etcd, mid.etcd, me, sys.nodes[me].lease)
    && Enabled(mid.etcd, mid.nodes[me], Reload) && mid.nodes[me].pc.release == p.release
  }

  lemma HalfDone(w: Weight, sys: System, s1: System, mid: System, me: string, p: Plan)
    requires Ready(sys, me) && Listing(p.members, sys.etcd.members.Keys)
    requires ListsOf(w, p.members, sys.etcd, me, p.claim, p.release)
    requires s1 == sys.(nodes := sys.nodes[me := sys.nodes[me].(pc := Applying(p.claim, p.release, false, p.release, true))])
    requires OnlyMine(s1, mid, me) && Applied(w, p.members, s1.etcd, mid.etcd, me, s1.nodes[me].lease)
    requires mid.nodes[me].pc == s1.nodes[me].pc.(claim := [], todo := [])
    ensures Half(w, sys, mid, me, p)
  {
    hide Listing, ListsOf, Applied;
    OnlyMineTrans(sys, s1, mid, me);
  }

  lemma HalfAlone(w: Weight, before: seq<Action>, sys: System, me: string, p: Plan, env: Schedule)
    requires sys == Run(w, Init, before) && Ready(sys, me) && sys.nodes[me].pc.Idle? && Inv(sys) && me != ""
    requires Alone(env) && Planned(w, before, me, p, env)
    ensures Half(w, sys, Run(w, Init, before + ApplyTrace(me, p, env)), me, p)
  {
    hide Inv, Run, Step, Listing, Suggested, Claims, Releases, LoadShardMap, ClaimTrace, ReleaseTrace, Half;
    hide Applied, ListsOf, LoadOwnershipMap, OnlyMine, Planned, ApplyTrace, LoadTrace, Played;
    BeginsAlone(w, before, me, p, env);
    ListsFromKeys(w, p.members, sys, me);
    var opening := LoadTrace(me, p, env) + Played(env(1), me, LoadMap);
    var lists := ClaimTrace(me, env, 2, |p.claim|) + ReleaseTrace(me, env, 2 + |p.claim|, |p.release|);
    var s1 := Run(w, Init, before + opening);
    AppliesAlone(w, p.members, s1, me, env);
    RunConcat(w, Init, before + opening, lists);
    ApplyTraceParts(me, p, env, before);
    HalfDone(w, sys, s1, Run(w, s1, lists), me, p);
  }

  /** A round alone, from its beginning in sys to its end in sys'. */
  ghost predicate DoneAlone(w: Weight, ms: seq<string>, sys: System, sys': System, me: string) {
    && OnlyMine(sys, sys', me) && Listing(ms, sys.etcd.members.Keys)
    && (forall s :: IsShard(s) ==> Settled(w, ms, sys.etcd, sys'.etcd, me, sys.nodes[me].lease, s))
    && Caught(sys.etcd, sys'.etcd, me, sys.nodes[me].lease, sys'.nodes[me].owned, sys'.nodes[me].releasing)
  }

  lemma HalfThenEnd(w: Weight, sys: System, mid: System, me: string, p: Plan, env: Schedule)
    requires Half(w, sys, mid, me, p) && me != "" && Alone(env) && forall s :: s in sys.etcd.shards ==> IsShard(s)
    requires p.om == LoadOwnershipMap(mid.etcd)
    ensures DoneAlone(w, p.members, sys, Run(w, mid, EndTrace(me, sys.nodes[me].lease, p, env)), me)
  {
    var lease := sys.nodes[me].lease;
    assert mid.nodes[me].lease == lease;
    hide Run, Step, Listing, Suggested, RebindTrace, Settled, Caught, Applied, ListsOf, LoadOwnershipMap, OnlyMine;
    hide Holds, SameKey, MustRebind;
    EndsAlone(w, mid, me, env, ReloadTurn(p) + 1);
    var sys' := Run(w, mid, EndTrace(me, lease, p, env));
    OnlyMineTrans(sys, mid, sys', me);
    SettledAndCaught(w, p.members, sys.etcd, mid.etcd, sys'.etcd, me, lease, p.claim, p.release,
                     sys'.nodes[me].owned, sys'.nodes[me].releasing);
  }

  /** One round alone. From any reachable state, if every call succeeds and nobody interferes, the round
      makes of each shard exactly what it should be, and the node's view is exactly its keys. */
  lemma RoundAlone(w: Weight, before: seq<Action>, sys: System, me: string, p: Plan, env: Schedule)
    requires sys == Run(w, Init, before) && Ready(sys, me) && sys.nodes[me].pc.Idle?
    requires Alone(env) && Planned(w, before, me, p, env)
    ensures DoneAlone(w, p.members, sys, Run(w, Init, before + RoundTrace(me, sys.nodes[me].lease, p, env)), me)
  {
    OwnKeys(w, before, me);
    hide Run, Step, ApplyTrace, RoundTrace, EndTrace, Planned, Half, DoneAlone, LoadOwnershipMap, Inv, Alone;
    HalfAlone(w, before, sys, me, p, env);
    ReloadedAlone(w, before, me, p, env);
    var mid, lease := Run(w, Init, before + ApplyTrace(me, p, env)), sys.nodes[me].lease;
    RoundTraceParts(me, lease, p, env, before);
    RunConcat(w, Init, before + ApplyTrace(me, p, env), EndTrace(me, lease, p, env));
    HalfThenEnd(w, sys, mid, me, p, env);
  }

  lemma OwnKeys(w: Weight, before: seq<Action>, me: string)
    requires me in Run(w, Init, before).nodes
    ensures Inv(Run(w, Init, before)) && me != "" && forall s :: s in Run(w, Init, before).etcd.shards ==> IsShard(s)
  {
    RunKeepsInv(w, Init, before);
    var sys := Run(w, Init, before);
    assert ProcessInv(sys.now, sys.etcd, me, sys.nodes[me]);
    assert forall s :: s in sys.etcd.shards ==> KeyOk(sys.etcd, s);
  }

  lemma ApplyTraceParts(me: string, p: Plan, env: Schedule, before: seq<Action>)
    ensures before + (LoadTrace(me, p, env) + Played(env(1), me, LoadMap))
            + (ClaimTrace(me, env, 2, |p.claim|) + ReleaseTrace(me, env, 2 + |p.claim|, |p.release|))
            == before + ApplyTrace(me, p, env)
  {
    hide ClaimTrace, ReleaseTrace, Played;
  }
}
