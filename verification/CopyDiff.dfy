/** Bulk copy and verification between two metadata stores (migration/copydiff.go). Whether a load or
    a save succeeds is a parameter; maps are walked in an arbitrary order. */
module CopyDiff {
  import opened StripRoot
  import opened Diffing

  type Data = map<string, string>

  const MultiSaveBatch: nat := 64

  /** The logical keys that begin with root. */
  function Under(data: Data, root: string): Data {
    map k | k in data && root <= k :: data[k]
  }

  predicate InRoots(k: string, roots: seq<string>) {
    exists i :: 0 <= i < |roots| && roots[i] <= k
  }

  function UnderAny(data: Data, roots: seq<string>): Data {
    map k | k in data && InRoots(k, roots) :: data[k]
  }

  /** Stripping gives back every logical key that a load of root returns. */
  ghost predicate Exact(rootPath: string, data: Data, root: string) {
    forall k :: k in data && root <= k ==> Strip(FullKey(rootPath, k), root) == Logical(k)
  }

  /** Exactness is something a caller can check: every key loaded starts with root at a segment boundary
      and has no earlier anchor in its full key. */
  lemma ExactWhen(rootPath: string, data: Data, root: string)
    ensures Exact(rootPath, data, root) <==>
              forall k :: k in data && root <= k ==> StartsAt(k, root) && NoEarlierAnchor(rootPath, root, k)
  {
    hide Strip, StartsAt, NoEarlierAnchor, FullKey;
    forall k | k in data && root <= k {
      StripRoundTrip(rootPath, root, k);
    }
  }

  ghost predicate ExactAll(rootPath: string, data: Data, roots: seq<string>) {
    forall i :: 0 <= i < |roots| ==> Exact(rootPath, data, roots[i])
  }

  /** out is what stripping makes of the keys under root: every key is there under its stripped name, and
      everything there comes from such a key. */
  ghost predicate Loaded(rootPath: string, data: Data, root: string, out: Data) {
    && (forall k :: k in data && root <= k ==>
          Strip(FullKey(rootPath, k), root).Logical? && Strip(FullKey(rootPath, k), root).key in out)
    && (forall l :: l in out ==>
          exists k :: k in data && root <= k && Strip(FullKey(rootPath, k), root) == Logical(l) && out[l] == data[k])
  }

  lemma LoadedExact(rootPath: string, data: Data, root: string, out: Data)
    requires Loaded(rootPath, data, root, out) && Exact(rootPath, data, root)
    ensures out == Under(data, root)
  {
  }

  /** A metadata store: logical keys kept under an instance rootPath. `txns` is history: every
      transaction that was saved. */
  class MetaKv {
    const rootPath: string
    var data: Data
    ghost var txns: seq<Data>

    constructor (rootPath: string, data: Data)
      ensures this.rootPath == rootPath && this.data == data && txns == []
    {
      this.rootPath := rootPath;
      this.data := data;
      txns := [];
    }

    /** Full keys and values of every logical key that begins with root, in some order. */
    method LoadWithPrefix(root: string) returns (fullKeys: seq<string>, vals: seq<string>, ghost logical: seq<string>)
      ensures |fullKeys| == |vals| == |logical|
      ensures forall i :: 0 <= i < |logical| ==>
                && logical[i] in data && root <= logical[i]
                && fullKeys[i] == FullKey(rootPath, logical[i]) && vals[i] == data[logical[i]]
      ensures forall k :: k in data && root <= k ==> k in logical
    {
      fullKeys, vals, logical := [], [], [];
      var rest := data.Keys;
      while rest != {}
        invariant rest <= data.Keys && |fullKeys| == |vals| == |logical|
        invariant forall i :: 0 <= i < |logical| ==>
                    && logical[i] in data && root <= logical[i]
                    && fullKeys[i] == FullKey(rootPath, logical[i]) && vals[i] == data[logical[i]]
        invariant forall k :: k in data && k !in rest && root <= k ==> k in logical
        decreases |rest|
      {
        var k :| k in rest;
        if root <= k {
          fullKeys, vals, logical := fullKeys + [FullKey(rootPath, k)], vals + [data[k]], logical + [k];
        }
        rest := rest - {k};
      }
    }

    /** One atomic transaction. Callers keep it within the batch size and never send an empty one. */
    method MultiSave(batch: Data, ok: bool)
      requires 1 <= |batch| <= MultiSaveBatch
      modifies this
      ensures data == if ok then old(data) + batch else old(data)
      ensures txns == if ok then old(txns) + [batch] else old(txns)
    {
      if ok {
        data := data + batch;
        txns := txns + [batch];
      }
    }
  }

  /** Load every key under root and strip it. It fails when the load does or when some key has no root
      at a segment boundary. */
  method LoadRoot(m: MetaKv, root: string, ok: bool) returns (out: Option<Data>)
    ensures out.Some? ==> ok && Loaded(m.rootPath, m.data, root, out.value)
    ensures out.Some? && Exact(m.rootPath, m.data, root) ==> out.value == Under(m.data, root)
    ensures out.None? <==> !ok || NoRootUnder(m.rootPath, m.data, root)
  {
    hide Strip, Strips, FullKey;
    if !ok {
      return None;
    }
    var fullKeys, vals, logical := m.LoadWithPrefix(root);
    var acc: Data := map[];
    for i := 0 to |fullKeys|
      invariant forall j :: 0 <= j < i ==> Strip(fullKeys[j], root).Logical? && Strip(fullKeys[j], root).key in acc
      invariant forall l :: l in acc ==> exists j :: 0 <= j < i && Strip(fullKeys[j], root) == Logical(l) && acc[l] == vals[j]
    {
      var r := StripRootPath(fullKeys[i], root);
      if r.NoRoot? {
        assert logical[i] in m.data;
        return None;
      }
      acc := acc[r.key := vals[i]];
    }
    forall k | k in m.data && root <= k
      ensures Strip(FullKey(m.rootPath, k), root).Logical? && Strip(FullKey(m.rootPath, k), root).key in acc
    {
      var j :| 0 <= j < |logical| && logical[j] == k;
    }
    forall l | l in acc
      ensures exists k :: k in m.data && root <= k && Strip(FullKey(m.rootPath, k), root) == Logical(l) && acc[l] == m.data[k]
    {
      var j :| 0 <= j < |fullKeys| && Strip(fullKeys[j], root) == Logical(l) && acc[l] == vals[j];
      assert logical[j] in m.data;
    }
    if Exact(m.rootPath, m.data, root) {
      LoadedExact(m.rootPath, m.data, root, acc);
    }
    return Some(acc);
  }

  // -- Copying --

  function Part(data: Data, keys: set<string>): Data {
    map k | k in data && k in keys :: data[k]
  }

  /** cur is base with part of the overlay written over it. */
  ghost predicate Between(base: Data, overlay: Data, cur: Data) {
    && base.Keys <= cur.Keys <= base.Keys + overlay.Keys
    && (forall k :: k in cur ==> (k in overlay && cur[k] == overlay[k]) || (k in base && cur[k] == base[k]))
  }

  /** What a sequence of transactions makes of a store, and how many keys it writes. */
  function Applied(base: Data, txns: seq<Data>): Data {
    if txns == [] then base else Applied(base, txns[..|txns| - 1]) + txns[|txns| - 1]
  }

  function Total(txns: seq<Data>): nat {
    if txns == [] then 0 else Total(txns[..|txns| - 1]) + |txns[|txns| - 1]|
  }

  /** How many transactions it takes to save these parts in batches of 64. */
  function BatchCount(parts: seq<Data>): nat {
    if parts == [] then 0 else BatchCount(parts[..|parts| - 1]) + (|parts[|parts| - 1]| + 63) / 64
  }

  lemma TxnAdded(base: Data, txns: seq<Data>, txn: Data)
    ensures Applied(base, txns + [txn]) == Applied(base, txns) + txn
    ensures Total(txns + [txn]) == Total(txns) + |txn|
    ensures BatchCount(txns + [txn]) == BatchCount(txns) + (|txn| + 63) / 64
  {
    assert (txns + [txn])[..|txns|] == txns;
  }

  lemma {:induction false} TxnsJoined(base: Data, first: seq<Data>, second: seq<Data>)
    ensures Applied(base, first + second) == Applied(Applied(base, first), second)
    ensures Total(first + second) == Total(first) + Total(second)
  {
    if second == [] {
      assert first + second == first;
    } else {
      var k := |second| - 1;
      TxnsJoined(base, first, second[..k]);
      assert (first + second)[..|first + second| - 1] == first + second[..k];
    }
  }

  ghost predicate Batches(txns: seq<Data>) {
    forall b :: b in txns ==> 1 <= |b| <= MultiSaveBatch
  }

  lemma BatchAdded(txns: seq<Data>, batch: Data)
    requires Batches(txns) && 1 <= |batch| <= MultiSaveBatch
    ensures Batches(txns + [batch])
  {
  }

  /** The store stands where the transactions `sent` since `start` have brought it, and their keys are the
      part `kept` of the logical keys. */
  ghost predicate Sent(logical: Data, kept: set<string>, sent: seq<Data>, start: Data, now: Data) {
    && kept <= logical.Keys && |kept| == Total(sent) && now == start + Part(logical, kept)
    && Batches(sent) && now == Applied(start, sent)
  }

  /** What is batched and what is left make up the rest of the keys. */
  ghost predicate Pending(logical: Data, rest: set<string>, batch: Data, kept: set<string>) {
    && rest <= logical.Keys && kept == logical.Keys - rest - batch.Keys
    && (forall k :: k in batch ==> k in logical && k !in rest && batch[k] == logical[k])
  }

  lemma NothingSent(logical: Data, start: Data)
    ensures Sent(logical, {}, [], start, start) && Pending(logical, logical.Keys, map[], {}) && Total([]) == 0
  {
    assert Part(logical, {}) == map[];
  }

  /** One key joins the batch. */
  lemma Batched(logical: Data, rest: set<string>, batch: Data, kept: set<string>, k: string)
    requires Pending(logical, rest, batch, kept) && k in rest
    ensures k in logical && Pending(logical, rest - {k}, batch[k := logical[k]], kept)
    ensures |batch[k := logical[k]]| == |batch| + 1
  {
    var batch' := batch[k := logical[k]];
    assert batch'.Keys == batch.Keys + {k};
    assert kept == logical.Keys - (rest - {k}) - batch'.Keys;
  }

  /** Writing a batch of the overlay extends the part already written. */
  lemma PartGrows(logical: Data, kept: set<string>, batch: Data, start: Data)
    requires forall k :: k in batch ==> k in logical && batch[k] == logical[k]
    ensures start + Part(logical, kept) + batch == start + Part(logical, kept + batch.Keys)
  {
  }

  lemma KeptGrows(all: set<string>, rest: set<string>, batch: set<string>, kept: set<string>)
    requires rest <= all && batch <= all && rest !! batch && kept == all - rest - batch
    ensures kept + batch == all - rest && |kept + batch| == |kept| + |batch|
  {
    assert kept !! batch;
  }

  lemma PendingFlushed(logical: Data, rest: set<string>, batch: Data, kept: set<string>)
    requires Pending(logical, rest, batch, kept)
    ensures Pending(logical, rest, map[], kept + batch.Keys)
    ensures kept + batch.Keys <= logical.Keys && |kept + batch.Keys| == |kept| + |batch|
    ensures forall k :: k in batch ==> k in logical && batch[k] == logical[k]
  {
    var none: Data := map[];
    assert none.Keys == {};
    KeptGrows(logical.Keys, rest, batch.Keys, kept);
  }

  /** The batch is saved. */
  lemma Flushed(logical: Data, rest: set<string>, batch: Data, kept: set<string>, sent: seq<Data>, start: Data, now: Data)
    returns (kept': set<string>)
    requires Sent(logical, kept, sent, start, now) && Pending(logical, rest, batch, kept) && 1 <= |batch| <= MultiSaveBatch
    ensures Sent(logical, kept', sent + [batch], start, now + batch)
    ensures Pending(logical, rest, map[], kept')
    ensures Total(sent + [batch]) == Total(sent) + |batch|
  {
    kept' := kept + batch.Keys;
    BatchAdded(sent, batch);
    hide Part, Applied, Total, Pending, Batches;
    PendingFlushed(logical, rest, batch, kept);
    PartGrows(logical, kept, batch, start);
    TxnAdded(start, sent, batch);
  }

  /** When nothing is left and nothing is batched, everything is saved. */
  lemma AllSent(logical: Data, kept: set<string>, sent: seq<Data>, start: Data, now: Data)
    requires Sent(logical, kept, sent, start, now) && Pending(logical, {}, map[], kept)
    ensures kept == logical.Keys && now == start + logical && Total(sent) == |logical|
  {
    hide Applied, Total, Batches;
    var none: Data := map[];
    assert none.Keys == {};
    assert kept == logical.Keys;
    assert Part(logical, logical.Keys) == logical;
  }

  /** The saves numbered from `from` up to but not including `to` went through. */
  ghost predicate SavesOk(saveOk: nat -> bool, from: nat, to: nat) {
    forall a :: from <= a < to ==> saveOk(a)
  }

  lemma NumberedMore(saveOk: nat -> bool, mid: nat, to: nat, more: seq<Data>)
    requires SavesOk(saveOk, 0, mid) && Numbered(saveOk, mid, to, more)
    ensures SavesOk(saveOk, 0, to) && to == mid + |more|
  {
  }

  lemma NumberedOne(saveOk: nat -> bool, attempt: nat, next: nat, sent: seq<Data>, batch: Data)
    requires Numbered(saveOk, attempt, next, sent) && saveOk(next)
    ensures Numbered(saveOk, attempt, next + 1, sent + [batch])
  {
  }

  lemma SavedNone(saveOk: nat -> bool, from: nat)
    ensures SavesOk(saveOk, from, from)
  {
  }

  lemma EmptyBatch(batch: Data)
    requires |batch| == 0
    ensures batch == map[]
  {
  }

  /** Save the batch unless it is empty. The saves are numbered; `next` is the number of this one. */
  method Flush(dst: MetaKv, batch: Data, saveOk: nat -> bool, next: nat, ghost attempt: nat, ghost logical: Data,
               ghost rest: set<string>, ghost kept: set<string>, ghost sent: seq<Data>,
               ghost start: Data, ghost before: seq<Data>)
    returns (failed: bool, next': nat, ghost kept': set<string>, ghost sent': seq<Data>)
    requires Sent(logical, kept, sent, start, dst.data) && Pending(logical, rest, batch, kept)
    requires |batch| <= MultiSaveBatch && dst.txns == before + sent
    requires Numbered(saveOk, attempt, next, sent)
    modifies dst
    ensures Sent(logical, kept', sent', start, dst.data) && dst.txns == before + sent'
    ensures Numbered(saveOk, attempt, next', sent')
    ensures failed <==> |batch| > 0 && !saveOk(next)
    ensures failed ==> sent' == sent && next' == next
    ensures !failed ==> Pending(logical, rest, map[], kept') && Total(sent') == Total(sent) + |batch|
    ensures !failed ==> |sent'| == |sent| + if |batch| == 0 then 0 else 1
  {
    hide Sent, Pending, Total, Numbered, Applied, Batches, Part;
    failed, next', kept', sent' := false, next, kept, sent;
    if |batch| == 0 {
      EmptyBatch(batch);
      return;
    }
    ghost var more := Flushed(logical, rest, batch, kept, sent, start, dst.data);
    dst.MultiSave(batch, saveOk(next));
    if !saveOk(next) {
      failed := true;
      return;
    }
    NumberedOne(saveOk, attempt, next, sent, batch);
    assert before + sent + [batch] == before + (sent + [batch]);
    next', kept', sent' := next + 1, more, sent + [batch];
  }

  /** The transactions sent are the saves from number `attempt` on, and all went through. */
  ghost predicate Numbered(saveOk: nat -> bool, attempt: nat, next: nat, sent: seq<Data>) {
    next == attempt + |sent| && SavesOk(saveOk, attempt, next)
  }

  function AtMost63(n: nat): nat {
    if n < 63 then n else 63
  }

  /** Where the loop over one root's keys stands: what is saved, what is batched, what is left, and the
      counts. */
  ghost predicate Copying(logical: Data, rest: set<string>, batch: Data, copied: nat, saveOk: nat -> bool, attempt: nat, next: nat,
                          sent: seq<Data>, kept: set<string>, start: Data, now: Data)
  {
    && Sent(logical, kept, sent, start, now) && Pending(logical, rest, batch, kept) && Numbered(saveOk, attempt, next, sent)
    && |batch| < 64 && copied + |rest| == |logical|
    && copied == Total(sent) + |batch| && Total(sent) == 64 * |sent|
  }

  /** How a root's copy ends when a save fails. */
  ghost predicate CutShort(logical: Data, copied: nat, saveOk: nat -> bool, attempt: nat, next: nat,
                           sent: seq<Data>, kept: set<string>, start: Data, now: Data)
  {
    && Sent(logical, kept, sent, start, now) && Numbered(saveOk, attempt, next, sent) && !saveOk(next)
    && Total(sent) <= |logical| && copied == Total(sent) + AtMost63(|logical| - Total(sent))
  }

  /** How a root's copy ends when every save goes through: all its keys, in as many transactions of at most 64
      as it takes. */
  ghost predicate CopiedWhole(logical: Data, copied: nat, saveOk: nat -> bool, attempt: nat, next: nat,
                              sent: seq<Data>, kept: set<string>, start: Data, now: Data)
  {
    && Sent(logical, kept, sent, start, now) && Numbered(saveOk, attempt, next, sent)
    && now == start + logical && kept == logical.Keys
    && copied == Total(sent) == |logical| && |sent| == (|logical| + 63) / 64
  }

  lemma NothingYet(logical: Data, saveOk: nat -> bool, attempt: nat, start: Data)
    ensures Copying(logical, logical.Keys, map[], 0, saveOk, attempt, attempt, [], {}, start, start)
  {
    NothingSent(logical, start);
    hide Sent, Pending, Total;
  }

  /** One key joins the batch, which is saved when it is full. `copied` is the count before. */
  method PutKey(dst: MetaKv, logical: Data, k: string, batch: Data, saveOk: nat -> bool, next: nat, ghost copied: nat,
                ghost rest: set<string>, ghost attempt: nat, ghost sent: seq<Data>, ghost kept: set<string>,
                ghost start: Data, ghost before: seq<Data>)
    returns (failed: bool, batch': Data, next': nat, ghost kept': set<string>, ghost sent': seq<Data>)
    requires k in rest && k in logical && dst.txns == before + sent
    requires Copying(logical, rest, batch, copied, saveOk, attempt, next, sent, kept, start, dst.data)
    modifies dst
    ensures dst.txns == before + sent'
    ensures !failed ==>
              Copying(logical, rest - {k}, batch', copied + 1, saveOk, attempt, next', sent', kept', start, dst.data)
    ensures failed ==> CutShort(logical, copied, saveOk, attempt, next', sent', kept', start, dst.data)
  {
    hide Sent, Pending, Total, Numbered;
    Batched(logical, rest, batch, kept, k);
    assert |rest - {k}| == |rest| - 1;
    failed, batch', next', kept', sent' := false, batch[k := logical[k]], next, kept, sent;
    if |batch'| >= MultiSaveBatch {
      failed, next', kept', sent' := Flush(dst, batch', saveOk, next, attempt, logical, rest - {k}, kept, sent, start, before);
      batch' := map[];
    }
  }

  /** The last batch of a root. */
  method EndRoot(dst: MetaKv, logical: Data, batch: Data, saveOk: nat -> bool, next: nat, ghost copied: nat,
                 ghost attempt: nat, ghost sent: seq<Data>, ghost kept: set<string>, ghost start: Data, ghost before: seq<Data>)
    returns (failed: bool, next': nat, ghost kept': set<string>, ghost sent': seq<Data>)
    requires dst.txns == before + sent
    requires Copying(logical, {}, batch, copied, saveOk, attempt, next, sent, kept, start, dst.data)
    modifies dst
    ensures dst.txns == before + sent'
    ensures failed ==> CutShort(logical, copied, saveOk, attempt, next', sent', kept', start, dst.data)
    ensures !failed ==> CopiedWhole(logical, copied, saveOk, attempt, next', sent', kept', start, dst.data)
  {
    hide Sent, Pending, Total, Numbered;
    failed, next', kept', sent' := Flush(dst, batch, saveOk, next, attempt, logical, {}, kept, sent, start, before);
    if !failed {
      AllSent(logical, kept', sent', start, dst.data);
    }
  }

  /** Copy one root's keys in batches of 64. `sent` are the transactions saved and `kept` the keys in
      them; the count returned is those keys and, after a failure, the ones batched but not saved: all
      that were left, or 63 if there were more. */
  method CopyRoot(dst: MetaKv, logical: Data, saveOk: nat -> bool, attempt: nat)
    returns (failed: bool, copied: nat, next: nat, ghost sent: seq<Data>, ghost kept: set<string>)
    modifies dst
    ensures dst.txns == old(dst.txns) + sent
    ensures failed ==> CutShort(logical, copied, saveOk, attempt, next, sent, kept, old(dst.data), dst.data)
    ensures !failed ==> CopiedWhole(logical, copied, saveOk, attempt, next, sent, kept, old(dst.data), dst.data)
  {
    hide Copying, CutShort, CopiedWhole;
    copied, next, sent, kept := 0, attempt, [], {};
    var rest := logical.Keys;
    var batch: Data := map[];
    NothingYet(logical, saveOk, attempt, dst.data);
    while rest != {}
      invariant rest <= logical.Keys && dst.txns == old(dst.txns) + sent
      invariant Copying(logical, rest, batch, copied, saveOk, attempt, next, sent, kept, old(dst.data), dst.data)
      decreases |rest|
    {
      var k :| k in rest;
      failed, batch, next, kept, sent := PutKey(dst, logical, k, batch, saveOk, next, copied,
                                                rest, attempt, sent, kept, old(dst.data), old(dst.txns));
      if failed {
        return;
      }
      rest := rest - {k};
      copied := copied + 1;
    }
    failed, next, kept, sent := EndRoot(dst, logical, batch, saveOk, next, copied,
                                        attempt, sent, kept, old(dst.data), old(dst.txns));
  }

  // -- Several roots --

  /** parts[i] is what a load of root i gives. */
  ghost predicate AllLoaded(rootPath: string, data: Data, roots: seq<string>, parts: seq<Data>) {
    |parts| == |roots| && forall i :: 0 <= i < |roots| ==> Loaded(rootPath, data, roots[i], parts[i])
  }

  ghost predicate NoRootUnder(rootPath: string, data: Data, root: string) {
    exists k :: k in data && root <= k && Strip(FullKey(rootPath, k), root) == NoRoot
  }

  /** Every load succeeds and every key it returns has its root at a segment boundary. */
  ghost predicate Loadable(rootPath: string, data: Data, roots: seq<string>, loadOk: nat -> bool) {
    forall i :: 0 <= i < |roots| ==> loadOk(i) && !NoRootUnder(rootPath, data, roots[i])
  }

  lemma LoadableMore(rootPath: string, data: Data, roots: seq<string>, i: nat, loadOk: nat -> bool)
    requires i < |roots| && Loadable(rootPath, data, roots[..i], loadOk)
    ensures loadOk(i) && !NoRootUnder(rootPath, data, roots[i]) ==> Loadable(rootPath, data, roots[..i + 1], loadOk)
    ensures !loadOk(i) || NoRootUnder(rootPath, data, roots[i]) ==> !Loadable(rootPath, data, roots, loadOk)
  {
    hide NoRootUnder;
    assert forall j :: 0 <= j < i ==> roots[..i][j] == roots[j] == roots[..i + 1][j];
  }

  lemma ExactIsLoadable(rootPath: string, data: Data, roots: seq<string>, loadOk: nat -> bool)
    requires ExactAll(rootPath, data, roots) && forall a :: loadOk(a)
    ensures Loadable(rootPath, data, roots, loadOk)
  {
    hide Strip, FullKey;
    forall i | 0 <= i < |roots| ensures !NoRootUnder(rootPath, data, roots[i]) {
      assert Exact(rootPath, data, roots[i]);
    }
  }

  lemma NothingLoaded(rootPath: string, data: Data, loadOk: nat -> bool)
    ensures AllLoaded(rootPath, data, [], []) && Applied(map[], []) == map[] && Loadable(rootPath, data, [], loadOk)
  {
  }

  lemma LoadedMore(rootPath: string, data: Data, roots: seq<string>, i: nat, parts: seq<Data>, part: Data)
    requires i < |roots| && AllLoaded(rootPath, data, roots[..i], parts) && Loaded(rootPath, data, roots[i], part)
    ensures AllLoaded(rootPath, data, roots[..i + 1], parts + [part])
  {
    hide Loaded;
  }

  function Parts(data: Data, roots: seq<string>): seq<Data> {
    seq(|roots|, i requires 0 <= i < |roots| => Under(data, roots[i]))
  }

  /** When stripping is exact, the parts loaded are the keys under each root. */
  lemma PartsExact(rootPath: string, data: Data, roots: seq<string>, parts: seq<Data>)
    requires AllLoaded(rootPath, data, roots, parts) && ExactAll(rootPath, data, roots)
    ensures parts == Parts(data, roots)
  {
    hide Loaded, Exact;
    forall i | 0 <= i < |roots| ensures parts[i] == Under(data, roots[i]) {
      LoadedExact(rootPath, data, roots[i], parts[i]);
    }
  }

  lemma UnderAnyGrows(data: Data, roots: seq<string>, root: string)
    ensures UnderAny(data, roots + [root]) == UnderAny(data, roots) + Under(data, root)
  {
    forall k ensures InRoots(k, roots + [root]) <==> InRoots(k, roots) || root <= k {
      assert (roots + [root])[|roots|] == root;
      assert forall i :: 0 <= i < |roots| ==> (roots + [root])[i] == roots[i];
    }
    hide InRoots;
  }

  lemma NoRoots(data: Data)
    ensures UnderAny(data, []) == map[] && Parts(data, []) == []
  {
  }

  lemma OverlayAssoc(a: Data, b: Data, c: Data)
    ensures a + b + c == a + (b + c)
  {
  }

  /** Laying the parts over a store one by one lays every key under any root over it. */
  lemma {:induction false} PartsOverlay(base: Data, data: Data, roots: seq<string>)
    ensures Applied(base, Parts(data, roots)) == base + UnderAny(data, roots)
  {
    hide Under, UnderAny;
    if roots == [] {
      NoRoots(data);
      assert base + map[] == base;
    } else {
      hide Applied;
      var k := |roots| - 1;
      var init, last := roots[..k], Under(data, roots[k]);
      assert roots == init + [roots[k]] && Parts(data, roots) == Parts(data, init) + [last];
      PartsOverlay(base, data, init);
      UnderAnyGrows(data, init, roots[k]);
      TxnAdded(base, Parts(data, init), last);
      OverlayAssoc(base, UnderAny(data, init), last);
    }
  }

  /** A failure after i whole roots and part of the next leaves dst between its old contents and the
      full copy. */
  lemma PartialCopy(data: Data, roots: seq<string>, i: nat, base: Data, overlay: Data, cur: Data)
    requires i < |roots| && (overlay == Under(data, roots[i]) || overlay == map[])
    requires Between(base + UnderAny(data, roots[..i]), overlay, cur)
    ensures Between(base, UnderAny(data, roots), cur)
  {
  }

  /** Where a copy stands between two roots: the transactions sent have laid the parts loaded over dst. */
  ghost predicate Standing(rootPath: string, data: Data, roots: seq<string>, parts: seq<Data>,
                           sent: seq<Data>, start: Data, now: Data)
  {
    && AllLoaded(rootPath, data, roots, parts)
    && Batches(sent) && now == Applied(start, sent) == Applied(start, parts)
    && Total(sent) == Total(parts) && |sent| == BatchCount(parts)
  }

  lemma SentSoFar(rootPath: string, data: Data, roots: seq<string>, parts: seq<Data>, sent: seq<Data>, start: Data, now: Data)
    requires Standing(rootPath, data, roots, parts, sent, start, now)
    ensures Batches(sent) && now == Applied(start, sent)
  {
  }

  lemma NothingCopied(rootPath: string, data: Data, start: Data)
    ensures Standing(rootPath, data, [], [], [], start, start) && Total([]) == 0
  {
  }

  /** The transactions of one root join those of the roots before. */
  lemma RootCopied(rootPath: string, data: Data, roots: seq<string>, i: nat, parts: seq<Data>, sent: seq<Data>, start: Data,
                   mid: Data, logical: Data, kept: set<string>, more: seq<Data>, now: Data)
    requires i < |roots| && Standing(rootPath, data, roots[..i], parts, sent, start, mid)
    requires Loaded(rootPath, data, roots[i], logical) && Sent(logical, kept, more, mid, now)
    ensures Batches(sent + more) && now == Applied(start, sent + more) && Total(sent + more) == Total(sent) + Total(more)
    ensures kept == logical.Keys && now == mid + logical && |more| == (|logical| + 63) / 64 ==>
              Standing(rootPath, data, roots[..i + 1], parts + [logical], sent + more, start, now)
  {
    hide Loaded, Applied, Total, BatchCount, Part;
    TxnsJoined(start, sent, more);
    TxnAdded(start, parts, logical);
    LoadedMore(rootPath, data, roots, i, parts, logical);
    hide AllLoaded;
  }

  lemma PartBetween(base: Data, overlay: Data, kept: set<string>)
    ensures Between(base, overlay, base + Part(overlay, kept)) && Between(base, overlay, base)
  {
  }

  /** Where a failed copy leaves dst when stripping is exact: part of the overlay, or none, on top of the
      roots copied before. */
  lemma CopyStopped(rootPath: string, data: Data, roots: seq<string>, i: nat, parts: seq<Data>, sent: seq<Data>, start: Data,
                    mid: Data, overlay: Data, now: Data)
    requires i < |roots| && Standing(rootPath, data, roots[..i], parts, sent, start, mid)
    requires ExactAll(rootPath, data, roots) && Between(mid, overlay, now)
    requires overlay == Under(data, roots[i]) || overlay == map[]
    ensures Between(start, UnderAny(data, roots), now)
  {
    assert ExactAll(rootPath, data, roots[..i]);
    hide Loaded, Exact, UnderAny, Under, Applied, Between;
    PartsExact(rootPath, data, roots[..i], parts);
    PartsOverlay(start, data, roots[..i]);
    PartialCopy(data, roots, i, start, overlay, now);
  }

  lemma LoadStopped(rootPath: string, data: Data, roots: seq<string>, i: nat, parts: seq<Data>, sent: seq<Data>, start: Data,
                    mid: Data)
    requires i < |roots| && Standing(rootPath, data, roots[..i], parts, sent, start, mid)
    ensures ExactAll(rootPath, data, roots) ==> Between(start, UnderAny(data, roots), mid)
    ensures Batches(sent) && mid == Applied(start, sent) && mid == Applied(start, parts) + Part(map[], {})
  {
    assert mid + Part(map[], {}) == mid;
    SentSoFar(rootPath, data, roots[..i], parts, sent, start, mid);
    hide Standing, ExactAll, Between, UnderAny;
    if ExactAll(rootPath, data, roots) {
      PartBetween(mid, map[], {});
      CopyStopped(rootPath, data, roots, i, parts, sent, start, mid, map[], mid);
    }
  }

  lemma SaveStopped(rootPath: string, data: Data, roots: seq<string>, i: nat, parts: seq<Data>, sent: seq<Data>, start: Data,
                    mid: Data, logical: Data, kept: set<string>, more: seq<Data>, now: Data)
    requires i < |roots| && Standing(rootPath, data, roots[..i], parts, sent, start, mid)
    requires Loaded(rootPath, data, roots[i], logical) && Sent(logical, kept, more, mid, now)
    ensures ExactAll(rootPath, data, roots) ==> Between(start, UnderAny(data, roots), now)
    ensures now == Applied(start, parts) + Part(logical, kept) && |kept| == Total(more)
  {
    assert mid == Applied(start, parts);
    hide Standing, Between, UnderAny, Part, Exact, Loaded;
    if ExactAll(rootPath, data, roots) {
      LoadedExact(rootPath, data, roots[i], logical);
      PartBetween(mid, logical, kept);
      CopyStopped(rootPath, data, roots, i, parts, sent, start, mid, logical, now);
    }
  }

  lemma CopyExact(rootPath: string, data: Data, roots: seq<string>, parts: seq<Data>, sent: seq<Data>, start: Data, now: Data)
    requires Standing(rootPath, data, roots, parts, sent, start, now) && ExactAll(rootPath, data, roots)
    ensures parts == Parts(data, roots) && now == start + UnderAny(data, roots)
  {
    hide Loaded, ExactAll, Applied, UnderAny;
    PartsExact(rootPath, data, roots, parts);
    PartsOverlay(start, data, roots);
  }

  /** Where a failed copy has stopped: after the roots in `parts`, at the next one. Either its load failed or
      gave a key without root, and nothing of it was copied; or a save failed, and of what the load gave,
      `cut`, just the keys in `kept` were copied. */
  ghost predicate StoppedAt(rootPath: string, data: Data, roots: seq<string>, loadOk: nat -> bool, saveOk: nat -> bool,
                            parts: seq<Data>, sent: seq<Data>, cut: Data, kept: set<string>, start: Data, now: Data)
  {
    && |parts| < |roots| && now == Applied(start, parts) + Part(cut, kept)
    && if loadOk(|parts|) && !NoRootUnder(rootPath, data, roots[|parts|])
       then !saveOk(|sent|) && Loaded(rootPath, data, roots[|parts|], cut)
       else cut == map[]
  }

  lemma StopsAtLoad(rootPath: string, data: Data, roots: seq<string>, loadOk: nat -> bool, saveOk: nat -> bool,
                    parts: seq<Data>, sent: seq<Data>, start: Data, mid: Data)
    requires |parts| < |roots| && Standing(rootPath, data, roots[..|parts|], parts, sent, start, mid)
    requires !loadOk(|parts|) || NoRootUnder(rootPath, data, roots[|parts|])
    ensures StoppedAt(rootPath, data, roots, loadOk, saveOk, parts, sent, map[], {}, start, mid)
    ensures ExactAll(rootPath, data, roots) ==> Between(start, UnderAny(data, roots), mid)
    ensures Batches(sent) && mid == Applied(start, sent)
  {
    hide Standing, ExactAll, Between, UnderAny, NoRootUnder, Part, Applied, Loaded, Batches;
    LoadStopped(rootPath, data, roots, |parts|, parts, sent, start, mid);
  }

  lemma StopsAtSave(rootPath: string, data: Data, roots: seq<string>, loadOk: nat -> bool, saveOk: nat -> bool,
                    parts: seq<Data>, sent: seq<Data>, start: Data, mid: Data,
                    part: Data, kept: set<string>, more: seq<Data>, now: Data)
    requires |parts| < |roots| && Standing(rootPath, data, roots[..|parts|], parts, sent, start, mid)
    requires loadOk(|parts|) && !NoRootUnder(rootPath, data, roots[|parts|])
    requires Loaded(rootPath, data, roots[|parts|], part) && Sent(part, kept, more, mid, now)
    ensures !saveOk(|sent + more|) ==>
              StoppedAt(rootPath, data, roots, loadOk, saveOk, parts, sent + more, part, kept, start, now)
    ensures ExactAll(rootPath, data, roots) ==> Between(start, UnderAny(data, roots), now)
    ensures |kept| == Total(more)
  {
    hide Standing, ExactAll, Between, UnderAny, NoRootUnder, Part, Applied, Loaded, Sent, Total;
    SaveStopped(rootPath, data, roots, |parts|, parts, sent, start, mid, part, kept, more, now);
  }

  /** Load and copy the next root. */
  method CopyNext(src: MetaKv, dst: MetaKv, roots: seq<string>, i: nat, loadOk: nat -> bool, saveOk: nat -> bool, next: nat,
                  ghost parts: seq<Data>, ghost sent: seq<Data>, ghost start: Data)
    returns (failed: bool, c: nat, next': nat, ghost part: Data, ghost more: seq<Data>, ghost kept: set<string>)
    requires src != dst && i < |roots| && |parts| == i && next == |sent| && SavesOk(saveOk, 0, next)
    requires Standing(src.rootPath, src.data, roots[..i], parts, sent, start, dst.data)
    requires Loadable(src.rootPath, src.data, roots[..i], loadOk)
    modifies dst
    ensures dst.txns == old(dst.txns) + more && Batches(sent + more) && dst.data == Applied(start, sent + more)
    ensures next' == |sent + more| && SavesOk(saveOk, 0, next') && Total(sent + more) == Total(sent) + Total(more)
    ensures |kept| <= |part| && c == Total(more) + AtMost63(|part| - |kept|)
    ensures failed ==>
              && StoppedAt(src.rootPath, src.data, roots, loadOk, saveOk, parts, sent + more, part, kept, start, dst.data)
              && (ExactAll(src.rootPath, src.data, roots) ==> Between(start, UnderAny(src.data, roots), dst.data))
    ensures !failed ==>
              && c == Total(more) && Loadable(src.rootPath, src.data, roots[..i + 1], loadOk)
              && Standing(src.rootPath, src.data, roots[..i + 1], parts + [part], sent + more, start, dst.data)
  {
    hide Standing, Loaded, Exact, ExactAll, Applied, Total, Between, UnderAny, Under, Batches, Sent, NoRootUnder, Part;
    hide SavesOk, Loadable, Numbered, StoppedAt;
    LoadableMore(src.rootPath, src.data, roots, i, loadOk);
    failed, c, next', part, more, kept := true, 0, next, map[], [], {};
    ghost var mid := dst.data;
    var logical := LoadRoot(src, roots[i], loadOk(i));
    if logical.None? {
      assert sent + [] == sent && dst.txns + [] == dst.txns;
      NoneTotal();
      StopsAtLoad(src.rootPath, src.data, roots, loadOk, saveOk, parts, sent, start, mid);
      return;
    }
    part := logical.value;
    failed, c, next', more, kept := CopyRoot(dst, logical.value, saveOk, next);
    RootCopied(src.rootPath, src.data, roots, i, parts, sent, start, mid, part, kept, more, dst.data);
    StopsAtSave(src.rootPath, src.data, roots, loadOk, saveOk, parts, sent, start, mid, part, kept, more, dst.data);
    NumberedMore(saveOk, next, next', more);
  }

  lemma NoneTotal()
    ensures Total([]) == 0
  {
  }

  /** Copy every root. `parts` are the roots copied whole and `sent` the transactions saved; `cut` is what
      the load of the next root gave if a save failed in it, and `kept` its keys that were saved. The copy
      stops exactly where a load or a save fails or a key has no root. On every exit the count is the keys
      saved and up to 63 that were batched but not saved. When stripping is exact, a successful copy is dst
      overlaid with src's keys under the roots, whatever the order of iteration, and a failed one is part of
      the way there. */
  method CopyPrefixes(src: MetaKv, dst: MetaKv, roots: seq<string>, loadOk: nat -> bool, saveOk: nat -> bool)
    returns (failed: bool, copied: nat, ghost sent: seq<Data>, ghost parts: seq<Data>, ghost cut: Data, ghost kept: set<string>)
    requires src != dst
    modifies dst
    ensures dst.txns == old(dst.txns) + sent && Batches(sent) && dst.data == Applied(old(dst.data), sent)
    ensures |kept| <= |cut| && copied == Total(sent) + AtMost63(|cut| - |kept|) && (!failed ==> cut == map[])
    ensures SavesOk(saveOk, 0, |sent|)
    ensures !failed ==> Loadable(src.rootPath, src.data, roots, loadOk)
    ensures !failed ==> Standing(src.rootPath, src.data, roots, parts, sent, old(dst.data), dst.data)
    ensures failed ==>
              StoppedAt(src.rootPath, src.data, roots, loadOk, saveOk, parts, sent, cut, kept, old(dst.data), dst.data)
    ensures !failed && ExactAll(src.rootPath, src.data, roots) ==>
              parts == Parts(src.data, roots) && dst.data == old(dst.data) + UnderAny(src.data, roots)
    ensures failed && ExactAll(src.rootPath, src.data, roots) ==>
              Between(old(dst.data), UnderAny(src.data, roots), dst.data)
  {
    hide Standing, ExactAll, Applied, Total, Between, UnderAny, Batches, Parts, SavesOk, Loadable, StoppedAt;
    failed, copied, sent, parts, cut, kept := true, 0, [], [], map[], {};
    var next := 0;
    SavedNone(saveOk, 0);
    NothingCopied(src.rootPath, src.data, dst.data);
    NothingLoaded(src.rootPath, src.data, loadOk);
    assert roots[..0] == [];
    for i := 0 to |roots|
      invariant |parts| == i && next == |sent| && SavesOk(saveOk, 0, next)
      invariant Standing(src.rootPath, src.data, roots[..i], parts, sent, old(dst.data), dst.data)
      invariant Loadable(src.rootPath, src.data, roots[..i], loadOk)
      invariant dst.txns == old(dst.txns) + sent && copied == Total(sent)
    {
      var bad, c;
      ghost var part, more, saved;
      bad, c, next, part, more, saved := CopyNext(src, dst, roots, i, loadOk, saveOk, next, parts, sent, old(dst.data));
      assert old(dst.txns) + sent + more == old(dst.txns) + (sent + more);
      copied, sent := copied + c, sent + more;
      if bad {
        cut, kept := part, saved;
        return;
      }
      parts := parts + [part];
    }
    assert roots[..|roots|] == roots;
    SentSoFar(src.rootPath, src.data, roots, parts, sent, old(dst.data), dst.data);
    if ExactAll(src.rootPath, src.data, roots) {
      CopyExact(src.rootPath, src.data, roots, parts, sent, old(dst.data), dst.data);
    }
    failed := false;
  }

  /** Load every root into one logical map. */
  method LoadLogical(m: MetaKv, roots: seq<string>, loadOk: nat -> bool) returns (out: Option<Data>, ghost parts: seq<Data>)
    ensures out.Some? <==> Loadable(m.rootPath, m.data, roots, loadOk)
    ensures out.Some? ==> AllLoaded(m.rootPath, m.data, roots, parts) && out.value == Applied(map[], parts)
    ensures out.Some? && ExactAll(m.rootPath, m.data, roots) ==> out.value == UnderAny(m.data, roots)
  {
    hide AllLoaded, Loaded, Exact, ExactAll, Applied, UnderAny, Under, Strip, NoRootUnder, Parts, Loadable;
    var acc: Data := map[];
    parts := [];
    assert roots[..0] == [];
    NothingLoaded(m.rootPath, m.data, loadOk);
    for i := 0 to |roots|
      invariant AllLoaded(m.rootPath, m.data, roots[..i], parts) && acc == Applied(map[], parts)
      invariant Loadable(m.rootPath, m.data, roots[..i], loadOk)
    {
      LoadableMore(m.rootPath, m.data, roots, i, loadOk);
      var part := LoadRoot(m, roots[i], loadOk(i));
      if part.None? {
        return None, parts;
      }
      TxnAdded(map[], parts, part.value);
      LoadedMore(m.rootPath, m.data, roots, i, parts, part.value);
      acc := acc + part.value;
      parts := parts + [part.value];
    }
    assert roots[..|roots|] == roots;
    if ExactAll(m.rootPath, m.data, roots) {
      PartsExact(m.rootPath, m.data, roots, parts);
      PartsOverlay(map[], m.data, roots);
      assert map[] + UnderAny(m.data, roots) == UnderAny(m.data, roots);
    }
    return Some(acc), parts;
  }

  /** The full comparison under the roots. */
  method DiffPrefixes(src: MetaKv, dst: MetaKv, roots: seq<string>, srcOk: nat -> bool, dstOk: nat -> bool)
    returns (mismatches: Option<seq<Mismatch>>, ghost srcParts: seq<Data>, ghost dstParts: seq<Data>)
    ensures mismatches.Some? <==>
              Loadable(src.rootPath, src.data, roots, srcOk) && Loadable(dst.rootPath, dst.data, roots, dstOk)
    ensures mismatches.Some? ==>
              && AllLoaded(src.rootPath, src.data, roots, srcParts) && AllLoaded(dst.rootPath, dst.data, roots, dstParts)
              && IsDiff(Applied(map[], srcParts), Applied(map[], dstParts), mismatches.value)
    ensures mismatches.Some? && ExactAll(src.rootPath, src.data, roots) && ExactAll(dst.rootPath, dst.data, roots) ==>
              IsDiff(UnderAny(src.data, roots), UnderAny(dst.data, roots), mismatches.value)
  {
    hide AllLoaded, ExactAll, UnderAny, IsDiff, Loadable, Applied;
    dstParts := [];
    var srcKV, dstKV;
    srcKV, srcParts := LoadLogical(src, roots, srcOk);
    if srcKV.None? {
      return None, srcParts, dstParts;
    }
    dstKV, dstParts := LoadLogical(dst, roots, dstOk);
    if dstKV.None? {
      return None, srcParts, dstParts;
    }
    var r := DiffMaps(srcKV.value, dstKV.value);
    return Some(r), srcParts, dstParts;
  }

  /** Copy then verify: after a successful copy the report holds exactly the keys dst already had under
      the roots and src lacks, all as missing in src; so it is empty exactly when there were none. */
  lemma CopyThenVerify(src: Data, dst: Data, roots: seq<string>, report: seq<Mismatch>)
    requires IsDiff(UnderAny(src, roots), UnderAny(dst + UnderAny(src, roots), roots), report)
    ensures forall m :: m in report <==>
              m.reason == MissingInSrc && m.key in dst && InRoots(m.key, roots) && m.key !in src
    ensures report == [] <==> forall k :: k in dst && InRoots(k, roots) ==> k in src
  {
    var a, b := UnderAny(src, roots), UnderAny(dst + UnderAny(src, roots), roots);
    forall k ensures Classify(a, b, k) == if k in dst && InRoots(k, roots) && k !in src then Some(MissingInSrc) else None {
      assert k in a <==> k in src && InRoots(k, roots);
      assert k in b <==> (k in dst || k in src) && InRoots(k, roots);
    }
    if report == [] {
      forall k | k in dst && InRoots(k, roots) ensures k in src {
        assert Mismatch(k, MissingInSrc) !in report;
      }
    } else {
      assert report[0] in report;
    }
  }

  /** Rerunning after a failure reaches the same final contents. */
  lemma RerunReachesSame(base: Data, overlay: Data, partial: Data)
    requires Between(base, overlay, partial)
    ensures partial + overlay == base + overlay
  {
  }

  /** Copy, then verify. When stripping is exact for what ends up in both stores and no call fails, both
      succeed, and the report is exactly what dst already had under the roots and src lacks. */
  method CopyAndVerify(src: MetaKv, dst: MetaKv, roots: seq<string>, loadOk: nat -> bool, saveOk: nat -> bool,
                       srcOk: nat -> bool, dstOk: nat -> bool)
    returns (failed: bool, copied: nat, report: Option<seq<Mismatch>>)
    requires src != dst
    modifies dst
    ensures var full := old(dst.data) + UnderAny(src.data, roots);
            ExactAll(src.rootPath, src.data, roots) && ExactAll(dst.rootPath, full, roots) ==>
              && ((forall a :: loadOk(a) && saveOk(a) && srcOk(a) && dstOk(a)) ==> !failed && report.Some?)
              && (!failed ==> dst.data == full)
              && (!failed && report.Some? ==>
                    && (forall m :: m in report.value <==>
                          m.reason == MissingInSrc && m.key in old(dst.data) && InRoots(m.key, roots) && m.key !in src.data)
                    && (report.value == [] <==> forall k :: k in old(dst.data) && InRoots(k, roots) ==> k in src.data))
  {
    hide ExactAll, UnderAny, IsDiff, InRoots, Standing, Between, Applied, Total, Part, Loaded, NoRootUnder;
    report := None;
    ghost var sent, parts, cut, kept, a, b;
    ghost var full := dst.data + UnderAny(src.data, roots);
    ghost var exact := ExactAll(src.rootPath, src.data, roots) && ExactAll(dst.rootPath, full, roots);
    failed, copied, sent, parts, cut, kept := CopyPrefixes(src, dst, roots, loadOk, saveOk);
    if exact && forall x :: loadOk(x) && saveOk(x) && srcOk(x) && dstOk(x) {
      ExactIsLoadable(src.rootPath, src.data, roots, loadOk);
      ExactIsLoadable(src.rootPath, src.data, roots, srcOk);
      ExactIsLoadable(dst.rootPath, full, roots, dstOk);
    }
    if !failed {
      report, a, b := DiffPrefixes(src, dst, roots, srcOk, dstOk);
      if report.Some? && exact {
        CopyThenVerify(src.data, old(dst.data), roots, report.value);
      }
    }
  }

  /** Without exactness the report can be silently wrong. With src holding "k" below rootPath "a/k", the
      only thing a load can give is "k/k", so that is what the copy writes; dst, below rootPath "b", then
      loads the same, and the comparison has nothing to report although dst lacks "k". */
  lemma WrongCopyGoesUnnoticed()
    ensures var src, copy := map["k" := "v"], map["k/k" := "v"];
            && (forall part :: Loaded("a/k", src, "k", part) <==> part == copy)
            && (forall part :: Loaded("b", copy, "k", part) <==> part == copy)
            && IsDiff(copy, copy, []) && "k" !in copy
  {
    hide Loaded, Strips, Strip, FullKey;
    StripsToSame();
    OneKeyLoaded("a/k", "k", "v", "k", "k/k");
    OneKeyLoaded("b", "k/k", "v", "k", "k/k");
  }

  lemma OneKeyLoaded(rootPath: string, key: string, val: string, root: string, stripped: string)
    requires root <= key && Strips(FullKey(rootPath, key), root, Logical(stripped))
    ensures forall part :: Loaded(rootPath, map[key := val], root, part) <==> part == map[stripped := val]
  {
    StripsUnique(FullKey(rootPath, key), root, Logical(stripped), Strip(FullKey(rootPath, key), root));
    hide Strip, Strips, FullKey;
    var data := map[key := val];
    assert key in data && data[key] == val;
    forall part | Loaded(rootPath, data, root, part) ensures part == map[stripped := val] {
      assert forall l :: l in part <==> l == stripped;
    }
  }
}
