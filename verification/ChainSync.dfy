/** The node's chain state under block deliveries: header tree, stored bodies and index, and the
    promise that the index is always that of a fresh ingest of the best chain. */
module ChainSync {
  import opened Ledger
  import opened Headers
  import opened Reorg

  function Body(bodies: map<BlockHash, seq<Tx>>, h: BlockHash): seq<Tx> {
    if h in bodies then bodies[h] else []
  }

  /** The blocks of the chain of `h` from position `k` on, oldest first; a block's height is its
      position in the chain. */
  function Branch(h: BlockHash, k: nat, bodies: map<BlockHash, seq<Tx>>): seq<Block>
    requires k <= |Chain(h)|
  {
    seq(|Chain(h)| - k, i requires 0 <= i < |Chain(h)| - k =>
      Block(Chain(h)[k + i], k + i, Body(bodies, Chain(h)[k + i])))
  }

  /** Length of the longest common prefix. */
  function CommonLength<T(==)>(a: seq<T>, b: seq<T>): (k: nat)
    ensures k <= |a| && k <= |b| && a[..k] == b[..k]
    ensures k < |a| && k < |b| ==> a[k] != b[k]
  {
    if a == [] || b == [] || a[0] != b[0] then 0 else 1 + CommonLength(a[1..], b[1..])
  }

  datatype ChainState = ChainState(headers: HeaderIndex, bodies: map<BlockHash, seq<Tx>>, index: Index)

  function ForkPoint(a: BlockHash, b: BlockHash): (k: nat)
    ensures k <= |Chain(a)| && k <= |Chain(b)|
  {
    CommonLength(Chain(a), Chain(b))
  }

  lemma ForkOfPrefix<T>(a: seq<T>, b: seq<T>)
    requires |a| <= |b| && b[..|a|] == a
    ensures CommonLength(a, b) == |a|
  {
    assert forall i :: 0 <= i < |a| ==> b[i] == b[..|a|][i];
  }

  /** A block arrives. If its header connects, the body is stored and the index moves from the
      old best chain to the new one; that is the identity when the tip stays where it is. */
  function Deliver(cs: ChainState, pow: BlockHash -> nat, raw: RawHeader, txs: seq<Tx>): ChainState {
    match ConnectHeader(cs.headers, pow, raw)
    case Err(_) => cs
    case Ok(hx) =>
      var bodies := cs.bodies[HashOf(raw) := txs];
      var k := ForkPoint(cs.headers.tip, hx.tip);
      ChainState(hx, bodies, Reorganise(cs.index, Branch(cs.headers.tip, k, bodies), Branch(hx.tip, k, bodies)))
  }

  /** The index of a fresh node that ingests the chain of `h`, the first header excepted. */
  function FreshIngest(h: BlockHash, bodies: map<BlockHash, seq<Tx>>): Index
    requires |Chain(h)| >= 1
  {
    Ingest(Branch(h, 1, bodies))
  }

  predicate Stored(cs: ChainState, genesis: RawHeader, pow: BlockHash -> nat) {
    WellFormed(cs.headers, genesis, pow) && cs.bodies.Keys == cs.headers.byHash.Keys
  }

  predicate Synced(cs: ChainState, genesis: RawHeader, pow: BlockHash -> nat) {
    && Stored(cs, genesis, pow)
    && |Chain(cs.headers.tip)| >= 1
    && cs.index == FreshIngest(cs.headers.tip, cs.bodies)
  }

  /** A node that knows only its first header is in sync. */
  lemma FreshNodeIsSynced(g: RawHeader, pow: BlockHash -> nat, cs: ChainState)
    requires g.prev == ZeroHash && cs.headers == GenesisIndex(g) && cs.index == EMPTY_INDEX
    requires cs.bodies.Keys == {HashOf(g)}
    ensures Synced(cs, g, pow)
  {
    hide WellFormed, ConnectAll, Branch;
    GenesisIsWellFormed(g, pow);
    assert Chain(HashOf(g)) == [HashOf(g)] by { assert Chain(ZeroHash) == []; }
    NothingToIngest(HashOf(g), cs.bodies);
  }

  lemma NothingToIngest(h: BlockHash, bodies: map<BlockHash, seq<Tx>>)
    requires Chain(h) == [h]
    ensures FreshIngest(h, bodies) == EMPTY_INDEX
  {
    assert Branch(h, 1, bodies) == [];
  }

  /** The body agrees with one already stored under the same hash. */
  predicate BodyOfItsHash(cs: ChainState, genesis: RawHeader, raw: RawHeader, txs: seq<Tx>) {
    raw != genesis && HashOf(raw) in cs.bodies ==> cs.bodies[HashOf(raw)] == txs
  }

  /** Every unspent outpoint of the common ancestor that the abandoned branch overwrites before
      spending is overwritten before spent on the winning branch too. */
  predicate Recoverable(cs: ChainState, pow: BlockHash -> nat, raw: RawHeader, txs: seq<Tx>)
    requires |Chain(cs.headers.tip)| >= 1
  {
    match ConnectHeader(cs.headers, pow, raw)
    case Err(_) => true
    case Ok(hx) =>
      var bodies := cs.bodies[HashOf(raw) := txs];
      var k := ForkPoint(cs.headers.tip, hx.tip);
      k >= 1 &&
      OverwritesAll(
        Lost(Ingest(Branch(hx.tip, 1, bodies)[..k - 1]).utxos.Keys, Branch(cs.headers.tip, k, bodies)),
        Branch(hx.tip, k, bodies))
  }

  lemma IngestKeys(branch: seq<Block>, h: BlockHash)
    requires forall b :: b in branch ==> b.hash != h
    ensures h !in Ingest(branch).undo && h !in Ingest(branch).created
  {
    ConnectAllKeepsLogs(EMPTY_INDEX, branch, h);
  }

  lemma BranchAt(h: BlockHash, k: nat, bodies: map<BlockHash, seq<Tx>>, i: nat)
    requires k <= |Chain(h)| && i < |Chain(h)| - k
    ensures Branch(h, k, bodies)[i] == Block(Chain(h)[k + i], k + i, Body(bodies, Chain(h)[k + i]))
  {
  }

  lemma BranchConcat(h: BlockHash, k: nat, bodies: map<BlockHash, seq<Tx>>)
    requires 1 <= k <= |Chain(h)|
    ensures Branch(h, 1, bodies) == Branch(h, 1, bodies)[..k - 1] + Branch(h, k, bodies)
  {
    var all, front, back := Branch(h, 1, bodies), Branch(h, 1, bodies)[..k - 1], Branch(h, k, bodies);
    assert |all| == |front + back|;
    forall i | 0 <= i < |all| ensures all[i] == (front + back)[i] {
      BranchAt(h, 1, bodies, i);
      if i >= k - 1 { BranchAt(h, k, bodies, i - (k - 1)); }
    }
  }

  lemma BranchHashes(h: BlockHash, k: nat, bodies: map<BlockHash, seq<Tx>>)
    requires k <= |Chain(h)|
    ensures DistinctHashes(Branch(h, k, bodies))
  {
    var br := Branch(h, k, bodies);
    ChainDistinct(h);
    forall i, j | 0 <= i < j < |br| ensures br[i].hash != br[j].hash {
      BranchAt(h, k, bodies, i);
      BranchAt(h, k, bodies, j);
    }
  }

  lemma BranchSplits(h: BlockHash, k: nat, bodies: map<BlockHash, seq<Tx>>)
    requires 1 <= k <= |Chain(h)|
    ensures Branch(h, 1, bodies) == Branch(h, 1, bodies)[..k - 1] + Branch(h, k, bodies)
    ensures DistinctHashes(Branch(h, k, bodies))
    ensures Unlogged(Ingest(Branch(h, 1, bodies)[..k - 1]), Branch(h, k, bodies))
  {
    BranchConcat(h, k, bodies);
    BranchHashes(h, 1, bodies);
    BranchHashes(h, k, bodies);
    SplitIsUnlogged(Branch(h, 1, bodies)[..k - 1], Branch(h, k, bodies));
  }

  lemma SplitIsUnlogged(front: seq<Block>, back: seq<Block>)
    requires DistinctHashes(front + back)
    ensures Unlogged(Ingest(front), back)
  {
    forall c | c in back ensures c.hash !in Ingest(front).undo && c.hash !in Ingest(front).created {
      var j :| 0 <= j < |back| && back[j] == c;
      forall b | b in front ensures b.hash != c.hash {
        var i :| 0 <= i < |front| && front[i] == b;
        assert (front + back)[i] == b && (front + back)[|front| + j] == c;
      }
      IngestKeys(front, c.hash);
    }
  }

  /** Two chains share their blocks up to the fork point. */
  lemma SharedFront(a: BlockHash, b: BlockHash, bodies: map<BlockHash, seq<Tx>>)
    requires 1 <= ForkPoint(a, b)
    ensures Branch(a, 1, bodies)[..ForkPoint(a, b) - 1] == Branch(b, 1, bodies)[..ForkPoint(a, b) - 1]
  {
    var k := ForkPoint(a, b);
    forall i | 0 <= i < k ensures Chain(a)[i] == Chain(b)[i] {
      assert Chain(a)[i] == Chain(a)[..k][i] && Chain(b)[i] == Chain(b)[..k][i];
    }
  }

  /** Storing a body that agrees with what is there leaves every non-genesis branch as it is. */
  lemma BranchStable(cs: ChainState, genesis: RawHeader, pow: BlockHash -> nat, raw: RawHeader, txs: seq<Tx>,
                     h: BlockHash)
    requires Stored(cs, genesis, pow) && BodyOfItsHash(cs, genesis, raw, txs) && h in cs.headers.byHash
    ensures |Chain(h)| >= 1
    ensures Branch(h, 1, cs.bodies[HashOf(raw) := txs]) == Branch(h, 1, cs.bodies)
  {
    StoredChain(cs.headers, genesis, pow, h);
    ChainDistinct(h);
    forall i | 1 <= i < |Chain(h)|
      ensures Body(cs.bodies[HashOf(raw) := txs], Chain(h)[i]) == Body(cs.bodies, Chain(h)[i])
    {
      assert Chain(h)[i] in Chain(h) && Chain(h)[i] != Chain(h)[0];
    }
  }

  lemma CommonRoot(a: BlockHash, b: BlockHash)
    requires |Chain(a)| >= 1 && |Chain(b)| >= 1 && Chain(a)[0] == Chain(b)[0]
    ensures ForkPoint(a, b) >= 1
  {
  }

  /** Moving a synced index from one stored tip to another gives the fresh ingest of the second
      exactly when the abandoned branch loses nothing the winning branch does not overwrite. */
  lemma MoveExact(a: BlockHash, b: BlockHash, bodies: map<BlockHash, seq<Tx>>)
    requires 1 <= ForkPoint(a, b)
    ensures var k := ForkPoint(a, b);
            Reorganise(FreshIngest(a, bodies), Branch(a, k, bodies), Branch(b, k, bodies)) == FreshIngest(b, bodies)
            <==> OverwritesAll(Lost(Ingest(Branch(b, 1, bodies)[..k - 1]).utxos.Keys, Branch(a, k, bodies)),
                               Branch(b, k, bodies))
    ensures var k := ForkPoint(a, b);
            Reorganise(FreshIngest(a, bodies), Branch(a, k, bodies), Branch(b, k, bodies)).utxos
                == FreshIngest(b, bodies).utxos
            <==> forall o :: o in Lost(Ingest(Branch(b, 1, bodies)[..k - 1]).utxos.Keys, Branch(a, k, bodies))
                   ==> FirstTouch(o, Branch(b, k, bodies)) != Untouched
  {
    var k := ForkPoint(a, b);
    var front := Branch(b, 1, bodies)[..k - 1];
    SharedFront(a, b, bodies);
    BranchSplits(a, k, bodies);
    BranchSplits(b, k, bodies);
    ConnectAllAppend(EMPTY_INDEX, front, Branch(a, k, bodies));
    ConnectAllAppend(EMPTY_INDEX, front, Branch(b, k, bodies));
    ReorganiseExact(Ingest(front), Branch(a, k, bodies), Branch(b, k, bodies));
  }

  /** What the two tips of a delivery have in common, and what the index is in terms of the new bodies. */
  lemma DeliverMoves(cs: ChainState, genesis: RawHeader, pow: BlockHash -> nat, raw: RawHeader, txs: seq<Tx>,
                     hx: HeaderIndex)
    requires Synced(cs, genesis, pow) && BodyOfItsHash(cs, genesis, raw, txs)
    requires ConnectHeader(cs.headers, pow, raw) == Ok(hx)
    ensures WellFormed(hx, genesis, pow) && hx.byHash.Keys == cs.headers.byHash.Keys + {HashOf(raw)}
    ensures |Chain(hx.tip)| >= 1 && ForkPoint(cs.headers.tip, hx.tip) >= 1
    ensures cs.index == FreshIngest(cs.headers.tip, cs.bodies[HashOf(raw) := txs])
  {
    ConnectKeepsWellFormed(cs.headers, genesis, pow, raw);
    StoredChain(cs.headers, genesis, pow, cs.headers.tip);
    StoredChain(hx, genesis, pow, hx.tip);
    BranchStable(cs, genesis, pow, raw, txs, cs.headers.tip);
  }

  lemma DeliverKeepsStored(cs: ChainState, genesis: RawHeader, pow: BlockHash -> nat, raw: RawHeader, txs: seq<Tx>)
    requires Stored(cs, genesis, pow)
    ensures Stored(Deliver(cs, pow, raw, txs), genesis, pow)
  {
    ConnectKeepsWellFormed(cs.headers, genesis, pow, raw);
  }

  /** A delivery to a synced node - an extension, a stale fork, a repeat, a rejected header or a
      reorganisation of any depth - leaves it synced exactly when it is recoverable. */
  lemma DeliverExact(cs: ChainState, genesis: RawHeader, pow: BlockHash -> nat, raw: RawHeader, txs: seq<Tx>)
    requires Synced(cs, genesis, pow) && BodyOfItsHash(cs, genesis, raw, txs)
    ensures Synced(Deliver(cs, pow, raw, txs), genesis, pow) <==> Recoverable(cs, pow, raw, txs)
  {
    hide Stored, FreshIngest, BodyOfItsHash, Branch, Ingest, OverwritesAll, Lost, Reorganise, Chain, ForkPoint;
    var r := ConnectHeader(cs.headers, pow, raw);
    if r.Ok? {
      assert Stored(cs, genesis, pow);
      DeliverKeepsStored(cs, genesis, pow, raw, txs);
      DeliverMoves(cs, genesis, pow, raw, txs, r.value);
      MovedExact(cs, Deliver(cs, pow, raw, txs), genesis, pow, cs.bodies[HashOf(raw) := txs]);
    }
  }

  lemma MovedExact(cs: ChainState, cs': ChainState, genesis: RawHeader, pow: BlockHash -> nat,
                   bodies: map<BlockHash, seq<Tx>>)
    requires Stored(cs', genesis, pow) && cs'.bodies == bodies
    requires |Chain(cs.headers.tip)| >= 1 && |Chain(cs'.headers.tip)| >= 1
    requires ForkPoint(cs.headers.tip, cs'.headers.tip) >= 1
    requires cs.index == FreshIngest(cs.headers.tip, bodies)
    requires var k := ForkPoint(cs.headers.tip, cs'.headers.tip);
             cs'.index == Reorganise(cs.index, Branch(cs.headers.tip, k, bodies), Branch(cs'.headers.tip, k, bodies))
    ensures var k := ForkPoint(cs.headers.tip, cs'.headers.tip);
            Synced(cs', genesis, pow) <==>
            OverwritesAll(Lost(Ingest(Branch(cs'.headers.tip, 1, bodies)[..k - 1]).utxos.Keys,
                               Branch(cs.headers.tip, k, bodies)),
                          Branch(cs'.headers.tip, k, bodies))
  {
    MoveExact(cs.headers.tip, cs'.headers.tip, bodies);
  }

  /** The delivery leaves no block of the best chain: the header is refused, the tip stays, or
      the new block extends it. */
  predicate LeavesNothing(cs: ChainState, pow: BlockHash -> nat, raw: RawHeader) {
    match ConnectHeader(cs.headers, pow, raw)
    case Err(_) => true
    case Ok(hx) => hx.tip == cs.headers.tip || (hx.tip == HashOf(raw) && raw.prev == cs.headers.tip)
  }

  lemma TipIsPrefix(tip: BlockHash, h: BlockHash)
    requires h == tip || (h.HashOf? && h.header.prev == tip)
    ensures ForkPoint(tip, h) == |Chain(tip)|
  {
    assert Chain(h)[..|Chain(tip)|] == Chain(tip);
    ForkOfPrefix(Chain(tip), Chain(h));
  }

  /** An extension of the best chain, a stale block, a repeat or a refused header keeps a synced
      node synced, whatever the block creates. */
  lemma LeavingNothingStaysSynced(cs: ChainState, genesis: RawHeader, pow: BlockHash -> nat, raw: RawHeader,
                                  txs: seq<Tx>)
    requires Synced(cs, genesis, pow) && BodyOfItsHash(cs, genesis, raw, txs) && LeavesNothing(cs, pow, raw)
    ensures Synced(Deliver(cs, pow, raw, txs), genesis, pow)
  {
    DeliverExact(cs, genesis, pow, raw, txs);
    var r := ConnectHeader(cs.headers, pow, raw);
    if r.Ok? {
      var tip, bodies := cs.headers.tip, cs.bodies[HashOf(raw) := txs];
      TipIsPrefix(tip, r.value.tip);
      assert Branch(tip, |Chain(tip)|, bodies) == [];
    }
  }

  datatype Delivery = Delivery(raw: RawHeader, txs: seq<Tx>)

  function DeliverAll(cs: ChainState, pow: BlockHash -> nat, ds: seq<Delivery>): ChainState
    decreases ds
  {
    if ds == [] then cs else DeliverAll(Deliver(cs, pow, ds[0].raw, ds[0].txs), pow, ds[1..])
  }

  /** Each delivery carries the body of its hash. */
  predicate HonestBodies(cs: ChainState, genesis: RawHeader, pow: BlockHash -> nat, ds: seq<Delivery>)
    decreases ds
  {
    ds == [] || (BodyOfItsHash(cs, genesis, ds[0].raw, ds[0].txs)
                 && HonestBodies(Deliver(cs, pow, ds[0].raw, ds[0].txs), genesis, pow, ds[1..]))
  }

  predicate RecoverableRun(cs: ChainState, pow: BlockHash -> nat, ds: seq<Delivery>)
    decreases ds
  {
    ds == [] || (|Chain(cs.headers.tip)| >= 1 && Recoverable(cs, pow, ds[0].raw, ds[0].txs)
                 && RecoverableRun(Deliver(cs, pow, ds[0].raw, ds[0].txs), pow, ds[1..]))
  }

  /** In sync now and after each of the deliveries. */
  predicate SyncedThroughout(cs: ChainState, genesis: RawHeader, pow: BlockHash -> nat, ds: seq<Delivery>)
    decreases ds
  {
    Synced(cs, genesis, pow)
    && (ds != [] ==> SyncedThroughout(Deliver(cs, pow, ds[0].raw, ds[0].txs), genesis, pow, ds[1..]))
  }

  /** Over every run of deliveries: the index is that of a fresh ingest of the best chain at every
      point of the run if and only if every delivery of the run is recoverable. */
  lemma {:induction false} RunsAreSyncedExactly(cs: ChainState, genesis: RawHeader, pow: BlockHash -> nat,
                                                ds: seq<Delivery>)
    requires Synced(cs, genesis, pow) && HonestBodies(cs, genesis, pow, ds)
    ensures SyncedThroughout(cs, genesis, pow, ds) <==> RecoverableRun(cs, pow, ds)
    decreases ds
  {
    if ds != [] {
      var cs' := Deliver(cs, pow, ds[0].raw, ds[0].txs);
      DeliverExact(cs, genesis, pow, ds[0].raw, ds[0].txs);
      if Synced(cs', genesis, pow) { RunsAreSyncedExactly(cs', genesis, pow, ds[1..]); }
    }
  }

  /** No stored block creates an outpoint that is unspent where its parent ends. */
  predicate AllFresh(cs: ChainState, genesis: RawHeader) {
    forall h {:trigger FreshBlock(h, cs.bodies)} :: h in cs.headers.byHash && h != HashOf(genesis) ==>
        FreshBlock(h, cs.bodies)
  }

  predicate FreshBlock(h: BlockHash, bodies: map<BlockHash, seq<Tx>>) {
    h.HashOf? && |Chain(h.header.prev)| >= 1
    && CreatedBy(Body(bodies, h)) !! FreshIngest(h.header.prev, bodies).utxos.Keys
  }

  predicate FreshRun(cs: ChainState, genesis: RawHeader, pow: BlockHash -> nat, ds: seq<Delivery>)
    decreases ds
  {
    ds == [] || (AllFresh(Deliver(cs, pow, ds[0].raw, ds[0].txs), genesis)
                 && FreshRun(Deliver(cs, pow, ds[0].raw, ds[0].txs), genesis, pow, ds[1..]))
  }

  /** What precedes position `k` of a chain is the branch of the parent of its member there. */
  lemma BranchOfParent(h: BlockHash, k: nat, bodies: map<BlockHash, seq<Tx>>)
    requires 1 <= k < |Chain(h)|
    ensures Chain(h)[k].HashOf?
    ensures |Chain(Chain(h)[k].header.prev)| == k
    ensures Branch(Chain(h)[k].header.prev, 1, bodies) == Branch(h, 1, bodies)[..k - 1]
  {
    var x := Chain(h)[k];
    ChainPrefix(h, k);
    assert Chain(x) == Chain(x.header.prev) + [x];
    assert Chain(x.header.prev) == Chain(h)[..k];
    var p, q := Branch(x.header.prev, 1, bodies), Branch(h, 1, bodies)[..k - 1];
    forall i | 0 <= i < |p| ensures p[i] == q[i] {
      BranchAt(x.header.prev, 1, bodies, i);
      BranchAt(h, 1, bodies, i);
    }
  }

  lemma BranchStep(h: BlockHash, k: nat, bodies: map<BlockHash, seq<Tx>>)
    requires 1 <= k < |Chain(h)|
    ensures Branch(h, k, bodies) == [Branch(h, 1, bodies)[k - 1]] + Branch(h, k + 1, bodies)
    ensures Ingest(Branch(h, 1, bodies)[..k])
            == Connect(Ingest(Branch(h, 1, bodies)[..k - 1]), Branch(h, 1, bodies)[k - 1])
  {
    var all := Branch(h, 1, bodies);
    BranchHead(h, k, bodies);
    assert all[..k] == all[..k - 1] + [all[k - 1]];
    hide Branch, Connect, Ingest;
    IngestAppend(all[..k - 1], all[k - 1]);
  }

  lemma BranchHead(h: BlockHash, k: nat, bodies: map<BlockHash, seq<Tx>>)
    requires 1 <= k < |Chain(h)|
    ensures Branch(h, k, bodies) == [Branch(h, 1, bodies)[k - 1]] + Branch(h, k + 1, bodies)
  {
    var all, br := Branch(h, 1, bodies), Branch(h, k, bodies);
    BranchAt(h, 1, bodies, k - 1);
    forall i | 0 <= i < |br| ensures br[i] == ([all[k - 1]] + Branch(h, k + 1, bodies))[i] {
      BranchAt(h, k, bodies, i);
      if i > 0 { BranchAt(h, k + 1, bodies, i - 1); }
    }
  }

  lemma IngestAppend(front: seq<Block>, b: Block)
    ensures Ingest(front + [b]) == Connect(Ingest(front), b)
  {
    ConnectAllAppend(EMPTY_INDEX, front, [b]);
    assert [b][1..] == [];
    assert ConnectAll(Ingest(front), [b]) == ConnectAll(Connect(Ingest(front), b), []);
  }

  lemma {:induction false} FreshBranch(h: BlockHash, k: nat, bodies: map<BlockHash, seq<Tx>>, base: Index)
    requires 1 <= k <= |Chain(h)| && base == Ingest(Branch(h, 1, bodies)[..k - 1])
    requires forall i :: k <= i < |Chain(h)| ==> FreshBlock(Chain(h)[i], bodies)
    ensures FreshAlong(base, Branch(h, k, bodies))
    decreases |Chain(h)| - k
  {
    if k < |Chain(h)| {
      assert FreshBlock(Chain(h)[k], bodies);
      BranchOfParent(h, k, bodies);
      BranchAt(h, 1, bodies, k - 1);
      BranchStep(h, k, bodies);
      FreshBranch(h, k + 1, bodies, Connect(base, Branch(h, 1, bodies)[k - 1]));
      assert Branch(h, k, bodies)[1..] == Branch(h, k + 1, bodies);
    }
  }

  lemma FreshIsRecoverable(cs: ChainState, genesis: RawHeader, pow: BlockHash -> nat, raw: RawHeader, txs: seq<Tx>)
    requires Synced(cs, genesis, pow) && BodyOfItsHash(cs, genesis, raw, txs)
    requires AllFresh(Deliver(cs, pow, raw, txs), genesis)
    ensures Recoverable(cs, pow, raw, txs)
  {
    ConnectKeepsWellFormed(cs.headers, genesis, pow, raw);
    var r := ConnectHeader(cs.headers, pow, raw);
    if r.Ok? {
      var a, b, bodies := cs.headers.tip, r.value.tip, cs.bodies[HashOf(raw) := txs];
      StoredChain(r.value, genesis, pow, a);
      StoredChain(r.value, genesis, pow, b);
      CommonRoot(a, b);
      var k := ForkPoint(a, b);
      SharedFront(a, b, bodies);
      ChainDistinct(a);
      forall i | k <= i < |Chain(a)| ensures FreshBlock(Chain(a)[i], bodies) {
        assert Chain(a)[i] in Chain(a) && Chain(a)[i] != Chain(a)[0];
      }
      var base := Ingest(Branch(b, 1, bodies)[..k - 1]);
      FreshBranch(a, k, bodies, base);
      FreshLosesNothing(base, Branch(a, k, bodies));
    }
  }

  /** Over every run of deliveries whose blocks create only fresh outpoints, the node's index -
      unspent outputs with values, scripts and heights, undo logs and created logs - is that of a
      fresh ingest of its best chain. */
  lemma {:induction false} EveryFreshRunIsSynced(cs: ChainState, genesis: RawHeader, pow: BlockHash -> nat,
                                                 ds: seq<Delivery>)
    requires Synced(cs, genesis, pow) && HonestBodies(cs, genesis, pow, ds) && FreshRun(cs, genesis, pow, ds)
    ensures Synced(DeliverAll(cs, pow, ds), genesis, pow)
    decreases ds
  {
    if ds != [] {
      FreshIsRecoverable(cs, genesis, pow, ds[0].raw, ds[0].txs);
      DeliverExact(cs, genesis, pow, ds[0].raw, ds[0].txs);
      EveryFreshRunIsSynced(Deliver(cs, pow, ds[0].raw, ds[0].txs), genesis, pow, ds[1..]);
    }
  }

  /** The logs of a synced node are keyed by exactly the non-genesis blocks of its best chain. */
  lemma SyncedLogKeys(cs: ChainState, genesis: RawHeader, pow: BlockHash -> nat)
    requires Synced(cs, genesis, pow)
    ensures cs.index.undo.Keys == cs.index.created.Keys == SetOf(Chain(cs.headers.tip)) - {HashOf(genesis)}
  {
    StoredChain(cs.headers, genesis, pow, cs.headers.tip);
    IngestLogKeys(EMPTY_INDEX, Branch(cs.headers.tip, 1, cs.bodies));
    HashesOfBranch(cs.headers.tip, cs.bodies);
  }

  function Hashes(branch: seq<Block>): set<BlockHash> {
    set b | b in branch :: b.hash
  }

  lemma HashesOfBranch(h: BlockHash, bodies: map<BlockHash, seq<Tx>>)
    requires |Chain(h)| >= 1
    ensures Hashes(Branch(h, 1, bodies)) == SetOf(Chain(h)) - {Chain(h)[0]}
  {
    var br := Branch(h, 1, bodies);
    ChainDistinct(h);
    forall x | x in SetOf(Chain(h)) - {Chain(h)[0]} ensures x in Hashes(br) {
      var i :| 0 <= i < |Chain(h)| && Chain(h)[i] == x;
      BranchAt(h, 1, bodies, i - 1);
      assert br[i - 1] in br;
    }
    forall x | x in Hashes(br) ensures x in SetOf(Chain(h)) - {Chain(h)[0]} {
      var i :| 0 <= i < |br| && br[i].hash == x;
      BranchAt(h, 1, bodies, i);
    }
  }

  lemma HashesStep(branch: seq<Block>)
    requires branch != []
    ensures Hashes(branch) == {branch[0].hash} + Hashes(branch[1..])
  {
    assert branch == [branch[0]] + branch[1..];
  }

  lemma {:induction false} IngestLogKeys(ix: Index, branch: seq<Block>)
    ensures ConnectAll(ix, branch).undo.Keys == ix.undo.Keys + Hashes(branch)
    ensures ConnectAll(ix, branch).created.Keys == ix.created.Keys + Hashes(branch)
    decreases branch
  {
    if branch != [] {
      var ix1 := Connect(ix, branch[0]);
      assert ix1.undo.Keys == ix.undo.Keys + {branch[0].hash};
      assert ix1.created.Keys == ix.created.Keys + {branch[0].hash};
      IngestLogKeys(ix1, branch[1..]);
      HashesStep(branch);
    }
  }
}
