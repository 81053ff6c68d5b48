/** The embedded node: header store, block store, mempool, and the undo and created logs. */
module Network {
  import opened Ledger
  import opened Validation
  import opened Headers
  import opened Reorg
  import opened ChainSync
  import opened Store
  import opened Watch
  import opened Mining
  import opened Cascade
  import Pool
  import Merkle
  import Supply

  datatype MineError = NonceExhausted

  function GenesisHeader(timestamp: nat): RawHeader {
    RawHeader(1, ZeroHash, ZeroDigest, timestamp, REGTEST_BITS, 0)
  }

  function TxsOf(branch: seq<Block>): seq<Tx> {
    if branch == [] then [] else TxsOf(branch[..|branch| - 1]) + branch[|branch| - 1].txs
  }

  class EmbeddedNode {
    const genesis: RawHeader
    const coinbaseReward: nat
    const headers: HeaderStore
    const blockstore: BlockStore
    const mempool: Mempool
    var undoLog: map<BlockHash, seq<UndoEntry>>
    var createdLog: map<BlockHash, seq<Outpoint>>

    ghost function Index(): Reorg.Index
      reads this, blockstore
    {
      Reorg.Index.Index(blockstore.utxos, undoLog, createdLog)
    }

    ghost function State(): ChainState
      reads this, headers, blockstore
    {
      ChainState(headers.State(), blockstore.Bodies(), Index())
    }

    ghost predicate Wired()
      reads mempool, mempool.observers
    {
      mempool.store == blockstore && mempool.Wired()
    }

    ghost predicate Valid()
      reads this, headers, blockstore, mempool, mempool.observers
    {
      && Wired()
      && headers.genesis == genesis
      && headers.Valid()
      && blockstore.blocks.Keys == headers.byHash.Keys
    }

    // ---------- the node as a step machine of submissions and mined blocks ----------

    /** The state of that machine, without the tally of interventions. */
    ghost function Node(mined: set<Tx>): Supply.NodeState
      requires |Chain(headers.tipHash)| >= 1
      reads this, headers, blockstore, mempool`entries, mempool`spentBy
    {
      Supply.NodeState(blockstore.utxos, |Chain(headers.tipHash)| - 1,
                       Pool.PoolState(mempool.entries, mempool.spentBy, []), mined)
    }

    ghost function Rules(): Supply.Rules {
      Supply.Rules(coinbaseReward, mempool.verify)
    }

    /** A legal run from genesis that has led to this node. It does not depend on who observes the
        mempool now. */
    ghost predicate HasRun(steps: seq<Supply.Step>)
      reads this, headers, blockstore, mempool`entries, mempool`spentBy
    {
      && |Chain(headers.tipHash)| >= 1
      && Supply.LegalRun(Supply.START, Rules(), steps)
      && Node(Supply.Run(Supply.START, Rules(), steps).mined) == Supply.Run(Supply.START, Rules(), steps)
    }

    /** The money supply of the object: the reward for every block on genesis, and what repeated
        inputs brought in twice. */
    lemma NodeMoney(steps: seq<Supply.Step>)
      requires HasRun(steps)
      ensures Total(blockstore.utxos)
           == coinbaseReward * (|Chain(headers.tipHash)| - 1) + Supply.Doubled(Supply.START, Rules(), steps)
      ensures Supply.Doubled(Supply.START, Rules(), steps) >= 0
    {
      hide Supply.LegalRun, Supply.Run, Supply.Doubled, Total;
      Supply.MoneySupply(Rules(), steps);
    }

    constructor (pow: BlockHash -> nat, verify: Interpreter, reward: nat, timestamp: nat)
      ensures Valid() && fresh(headers) && fresh(blockstore) && fresh(mempool)
      ensures coinbaseReward == reward && headers.pow == pow && mempool.verify == verify
      ensures genesis == RawHeader(1, ZeroHash, ZeroDigest, timestamp, 0x207F_FFFF, 0)
      ensures blockstore.blocks == map[HashOf(genesis) := StoredBlock(genesis, 0, [])]
      ensures Synced(State(), genesis, pow)
      ensures mempool.observers == [] && mempool.entries == map[]
      ensures HasRun([])
    {
      hide Synced, Chain, Indexed, WellFormed, Supply.LegalRun, Supply.Run;
      var g := GenesisHeader(timestamp);
      var hs := new HeaderStore.WithGenesis(g, pow);
      var bs := new BlockStore();
      bs.StoreBlock(HashOf(g), 0, g, []);
      var mp := new Mempool(bs, verify);
      genesis, coinbaseReward := g, reward;
      headers, blockstore, mempool := hs, bs, mp;
      undoLog, createdLog := map[], map[];
      new;
      EmptyIsIndexed([]);
      assert mempool.State() == Pool.PoolState(map[], map[], []);
      FreshNodeIsSynced(g, pow, State());
      OneLink(g);
      NoSteps(Rules());
    }

    /** Admits a transaction to the mempool. */
    method SubmitTx(tx: Tx) returns (v: Verdict)
      requires Wired()
      modifies mempool`entries, mempool`spentBy, (set t | t in mempool.observers)`interventions
      ensures Wired() && mempool.Env() == old(mempool.Env())
      ensures (mempool.State(), v) == Pool.Admit(old(mempool.State()), old(mempool.Env()), tx)
      ensures forall steps :: old(HasRun(steps)) ==>
                HasRun(steps + [Supply.Submit(tx, Registries(mempool.observers))])
    {
      hide Pool.Admit, Indexed, Chain, Supply.LegalRun, Supply.Run;
      ghost var s, env := mempool.State(), mempool.Env();
      v := mempool.Admit(tx);
      AdmitUntallied(s, env, tx);
      ghost var step := Supply.Submit(tx, env.towers);
      forall steps | old(HasRun(steps)) ensures HasRun(steps + [step]) {
        Supply.OneMoreStep(Supply.START, Rules(), steps, step);
      }
    }

    // ---------- the index ----------

    method ConnectBlockWithUndo(h: BlockHash, height: nat, txs: seq<Tx>)
      modifies this, blockstore`utxos
      ensures Index() == Connect(old(Index()), Block(h, height, txs))
    {
      var undo: seq<UndoEntry> := [];
      var created: seq<Outpoint> := [];
      ghost var u := blockstore.utxos;
      for i := 0 to |txs|
        invariant blockstore.utxos == u && undoLog == old(undoLog) && createdLog == old(createdLog)
        invariant undo == UndoLog(u, txs[..i]) && created == CreatedLog(txs[..i])
      {
        assert txs[..i + 1][..i] == txs[..i];
        assert undo + [] == undo;
        if !IsCoinbase(txs[i]) {
          var more := LookUpInputs(txs[i].inputs);
          undo := undo + more;
        }
        created := created + OutpointsOf(txs[i]);
      }
      assert txs[..|txs|] == txs;
      blockstore.ConnectBlockUtxos(height, txs);
      undoLog := undoLog[h := undo];
      createdLog := createdLog[h := created];
    }

    method LookUpInputs(ins: seq<TxIn>) returns (undo: seq<UndoEntry>)
      ensures undo == UndoInputs(blockstore.utxos, ins)
    {
      undo := [];
      for j := 0 to |ins|
        invariant undo == UndoInputs(blockstore.utxos, ins[..j])
      {
        assert ins[..j + 1][..j] == ins[..j];
        var entry := blockstore.GetUtxo(ins[j].prev);
        if entry != None { undo := undo + [UndoEntry(ins[j].prev, entry.value)]; }
      }
      assert ins[..|ins|] == ins;
    }

    method DisconnectBlock(h: BlockHash)
      modifies this, blockstore`utxos
      ensures Index() == Disconnect(old(Index()), h)
    {
      var created := Lookup(createdLog, h);
      for i := 0 to |created|
        invariant undoLog == old(undoLog) && createdLog == old(createdLog)
        invariant blockstore.utxos == old(blockstore.utxos) - SetOf(created[..i])
      {
        assert SetOf(created[..i + 1]) == SetOf(created[..i]) + {created[i]} by {
          assert created[..i + 1] == created[..i] + [created[i]];
        }
        var existing := blockstore.GetUtxo(created[i]);
        if existing != None { var _ := blockstore.SpendUtxo(created[i]); }
      }
      assert created[..|created|] == created;
      var undo := Lookup(undoLog, h);
      ghost var bare := blockstore.utxos;
      for i := 0 to |undo|
        invariant undoLog == old(undoLog) && createdLog == old(createdLog)
        invariant blockstore.utxos == Restored(bare, undo[..i])
      {
        assert undo[..i + 1][..i] == undo[..i];
        blockstore.AddUtxo(undo[i].outpoint, undo[i].utxo);
      }
      assert undo[..|undo|] == undo;
      undoLog := undoLog - {h};
      createdLog := createdLog - {h};
    }

    // ---------- reorganisation ----------

    /** The hashes from `h` back to the genesis. */
    method PathTo(h: BlockHash) returns (path: seq<BlockHash>)
      requires headers.Valid() && headers.genesis == genesis && h in headers.byHash
      ensures IsPathTo(path, h)
    {
      hide Listed, Rooted, FirstBest;
      ghost var c := Chain(h);
      StoredChain(headers.State(), genesis, headers.pow, h);
      path := [];
      var cur := h;
      ghost var m := |c| - 1;
      while headers.byHash[cur].height > 0
        invariant 0 <= m < |c| && cur == c[m] && cur in headers.byHash && headers.byHash[cur].height == m
        invariant |path| == |c| - 1 - m
        invariant forall i :: 0 <= i < |path| ==> path[i] == c[|c| - 1 - i]
        decreases m
      {
        path := path + [cur];
        ParentOf(h, m);
        cur := headers.byHash[cur].raw.prev;
        m := m - 1;
      }
      path := path + [HashOf(genesis)];
    }

    lemma ParentOf(h: BlockHash, m: nat)
      requires headers.Valid() && headers.genesis == genesis && h in headers.byHash && 0 < m < |Chain(h)|
      ensures var x := Chain(h)[m];
              && x in headers.byHash && headers.byHash[x].raw.prev == Chain(h)[m - 1]
              && Chain(h)[m - 1] in headers.byHash && headers.byHash[Chain(h)[m - 1]].height == m - 1
    {
      var x, p := Chain(h)[m], Chain(h)[m - 1];
      StoredChain(headers.State(), genesis, headers.pow, h);
      ChainPrefix(h, m);
      ChainPrefix(h, m - 1);
      assert x in Chain(h) && p in Chain(h);
      assert x == HashOf(headers.byHash[x].raw);
      StoredChain(headers.State(), genesis, headers.pow, p);
    }

    /** Leaves the branch of the old tip and enters that of the new one. */
    method ReorgUtxos(fromTip: BlockHash, toTip: BlockHash)
      requires Valid() && fromTip in headers.byHash && toTip in headers.byHash
      modifies this, blockstore`utxos, mempool`entries, mempool`spentBy, (set t | t in mempool.observers)`interventions
      ensures Valid() && mempool.observers == old(mempool.observers)
      ensures var k, bodies := ForkPoint(fromTip, toTip), blockstore.Bodies();
              && Index() == Reorganise(old(Index()), Branch(fromTip, k, bodies), Branch(toTip, k, bodies))
              && mempool.State() == Pool.EvictAll(old(mempool.State()), TxsOf(Branch(toTip, k, bodies)))
    {
      hide WellFormed, IsPathTo, ForkPoint, Chain, Branch, TxsOf, ConnectAll, DisconnectAll, Pool.EvictAll, Synced;
      var oldPath, ancestor, toConnect := PlanReorg(fromTip, toTip);
      DisconnectTo(fromTip, toTip, oldPath, ancestor);
      ConnectPath(toTip, ForkPoint(fromTip, toTip), toConnect);
    }

    /** The old path, the common ancestor, and the hashes above it on the new path, oldest first. */
    method PlanReorg(fromTip: BlockHash, toTip: BlockHash)
      returns (oldPath: seq<BlockHash>, ancestor: BlockHash, toConnect: seq<BlockHash>)
      requires headers.Valid() && headers.genesis == genesis && fromTip in headers.byHash && toTip in headers.byHash
      ensures IsPathTo(oldPath, fromTip) && ForkPoint(fromTip, toTip) >= 1
      ensures ancestor == Chain(toTip)[ForkPoint(fromTip, toTip) - 1]
      ensures toConnect == Chain(toTip)[ForkPoint(fromTip, toTip)..]
    {
      hide Listed, Rooted, FirstBest, NoRepeats, ForkPoint, Chain;
      oldPath := PathTo(fromTip);
      var newPath := PathTo(toTip);
      var i := FirstShared(fromTip, toTip, oldPath, newPath);
      ancestor := newPath[i];
      ReversedDistinct(toTip, newPath);
      toConnect := HashesAfter(newPath, ancestor, i);
      FrontIsBranch(toTip, newPath, toConnect, ForkPoint(fromTip, toTip));
    }

    /** The first hash of the new path that is on the old one. */
    method FirstShared(fromTip: BlockHash, toTip: BlockHash, oldPath: seq<BlockHash>, newPath: seq<BlockHash>)
        returns (i: nat)
      requires headers.Valid() && headers.genesis == genesis && fromTip in headers.byHash && toTip in headers.byHash
      requires IsPathTo(oldPath, fromTip)
      requires IsPathTo(newPath, toTip)
      ensures ForkPoint(fromTip, toTip) >= 1
      ensures i == |newPath| - ForkPoint(fromTip, toTip)
    {
      ghost var k := ForkPoint(fromTip, toTip);
      StoredChain(headers.State(), genesis, headers.pow, fromTip);
      StoredChain(headers.State(), genesis, headers.pow, toTip);
      CommonRoot(fromTip, toTip);
      var oldSet := SetOf(oldPath);
      ReversedMembers(Chain(fromTip), oldPath);
      i := 0;
      while newPath[i] !in oldSet
        invariant i <= |newPath| - k
        decreases |newPath| - i
      {
        SharedIffBeforeFork(fromTip, toTip, |newPath| - 1 - i);
        i := i + 1;
      }
      SharedIffBeforeFork(fromTip, toTip, |newPath| - 1 - i);
    }

    /** The hashes of the new path above the ancestor, oldest first. */
    method HashesAfter(newPath: seq<BlockHash>, ancestor: BlockHash, ghost i: nat) returns (out: seq<BlockHash>)
      requires i < |newPath| && newPath[i] == ancestor
      requires NoRepeats(newPath)
      ensures IsReversedFront(out, newPath, i)
    {
      out := [];
      var j := 0;
      while newPath[j] != ancestor
        invariant j <= i && out == newPath[..j]
        decreases i - j
      {
        out := out + [newPath[j]];
        j := j + 1;
      }
      out := seq(|out|, m requires 0 <= m < |out| => out[|out| - 1 - m]);
    }

    /** Connects one stored block and evicts its transactions from the mempool. */
    method ConnectStored(h: BlockHash)
      requires Valid() && h in headers.byHash
      modifies this, blockstore`utxos, mempool`entries, mempool`spentBy, (set t | t in mempool.observers)`interventions
      ensures Valid() && mempool.observers == old(mempool.observers)
      ensures Index() == Connect(old(Index()), Block(h, headers.byHash[h].height, Body(blockstore.Bodies(), h)))
      ensures mempool.State() == Pool.EvictAll(old(mempool.State()), Body(blockstore.Bodies(), h))
    {
      var block := blockstore.GetBlock(h);
      var height := headers.byHash[h].height;
      ConnectBlockWithUndo(h, height, block.value.txs);
      EvictTxs(block.value.txs);
    }

    /** Connects stored blocks in order. */
    method ConnectPath(toTip: BlockHash, ghost k: nat, hashes: seq<BlockHash>)
      requires Valid() && toTip in headers.byHash && 1 <= k <= |Chain(toTip)|
      requires hashes == Chain(toTip)[k..]
      modifies this, blockstore`utxos, mempool`entries, mempool`spentBy, (set t | t in mempool.observers)`interventions
      ensures Valid() && mempool.observers == old(mempool.observers)
      ensures Index() == ConnectAll(old(Index()), Branch(toTip, k, blockstore.Bodies()))
      ensures mempool.State() == Pool.EvictAll(old(mempool.State()), TxsOf(Branch(toTip, k, blockstore.Bodies())))
    {
      hide Branch, Chain, Pool.EvictAll, Body, Connect, TxsOf, WellFormed;
      ghost var bodies := blockstore.Bodies();
      BranchLength(toTip, k, bodies);
      ghost var branch := Branch(toTip, k, bodies);
      assert branch[0..] == branch;
      NoEviction(branch);
      for m := 0 to |hashes|
        invariant Valid() && mempool.observers == old(mempool.observers)
        invariant ConnectAll(Index(), branch[m..]) == ConnectAll(old(Index()), branch)
        invariant mempool.State() == Pool.EvictAll(old(mempool.State()), TxsOf(branch[..m]))
      {
        assert hashes[m] in headers.byHash
          && branch[m] == Block(hashes[m], headers.byHash[hashes[m]].height, Body(bodies, hashes[m])) by {
          BranchMember(toTip, k, bodies, m);
        }
        TakeBlock(Index(), branch, m);
        ConnectStored(hashes[m]);
        Pool.EvictAllAppend(old(mempool.State()), TxsOf(branch[..m]), branch[m].txs);
      }
      assert branch[..|hashes|] == branch;
    }

    lemma BranchLength(h: BlockHash, k: nat, bodies: map<BlockHash, seq<Tx>>)
      requires 1 <= k <= |Chain(h)|
      ensures |Branch(h, k, bodies)| == |Chain(h)| - k
    {
    }

    lemma NoEviction(branch: seq<Block>)
      ensures Pool.EvictAll(mempool.State(), TxsOf(branch[..0])) == mempool.State()
      ensures TxsOf(branch[..0]) == []
    {
    }

    lemma PositionIsHeight(h: BlockHash, m: nat)
      requires headers.Valid() && headers.genesis == genesis && h in headers.byHash && m < |Chain(h)|
      ensures Chain(h)[m] in headers.byHash && headers.byHash[Chain(h)[m]].height == m
    {
      StoredChain(headers.State(), genesis, headers.pow, h);
      ChainPrefix(h, m);
      assert Chain(h)[m] in Chain(h);
      StoredChain(headers.State(), genesis, headers.pow, Chain(h)[m]);
    }

    lemma BranchMember(h: BlockHash, k: nat, bodies: map<BlockHash, seq<Tx>>, m: nat)
      requires headers.Valid() && headers.genesis == genesis && h in headers.byHash && m < |Chain(h)| - k
      ensures var x := Chain(h)[k..][m];
              && x in headers.byHash
              && Branch(h, k, bodies)[m] == Block(x, headers.byHash[x].height, Body(bodies, x))
    {
      PositionIsHeight(h, k + m);
      BranchAt(h, k, bodies, m);
    }

    method EvictTxs(txs: seq<Tx>)
      requires Wired()
      modifies mempool`entries, mempool`spentBy, (set t | t in mempool.observers)`interventions
      ensures Wired() && mempool.Env() == old(mempool.Env())
      ensures mempool.State() == Pool.EvictAll(old(mempool.State()), txs)
    {
      assert txs[0..] == txs;
      for i := 0 to |txs|
        invariant Wired() && mempool.Env() == old(mempool.Env())
        invariant Pool.EvictAll(mempool.State(), txs[i..]) == Pool.EvictAll(old(mempool.State()), txs)
      {
        assert txs[i..][1..] == txs[i + 1..];
        var _ := mempool.EvictInternal(IdOf(txs[i]));
      }
    }

    /** Disconnects the old path, newest first, down to the ancestor. */
    method DisconnectTo(fromTip: BlockHash, ghost toTip: BlockHash, oldPath: seq<BlockHash>, ancestor: BlockHash)
      requires IsPathTo(oldPath, fromTip)
      requires ForkPoint(fromTip, toTip) >= 1 && ancestor == Chain(toTip)[ForkPoint(fromTip, toTip) - 1]
      modifies this, blockstore`utxos
      ensures Index() == DisconnectAll(old(Index()), Branch(fromTip, ForkPoint(fromTip, toTip), blockstore.Bodies()))
    {
      ghost var k, n := ForkPoint(fromTip, toTip), |oldPath|;
      ghost var branch, ix := Branch(fromTip, k, blockstore.Bodies()), Index();
      assert Chain(fromTip)[k - 1] == ancestor by {
        assert Chain(fromTip)[k - 1] == Chain(fromTip)[..k][k - 1] && Chain(toTip)[k - 1] == Chain(toTip)[..k][k - 1];
      }
      assert oldPath[n - k] == ancestor;
      ReversedDistinct(fromTip, oldPath);
      assert branch[..n - k] == branch;
      var i := 0;
      while oldPath[i] != ancestor
        invariant i <= n - k
        invariant DisconnectAll(Index(), branch[..n - k - i]) == DisconnectAll(ix, branch)
        decreases n - i
      {
        ghost var m := n - k - i - 1;
        assert branch[m].hash == oldPath[i] by { BranchAt(fromTip, k, blockstore.Bodies(), m); }
        DropBlock(Index(), branch, m);
        DisconnectBlock(oldPath[i]);
        i := i + 1;
      }
      assert i == n - k;
    }

    // ---------- blocks from outside ----------

    /** Connects the header and stores the body; the index does not move yet. */
    method AddBlock(raw: RawHeader, txs: seq<Tx>) returns (r: Result<(), HeaderError>)
      requires Valid()
      modifies headers, blockstore`blocks
      ensures Valid() && Index() == old(Index())
      ensures match ConnectHeader(old(headers.State()), headers.pow, raw)
              case Err(e) => r == Err(e) && State() == old(State())
              case Ok(hx) =>
                && r == Ok(()) && headers.State() == hx
                && headers.byHash.Keys == old(headers.byHash.Keys) + {HashOf(raw)}
                && blockstore.Bodies() == old(blockstore.Bodies())[HashOf(raw) := txs]
                && HashOf(raw) in headers.byHash
                && blockstore.blocks == old(blockstore.blocks)[
                     HashOf(raw) := StoredBlock(raw, headers.byHash[HashOf(raw)].height, txs)]
    {
      hide WellFormed;
      ghost var hx, bodies := headers.State(), blockstore.Bodies();
      var connected := headers.ConnectRaw(raw);
      if connected.Err? { return Err(connected.error); }
      assert headers.byHash.Keys == hx.byHash.Keys + {HashOf(raw)} by {
        ConnectKeepsWellFormed(hx, genesis, headers.pow, raw);
      }
      blockstore.StoreBlock(HashOf(raw), connected.value.height, raw, txs);
      assert blockstore.Bodies() == bodies[HashOf(raw) := txs];
      return Ok(());
    }

    lemma HeightOfChild(raw: RawHeader)
      requires headers.Valid() && HashOf(raw) in headers.byHash
      ensures headers.byHash[HashOf(raw)].height == |Chain(raw.prev)|
    {
      StoredChain(headers.State(), headers.genesis, headers.pow, HashOf(raw));
    }

    /** Connects a stored block that extends the old tip. */
    method ExtendIndex(ghost prevTip: BlockHash, raw: RawHeader, txs: seq<Tx>, ghost bodies: map<BlockHash, seq<Tx>>)
      requires Valid() && HashOf(raw) in headers.byHash && raw.prev == prevTip
      requires bodies == blockstore.Bodies() && Body(bodies, HashOf(raw)) == txs
      modifies this, blockstore`utxos
      ensures Valid()
      ensures blockstore.utxos == ConnectBlock(old(blockstore.utxos), |Chain(prevTip)|, txs)
      ensures var k := ForkPoint(prevTip, HashOf(raw));
              && Index() == Reorganise(old(Index()), Branch(prevTip, k, bodies), Branch(HashOf(raw), k, bodies))
              && TxsOf(Branch(HashOf(raw), k, bodies)) == txs
    {
      hide WellFormed;
      var h := HashOf(raw);
      assert headers.byHash[h].height == |Chain(prevTip)| by { HeightOfChild(raw); }
      ExtensionIsMove(prevTip, raw, bodies, Index());
      ConnectBlockWithUndo(h, headers.byHash[h].height, txs);
    }

    /** Moves the index to the tip after a block has been added. */
    method FollowTip(prevTip: BlockHash, raw: RawHeader, txs: seq<Tx>)
      requires Valid() && HashOf(raw) in headers.byHash && prevTip in headers.byHash
      requires headers.tipHash == prevTip || headers.tipHash == HashOf(raw)
      requires Body(blockstore.Bodies(), HashOf(raw)) == txs
      modifies this, blockstore`utxos, mempool`entries, mempool`spentBy, (set t | t in mempool.observers)`interventions
      ensures Valid()
      ensures var k, bodies := ForkPoint(prevTip, headers.tipHash), blockstore.Bodies();
              && Index() == Reorganise(old(Index()), Branch(prevTip, k, bodies), Branch(headers.tipHash, k, bodies))
              && mempool.State() == Pool.EvictAll(old(mempool.State()), TxsOf(Branch(headers.tipHash, k, bodies)))
    {
      hide WellFormed, Indexed, Chain, Branch, ForkPoint, ConnectBlock;
      var h, newTip := HashOf(raw), headers.tipHash;
      if newTip == h && prevTip != raw.prev {
        ReorgUtxos(prevTip, newTip);
      } else if newTip == h {
        ExtendIndex(prevTip, raw, txs, blockstore.Bodies());
        EvictTxs(txs);
      } else {
        StayingIsMove(prevTip, blockstore.Bodies(), Index());
      }
    }

    /** Accepts a block from outside; moves the index if the best chain moves. */
    method AcceptBlock(raw: RawHeader, txs: seq<Tx>) returns (r: Result<(), HeaderError>)
      requires Valid()
      modifies this, headers, blockstore, mempool`entries, mempool`spentBy,
               (set t | t in mempool.observers)`interventions
      ensures Valid()
      ensures State() == Deliver(old(State()), headers.pow, raw, txs)
      ensures match ConnectHeader(old(headers.State()), headers.pow, raw)
              case Err(e) => r == Err(e) && mempool.State() == old(mempool.State())
              case Ok(hx) =>
                && r == Ok(()) && HashOf(raw) in headers.byHash
                && blockstore.blocks == old(blockstore.blocks)[
                     HashOf(raw) := StoredBlock(raw, headers.byHash[HashOf(raw)].height, txs)]
                && mempool.State() == Pool.EvictAll(old(mempool.State()),
                     TxsOf(Branch(hx.tip, ForkPoint(old(headers.tipHash), hx.tip), blockstore.Bodies())))
    {
      hide WellFormed;
      var prevTip := headers.tipHash;
      PositionOfTip();
      var connected := AddBlock(raw, txs);
      if connected.Err? { return Err(connected.error); }
      FollowTip(prevTip, raw, txs);
      return Ok(());
    }

    // ---------- mining ----------

    /** Mines a block on the tip from the mempool, or from nothing but a coinbase. */
    method GenerateBlock(payout: Script, includeMempool: bool, extra: Bytes, timestamp: nat)
      returns (r: Result<(BlockHash, seq<Tx>), MineError>)
      requires Valid()
      modifies this, headers, blockstore, mempool`entries, mempool`spentBy,
               (set t | t in mempool.observers)`interventions
      ensures Valid()
      ensures r.Err? ==> State() == old(State()) && mempool.State() == old(mempool.State())
      ensures r.Err? ==> exists txs ::
                && MinedFrom(txs, includeMempool, mempool.entries, blockstore.utxos,
                             |Chain(headers.tipHash)|, payout, extra)
                && NoNonce(headers.pow, headers.tipHash, Merkle.MerkleRoot(Ids(txs)), timestamp, 1_000_001)
      ensures r.Ok? ==>
                && MinedFrom(r.value.1, includeMempool, old(mempool.entries), old(blockstore.utxos),
                             old(|Chain(headers.tipHash)|), payout, extra)
                && mempool.State() == Pool.EvictAll(old(mempool.State()), r.value.1[1..])
      ensures r.Ok? ==>
                && r.value.0.HashOf? && headers.tipHash == r.value.0
                && var raw := r.value.0.header;
                && raw == RawHeader(1, old(headers.tipHash), Merkle.MerkleRoot(Ids(r.value.1)), timestamp,
                                    0x207F_FFFF, raw.nonce)
                && raw.nonce <= 1_000_000 && headers.pow(r.value.0) <= BitsToTarget(0x207F_FFFF)
                && NoNonce(headers.pow, raw.prev, raw.merkleRoot, timestamp, raw.nonce)
                && blockstore.blocks == old(blockstore.blocks)[
                     r.value.0 := StoredBlock(raw, old(|Chain(headers.tipHash)|), r.value.1)]
      ensures r.Ok? ==>
                && var cb, height := r.value.1[0], old(|Chain(headers.tipHash)|);
                && var pay := coinbaseReward + FeeSum(old(blockstore.utxos), mempool.verify, r.value.1[1..]);
                && var o := Outpoint(IdOf(cb), 0);
                && IsCoinbaseFor(cb, pay, payout, height, extra)
                && (o !in SpentBy(r.value.1[1..]) ==> IsPaid(old(blockstore.utxos), r.value.1, payout, height))
                && ((exists steps :: old(HasRun(steps))) ==> o !in SpentBy(r.value.1[1..]))
      ensures r.Ok? ==>
                && State() == Deliver(old(State()), headers.pow, r.value.0.header, r.value.1)
      ensures old(Synced(State(), genesis, headers.pow)) ==> Synced(State(), genesis, headers.pow)
      ensures r.Err? ==> forall steps :: old(HasRun(steps)) ==> HasRun(steps)
      ensures r.Ok? ==> forall steps :: old(HasRun(steps)) ==>
                HasRun(steps + [Supply.Mine(payout, extra, r.value.1[1..])])
    {
      hide WellFormed, Deliver, Synced, HasRun, MinedFrom, IsCoinbaseFor, IsPaid, NoNonce, SpentBy, FeeSum, Indexed,
           Chain, BitsToTarget, Pool.EvictAll, Pool.WellFormedTowers;
      var tip := headers.tipHash;
      PositionOfTip();
      var txs := ChooseTxs(payout, includeMempool, extra, headers.byHash[tip].height + 1);
      var root := Merkle.ComputeRoot(Ids(txs));
      var found := FindNonce(tip, root, timestamp);
      if found == None { return Err(NonceExhausted); }
      forall steps | old(HasRun(steps)) ensures Outpoint(IdOf(txs[0]), 0) !in SpentBy(txs[1..]) {
        CoinbaseIsUnspent(steps, txs, includeMempool, payout, extra);
      }
      TakeMined(found.value, txs, includeMempool, payout, extra);
      return Ok((HashOf(found.value), txs));
    }

    /** Takes a block that was mined from this node, and drops its transactions from the mempool. */
    method TakeMined(raw: RawHeader, txs: seq<Tx>, ghost includeMempool: bool, ghost payout: Script,
                     ghost extra: Bytes)
      requires Valid() && raw.prev == headers.tipHash && raw.bits == REGTEST_BITS
      requires headers.pow(HashOf(raw)) <= BitsToTarget(REGTEST_BITS)
      requires MinedFrom(txs, includeMempool, mempool.entries, blockstore.utxos, |Chain(headers.tipHash)|,
                         payout, extra)
      modifies this, headers, blockstore, mempool`entries, mempool`spentBy,
               (set t | t in mempool.observers)`interventions
      ensures Valid() && headers.tipHash == HashOf(raw)
      ensures blockstore.blocks == old(blockstore.blocks)[
                HashOf(raw) := StoredBlock(raw, old(|Chain(headers.tipHash)|), txs)]
      ensures Outpoint(IdOf(txs[0]), 0) !in SpentBy(txs[1..]) ==>
                IsPaid(old(blockstore.utxos), txs, payout, old(|Chain(headers.tipHash)|))
      ensures State() == Deliver(old(State()), headers.pow, raw, txs)
      ensures mempool.State() == Pool.EvictAll(old(mempool.State()), txs[1..])
      ensures old(Synced(State(), genesis, headers.pow)) ==> Synced(State(), genesis, headers.pow)
      ensures forall steps :: old(HasRun(steps)) ==> HasRun(steps + [Supply.Mine(payout, extra, txs[1..])])
    {
      hide WellFormed, Deliver, Synced, Chain, Supply.LegalRun, Supply.Run, Indexed, BlockTxs, ConnectBlock,
           Pool.EvictAll, Pool.Enumerates, Pool.WellFormedTowers;
      ghost var pool, entries := mempool.State(), mempool.entries;
      ghost var u, height := blockstore.utxos, |Chain(headers.tipHash)|;
      AddOnTip(raw, txs);
      if Outpoint(IdOf(txs[0]), 0) !in SpentBy(txs[1..]) {
        MinerIsPaid(u, mempool.verify, coinbaseReward, height, payout, extra, txs[1..]);
      }
      assert mempool.entries == entries && mempool.State() == pool;
      if old(Synced(State(), genesis, headers.pow)) {
        MiningStaysSynced(old(State()), genesis, headers.pow, raw, txs);
      }
      EvictTxs(txs[1..]);
      OneMoreLink(raw);
      ghost var step := Supply.Mine(payout, extra, txs[1..]);
      forall steps | old(HasRun(steps)) ensures HasRun(steps + [step]) {
        MinedStep(Supply.Run(Supply.START, Rules(), steps), pool.counts, payout, extra, txs, steps);
      }
    }

    /** The node, which was `n`, has taken the machine's mining step. */
    lemma MinedStep(n: Supply.NodeState, counts: seq<nat>, payout: Script, extra: Bytes, txs: seq<Tx>,
                    steps: seq<Supply.Step>)
      requires Supply.LegalRun(Supply.START, Rules(), steps) && n == Supply.Run(Supply.START, Rules(), steps)
      requires |Chain(headers.tipHash)| == n.height + 2 && n.pool.counts == []
      requires txs != [] && (txs[1..] == [] || Pool.Enumerates(txs[1..], n.pool.entries))
      requires txs == BlockTxs(n.utxos, mempool.verify, coinbaseReward, n.height + 1, payout, extra, txs[1..])
      requires blockstore.utxos == ConnectBlock(n.utxos, n.height + 1, txs)
      requires mempool.State() == Pool.EvictAll(n.pool.(counts := counts), txs[1..])
      ensures HasRun(steps + [Supply.Mine(payout, extra, txs[1..])])
    {
      hide Pool.EvictAll, ConnectBlock, BlockTxs, Pool.Enumerates, Supply.LegalRun, Supply.Run;
      var step := Supply.Mine(payout, extra, txs[1..]);
      EvictAllUntallied(n.pool.(counts := counts), txs[1..]);
      Supply.OneMoreStep(Supply.START, Rules(), steps, step);
      assert Supply.Next(n, Rules(), step) == Node(n.mined + SetOf(txs));
    }

    /** The coinbase's output is held for the payout script, with the reward and the fees. */
    ghost predicate IsPaid(u: Table, txs: seq<Tx>, payout: Script, height: nat)
      requires txs != []
      reads blockstore
    {
      var o := Outpoint(IdOf(txs[0]), 0);
      && o in blockstore.utxos
      && blockstore.utxos[o] == Utxo(coinbaseReward + FeeSum(u, mempool.verify, txs[1..]), payout, height)
    }

    /** On a node that a legal run has led to, no transaction of the next block spends its coinbase. */
    lemma CoinbaseIsUnspent(steps: seq<Supply.Step>, txs: seq<Tx>, includeMempool: bool, payout: Script, extra: Bytes)
      requires HasRun(steps)
      requires MinedFrom(txs, includeMempool, mempool.entries, blockstore.utxos, |Chain(headers.tipHash)|,
                         payout, extra)
      ensures Outpoint(IdOf(txs[0]), 0) !in SpentBy(txs[1..])
    {
      hide Supply.LegalRun, Supply.Run, BlockTxs, Pool.Enumerates, Chain, SpentBy;
      Supply.CoinbaseIsUnspent(Rules(), steps, payout, extra, txs[1..]);
    }

    lemma PositionOfTip()
      requires headers.Valid()
      ensures headers.tipHash in headers.byHash
              && headers.byHash[headers.tipHash].height + 1 == |Chain(headers.tipHash)|
    {
      StoredChain(headers.State(), headers.genesis, headers.pow, headers.tipHash);
    }

    /** The transactions of the next block. */
    method ChooseTxs(payout: Script, includeMempool: bool, extra: Bytes, height: nat) returns (txs: seq<Tx>)
      requires Indexed(mempool.State())
      ensures MinedFrom(txs, includeMempool, mempool.entries, blockstore.utxos, height, payout, extra)
      ensures txs != []
           && IsCoinbaseFor(txs[0], coinbaseReward + FeeSum(blockstore.utxos, mempool.verify, txs[1..]),
                            payout, height, extra)
    {
      hide IsCoinbaseFor, FeeSum, Indexed;
      var included: seq<Tx> := [];
      if includeMempool { included := mempool.AllTxs(); }
      var fees := SumFees(included);
      txs := [MakeCoinbase(coinbaseReward + fees, payout, height, extra)] + included;
      assert txs[1..] == included;
      CoinbaseIs(coinbaseReward + fees, payout, height, extra);
    }

    /** Adds a mined block on the tip and connects it. */
    method AddOnTip(raw: RawHeader, txs: seq<Tx>)
      requires Valid() && raw.prev == headers.tipHash && raw.bits == REGTEST_BITS
      requires headers.pow(HashOf(raw)) <= BitsToTarget(REGTEST_BITS)
      modifies this, headers, blockstore
      ensures Valid()
      ensures headers.tipHash == HashOf(raw)
      ensures blockstore.blocks == old(blockstore.blocks)[
                HashOf(raw) := StoredBlock(raw, old(|Chain(headers.tipHash)|), txs)]
      ensures State() == Deliver(old(State()), headers.pow, raw, txs)
      ensures blockstore.utxos == ConnectBlock(old(blockstore.utxos), old(|Chain(headers.tipHash)|), txs)
    {
      hide Indexed, Chain, Synced, Listed, Rooted, FirstBest;
      CommonBitsAddWork(REGTEST_BITS);
      ExtendingTheTip(headers.State(), genesis, headers.pow, raw);
      var prevTip := headers.tipHash;
      var _ := AddBlock(raw, txs);
      assert headers.byHash[HashOf(raw)].height == |Chain(prevTip)| by { HeightOfChild(raw); }
      ExtendIndex(prevTip, raw, txs, blockstore.Bodies());
    }

    /** The block's transactions: a coinbase paying reward and fees, then the whole mempool or none of it. */
    ghost predicate MinedFrom(txs: seq<Tx>, includeMempool: bool, entries: map<TxId, Pool.Entry>, u: Table,
                              height: nat, payout: Script, extra: Bytes)
    {
      && txs != []
      && (if includeMempool then Pool.Enumerates(txs[1..], entries) else txs[1..] == [])
      && txs == BlockTxs(u, mempool.verify, coinbaseReward, height, payout, extra, txs[1..])
    }

    method SumFees(included: seq<Tx>) returns (fees: int)
      ensures fees == FeeSum(blockstore.utxos, mempool.verify, included)
    {
      fees := 0;
      for i := 0 to |included|
        invariant fees == FeeSum(blockstore.utxos, mempool.verify, included[..i])
      {
        assert included[..i + 1][..i] == included[..i];
        var res := ValidateTx(included[i], blockstore, mempool.verify);
        if res.Accepted? { fees := fees + res.Fee(); }
      }
      assert included[..|included|] == included;
    }

    /** Tries nonces from 0 on, up to a million. */
    method FindNonce(tip: BlockHash, root: Digest, timestamp: nat) returns (r: Option<RawHeader>)
      ensures match r
              case Some(raw) =>
                && raw == RawHeader(1, tip, root, timestamp, 0x207F_FFFF, raw.nonce) && raw.nonce <= 1_000_000
                && headers.pow(HashOf(raw)) <= BitsToTarget(0x207F_FFFF)
                && NoNonce(headers.pow, tip, root, timestamp, raw.nonce)
              case None => NoNonce(headers.pow, tip, root, timestamp, 1_000_001)
    {
      var target := BitsToTarget(REGTEST_BITS);
      var nonce: nat := 0;
      while true
        invariant nonce <= 1_000_000
        invariant NoNonce(headers.pow, tip, root, timestamp, nonce)
        decreases 1_000_000 - nonce
      {
        var raw := RawHeader(1, tip, root, timestamp, REGTEST_BITS, nonce);
        if headers.pow(HashOf(raw)) <= target { return Some(raw); }
        nonce := nonce + 1;
        if nonce > 1_000_000 { return None; }
      }
    }
  }

  /** The transactions of a branch are those of its blocks. */
  lemma {:induction false} TxsOfIs(branch: seq<Block>, tx: Tx)
    ensures tx in TxsOf(branch) <==> exists i :: 0 <= i < |branch| && tx in branch[i].txs
  {
    if branch != [] {
      var n := |branch| - 1;
      TxsOfIs(branch[..n], tx);
      assert forall i :: 0 <= i < n ==> branch[..n][i] == branch[i];
    }
  }

  /** No nonce below `top` makes the hash of this header meet the regtest target. */
  ghost predicate NoNonce(pow: BlockHash -> nat, tip: BlockHash, root: Digest, timestamp: nat, top: nat) {
    forall x: nat :: x < top ==>
      pow(HashOf(RawHeader(1, tip, root, timestamp, 0x207F_FFFF, x))) > BitsToTarget(0x207F_FFFF)
  }

  lemma OneLink(genesis: RawHeader)
    requires genesis.prev == ZeroHash
    ensures |Chain(HashOf(genesis))| == 1
  {
    assert Chain(ZeroHash) == [];
  }

  lemma OneMoreLink(raw: RawHeader)
    ensures |Chain(HashOf(raw))| == |Chain(raw.prev)| + 1
  {
  }

  lemma NoSteps(rules: Supply.Rules)
    ensures Supply.LegalRun(Supply.START, rules, []) && Supply.Run(Supply.START, rules, []) == Supply.START
  {
  }

  function Ids(txs: seq<Tx>): seq<TxId> {
    seq(|txs|, i requires 0 <= i < |txs| => IdOf(txs[i]))
  }

  /** Connecting a block on the tip is the move from the old best chain to the new one. */
  lemma ExtensionIsMove(tip: BlockHash, raw: RawHeader, bodies: map<BlockHash, seq<Tx>>, ix: Reorg.Index)
    requires raw.prev == tip
    ensures ForkPoint(tip, HashOf(raw)) == |Chain(tip)|
    ensures var k := |Chain(tip)|;
            var b := Block(HashOf(raw), k, Body(bodies, HashOf(raw)));
            && Branch(HashOf(raw), k, bodies) == [b]
            && Reorganise(ix, Branch(tip, k, bodies), Branch(HashOf(raw), k, bodies)) == Connect(ix, b)
            && TxsOf(Branch(HashOf(raw), k, bodies)) == b.txs
  {
    var h, k := HashOf(raw), |Chain(tip)|;
    assert Chain(h) == Chain(tip) + [h];
    ForkOfPrefix(Chain(tip), Chain(h));
    assert Branch(tip, k, bodies) == [];
    BranchAt(h, k, bodies, 0);
    var b := Block(h, k, Body(bodies, h));
    assert Branch(h, k, bodies) == [b] && [b][1..] == [] && [b][..0] == [];
    assert ConnectAll(ix, [b]) == ConnectAll(Connect(ix, b), []);
  }

  /** A block mined on the tip keeps a synced node synced, whatever it creates. */
  lemma MiningStaysSynced(cs: ChainState, genesis: RawHeader, pow: BlockHash -> nat, raw: RawHeader, txs: seq<Tx>)
    requires Synced(cs, genesis, pow) && raw.prev == cs.headers.tip && raw.bits == REGTEST_BITS
    requires pow(HashOf(raw)) <= BitsToTarget(REGTEST_BITS)
    ensures Synced(Deliver(cs, pow, raw, txs), genesis, pow)
  {
    CommonBitsAddWork(REGTEST_BITS);
    ExtendingTheTip(cs.headers, genesis, pow, raw);
    LeavingNothingStaysSynced(cs, genesis, pow, raw, txs);
  }

  lemma StayingIsMove(tip: BlockHash, bodies: map<BlockHash, seq<Tx>>, ix: Reorg.Index)
    ensures ForkPoint(tip, tip) == |Chain(tip)|
    ensures Branch(tip, |Chain(tip)|, bodies) == []
    ensures Reorganise(ix, Branch(tip, |Chain(tip)|, bodies), Branch(tip, |Chain(tip)|, bodies)) == ix
  {
    assert Chain(tip)[..|Chain(tip)|] == Chain(tip);
    ForkOfPrefix(Chain(tip), Chain(tip));
  }

  lemma DropBlock(ix: Reorg.Index, branch: seq<Block>, m: nat)
    requires m < |branch|
    ensures DisconnectAll(ix, branch[..m + 1]) == DisconnectAll(Disconnect(ix, branch[m].hash), branch[..m])
  {
    assert branch[..m + 1] == branch[..m] + [branch[m]];
    DisconnectAllLast(ix, branch[..m], branch[m]);
  }

  lemma TakeBlock(ix: Reorg.Index, branch: seq<Block>, m: nat)
    requires m < |branch|
    ensures TxsOf(branch[..m + 1]) == TxsOf(branch[..m]) + branch[m].txs
    ensures ConnectAll(ix, branch[m..]) == ConnectAll(Connect(ix, branch[m]), branch[m + 1..])
  {
    assert branch[..m + 1][..m] == branch[..m];
    assert branch[m..][1..] == branch[m + 1..];
  }

  /** The chain of `h`, newest first. */
  predicate IsPathTo(path: seq<BlockHash>, h: BlockHash) {
    |path| == |Chain(h)| && forall j :: 0 <= j < |path| ==> path[j] == Chain(h)[|path| - 1 - j]
  }

  lemma ReversedDistinct(h: BlockHash, path: seq<BlockHash>)
    requires IsPathTo(path, h)
    ensures NoRepeats(path)
  {
    ChainDistinct(h);
  }

  /** The first `i` members in reverse. */
  predicate IsReversedFront(out: seq<BlockHash>, path: seq<BlockHash>, i: nat) {
    i <= |path| && |out| == i && forall m :: 0 <= m < i ==> out[m] == path[i - 1 - m]
  }

  lemma FrontIsBranch(h: BlockHash, path: seq<BlockHash>, out: seq<BlockHash>, k: nat)
    requires IsPathTo(path, h) && k <= |path| && IsReversedFront(out, path, |path| - k)
    ensures out == Chain(h)[k..]
  {
  }

  lemma ReversedMembers<T>(c: seq<T>, path: seq<T>)
    requires |path| == |c| && forall j :: 0 <= j < |path| ==> path[j] == c[|c| - 1 - j]
    ensures forall x :: x in path <==> x in c
  {
    forall x | x in c ensures x in path {
      var i :| 0 <= i < |c| && c[i] == x;
      assert path[|c| - 1 - i] == x;
    }
  }

  lemma SameMember(a: BlockHash, b: BlockHash, i: nat, m: nat)
    requires i < |Chain(a)| && m < |Chain(b)| && Chain(a)[i] == Chain(b)[m]
    ensures m < ForkPoint(a, b)
  {
    ChainPrefix(a, i);
    ChainPrefix(b, m);
    assert |Chain(Chain(a)[i])| == i + 1 && |Chain(Chain(b)[m])| == m + 1;
    assert forall j :: 0 <= j <= m ==> Chain(a)[j] == Chain(a)[..i + 1][j] && Chain(b)[j] == Chain(b)[..m + 1][j];
  }

  /** Members of one chain that are also on another are exactly those before the fork. */
  lemma SharedIffBeforeFork(a: BlockHash, b: BlockHash, m: nat)
    requires m < |Chain(b)|
    ensures Chain(b)[m] in Chain(a) <==> m < ForkPoint(a, b)
  {
    var k := ForkPoint(a, b);
    if m < k {
      assert Chain(a)[m] == Chain(a)[..k][m] && Chain(b)[m] == Chain(b)[..k][m];
    }
    forall i | 0 <= i < |Chain(a)| && Chain(a)[i] == Chain(b)[m] ensures m < k { SameMember(a, b, i, m); }
  }
}
