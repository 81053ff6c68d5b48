/** The node's incremental index (unspent outputs plus undo and created logs) against a plain
    replay of blocks: what connecting, disconnecting and reorganising leave behind, exactly. */
module Reorg {
  import opened Ledger

  datatype Block = Block(hash: BlockHash, height: nat, txs: seq<Tx>)

  datatype Index = Index(
    utxos: Table,
    undo: map<BlockHash, seq<UndoEntry>>,
    created: map<BlockHash, seq<Outpoint>>)

  const EMPTY_INDEX := Index(map[], map[], map[])

  function Connect(ix: Index, b: Block): Index {
    Index(
      ConnectBlock(ix.utxos, b.height, b.txs),
      ix.undo[b.hash := UndoLog(ix.utxos, b.txs)],
      ix.created[b.hash := CreatedLog(b.txs)])
  }

  function Lookup<T>(log: map<BlockHash, seq<T>>, h: BlockHash): seq<T> {
    if h in log then log[h] else []
  }

  function Disconnect(ix: Index, h: BlockHash): Index {
    Index(
      Restored(ix.utxos - SetOf(Lookup(ix.created, h)), Lookup(ix.undo, h)),
      ix.undo - {h},
      ix.created - {h})
  }

  /** Connects a branch, oldest block first. */
  function ConnectAll(ix: Index, branch: seq<Block>): Index
    decreases branch
  {
    if branch == [] then ix else ConnectAll(Connect(ix, branch[0]), branch[1..])
  }

  /** Disconnects a branch, newest block first. */
  function DisconnectAll(ix: Index, branch: seq<Block>): Index {
    if branch == [] then ix else Disconnect(DisconnectAll(ix, branch[1..]), branch[0].hash)
  }

  /** A fresh ingest of a chain of blocks into an empty node. */
  function Ingest(chain: seq<Block>): Index {
    ConnectAll(EMPTY_INDEX, chain)
  }

  lemma {:induction false} ConnectAllAppend(ix: Index, a: seq<Block>, b: seq<Block>)
    ensures ConnectAll(ix, a + b) == ConnectAll(ConnectAll(ix, a), b)
    decreases a
  {
    if a == [] {
      assert a + b == b;
    } else {
      assert (a + b)[1..] == a[1..] + b;
      ConnectAllAppend(Connect(ix, a[0]), a[1..], b);
    }
  }

  lemma {:induction false} DisconnectAllLast(ix: Index, branch: seq<Block>, last: Block)
    ensures DisconnectAll(ix, branch + [last]) == DisconnectAll(Disconnect(ix, last.hash), branch)
  {
    if branch == [] {
      assert [last][1..] == [];
    } else {
      assert (branch + [last])[1..] == branch[1..] + [last];
      DisconnectAllLast(ix, branch[1..], last);
    }
  }

  // ---------- what a branch does first to an outpoint ----------

  datatype Touch = Untouched | Spends | Overwrites

  /** How the first block of the branch that touches `o` treats it: as an input (even if it also
      recreates it), or only as an output, overwriting whatever the table held. */
  function FirstTouch(o: Outpoint, branch: seq<Block>): Touch {
    if branch == [] then Untouched
    else if o in SpentBy(branch[0].txs) then Spends
    else if o in CreatedBy(branch[0].txs) then Overwrites
    else FirstTouch(o, branch[1..])
  }

  predicate DistinctHashes(branch: seq<Block>) {
    forall i, j :: 0 <= i < j < |branch| ==> branch[i].hash != branch[j].hash
  }

  /** None of the branch's blocks is connected yet. */
  predicate Unlogged(ix: Index, branch: seq<Block>) {
    forall b :: b in branch ==> b.hash !in ix.undo && b.hash !in ix.created
  }

  function CreatedOn(branch: seq<Block>): set<Outpoint> {
    set b, o | b in branch && o in CreatedBy(b.txs) :: o
  }

  /** The outpoints of the table that a rollback of the branch can give back. */
  function Saved(keys: set<Outpoint>, branch: seq<Block>): set<Outpoint> {
    set o | o in keys && FirstTouch(o, branch) == Spends
  }

  /** The outpoints of the table that a rollback of the branch cannot give back. */
  function Lost(keys: set<Outpoint>, branch: seq<Block>): set<Outpoint> {
    set o | o in keys && FirstTouch(o, branch) == Overwrites
  }

  lemma CreatedOnStep(branch: seq<Block>)
    requires branch != []
    ensures CreatedOn(branch) == CreatedBy(branch[0].txs) + CreatedOn(branch[1..])
  {
    assert branch == [branch[0]] + branch[1..];
    forall o | o in CreatedOn(branch) ensures o in CreatedBy(branch[0].txs) + CreatedOn(branch[1..]) {
      var b :| b in branch && o in CreatedBy(b.txs);
      if b != branch[0] { assert b in branch[1..]; }
    }
    forall o | o in CreatedOn(branch[1..]) ensures o in CreatedOn(branch) {
      var b :| b in branch[1..] && o in CreatedBy(b.txs);
      assert b in branch;
    }
  }

  /** Logs of blocks outside the branch are left alone by connecting it. */
  lemma {:induction false} ConnectAllKeepsLogs(ix: Index, branch: seq<Block>, h: BlockHash)
    requires forall b :: b in branch ==> b.hash != h
    ensures (h in ConnectAll(ix, branch).undo <==> h in ix.undo)
         && (h in ix.undo ==> ConnectAll(ix, branch).undo[h] == ix.undo[h])
    ensures (h in ConnectAll(ix, branch).created <==> h in ix.created)
         && (h in ix.created ==> ConnectAll(ix, branch).created[h] == ix.created[h])
    decreases branch
  {
    if branch != [] {
      assert branch[0] in branch;
      ConnectAllKeepsLogs(Connect(ix, branch[0]), branch[1..], h);
    }
  }

  /** Away from what the branch creates, the table keeps exactly what the branch never touches. */
  lemma {:induction false} ConnectAllElsewhere(ix: Index, branch: seq<Block>, o: Outpoint)
    requires o !in CreatedOn(branch)
    ensures o in ConnectAll(ix, branch).utxos <==> o in ix.utxos && FirstTouch(o, branch) == Untouched
    ensures o in ConnectAll(ix, branch).utxos ==> ConnectAll(ix, branch).utxos[o] == ix.utxos[o]
    decreases branch
  {
    if branch != [] {
      CreatedOnStep(branch);
      ConnectShape(ix.utxos, branch[0].height, branch[0].txs);
      ConnectAllElsewhere(Connect(ix, branch[0]), branch[1..], o);
    }
  }

  // ---------- rolling a branch back ----------

  /** One step of a rollback on bare tables: `spent` and `made` belong to the block,
      `later` is created after it, `saved1` and `saved` can be restored after and before it. */
  lemma RollbackTables(w: Table, u: Table, u1: Table, spent: set<Outpoint>, made: set<Outpoint>,
                       later: set<Outpoint>, saved1: set<Outpoint>, saved: set<Outpoint>)
    requires saved1 <= u1.Keys && saved <= u.Keys
    requires forall o :: o !in spent && o !in made ==> (o in u1 <==> o in u) && (o in u ==> u1[o] == u[o])
    requires forall o :: o in u1 && o in spent ==> o in made
    requires forall o :: o !in spent && o !in made ==> (o in saved1 <==> o in saved)
    requires forall o :: o in spent && o in u ==> o in saved
    requires forall o :: o in made && o !in spent ==> o !in saved
    ensures (((w - later) + Restrict(u1, saved1)) - made) + Restrict(u, spent)
         == (w - (made + later)) + Restrict(u, saved)
  {
  }

  /** The table before the branch, as far as rolling `w` back recovers it. */
  function RolledBack(w: Table, u: Table, branch: seq<Block>): Table {
    (w - CreatedOn(branch)) + Restrict(u, Saved(u.Keys, branch))
  }

  lemma RollbackStep(w: Table, ix: Index, b: Block, rest: seq<Block>)
    ensures (RolledBack(w, Connect(ix, b).utxos, rest) - CreatedBy(b.txs)) + Restrict(ix.utxos, SpentBy(b.txs))
         == RolledBack(w, ix.utxos, [b] + rest)
  {
    var u, u1, branch := ix.utxos, Connect(ix, b).utxos, [b] + rest;
    assert branch[1..] == rest;
    ConnectShape(u, b.height, b.txs);
    CreatedOnStep(branch);
    RollbackTables(w, u, u1, SpentBy(b.txs), CreatedBy(b.txs), CreatedOn(rest), Saved(u1.Keys, rest),
                   Saved(u.Keys, branch));
  }

  /** Disconnecting a block from any table, with the logs its connection wrote. */
  lemma DisconnectShape(w: Table, ix: Index, b: Block)
    requires b.hash !in ix.undo && b.hash !in ix.created
    ensures Disconnect(Connect(ix, b).(utxos := w), b.hash)
         == Index((w - CreatedBy(b.txs)) + Restrict(ix.utxos, SpentBy(b.txs)), ix.undo, ix.created)
  {
    UndoShape(w, ix.utxos, b.txs);
    assert Connect(ix, b).undo - {b.hash} == ix.undo;
    assert Connect(ix, b).created - {b.hash} == ix.created;
  }

  lemma UnloggedStep(ix: Index, branch: seq<Block>)
    requires branch != [] && DistinctHashes(branch) && Unlogged(ix, branch)
    ensures DistinctHashes(branch[1..]) && Unlogged(Connect(ix, branch[0]), branch[1..])
    ensures forall c :: c in branch[1..] ==> c.hash != branch[0].hash
  {
    forall c | c in branch[1..] ensures c in branch && c.hash != branch[0].hash {
      var i :| 0 <= i < |branch| - 1 && branch[1..][i] == c;
      assert branch[i + 1] == c;
    }
  }

  /** Rolling back with the logs that connecting the branch wrote, starting from any table `w`:
      the logs come back as they were, everything the branch created goes, and of the old table
      just the outpoints whose first touch spends them are put back. */
  lemma {:induction false} RollbackShape(w: Table, ix: Index, branch: seq<Block>)
    requires DistinctHashes(branch) && Unlogged(ix, branch)
    ensures DisconnectAll(ConnectAll(ix, branch).(utxos := w), branch)
         == ix.(utxos := RolledBack(w, ix.utxos, branch))
    decreases branch
  {
    if branch == [] {
      assert RolledBack(w, ix.utxos, branch) == w;
    } else {
      var b, rest := branch[0], branch[1..];
      assert b in branch && branch == [b] + rest;
      UnloggedStep(ix, branch);
      RollbackShape(w, Connect(ix, b), rest);
      var w1 := RolledBack(w, Connect(ix, b).utxos, rest);
      DisconnectShape(w1, ix, b);
      RollbackStep(w, ix, b, rest);
    }
  }

  /** Connecting a branch and rolling it back loses exactly the outpoints that the branch
      overwrites before it spends them, and restores everything else, logs included. */
  lemma RollbackExact(ix: Index, branch: seq<Block>)
    requires DistinctHashes(branch) && Unlogged(ix, branch)
    ensures DisconnectAll(ConnectAll(ix, branch), branch)
         == Index(ix.utxos - Lost(ix.utxos.Keys, branch), ix.undo, ix.created)
  {
    var full := ConnectAll(ix, branch);
    RollbackShape(full.utxos, ix, branch);
    var lhs := RolledBack(full.utxos, ix.utxos, branch);
    var rhs := ix.utxos - Lost(ix.utxos.Keys, branch);
    hide ConnectAll, DisconnectAll, RolledBack, Lost, Unlogged, DistinctHashes;
    forall o ensures (o in lhs <==> o in rhs) && (o in lhs ==> lhs[o] == rhs[o]) {
      RollbackAt(ix, branch, o);
    }
    assert lhs == rhs;
  }

  lemma RollbackAt(ix: Index, branch: seq<Block>, o: Outpoint)
    ensures var lhs, rhs := RolledBack(ConnectAll(ix, branch).utxos, ix.utxos, branch),
            ix.utxos - Lost(ix.utxos.Keys, branch);
            (o in lhs <==> o in rhs) && (o in lhs ==> lhs[o] == rhs[o])
  {
    if o !in CreatedOn(branch) {
      ConnectAllElsewhere(ix, branch, o);
      if FirstTouch(o, branch) == Overwrites { OverwritesIsCreated(o, branch); }
    } else {
      CreatedIsTouched(o, branch);
    }
    hide ConnectAll;
  }

  lemma {:induction false} OverwritesIsCreated(o: Outpoint, branch: seq<Block>)
    requires FirstTouch(o, branch) == Overwrites
    ensures o in CreatedOn(branch)
  {
    CreatedOnStep(branch);
    if o !in CreatedBy(branch[0].txs) { OverwritesIsCreated(o, branch[1..]); }
  }

  lemma {:induction false} CreatedIsTouched(o: Outpoint, branch: seq<Block>)
    requires o in CreatedOn(branch)
    ensures FirstTouch(o, branch) != Untouched
  {
    CreatedOnStep(branch);
    if o !in Touched(branch[0].txs) { CreatedIsTouched(o, branch[1..]); }
  }

  // ---------- connecting a branch on a damaged table ----------

  /** The index without some outpoints. */
  function Without(ix: Index, lost: set<Outpoint>): Index {
    ix.(utxos := ix.utxos - lost)
  }

  /** One block on a damaged table, on bare tables. */
  lemma WithoutTables(u: Table, v: Table, lost: set<Outpoint>, touched: set<Outpoint>, effect: Table)
    requires v == u - lost && effect.Keys <= touched
    ensures (v - touched) + effect == ((u - touched) + effect) - (lost - touched)
  {
  }

  lemma WithoutStep(u: Table, lost: set<Outpoint>, b: Block)
    requires lost <= u.Keys
    ensures lost - Touched(b.txs) <= ConnectBlock(u, b.height, b.txs).Keys
    ensures ConnectBlock(u - lost, b.height, b.txs) == ConnectBlock(u, b.height, b.txs) - (lost - Touched(b.txs))
  {
    ConnectShape(u, b.height, b.txs);
    ConnectShape(u - lost, b.height, b.txs);
    WithoutTables(u, u - lost, lost, Touched(b.txs), ConnectBlock(map[], b.height, b.txs));
  }

  lemma {:induction false} UndoInputsAgrees(u: Table, lost: set<Outpoint>, ins: seq<TxIn>)
    requires lost * Prevs(ins) == {}
    ensures UndoInputs(u - lost, ins) == UndoInputs(u, ins)
  {
    if ins != [] {
      var n := |ins| - 1;
      assert Prevs(ins[..n]) <= Prevs(ins) by {
        forall o | o in Prevs(ins[..n]) ensures o in Prevs(ins) {
          var i :| 0 <= i < n && ins[..n][i].prev == o;
          assert ins[i].prev == o;
        }
      }
      assert ins[n].prev in Prevs(ins) && ins[n].prev !in lost * Prevs(ins);
      UndoInputsAgrees(u, lost, ins[..n]);
    }
  }

  lemma {:induction false} UndoLogAgrees(u: Table, lost: set<Outpoint>, txs: seq<Tx>)
    requires lost * SpentBy(txs) == {}
    ensures UndoLog(u - lost, txs) == UndoLog(u, txs)
  {
    if txs != [] {
      TouchedStep(txs);
      UndoLogAgrees(u, lost, txs[..|txs| - 1]);
      if !IsCoinbase(txs[|txs| - 1]) { UndoInputsAgrees(u, lost, txs[|txs| - 1].inputs); }
    }
  }

  /** The undo log tells a damaged table apart exactly when the block spends a lost outpoint. */
  lemma UndoLogTells(u: Table, lost: set<Outpoint>, txs: seq<Tx>)
    requires lost <= u.Keys
    ensures UndoLog(u - lost, txs) == UndoLog(u, txs) <==> lost * SpentBy(txs) == {}
  {
    if lost * SpentBy(txs) == {} {
      UndoLogAgrees(u, lost, txs);
    } else {
      var o :| o in lost * SpentBy(txs);
      UndoLogRecords(u, txs);
      UndoLogRecords(u - lost, txs);
      assert o in Outpoints(UndoLog(u, txs)) && o !in Outpoints(UndoLog(u - lost, txs));
    }
  }

  lemma FirstTouchStep(o: Outpoint, branch: seq<Block>)
    requires branch != []
    ensures o in SpentBy(branch[0].txs) ==> FirstTouch(o, branch) == Spends
    ensures o !in SpentBy(branch[0].txs) && o in CreatedBy(branch[0].txs) ==> FirstTouch(o, branch) == Overwrites
    ensures o !in Touched(branch[0].txs) ==> FirstTouch(o, branch) == FirstTouch(o, branch[1..])
  {
  }

  /** A branch connected on a table that misses `lost` ends with the undamaged table exactly
      when it touches every lost outpoint. The undo logs of the two runs play no part. */
  lemma {:induction false} ConnectAllWithoutTable(jx: Index, ix: Index, lost: set<Outpoint>, branch: seq<Block>)
    requires lost <= ix.utxos.Keys && jx.utxos == ix.utxos - lost
    ensures ConnectAll(jx, branch).utxos == ConnectAll(ix, branch).utxos
       <==> forall o :: o in lost ==> FirstTouch(o, branch) != Untouched
    decreases branch
  {
    if branch == [] {
      if lost != {} {
        var o :| o in lost;
        assert o in ix.utxos && o !in jx.utxos;
        assert FirstTouch(o, branch) == Untouched;
      } else {
        assert jx.utxos == ix.utxos;
      }
    } else {
      var b, lost1 := branch[0], lost - Touched(branch[0].txs);
      WithoutStep(ix.utxos, lost, b);
      ConnectAllWithoutTable(Connect(jx, b), Connect(ix, b), lost1, branch[1..]);
      forall o { FirstTouchStep(o, branch); }
      assert forall o :: o in lost ==> o in lost1 || FirstTouch(o, branch) != Untouched;
    }
  }

  predicate OverwritesAll(lost: set<Outpoint>, branch: seq<Block>) {
    forall o :: o in lost ==> FirstTouch(o, branch) == Overwrites
  }

  lemma OverwritesAllStep(lost: set<Outpoint>, branch: seq<Block>)
    requires branch != []
    ensures OverwritesAll(lost, branch)
       <==> lost * SpentBy(branch[0].txs) == {} && OverwritesAll(lost - Touched(branch[0].txs), branch[1..])
  {
    var spent, lost1 := SpentBy(branch[0].txs), lost - Touched(branch[0].txs);
    if lost * spent == {} {
      forall o | o in lost
        ensures o !in lost1 ==> FirstTouch(o, branch) == Overwrites
        ensures o in lost1 ==> FirstTouch(o, branch) == FirstTouch(o, branch[1..])
      {
        assert o !in lost * spent;
        FirstTouchStep(o, branch);
      }
    } else {
      var o :| o in lost * spent;
      assert FirstTouch(o, branch) == Spends;
    }
  }

  lemma ConnectAllDiffers(ix: Index, jx: Index, branch: seq<Block>)
    requires branch != [] && DistinctHashes(branch) && Unlogged(ix, branch)
    requires UndoLog(ix.utxos, branch[0].txs) != UndoLog(jx.utxos, branch[0].txs)
    ensures ConnectAll(jx, branch) != ConnectAll(ix, branch)
  {
    var b, rest := branch[0], branch[1..];
    UnloggedStep(ix, branch);
    ConnectAllKeepsLogs(Connect(ix, b), rest, b.hash);
    ConnectAllKeepsLogs(Connect(jx, b), rest, b.hash);
  }

  /** The whole index, logs included, ends undamaged exactly when the branch overwrites every
      lost outpoint before it spends it. */
  lemma {:induction false} ConnectAllWithout(ix: Index, lost: set<Outpoint>, branch: seq<Block>)
    requires lost <= ix.utxos.Keys && DistinctHashes(branch) && Unlogged(ix, branch)
    ensures ConnectAll(ix.(utxos := ix.utxos - lost), branch) == ConnectAll(ix, branch)
       <==> OverwritesAll(lost, branch)
    decreases branch
  {
    var jx := ix.(utxos := ix.utxos - lost);
    if branch == [] {
      ConnectAllWithoutTable(jx, ix, lost, branch);
      if jx == ix { assert lost == {}; }
    } else {
      var b, rest, lost1 := branch[0], branch[1..], lost - Touched(branch[0].txs);
      OverwritesAllStep(lost, branch);
      UndoLogTells(ix.utxos, lost, b.txs);
      if lost * SpentBy(b.txs) == {} {
        UnloggedStep(ix, branch);
        WithoutStep(ix.utxos, lost, b);
        assert Connect(jx, b) == Connect(ix, b).(utxos := Connect(ix, b).utxos - lost1);
        ConnectAllWithout(Connect(ix, b), lost1, rest);
      } else {
        ConnectAllDiffers(ix, jx, branch);
      }
    }
  }

  // ---------- a whole reorganisation ----------

  /** Leaves one branch and enters another. */
  function Reorganise(ix: Index, left: seq<Block>, entered: seq<Block>): Index {
    ConnectAll(DisconnectAll(ix, left), entered)
  }

  /** A reorganisation from the branch `left` to the branch `entered`, both grown on `ix`, ends
      in the index of a fresh ingest of the entered chain exactly when every outpoint of `ix` that
      the left branch overwrites before spending it, the entered branch does too. For the table
      of unspent outputs alone it is enough, and needed, that the entered branch touches them. */
  lemma ReorganiseExact(ix: Index, left: seq<Block>, entered: seq<Block>)
    requires DistinctHashes(left) && Unlogged(ix, left)
    requires DistinctHashes(entered) && Unlogged(ix, entered)
    ensures Reorganise(ConnectAll(ix, left), left, entered) == ConnectAll(ix, entered)
       <==> OverwritesAll(Lost(ix.utxos.Keys, left), entered)
    ensures Reorganise(ConnectAll(ix, left), left, entered).utxos == ConnectAll(ix, entered).utxos
       <==> forall o :: o in Lost(ix.utxos.Keys, left) ==> FirstTouch(o, entered) != Untouched
  {
    var lost := Lost(ix.utxos.Keys, left);
    RollbackExact(ix, left);
    ConnectAllWithout(ix, lost, entered);
    ConnectAllWithoutTable(ix.(utxos := ix.utxos - lost), ix, lost, entered);
  }

  /** Every block of the branch creates only outpoints that the table it meets does not hold. */
  predicate FreshAlong(ix: Index, branch: seq<Block>)
    decreases branch
  {
    branch == [] || (CreatedBy(branch[0].txs) !! ix.utxos.Keys && FreshAlong(Connect(ix, branch[0]), branch[1..]))
  }

  lemma {:induction false} FreshLosesNothing(ix: Index, branch: seq<Block>)
    requires FreshAlong(ix, branch)
    ensures Lost(ix.utxos.Keys, branch) == {}
    decreases branch
  {
    if branch != [] {
      FreshLosesNothing(Connect(ix, branch[0]), branch[1..]);
      ConnectShape(ix.utxos, branch[0].height, branch[0].txs);
      forall o | o in ix.utxos ensures FirstTouch(o, branch) != Overwrites {
        FirstTouchStep(o, branch);
        if o !in Touched(branch[0].txs) { assert o !in Lost(Connect(ix, branch[0]).utxos.Keys, branch[1..]); }
      }
    }
  }
}
