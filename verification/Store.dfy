/** The block and output store as the program keeps it, and transaction validation against it. */
module Store {
  import opened Ledger
  import opened Validation

  datatype StoredBlock = StoredBlock(header: RawHeader, height: int, txs: seq<Tx>)

  class BlockStore {
    var utxos: Table
    var blocks: map<BlockHash, StoredBlock>

    constructor ()
      ensures utxos == map[] && blocks == map[]
    {
      utxos, blocks := map[], map[];
    }

    ghost function Bodies(): map<BlockHash, seq<Tx>>
      reads this
    {
      map h | h in blocks :: blocks[h].txs
    }

    method StoreBlock(h: BlockHash, height: int, header: RawHeader, txs: seq<Tx>)
      modifies this`blocks
      ensures blocks == old(blocks)[h := StoredBlock(header, height, txs)]
    {
      blocks := blocks[h := StoredBlock(header, height, txs)];
    }

    method GetBlock(h: BlockHash) returns (r: Option<StoredBlock>)
      ensures r == if h in blocks then Some(blocks[h]) else None
    {
      r := if h in blocks then Some(blocks[h]) else None;
    }

    method AddUtxo(o: Outpoint, entry: Utxo)
      modifies this`utxos
      ensures utxos == old(utxos)[o := entry]
    {
      utxos := utxos[o := entry];
    }

    method SpendUtxo(o: Outpoint) returns (r: Option<Utxo>)
      modifies this`utxos
      ensures utxos == old(utxos) - {o}
      ensures r == if o in old(utxos) then Some(old(utxos)[o]) else None
    {
      if o !in utxos { return None; }
      r := Some(utxos[o]);
      utxos := utxos - {o};
    }

    method GetUtxo(o: Outpoint) returns (r: Option<Utxo>)
      ensures r == if o in utxos then Some(utxos[o]) else None
    {
      r := if o in utxos then Some(utxos[o]) else None;
    }

    /** Deletes the outputs that the inputs name. */
    method DeleteInputs(ins: seq<TxIn>)
      modifies this`utxos
      ensures utxos == old(utxos) - Prevs(ins)
    {
      for j := 0 to |ins|
        invariant utxos == old(utxos) - Prevs(ins[..j])
      {
        utxos := utxos - {ins[j].prev};
        PrevsStep(ins, j);
      }
      assert ins[..|ins|] == ins;
    }

    /** Adds or replaces one row for each output. */
    method InsertOutputs(tx: Tx, height: int)
      modifies this`utxos
      ensures utxos == old(utxos) + NewEntries(tx, height)
    {
      ghost var rows := NewEntries(tx, height);
      for j := 0 to |tx.outputs|
        invariant utxos == old(utxos) + FirstEntries(tx, height, j)
      {
        FirstEntriesStep(old(utxos), tx, height, j);
        utxos := utxos[Outpoint(IdOf(tx), j) := Utxo(tx.outputs[j].value, tx.outputs[j].script, height)];
      }
      assert FirstEntries(tx, height, |tx.outputs|) == rows;
    }

    method ConnectBlockUtxos(height: int, txs: seq<Tx>)
      modifies this`utxos
      ensures utxos == ConnectBlock(old(utxos), height, txs)
    {
      for i := 0 to |txs|
        invariant utxos == ConnectBlock(old(utxos), height, txs[..i])
      {
        assert txs[..i + 1][..i] == txs[..i];
        if !IsCoinbase(txs[i]) { DeleteInputs(txs[i].inputs); }
        InsertOutputs(txs[i], height);
      }
      assert txs[..|txs|] == txs;
    }

    method DeleteOutputs(tx: Tx)
      modifies this`utxos
      ensures utxos == old(utxos) - Created(tx)
    {
      for j := 0 to |tx.outputs|
        invariant utxos == old(utxos) - set k: nat | k < j :: Outpoint(IdOf(tx), k)
      {
        utxos := utxos - {Outpoint(IdOf(tx), j)};
      }
    }

    method InsertRows(rows: Table)
      modifies this`utxos
      ensures utxos == old(utxos) + rows
    {
      var pending := rows.Keys;
      while pending != {}
        invariant pending <= rows.Keys
        invariant utxos == old(utxos) + (rows - pending)
      {
        var o :| o in pending;
        utxos := utxos[o := rows[o]];
        pending := pending - {o};
      }
      assert rows - {} == rows;
    }

    /** The disconnection that the program does not use: it is given the spent outputs as a table. */
    method DisconnectBlockUtxos(txs: seq<Tx>, spentInputs: Table)
      modifies this`utxos
      ensures utxos == (old(utxos) - CreatedBy(txs)) + spentInputs
    {
      for i := 0 to |txs|
        invariant utxos == old(utxos) - CreatedBy(txs[..i])
      {
        TouchedStep(txs[..i + 1]);
        assert txs[..i + 1][..i] == txs[..i];
        DeleteOutputs(txs[i]);
      }
      assert txs[..|txs|] == txs;
      InsertRows(spentInputs);
    }
  }

  /** Given what the block's inputs consumed, `DisconnectBlockUtxos` leaves the same table as the
      log-driven disconnection. */
  lemma DisconnectionsAgree(w: Table, u: Table, txs: seq<Tx>, spentInputs: Table)
    requires spentInputs == Restrict(u, Outpoints(UndoLog(u, txs)))
    ensures (w - CreatedBy(txs)) + spentInputs == Restored(w - SetOf(CreatedLog(txs)), UndoLog(u, txs))
  {
    UndoShape(w, u, txs);
    UndoLogRecords(u, txs);
    assert spentInputs == Restrict(u, SpentBy(txs));
  }

  // ---------- validation ----------

  method ValidateTx(tx: Tx, store: BlockStore, verify: Interpreter) returns (v: Verdict)
    ensures v == Judge(store.utxos, verify, tx)
  {
    if IsCoinbase(tx) { return Rejected(CoinbaseRefused); }
    var totalOut := 0;
    for i := 0 to |tx.outputs|
      invariant forall k :: 0 <= k < i ==> tx.outputs[k].value >= 0
      invariant totalOut == OutputSum(tx.outputs[..i])
    {
      if tx.outputs[i].value < 0 { return Rejected(NegativeOutput); }
      assert tx.outputs[..i + 1][..i] == tx.outputs[..i];
      totalOut := totalOut + tx.outputs[i].value;
    }
    var totalIn := 0;
    for i := 0 to |tx.inputs|
      invariant FirstFailure(store.utxos, verify, tx, 0) == FirstFailure(store.utxos, verify, tx, i)
      invariant totalIn == InputSum(store.utxos, tx.inputs[..i])
    {
      var entry := store.GetUtxo(tx.inputs[i].prev);
      if entry == None { return Rejected(UtxoNotFound(i)); }
      if !verify(tx, i, TxOut(entry.value.value, entry.value.script)) { return Rejected(ScriptRejected(i)); }
      assert tx.inputs[..i + 1][..i] == tx.inputs[..i];
      totalIn := totalIn + entry.value.value;
    }
    assert tx.inputs[..|tx.inputs|] == tx.inputs && tx.outputs[..|tx.outputs|] == tx.outputs;
    if totalIn < totalOut { return Rejected(InputsBelowOutputs); }
    return Accepted(totalIn, totalOut);
  }
}
