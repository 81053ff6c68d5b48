/** Transactions, identifiers, and the table of unspent outputs.

    Hashes are modelled as free constructors over what they commit to: a transaction
    id is `IdOf(tx)` and a block hash is `HashOf(header)`. Both are injective and
    otherwise opaque, which is all the program relies on. */
module Ledger {

  newtype byte = x: int | 0 <= x < 256
  type Bytes = seq<byte>

  /** A script is the list of its opcodes and data pushes; only its identity matters here. */
  datatype Item = Op(code: byte) | Push(data: Bytes)
  type Script = seq<Item>

  const FINAL_SEQUENCE: nat := 0xFFFFFFFF
  type Sequence = n: nat | n <= 0xFFFFFFFF

  datatype TxId = NullId | IdOf(tx: Tx)
  datatype Outpoint = Outpoint(txid: TxId, vout: nat)
  datatype TxIn = TxIn(prev: Outpoint, scriptSig: Script, sequence: Sequence)
  datatype TxOut = TxOut(value: int, script: Script)
  datatype Tx = Tx(inputs: seq<TxIn>, outputs: seq<TxOut>, locktime: nat)

  const COINBASE_PREV: Outpoint := Outpoint(NullId, 0xFFFFFFFF)

  predicate IsCoinbase(tx: Tx) {
    |tx.inputs| > 0 && tx.inputs[0].prev == COINBASE_PREV
  }

  datatype Digest = ZeroDigest | Leaf(txid: TxId) | Pair(left: Digest, right: Digest)
  datatype BlockHash = ZeroHash | HashOf(header: RawHeader)
  datatype RawHeader =
    RawHeader(version: int, prev: BlockHash, merkleRoot: Digest, timestamp: nat, bits: nat, nonce: nat)

  datatype Result<+T, +E> = Ok(value: T) | Err(error: E)
  datatype Option<+T> = None | Some(value: T)

  // ---------- the table of unspent outputs ----------

  datatype Utxo = Utxo(value: int, script: Script, height: int)
  type Table = map<Outpoint, Utxo>

  /** The outpoints named by a list of inputs. */
  function Prevs(ins: seq<TxIn>): set<Outpoint> {
    set i | 0 <= i < |ins| :: ins[i].prev
  }

  lemma PrevsStep(ins: seq<TxIn>, j: nat)
    requires j < |ins|
    ensures Prevs(ins[..j + 1]) == Prevs(ins[..j]) + {ins[j].prev}
  {
    forall o | o in Prevs(ins[..j]) + {ins[j].prev} ensures o in Prevs(ins[..j + 1]) {
      if o in Prevs(ins[..j]) {
        var i :| 0 <= i < j && ins[..j][i].prev == o;
        assert ins[..j + 1][i].prev == o;
      } else {
        assert ins[..j + 1][j].prev == o;
      }
    }
    forall o | o in Prevs(ins[..j + 1]) ensures o in Prevs(ins[..j]) + {ins[j].prev} {
      var i :| 0 <= i < j + 1 && ins[..j + 1][i].prev == o;
      if i < j { assert ins[..j][i].prev == o; }
    }
  }

  /** The outpoints a transaction removes from the table: a coinbase removes none. */
  function Spent(tx: Tx): set<Outpoint> {
    if IsCoinbase(tx) then {} else Prevs(tx.inputs)
  }

  /** The outpoints a transaction puts into the table. */
  function Created(tx: Tx): set<Outpoint> {
    set i: nat | i < |tx.outputs| :: Outpoint(IdOf(tx), i)
  }

  /** What a transaction removes and what it puts in: the outpoints its inputs name, unless the first
      of them names no transaction; and one outpoint under its own identifier for every output. */
  lemma TouchesExactly(tx: Tx, o: Outpoint)
    ensures o in Spent(tx) <==>
              && (exists i :: 0 <= i < |tx.inputs| && tx.inputs[i].prev == o)
              && tx.inputs[0].prev != Outpoint(NullId, 0xFFFF_FFFF)
    ensures o in Created(tx) <==> o.txid == IdOf(tx) && o.vout < |tx.outputs|
  {
  }

  function NewEntries(tx: Tx, height: int): Table {
    map o | o in Created(tx) :: Utxo(tx.outputs[o.vout].value, tx.outputs[o.vout].script, height)
  }

  /** The entries of the first `j` outputs only. */
  ghost function FirstEntries(tx: Tx, height: int, j: nat): Table {
    map o | o in NewEntries(tx, height) && o.vout < j :: NewEntries(tx, height)[o]
  }

  lemma FirstEntriesStep(u: Table, tx: Tx, height: int, j: nat)
    requires j < |tx.outputs|
    ensures u + FirstEntries(tx, height, j + 1)
         == (u + FirstEntries(tx, height, j))[
              Outpoint(IdOf(tx), j) := Utxo(tx.outputs[j].value, tx.outputs[j].script, height)]
  {
  }

  function SpentBy(txs: seq<Tx>): set<Outpoint> {
    set i, o | 0 <= i < |txs| && o in Spent(txs[i]) :: o
  }

  function CreatedBy(txs: seq<Tx>): set<Outpoint> {
    set i, o | 0 <= i < |txs| && o in Created(txs[i]) :: o
  }

  function Touched(txs: seq<Tx>): set<Outpoint> {
    SpentBy(txs) + CreatedBy(txs)
  }

  function ConnectTx(u: Table, height: int, tx: Tx): Table {
    (u - Spent(tx)) + NewEntries(tx, height)
  }

  /** The table after a block: its transactions one after the other, in block order. */
  function ConnectBlock(u: Table, height: int, txs: seq<Tx>): Table {
    if txs == [] then u
    else ConnectTx(ConnectBlock(u, height, txs[..|txs| - 1]), height, txs[|txs| - 1])
  }

  function Restrict(u: Table, keys: set<Outpoint>): Table {
    map o | o in u && o in keys :: u[o]
  }

  lemma TouchedStep(txs: seq<Tx>)
    requires txs != []
    ensures var n := |txs| - 1;
            && SpentBy(txs) == SpentBy(txs[..n]) + Spent(txs[n])
            && CreatedBy(txs) == CreatedBy(txs[..n]) + Created(txs[n])
  {
    var n := |txs| - 1;
    forall o | o in SpentBy(txs) ensures o in SpentBy(txs[..n]) + Spent(txs[n]) {
      var i :| 0 <= i < |txs| && o in Spent(txs[i]);
      if i < n { assert txs[..n][i] == txs[i]; }
    }
    forall o | o in SpentBy(txs[..n]) ensures o in SpentBy(txs) {
      var i :| 0 <= i < n && o in Spent(txs[..n][i]);
      assert txs[..n][i] == txs[i];
    }
    forall o | o in CreatedBy(txs) ensures o in CreatedBy(txs[..n]) + Created(txs[n]) {
      var i :| 0 <= i < |txs| && o in Created(txs[i]);
      if i < n { assert txs[..n][i] == txs[i]; }
    }
    forall o | o in CreatedBy(txs[..n]) ensures o in CreatedBy(txs) {
      var i :| 0 <= i < n && o in Created(txs[..n][i]);
      assert txs[..n][i] == txs[i];
    }
  }

  lemma StepShape(u: Table, e: Table, touched: set<Outpoint>, spent: set<Outpoint>, made: Table)
    ensures (((u - touched) + e) - spent) + made
         == (u - (touched + spent + made.Keys)) + ((e - spent) + made)
  {
  }

  /** A block acts on the outpoints it touches without looking at the table, and on no others:
      what it leaves at a touched outpoint is what it leaves when run on the empty table. */
  lemma {:induction false} ConnectShape(u: Table, height: int, txs: seq<Tx>)
    ensures ConnectBlock(u, height, txs) == (u - Touched(txs)) + ConnectBlock(map[], height, txs)
    ensures ConnectBlock(map[], height, txs).Keys <= CreatedBy(txs)
  {
    if txs == [] {
      assert Touched(txs) == {};
    } else {
      var n := |txs| - 1;
      var tx := txs[n];
      ConnectShape(u, height, txs[..n]);
      TouchedStep(txs);
      assert Touched(txs) == Touched(txs[..n]) + Spent(tx) + NewEntries(tx, height).Keys;
      StepShape(u, ConnectBlock(map[], height, txs[..n]), Touched(txs[..n]), Spent(tx), NewEntries(tx, height));
    }
  }

  // ---------- undo data ----------

  /** What a block leaves of one outpoint: the transaction that touches it last decides. It is
      there exactly if that transaction creates it, and then with its output; if none touches it,
      it is as before. */
  lemma {:induction false} ConnectExactly(u: Table, height: int, txs: seq<Tx>, o: Outpoint, i: nat)
    requires i <= |txs|
    requires i < |txs| ==> o in Spent(txs[i]) + Created(txs[i])
    requires forall j :: 0 <= j < |txs| && (j > i || i == |txs|) ==> o !in Spent(txs[j]) + Created(txs[j])
    ensures var v := ConnectBlock(u, height, txs);
            if i == |txs| then (o in v <==> o in u) && (o in u ==> v[o] == u[o])
            else
              && (o in v <==> o in Created(txs[i]))
              && (o in v ==> v[o] == Utxo(txs[i].outputs[o.vout].value, txs[i].outputs[o.vout].script, height))
  {
    if txs != [] {
      var n := |txs| - 1;
      if i != n { ConnectExactly(u, height, txs[..n], o, if i == |txs| then n else i); }
    }
  }

  datatype UndoEntry = UndoEntry(outpoint: Outpoint, utxo: Utxo)

  /** What the inputs consume of the table, in input order. */
  function UndoInputs(u: Table, ins: seq<TxIn>): seq<UndoEntry> {
    if ins == [] then []
    else
      var o := ins[|ins| - 1].prev;
      UndoInputs(u, ins[..|ins| - 1]) + if o in u then [UndoEntry(o, u[o])] else []
  }

  /** The undo log of a block, looked up in the table as it is before the block. */
  function UndoLog(u: Table, txs: seq<Tx>): seq<UndoEntry> {
    if txs == [] then []
    else
      var tx := txs[|txs| - 1];
      UndoLog(u, txs[..|txs| - 1]) + if IsCoinbase(tx) then [] else UndoInputs(u, tx.inputs)
  }

  function OutpointsOf(tx: Tx): seq<Outpoint> {
    seq(|tx.outputs|, i requires 0 <= i < |tx.outputs| => Outpoint(IdOf(tx), i))
  }

  function CreatedLog(txs: seq<Tx>): seq<Outpoint> {
    if txs == [] then []
    else CreatedLog(txs[..|txs| - 1]) + OutpointsOf(txs[|txs| - 1])
  }

  function SetOf<T>(s: seq<T>): set<T> {
    set x | x in s
  }

  lemma SetOfAppend<T>(a: seq<T>, b: seq<T>)
    ensures SetOf(a + b) == SetOf(a) + SetOf(b)
  {
  }

  predicate NoRepeats<T(==)>(s: seq<T>) {
    forall i, j :: 0 <= i < j < |s| ==> s[i] != s[j]
  }

  lemma {:induction false} SizeOfSet<T>(s: seq<T>)
    requires NoRepeats(s)
    ensures |SetOf(s)| == |s|
  {
    if s != [] {
      var n := |s| - 1;
      SizeOfSet(s[..n]);
      assert s[n] !in SetOf(s[..n]);
      assert SetOf(s) == SetOf(s[..n]) + {s[n]};
    }
  }

  function Restored(u: Table, undo: seq<UndoEntry>): Table {
    if undo == [] then u
    else
      var e := undo[|undo| - 1];
      Restored(u, undo[..|undo| - 1])[e.outpoint := e.utxo]
  }

  lemma {:induction false} CreatedLogIsCreatedBy(txs: seq<Tx>)
    ensures SetOf(CreatedLog(txs)) == CreatedBy(txs)
  {
    if txs != [] {
      var n := |txs| - 1;
      CreatedLogIsCreatedBy(txs[..n]);
      TouchedStep(txs);
      var tail := OutpointsOf(txs[n]);
      assert SetOf(tail) == Created(txs[n]) by {
        forall o | o in Created(txs[n]) ensures o in tail { assert tail[o.vout] == o; }
      }
      assert forall o :: o in CreatedLog(txs) <==> o in CreatedLog(txs[..n]) || o in tail;
    }
  }

  /** Every entry of the list records the table `u` at its own outpoint. */
  predicate Records(undo: seq<UndoEntry>, u: Table) {
    forall e :: e in undo ==> e.outpoint in u && e.utxo == u[e.outpoint]
  }

  function Outpoints(undo: seq<UndoEntry>): set<Outpoint> {
    set e | e in undo :: e.outpoint
  }

  lemma {:induction false} UndoInputsRecords(u: Table, ins: seq<TxIn>)
    ensures Records(UndoInputs(u, ins), u)
    ensures Outpoints(UndoInputs(u, ins)) == u.Keys * Prevs(ins)
  {
    if ins != [] {
      var n := |ins| - 1;
      UndoInputsRecords(u, ins[..n]);
      assert Prevs(ins) == Prevs(ins[..n]) + {ins[n].prev} by {
        assert forall i :: 0 <= i < n ==> ins[..n][i] == ins[i];
        forall o | o in Prevs(ins) ensures o in Prevs(ins[..n]) + {ins[n].prev} {
          var i :| 0 <= i < |ins| && ins[i].prev == o;
          if i < n { assert ins[..n][i].prev == o; }
        }
        forall o | o in Prevs(ins[..n]) ensures o in Prevs(ins) {
          var i :| 0 <= i < n && ins[..n][i].prev == o;
          assert ins[i].prev == o;
        }
      }
      var tail := if ins[n].prev in u then [UndoEntry(ins[n].prev, u[ins[n].prev])] else [];
      OutpointsAppend(UndoInputs(u, ins[..n]), tail);
      assert Outpoints(tail) == if ins[n].prev in u then {ins[n].prev} else {};
    }
  }

  lemma OutpointsAppend(a: seq<UndoEntry>, b: seq<UndoEntry>)
    ensures Outpoints(a + b) == Outpoints(a) + Outpoints(b)
  {
    forall o | o in Outpoints(a) + Outpoints(b) ensures o in Outpoints(a + b) {
      if o in Outpoints(a) {
        var e :| e in a && e.outpoint == o;
        assert e in a + b;
      } else {
        var e :| e in b && e.outpoint == o;
        assert e in a + b;
      }
    }
  }

  /** The undo log holds exactly the part of the table that the block's inputs name. */
  lemma {:induction false} UndoLogRecords(u: Table, txs: seq<Tx>)
    ensures Records(UndoLog(u, txs), u)
    ensures Outpoints(UndoLog(u, txs)) == u.Keys * SpentBy(txs)
  {
    if txs != [] {
      var n := |txs| - 1;
      UndoLogRecords(u, txs[..n]);
      UndoInputsRecords(u, txs[n].inputs);
      TouchedStep(txs);
      var tail := if IsCoinbase(txs[n]) then [] else UndoInputs(u, txs[n].inputs);
      OutpointsAppend(UndoLog(u, txs[..n]), tail);
      assert Outpoints(tail) == u.Keys * Spent(txs[n]);
    }
  }

  lemma RestrictOneMore(u: Table, v: Table, front: set<Outpoint>, o: Outpoint)
    requires o in v
    ensures (u + Restrict(v, front))[o := v[o]] == u + Restrict(v, front + {o})
  {
  }

  lemma OutpointsStep(undo: seq<UndoEntry>)
    requires undo != []
    ensures Outpoints(undo) == Outpoints(undo[..|undo| - 1]) + {undo[|undo| - 1].outpoint}
  {
    var n := |undo| - 1;
    assert undo == undo[..n] + [undo[n]];
    OutpointsAppend(undo[..n], [undo[n]]);
    assert Outpoints([undo[n]]) == {undo[n].outpoint};
  }

  lemma {:induction false} RestoredShape(u: Table, undo: seq<UndoEntry>, v: Table)
    requires Records(undo, v)
    ensures Restored(u, undo) == u + Restrict(v, Outpoints(undo))
  {
    if undo == [] {
      assert Restrict(v, Outpoints(undo)) == map[];
    } else {
      var n := |undo| - 1;
      assert Records(undo[..n], v) && undo[n] in undo;
      RestoredShape(u, undo[..n], v);
      OutpointsStep(undo);
      hide Restrict, Outpoints;
      RestrictOneMore(u, v, Outpoints(undo[..n]), undo[n].outpoint);
    }
  }

  /** Removing a block's outputs and restoring its undo log, in closed form. */
  lemma UndoShape(w: Table, u: Table, txs: seq<Tx>)
    ensures Restored(w - SetOf(CreatedLog(txs)), UndoLog(u, txs))
         == (w - CreatedBy(txs)) + Restrict(u, SpentBy(txs))
  {
    CreatedLogIsCreatedBy(txs);
    UndoLogRecords(u, txs);
    RestoredShape(w - CreatedBy(txs), UndoLog(u, txs), u);
    assert Restrict(u, Outpoints(UndoLog(u, txs))) == Restrict(u, SpentBy(txs));
  }

  /** Disconnecting a block right after connecting it gives back the table it met exactly when
      the block creates no outpoint already in the table that it does not also spend. */
  lemma DisconnectInvertsConnect(u: Table, height: int, txs: seq<Tx>)
    ensures Restored(ConnectBlock(u, height, txs) - SetOf(CreatedLog(txs)), UndoLog(u, txs)) == u
       <==> u.Keys * CreatedBy(txs) <= SpentBy(txs)
  {
    var w, made, spent := ConnectBlock(u, height, txs), CreatedBy(txs), SpentBy(txs);
    UndoShape(w, u, txs);
    ConnectShape(u, height, txs);
    RoundTripTables(u, w, made, spent);
  }

  /** The round trip on bare tables. */
  lemma RoundTripTables(u: Table, w: Table, made: set<Outpoint>, spent: set<Outpoint>)
    requires forall o :: o !in made && o !in spent ==> (o in w <==> o in u) && (o in u ==> w[o] == u[o])
    requires forall o :: o in w && o in spent ==> o in made
    ensures (w - made) + Restrict(u, spent) == u <==> u.Keys * made <= spent
  {
    var back := (w - made) + Restrict(u, spent);
    assert back.Keys == u.Keys - (made - spent);
    assert forall o :: o in back ==> back[o] == u[o];
  }
}
