/** What the mempool and the watchtower cascade keep: the two-way index, the replacement order,
    finality, validity of entries, the towers' cover, and the count of interventions. */
module Cascade {
  import opened Ledger
  import opened Validation
  import opened Pool

  ghost predicate Spends(s: PoolState, id: TxId, o: Outpoint) {
    id in s.entries && o in Prevs(s.entries[id].tx.inputs)
  }

  ghost predicate Holds(s: PoolState, o: Outpoint, id: TxId) {
    o in s.spentBy && s.spentBy[o] == id
  }

  /** The index names a transaction for an outpoint exactly when that transaction is an entry
      with this outpoint among its inputs. */
  ghost predicate Indexed(s: PoolState) {
    && (forall id :: id in s.entries ==> id == IdOf(s.entries[id].tx))
    && (forall o, id :: Holds(s, o, id) <==> Spends(s, id, o))
  }

  /** Consequence of the index: no two entries share an input. */
  lemma EntriesAreDisjoint(s: PoolState, a: TxId, b: TxId)
    requires Indexed(s) && a in s.entries && b in s.entries && a != b
    ensures Prevs(s.entries[a].tx.inputs) !! Prevs(s.entries[b].tx.inputs)
  {
    forall o | o in Prevs(s.entries[a].tx.inputs) ensures o !in Prevs(s.entries[b].tx.inputs) {
      assert Spends(s, a, o) && Holds(s, o, a);
      assert Spends(s, b, o) <==> Holds(s, o, b);
    }
  }

  lemma InsertKeepsIndexed(s: PoolState, tx: Tx, fee: int)
    requires Indexed(s) && IdOf(tx) !in s.entries
    requires forall o :: o in Prevs(tx.inputs) ==> o !in s.spentBy
    ensures Indexed(Insert(s, tx, fee))
  {
    var s1 := Insert(s, tx, fee);
    forall o, id ensures Holds(s1, o, id) <==> Spends(s1, id, o) {
      assert Holds(s, o, id) <==> Spends(s, id, o);
    }
  }

  lemma EvictKeepsIndexed(s: PoolState, id: TxId)
    requires Indexed(s)
    ensures Indexed(Evict(s, id))
  {
    if id in s.entries {
      var s1 := Evict(s, id);
      forall o, x ensures Holds(s1, o, x) <==> Spends(s1, x, o) {
        assert Holds(s, o, x) <==> Spends(s, x, o);
        assert Holds(s, o, id) <==> Spends(s, id, o);
      }
    }
  }

  lemma {:induction false} EvictAllEntries(s: PoolState, txs: seq<Tx>)
    requires Indexed(s)
    ensures Indexed(EvictAll(s, txs))
    ensures EvictAll(s, txs).entries == s.entries - set t | t in txs :: IdOf(t)
    decreases txs
  {
    if txs != [] {
      EvictKeepsIndexed(s, IdOf(txs[0]));
      EvictAllEntries(Evict(s, IdOf(txs[0])), txs[1..]);
      assert txs == [txs[0]] + txs[1..];
    }
  }

  /** The table on which a submission is inserted: at most one older entry has gone. */
  ghost function Cleared(s: PoolState, tx: Tx): PoolState {
    var clash := Conflicts(s, tx);
    if |clash| == 1 then Evict(s, Only(clash)) else s
  }

  /** The pool just after the submission has taken its place, before the towers see it. */
  ghost function Inserted(s: PoolState, env: Env, tx: Tx): PoolState {
    Insert(Cleared(s, tx), tx, InputSum(env.utxos, tx.inputs) - OutputSum(tx.outputs))
  }

  /** The submission outranks every entry it conflicts with. */
  ghost predicate OutranksAll(s: PoolState, tx: Tx) {
    forall id :: id in Conflicts(s, tx) ==> id in s.entries && Outranks(tx, s.entries[id].tx)
  }

  ghost predicate Inserts(s: PoolState, env: Env, tx: Tx) {
    && IdOf(tx) !in s.entries
    && Valid(env.utxos, env.verify, tx)
    && |Conflicts(s, tx)| <= 1
    && OutranksAll(s, tx)
  }

  lemma ConflictsAreEntries(s: PoolState, tx: Tx)
    requires Indexed(s)
    ensures Conflicts(s, tx) <= s.entries.Keys
    ensures forall o :: o in Prevs(tx.inputs) && o in s.spentBy && s.spentBy[o] != IdOf(tx) ==>
            s.spentBy[o] in Conflicts(s, tx)
  {
    forall id | id in Conflicts(s, tx) ensures id in s.entries {
      var o :| o in Prevs(tx.inputs) && o in s.spentBy && s.spentBy[o] == id;
      assert Holds(s, o, id) <==> Spends(s, id, o);
    }
  }

  /** The conflicts of a new transaction are the entries that share an input with it. */
  lemma ConflictsExactly(s: PoolState, tx: Tx, id: TxId)
    requires Indexed(s) && IdOf(tx) !in s.entries
    ensures id in Conflicts(s, tx) <==>
              && id in s.entries
              && exists i, j :: 0 <= i < |tx.inputs| && 0 <= j < |s.entries[id].tx.inputs|
                             && tx.inputs[i].prev == s.entries[id].tx.inputs[j].prev
  {
    ConflictsAreEntries(s, tx);
    if id in Conflicts(s, tx) {
      var o :| o in Prevs(tx.inputs) && o in s.spentBy && s.spentBy[o] == id;
      assert Holds(s, o, id) <==> Spends(s, id, o);
      assert o in Prevs(s.entries[id].tx.inputs);
    }
    if id in s.entries {
      forall i, j | 0 <= i < |tx.inputs| && 0 <= j < |s.entries[id].tx.inputs|
                    && tx.inputs[i].prev == s.entries[id].tx.inputs[j].prev
        ensures id in Conflicts(s, tx)
      {
        var o := tx.inputs[i].prev;
        assert o in Prevs(s.entries[id].tx.inputs);
        assert Holds(s, o, id) <==> Spends(s, id, o);
      }
    }
  }

  /** What the pool holds once a submission has taken its place: the transaction with its fee and the
      sequence number of each input, and every other entry as before, except those in conflict. */
  lemma EntryOnInsert(s: PoolState, env: Env, tx: Tx)
    requires Indexed(s) && Inserts(s, env, tx)
    ensures var t := Inserted(s, env, tx);
            && t.counts == s.counts && IdOf(tx) in t.entries
            && var e := t.entries[IdOf(tx)];
            && e.tx == tx && e.fee == InputSum(env.utxos, tx.inputs) - OutputSum(tx.outputs)
            && |e.sequences| == |tx.inputs|
            && (forall i :: 0 <= i < |tx.inputs| ==> e.sequences[i] == tx.inputs[i].sequence)
            && (forall id :: id != IdOf(tx) ==>
                (id in t.entries <==> id in s.entries && id !in Conflicts(s, tx))
                && (id in t.entries ==> t.entries[id] == s.entries[id]))
  {
    hide Valid, Outranks, Conflicts, InputSum, OutputSum;
    ClearedEntries(s, tx);
  }

  lemma ClearedEntries(s: PoolState, tx: Tx)
    requires Indexed(s) && |Conflicts(s, tx)| <= 1
    ensures Cleared(s, tx).entries == s.entries - Conflicts(s, tx) && Cleared(s, tx).counts == s.counts
  {
    var clash := Conflicts(s, tx);
    if |clash| == 1 {
      ConflictsAreEntries(s, tx);
      assert clash == {Only(clash)};
      assert Only(clash) in s.entries;
    } else {
      assert clash == {};
    }
  }

  /** The sequence number at an outpoint is that of the last input that names it. */
  lemma SeqAtIsLast(ins: seq<TxIn>, i: nat)
    requires i < |ins| && forall j :: i < j < |ins| ==> ins[j].prev != ins[i].prev
    ensures ins[i].prev in Prevs(ins) && SeqAt(ins, ins[i].prev) == ins[i].sequence
    decreases |ins|
  {
    var n := |ins| - 1;
    if i < n {
      assert ins[..n][i] == ins[i];
      SeqAtIsLast(ins[..n], i);
    }
  }

  /** A submission either leaves the pool as it is, or inserts itself on the cleared pool and
      lets the towers react; it inserts itself exactly when it is new, valid, meets at most one
      older entry and outranks it. */
  lemma AdmitCases(s: PoolState, env: Env, tx: Tx)
    requires WellFormedEnv(env) && Indexed(s)
    ensures Inserts(s, env, tx) ==>
              && Admit(s, env, tx).1 == Judge(env.utxos, env.verify, tx)
              && Admit(s, env, tx).1.Accepted?
              && Admit(s, env, tx).0 == Notify(Inserted(s, env, tx), env, tx, 0)
    ensures !Inserts(s, env, tx) ==> Admit(s, env, tx).0 == s
    ensures !Inserts(s, env, tx) ==> (Admit(s, env, tx).1.Accepted? <==> IdOf(tx) in s.entries)
  {
    var clash := Conflicts(s, tx);
    AcceptedIffValid(env.utxos, env.verify, tx);
    ConflictsAreEntries(s, tx);
    if IdOf(tx) in s.entries {
    } else if clash == {} {
      assert OutranksAll(s, tx);
    } else if |clash| == 1 {
      var older := Only(clash);
      assert older in clash;
      assert OutranksAll(s, tx) <==> Outranks(tx, s.entries[older].tx);
    } else {
      assert |clash| != 0;
    }
  }

  /** The refusals of a submission, in the order in which they are decided. */
  lemma AdmitRefuses(s: PoolState, env: Env, tx: Tx)
    requires WellFormedEnv(env) && Indexed(s)
    ensures IdOf(tx) in s.entries ==> Admit(s, env, tx) == (s, Accepted(0, 0))
    ensures IdOf(tx) !in s.entries && |Conflicts(s, tx)| >= 2 ==> Admit(s, env, tx) == (s, Rejected(MultiConflict))
    ensures IdOf(tx) !in s.entries && |Conflicts(s, tx)| == 1 && !OutranksAll(s, tx)
        ==> Admit(s, env, tx) == (s, Rejected(SequenceNotHigher))
    ensures IdOf(tx) !in s.entries && |Conflicts(s, tx)| <= 1 && OutranksAll(s, tx)
            && Judge(env.utxos, env.verify, tx).Rejected?
        ==> Admit(s, env, tx) == (s, Judge(env.utxos, env.verify, tx))
  {
    var clash := Conflicts(s, tx);
    ConflictsAreEntries(s, tx);
    assert |clash| == 0 <==> clash == {};
    if |clash| == 1 {
      var older := Only(clash);
      assert older in clash;
      assert OutranksAll(s, tx) <==> Outranks(tx, s.entries[older].tx);
    }
  }

  lemma EmptyIsIndexed(counts: seq<nat>)
    ensures Indexed(PoolState(map[], map[], counts))
  {
    var s := PoolState(map[], map[], counts);
    assert forall o, id :: !Holds(s, o, id) && !Spends(s, id, o);
  }

  lemma ClearedFrees(s: PoolState, tx: Tx)
    requires Indexed(s) && |Conflicts(s, tx)| <= 1 && IdOf(tx) !in s.entries
    ensures Indexed(Cleared(s, tx)) && IdOf(tx) !in Cleared(s, tx).entries
    ensures forall o :: o in Prevs(tx.inputs) ==> o !in Cleared(s, tx).spentBy
  {
    var clash, s1 := Conflicts(s, tx), Cleared(s, tx);
    if |clash| == 1 { EvictKeepsIndexed(s, Only(clash)); } else { assert clash == {}; }
    ConflictsAreEntries(s, tx);
    forall o | o in Prevs(tx.inputs) ensures o !in s1.spentBy {
      if o in s.spentBy {
        assert Holds(s, o, s.spentBy[o]) && Spends(s, s.spentBy[o], o);
        assert s.spentBy[o] in clash;
      }
    }
  }

  lemma ClearedKeepsIndexed(s: PoolState, env: Env, tx: Tx)
    requires Indexed(s) && Inserts(s, env, tx)
    ensures Indexed(Cleared(s, tx))
    ensures IdOf(tx) !in Cleared(s, tx).entries
    ensures forall o :: o in Prevs(tx.inputs) ==> o !in Cleared(s, tx).spentBy
    ensures Indexed(Inserted(s, env, tx))
  {
    hide Valid, Outranks, SeqAt;
    var s1 := Cleared(s, tx);
    ClearedFrees(s, tx);
    InsertKeepsIndexed(s1, tx, InputSum(env.utxos, tx.inputs) - OutputSum(tx.outputs));
  }

  // ---------- what every step keeps ----------

  /** Settles for good: every input carries the final sequence number. */
  ghost predicate IsFinal(tx: Tx) {
    forall i :: 0 <= i < |tx.inputs| ==> tx.inputs[i].sequence == FINAL_SEQUENCE
  }

  ghost predicate ValidEntry(e: Entry, env: Env) {
    && Valid(env.utxos, env.verify, e.tx)
    && e.fee == InputSum(env.utxos, e.tx.inputs) - OutputSum(e.tx.outputs)
  }

  /** From `s` to `t` the index holds, final entries stay, new entries are valid, and counts
      only grow. */
  ghost predicate Evolves(s: PoolState, t: PoolState, env: Env) {
    && Indexed(t)
    && (forall id :: id in s.entries && IsFinal(s.entries[id].tx) ==> id in t.entries)
    && (forall id :: id in t.entries ==>
        (id in s.entries && t.entries[id] == s.entries[id]) || ValidEntry(t.entries[id], env))
    && |t.counts| == |s.counts|
    && (forall i :: 0 <= i < |s.counts| ==> s.counts[i] <= t.counts[i])
  }

  lemma EvolvesTransitive(s: PoolState, t: PoolState, u: PoolState, env: Env)
    requires Indexed(s) && Evolves(s, t, env) && Evolves(t, u, env)
    ensures Evolves(s, u, env)
  {
    forall id | id in s.entries && IsFinal(s.entries[id].tx) ensures id in u.entries {
      assert id in t.entries && id.tx == t.entries[id].tx;
    }
  }

  /** The holder's sequence number at an outpoint; it can be read off the holder's identifier. */
  ghost function HolderSeq(s: PoolState, o: Outpoint): Sequence
    requires Indexed(s) && o in s.spentBy
  {
    assert Holds(s, o, s.spentBy[o]);
    assert Spends(s, s.spentBy[o], o);
    SeqAt(s.entries[s.spentBy[o]].tx.inputs, o)
  }

  ghost predicate SameHolder(s: PoolState, t: PoolState, o: Outpoint) {
    o in s.spentBy && o in t.spentBy && t.spentBy[o] == s.spentBy[o]
  }

  /** The holder of `o` has a sequence number of at least that of some input of `tx` at `o`. */
  ghost predicate AtLeast(t: PoolState, tx: Tx, o: Outpoint)
    requires Indexed(t) && o in t.spentBy
  {
    exists k :: 0 <= k < |tx.inputs| && tx.inputs[k].prev == o && tx.inputs[k].sequence <= HolderSeq(t, o)
  }

  /** Holders change only at inputs of `tx`, and only to sequence numbers at least as high. */
  ghost predicate Raised(s: PoolState, t: PoolState, tx: Tx)
    requires Indexed(t)
  {
    forall o :: o in t.spentBy ==> SameHolder(s, t, o) || AtLeast(t, tx, o)
  }

  /** The transaction is the current state in some online tower's record. */
  ghost predicate IsRecorded(env: Env, tx: Tx) {
    exists i, c :: 0 <= i < |env.towers| && c in env.towers[i] && env.towers[i][c].current == tx
  }

  /** Entries come from the pool before, from the submission, or from the towers' records. */
  ghost predicate Sourced(s: PoolState, t: PoolState, env: Env, tx: Tx) {
    forall id :: id in t.entries ==> id in s.entries || id == IdOf(tx) || (id.IdOf? && IsRecorded(env, id.tx))
  }

  lemma SameHolderSameSeq(s: PoolState, t: PoolState, o: Outpoint)
    requires Indexed(s) && Indexed(t) && SameHolder(s, t, o)
    ensures HolderSeq(s, o) == HolderSeq(t, o)
  {
    assert Holds(s, o, s.spentBy[o]) && Holds(t, o, t.spentBy[o]);
    assert Spends(s, s.spentBy[o], o) && Spends(t, t.spentBy[o], o);
  }

  lemma RaisedTransitive(s: PoolState, t: PoolState, u: PoolState, tx: Tx)
    requires Indexed(s) && Indexed(t) && Indexed(u) && Raised(s, t, tx) && Raised(t, u, tx)
    ensures Raised(s, u, tx)
  {
    forall o | o in u.spentBy && !SameHolder(s, u, o) ensures AtLeast(u, tx, o) {
      if SameHolder(t, u, o) {
        SameHolderSameSeq(t, u, o);
        assert AtLeast(t, tx, o);
      }
    }
  }

  lemma {:induction false} SeqAtIsSome(ins: seq<TxIn>, o: Outpoint) returns (k: nat)
    requires o in Prevs(ins)
    ensures k < |ins| && ins[k].prev == o && ins[k].sequence == SeqAt(ins, o)
  {
    var n := |ins| - 1;
    if ins[n].prev == o { k := n; }
    else {
      var i :| 0 <= i < |ins| && ins[i].prev == o;
      assert ins[..n][i].prev == o;
      k := SeqAtIsSome(ins[..n], o);
    }
  }

  /** The entry evicted for a submission is never a final one. */
  lemma ClearedKeepsFinal(s: PoolState, env: Env, tx: Tx, id: TxId)
    requires Indexed(s) && Inserts(s, env, tx) && id in s.entries && IsFinal(s.entries[id].tx)
    ensures id in Cleared(s, tx).entries
  {
    var clash := Conflicts(s, tx);
    if |clash| == 1 && id == Only(clash) {
      assert id in clash;
      var o :| o in Prevs(tx.inputs) && o in s.spentBy && s.spentBy[o] == id;
      assert Holds(s, o, id) && Spends(s, id, o);
      FinalOutranksAll(tx, s.entries[id].tx, o);
    }
  }

  /** Inserting a transaction: it becomes the holder of all its inputs, and the rest stays. */
  lemma InsertionEvolves(s: PoolState, env: Env, tx: Tx)
    requires Indexed(s) && Inserts(s, env, tx)
    ensures Evolves(s, Inserted(s, env, tx), env)
  {
    ClearedKeepsIndexed(s, env, tx);
    forall id | id in s.entries && IsFinal(s.entries[id].tx) ensures id in Inserted(s, env, tx).entries {
      ClearedKeepsFinal(s, env, tx, id);
    }
  }

  lemma InsertionRaises(s: PoolState, env: Env, tx: Tx)
    requires Indexed(s) && Inserts(s, env, tx)
    ensures var t := Inserted(s, env, tx);
            && Indexed(t) && Raised(s, t, tx)
            && (forall o :: o in Prevs(tx.inputs) ==> o in t.spentBy && AtLeast(t, tx, o))
  {
    ClearedKeepsIndexed(s, env, tx);
    var t := Inserted(s, env, tx);
    forall o | o in Prevs(tx.inputs) ensures o in t.spentBy && AtLeast(t, tx, o) {
      assert Holds(t, o, IdOf(tx));
      var k := SeqAtIsSome(tx.inputs, o);
    }
    forall o | o in t.spentBy && o !in Prevs(tx.inputs) ensures SameHolder(s, t, o) {}
  }

  lemma FinalOutranksAll(tx: Tx, older: Tx, o: Outpoint)
    requires o in Prevs(tx.inputs) && o in Prevs(older.inputs) && Outranks(tx, older)
    ensures !IsFinal(older)
  {
    var i :| 0 <= i < |tx.inputs| && tx.inputs[i].prev == o;
    var k := SeqAtIsSome(older.inputs, o);
    assert tx.inputs[i].sequence > older.inputs[k].sequence;
  }

  /** A nested submission answers one input of the observed transaction. */
  lemma AnswerRaises(s: PoolState, t: PoolState, env: Env, tx: Tx, i: nat, j: nat)
    requires WellFormedEnv(env) && i < |env.towers| && j < |tx.inputs| && Stale(env, i, tx, j)
    requires Indexed(s) && Indexed(t) && Raised(s, t, env.towers[i][tx.inputs[j].prev.txid].current)
    ensures Raised(s, t, tx)
  {
    var current := env.towers[i][tx.inputs[j].prev.txid].current;
    assert WellFormedRecord(tx.inputs[j].prev.txid, env.towers[i][tx.inputs[j].prev.txid]);
    forall o | o in t.spentBy && !SameHolder(s, t, o) ensures AtLeast(t, tx, o) {
      assert AtLeast(t, current, o);
      assert tx.inputs[j].prev == o;
    }
  }

  lemma CountedEvolves(s: PoolState, t: PoolState, env: Env, tx: Tx, i: nat)
    requires Indexed(s) && Evolves(s, t, env) && Raised(s, t, tx)
    ensures Evolves(s, Counted(t, i), env) && Raised(s, Counted(t, i), tx)
  {
    var u := Counted(t, i);
    assert forall o, id :: (Holds(u, o, id) <==> Holds(t, o, id)) && (Spends(u, id, o) <==> Spends(t, id, o));
    forall o | o in u.spentBy && !SameHolder(s, u, o) ensures AtLeast(u, tx, o) {
      assert AtLeast(t, tx, o) && HolderSeq(t, o) == HolderSeq(u, o);
    }
  }

  /** Submissions keep the index, finality and validity, and raise sequence numbers. */
  lemma {:induction false} AdmitEvolves(s: PoolState, env: Env, tx: Tx)
    requires WellFormedEnv(env) && Indexed(s)
    ensures Evolves(s, Admit(s, env, tx).0, env) && Raised(s, Admit(s, env, tx).0, tx)
            && Sourced(s, Admit(s, env, tx).0, env, tx)
    decreases Measure(tx), 2, 0
  {
    AdmitCases(s, env, tx);
    if Inserts(s, env, tx) {
      var t := Inserted(s, env, tx);
      InsertionEvolves(s, env, tx);
      InsertionRaises(s, env, tx);
      NotifyEvolves(t, env, tx, 0);
      EvolvesTransitive(s, t, Admit(s, env, tx).0, env);
      RaisedTransitive(s, t, Admit(s, env, tx).0, tx);
    }
  }

  lemma {:induction false} NotifyEvolves(s: PoolState, env: Env, tx: Tx, i: nat)
    requires WellFormedEnv(env) && Indexed(s)
    ensures Evolves(s, Notify(s, env, tx, i), env) && Raised(s, Notify(s, env, tx, i), tx)
            && Sourced(s, Notify(s, env, tx, i), env, tx)
    decreases Measure(tx), 1, |env.towers| - i
  {
    if i < |env.towers| {
      var t := Observe(s, env, tx, i, 0);
      ObserveEvolves(s, env, tx, i, 0);
      NotifyEvolves(t, env, tx, i + 1);
      EvolvesTransitive(s, t, Notify(t, env, tx, i + 1), env);
      RaisedTransitive(s, t, Notify(t, env, tx, i + 1), tx);
    }
  }

  lemma {:induction false} ObserveEvolves(s: PoolState, env: Env, tx: Tx, i: nat, j: nat)
    requires WellFormedEnv(env) && Indexed(s) && i < |env.towers|
    ensures Evolves(s, Observe(s, env, tx, i, j), env) && Raised(s, Observe(s, env, tx, i, j), tx)
            && Sourced(s, Observe(s, env, tx, i, j), env, tx)
    decreases Measure(tx), 0, |tx.inputs| - j
  {
    if j < |tx.inputs| {
      if !Stale(env, i, tx, j) {
        ObserveEvolves(s, env, tx, i, j + 1);
      } else {
        var current := env.towers[i][tx.inputs[j].prev.txid].current;
        var (s1, v) := Admit(s, env, current);
        var s2 := if v.Accepted? then Counted(s1, i) else s1;
        AdmitEvolves(s, env, current);
        AnswerRaises(s, s1, env, tx, i, j);
        assert IsRecorded(env, current);
        CountedEvolves(s, s1, env, tx, i);
        ObserveEvolves(s2, env, tx, i, j + 1);
        EvolvesTransitive(s, s2, Observe(s2, env, tx, i, j + 1), env);
        RaisedTransitive(s, s2, Observe(s2, env, tx, i, j + 1), tx);
      }
    }
  }

  /** An outpoint that is held before and after a submission, whole cascade included, keeps its
      holder or passes to one with a strictly higher sequence number. */
  lemma SequencesNeverFall(s: PoolState, env: Env, tx: Tx, o: Outpoint)
    requires WellFormedEnv(env) && Indexed(s)
    ensures var t := Admit(s, env, tx).0;
            Indexed(t) && (o in s.spentBy && o in t.spentBy ==>
                           SameHolder(s, t, o) || HolderSeq(s, o) < HolderSeq(t, o))
  {
    AdmitEvolves(s, env, tx);
    AdmitCases(s, env, tx);
    var t := Admit(s, env, tx).0;
    if o in s.spentBy && o in t.spentBy && !SameHolder(s, t, o) {
      assert AtLeast(t, tx, o);
      assert Holds(s, o, s.spentBy[o]) && Spends(s, s.spentBy[o], o);
      ConflictsAreEntries(s, tx);
      assert Outranks(tx, s.entries[s.spentBy[o]].tx);
    }
  }

  // ---------- counting is no business of the pool's ----------

  /** The pool without its tally of interventions. */
  function Untallied(s: PoolState): PoolState {
    s.(counts := [])
  }

  /** Admission does not depend on the tally. */
  lemma {:induction false} AdmitUntallied(s: PoolState, env: Env, tx: Tx)
    requires WellFormedEnv(env)
    ensures Admit(Untallied(s), env, tx) == (Untallied(Admit(s, env, tx).0), Admit(s, env, tx).1)
    decreases Measure(tx), 2, 0
  {
    var clash, v := Conflicts(s, tx), Judge(env.utxos, env.verify, tx);
    assert Conflicts(Untallied(s), tx) == clash;
    if IdOf(tx) !in s.entries && v.Accepted? {
      if clash == {} {
        NotifyUntallied(Insert(s, tx, v.Fee()), env, tx, 0);
      } else if |clash| == 1 {
        NotifyUntallied(Insert(Evict(s, Only(clash)), tx, v.Fee()), env, tx, 0);
      }
    }
  }

  lemma {:induction false} NotifyUntallied(s: PoolState, env: Env, tx: Tx, i: nat)
    requires WellFormedEnv(env)
    ensures Notify(Untallied(s), env, tx, i) == Untallied(Notify(s, env, tx, i))
    decreases Measure(tx), 1, |env.towers| - i
  {
    if i < |env.towers| {
      ObserveUntallied(s, env, tx, i, 0);
      NotifyUntallied(Observe(s, env, tx, i, 0), env, tx, i + 1);
    }
  }

  lemma {:induction false} ObserveUntallied(s: PoolState, env: Env, tx: Tx, i: nat, j: nat)
    requires WellFormedEnv(env) && i < |env.towers|
    ensures Observe(Untallied(s), env, tx, i, j) == Untallied(Observe(s, env, tx, i, j))
    decreases Measure(tx), 0, |tx.inputs| - j
  {
    if j < |tx.inputs| {
      if !Stale(env, i, tx, j) {
        ObserveUntallied(s, env, tx, i, j + 1);
      } else {
        var o := tx.inputs[j].prev;
        var current := env.towers[i][o.txid].current;
        assert WellFormedRecord(o.txid, env.towers[i][o.txid]);
        AdmitUntallied(s, env, current);
        var (s1, v) := Admit(s, env, current);
        ObserveUntallied(if v.Accepted? then Counted(s1, i) else s1, env, tx, i, j + 1);
      }
    }
  }

  lemma {:induction false} EvictAllUntallied(s: PoolState, txs: seq<Tx>)
    ensures EvictAll(Untallied(s), txs) == Untallied(EvictAll(s, txs))
    decreases txs
  {
    if txs != [] { EvictAllUntallied(Evict(s, IdOf(txs[0])), txs[1..]); }
  }
}
