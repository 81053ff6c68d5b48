/** The mempool, the towers observing it, and clusters of towers, as the program keeps them.
    Every method is tied to the value-level cascade of module Pool. */
module Watch {
  import opened Ledger
  import opened Validation
  import opened Store
  import opened Pool
  import opened Cascade

  datatype Event = AdmitEvent | ReplaceEvent | EvictEvent
  datatype TowerError = NoRecord | NoForfeit

  class Mempool {
    const store: BlockStore
    const verify: Interpreter
    var entries: map<TxId, Entry>
    var spentBy: map<Outpoint, TxId>
    var observers: seq<Tower>

    constructor (store: BlockStore, verify: Interpreter)
      ensures this.store == store && this.verify == verify
      ensures entries == map[] && spentBy == map[] && observers == []
    {
      this.store, this.verify := store, verify;
      entries, spentBy, observers := map[], map[], [];
    }

    ghost function State(): PoolState
      reads this, observers
    {
      PoolState(entries, spentBy, Interventions(observers))
    }

    ghost function Env(): Pool.Env
      reads this, observers, store`utxos
    {
      Pool.Env.Env(store.utxos, verify, Registries(observers))
    }

    /** The observers are distinct towers of this mempool with well-formed records. */
    ghost predicate Wired()
      reads this, observers
    {
      && (forall i, j :: 0 <= i < j < |observers| ==> observers[i] != observers[j])
      && (forall i :: 0 <= i < |observers| ==> observers[i].mempool == this)
      && WellFormedTowers(Registries(observers))
      && Indexed(State())
    }

    method Admit(tx: Tx) returns (v: Verdict)
      requires Wired()
      modifies this`entries, this`spentBy, (set t | t in observers)`interventions
      ensures Wired() && Env() == old(Env())
      ensures (State(), v) == Pool.Admit(old(State()), old(Env()), tx)
      decreases Measure(tx), 3
    {
      hide Indexed, WellFormedTowers, Validation.Valid, Pool.Admit, Conflicts, Judge, Outranks;
      ghost var s, env := State(), Env();
      AdmitRefuses(s, env, tx);
      AdmitCases(s, env, tx);
      AcceptedIffValid(env.utxos, env.verify, tx);
      var txid := IdOf(tx);
      if txid in entries { return Accepted(0, 0); }
      var conflicting := ConflictingTxids(tx);
      ConflictsAreEntries(s, tx);
      if conflicting != {} {
        if |conflicting| != 1 { return Rejected(MultiConflict); }
        var oldId :| oldId in conflicting;
        OnlyIs(conflicting, oldId);
        var outranks := CheckOutranks(tx, entries[oldId].tx);
        if !outranks { return Rejected(SequenceNotHigher); }
        v := ValidateTx(tx, store, verify);
        if v.Rejected? { return; }
        var _ := EvictInternal(oldId);
        Enter(ReplaceEvent, tx, v, s);
      } else {
        v := ValidateTx(tx, store, verify);
        if v.Rejected? { return; }
        Enter(AdmitEvent, tx, v, s);
      }
    }

    lemma OnlyIs(c: set<TxId>, x: TxId)
      requires |c| == 1 && x in c
      ensures Only(c) == x && c == {x}
    {
      assert x in {Only(c)};
    }

    /** Takes the place cleared for the transaction and tells the observers. */
    method Enter(event: Event, tx: Tx, v: Verdict, ghost s: PoolState)
      requires Wired() && event != EvictEvent
      requires Indexed(s) && Inserts(s, Env(), tx) && State() == Cleared(s, tx)
      requires v == Judge(store.utxos, verify, tx) && v.Accepted?
      modifies this`entries, this`spentBy, (set t | t in observers)`interventions
      ensures Wired() && Env() == old(Env())
      ensures State() == Pool.Notify(Inserted(s, old(Env()), tx), old(Env()), tx, 0)
      decreases Measure(tx), 2
    {
      ghost var env := Env();
      InsertEntry(tx, v);
      assert Env() == env;
      assert State() == Inserted(s, env, tx) by { AcceptedIffValid(env.utxos, env.verify, tx); }
      assert Indexed(State()) by { ClearedKeepsIndexed(s, env, tx); }
      NotifyAll(event, tx);
    }

    method ConflictingTxids(tx: Tx) returns (c: set<TxId>)
      ensures c == Conflicts(State(), tx)
    {
      c := {};
      for j := 0 to |tx.inputs|
        invariant c == set o | o in Prevs(tx.inputs[..j]) && o in spentBy && spentBy[o] != IdOf(tx) :: spentBy[o]
      {
        var o := tx.inputs[j].prev;
        if o in spentBy && spentBy[o] != IdOf(tx) { c := c + {spentBy[o]}; }
        PrevsStep(tx.inputs, j);
      }
      assert tx.inputs[..|tx.inputs|] == tx.inputs;
    }

    method CheckOutranks(tx: Tx, older: Tx) returns (ok: bool)
      ensures ok == Outranks(tx, older)
    {
      var oldSeqs: map<Outpoint, Sequence> := map[];
      for j := 0 to |older.inputs|
        invariant oldSeqs.Keys == Prevs(older.inputs[..j])
        invariant forall o :: o in oldSeqs ==> oldSeqs[o] == SeqAt(older.inputs[..j], o)
      {
        PrevsStep(older.inputs, j);
        assert older.inputs[..j + 1][..j] == older.inputs[..j];
        oldSeqs := oldSeqs[older.inputs[j].prev := older.inputs[j].sequence];
      }
      assert older.inputs[..|older.inputs|] == older.inputs;
      for j := 0 to |tx.inputs|
        invariant forall k :: 0 <= k < j && tx.inputs[k].prev in oldSeqs ==>
                  tx.inputs[k].sequence > oldSeqs[tx.inputs[k].prev]
      {
        var key := tx.inputs[j].prev;
        if key in oldSeqs && tx.inputs[j].sequence <= oldSeqs[key] { return false; }
      }
      return true;
    }

    method InsertEntry(tx: Tx, v: Verdict)
      requires v.Accepted?
      modifies this`entries, this`spentBy
      ensures State() == Insert(old(State()), tx, v.Fee())
    {
      entries := entries[IdOf(tx) := Entry(tx, v.Fee(), Sequences(tx.inputs))];
      OwnInputs(tx.inputs, IdOf(tx));
    }

    method OwnInputs(ins: seq<TxIn>, txid: TxId)
      modifies this`spentBy
      ensures spentBy == old(spentBy) + Owned(ins, txid)
    {
      for j := 0 to |ins|
        invariant spentBy == old(spentBy) + Owned(ins[..j], txid)
      {
        OwnedStep(ins, j, old(spentBy), txid);
        spentBy := spentBy[ins[j].prev := txid];
      }
      assert ins[..|ins|] == ins;
    }

    method ReleaseInputs(ins: seq<TxIn>, txid: TxId)
      modifies this`spentBy
      ensures spentBy == Released(old(spentBy), ins, txid)
    {
      for j := 0 to |ins|
        invariant spentBy == Released(old(spentBy), ins[..j], txid)
      {
        PrevsStep(ins, j);
        var key := ins[j].prev;
        if key in spentBy && spentBy[key] == txid { spentBy := spentBy - {key}; }
      }
      assert ins[..|ins|] == ins;
    }

    method EvictInternal(txid: TxId) returns (gone: Option<Tx>)
      requires Wired()
      modifies this`entries, this`spentBy, (set t | t in observers)`interventions
      ensures Wired() && Env() == old(Env())
      ensures State() == Pool.Evict(old(State()), txid)
      ensures gone == if txid in old(entries) then Some(old(entries)[txid].tx) else None
      decreases 0, 2
    {
      ghost var s := State();
      if txid !in entries { return None; }
      var entry := entries[txid];
      entries := entries - {txid};
      ReleaseInputs(entry.tx.inputs, txid);
      assert State() == Pool.Evict(s, txid);
      EvictKeepsIndexed(s, txid);
      NotifyAll(EvictEvent, entry.tx);
      return Some(entry.tx);
    }

    method NotifyAll(event: Event, tx: Tx)
      requires Wired()
      modifies this`entries, this`spentBy, (set t | t in observers)`interventions
      ensures Wired() && Env() == old(Env())
      ensures State() == if event == EvictEvent then old(State()) else Pool.Notify(old(State()), old(Env()), tx, 0)
      decreases if event == EvictEvent then 0 else Measure(tx), 1
    {
      for i := 0 to |observers|
        invariant Wired() && Env() == old(Env())
        invariant event == EvictEvent ==> State() == old(State())
        invariant event != EvictEvent ==>
                  Pool.Notify(State(), Env(), tx, i) == Pool.Notify(old(State()), old(Env()), tx, 0)
      {
        observers[i].Observe(event, tx, i);
      }
    }

    method AllTxs() returns (txs: seq<Tx>)
      requires Indexed(State())
      ensures Enumerates(txs, entries)
    {
      txs := [];
      var pending := entries.Keys;
      while pending != {}
        invariant pending <= entries.Keys
        invariant Enumerates(txs, entries - pending)
      {
        var id :| id in pending;
        assert id == IdOf(entries[id].tx);
        pending := pending - {id};
        txs := txs + [entries[id].tx];
      }
      assert entries - {} == entries;
    }
  }

  ghost function Interventions(towers: seq<Tower>): seq<nat>
    reads towers
  {
    seq(|towers|, i requires 0 <= i < |towers| reads towers => towers[i].interventions)
  }

  ghost function Registries(towers: seq<Tower>): seq<Registry>
    reads towers
  {
    seq(|towers|, i requires 0 <= i < |towers| reads towers => towers[i].registry)
  }

  class Tower {
    const mempool: Mempool
    var registry: Registry
    var interventions: nat
    var forfeits: nat

    constructor (mempool: Mempool)
      ensures this.mempool == mempool && registry == map[] && interventions == 0 && forfeits == 0
    {
      this.mempool := mempool;
      registry, interventions, forfeits := map[], 0, 0;
    }

    method Register(channel: TxId, record: WatchRecord)
      modifies this`registry
      ensures registry == old(registry)[channel := record]
    {
      registry := registry[channel := record];
    }

    /** Called for every event; `i` is this tower's place among the observers. */
    method Observe(event: Event, tx: Tx, ghost i: nat)
      requires mempool.Wired() && i < |mempool.observers| && mempool.observers[i] == this
      modifies mempool`entries, mempool`spentBy, (set t | t in mempool.observers)`interventions
      ensures mempool.Wired() && mempool.Env() == old(mempool.Env())
      ensures mempool.State() == if event == EvictEvent then old(mempool.State())
                                 else Pool.Observe(old(mempool.State()), old(mempool.Env()), tx, i, 0)
      decreases if event == EvictEvent then 0 else Measure(tx), 0
    {
      if event == EvictEvent { return; }
      ghost var env := mempool.Env();
      assert env.towers[i] == registry;
      for j := 0 to |tx.inputs|
        invariant mempool.Wired() && mempool.Env() == env
        invariant Pool.Observe(mempool.State(), env, tx, i, j) == Pool.Observe(old(mempool.State()), env, tx, i, 0)
      {
        var tin := tx.inputs[j];
        if tin.prev.vout == 0 && tin.prev.txid in registry {
          assert WellFormedRecord(tin.prev.txid, env.towers[i][tin.prev.txid]);
          if tin.sequence < registry[tin.prev.txid].current.inputs[0].sequence {
            assert Stale(env, i, tx, j);
            Answer(tin.prev.txid, i);
          }
        }
      }
    }

    /** Rebroadcasts the current state of a watched channel; counts it if it is accepted. */
    method Answer(channel: TxId, ghost i: nat)
      requires mempool.Wired() && i < |mempool.observers| && mempool.observers[i] == this
      requires channel in registry
      modifies mempool`entries, mempool`spentBy, (set t | t in mempool.observers)`interventions
      ensures mempool.Wired() && mempool.Env() == old(mempool.Env())
      ensures var (s, v) := Pool.Admit(old(mempool.State()), old(mempool.Env()), registry[channel].current);
              mempool.State() == if v.Accepted? then Counted(s, i) else s
      decreases Measure(registry[channel].current), 4
    {
      var res := mempool.Admit(registry[channel].current);
      ghost var s, env := mempool.State(), mempool.Env();
      if res.Accepted? {
        interventions := interventions + 1;
        assert mempool.State() == Counted(s, i);
        assert mempool.Env() == env;
        CountedIsIndexed(s, i);
      }
    }

    /** Broadcasts the pre-signed forfeit of an offender. */
    method ForfeitOffenderBond(channel: TxId, offender: nat) returns (r: Result<Verdict, TowerError>)
      requires mempool.Wired()
      modifies mempool`entries, mempool`spentBy, (set t | t in mempool.observers)`interventions, this`forfeits
      ensures mempool.Wired()
      ensures channel !in registry ==> r == Err(NoRecord)
      ensures channel in registry && offender !in registry[channel].forfeits ==> r == Err(NoForfeit)
      ensures r.Err? ==> forfeits == old(forfeits) && mempool.State() == old(mempool.State())
      ensures r.Ok? ==>
                && (mempool.State(), r.value)
                   == Pool.Admit(old(mempool.State()), old(mempool.Env()), registry[channel].forfeits[offender])
                && forfeits == old(forfeits) + if r.value.Accepted? then 1 else 0
    {
      if channel !in registry { return Err(NoRecord); }
      if offender !in registry[channel].forfeits { return Err(NoForfeit); }
      var res := mempool.Admit(registry[channel].forfeits[offender]);
      ghost var s, env := mempool.State(), mempool.Env();
      if res.Accepted? {
        forfeits := forfeits + 1;
        assert mempool.State() == s && mempool.Env() == env;
      }
      return Ok(res);
    }
  }

  lemma OwnedStep(ins: seq<TxIn>, j: nat, rows: map<Outpoint, TxId>, id: TxId)
    requires j < |ins|
    ensures rows + Owned(ins[..j + 1], id) == (rows + Owned(ins[..j], id))[ins[j].prev := id]
  {
    PrevsStep(ins, j);
  }

  lemma CountedIsIndexed(s: PoolState, i: nat)
    requires Indexed(s)
    ensures Indexed(Counted(s, i))
  {
    var t := Counted(s, i);
    assert forall o, id :: (Holds(t, o, id) <==> Holds(s, o, id)) && (Spends(t, id, o) <==> Spends(s, id, o));
  }
}
