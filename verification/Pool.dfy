/** The mempool with its replacement rule and the re-entrant watchtower cascade, as a value:
    admitting a transaction notifies the towers, which submit their own transactions, which
    notifies the towers again. */
module Pool {
  import opened Ledger
  import opened Validation

  datatype Entry = Entry(tx: Tx, fee: int, sequences: seq<Sequence>)

  datatype WatchRecord = WatchRecord(current: Tx, forfeits: map<nat, Tx>)

  type Registry = map<TxId, WatchRecord>

  /** `counts[i]` is the number of interventions of the i-th online tower. */
  datatype PoolState = PoolState(entries: map<TxId, Entry>, spentBy: map<Outpoint, TxId>, counts: seq<nat>)

  /** What does not change during a cascade: the table, the interpreter, the online towers. */
  datatype Env = Env(utxos: Table, verify: Interpreter, towers: seq<Registry>)

  /** A watch record holds a single-input state transaction of its channel. */
  predicate WellFormedRecord(channel: TxId, record: WatchRecord) {
    |record.current.inputs| == 1 && record.current.inputs[0].prev == Outpoint(channel, 0)
  }

  predicate WellFormedRegistry(registry: Registry) {
    forall c :: c in registry ==> WellFormedRecord(c, registry[c])
  }

  predicate WellFormedTowers(towers: seq<Registry>) {
    forall i :: 0 <= i < |towers| ==> WellFormedRegistry(towers[i])
  }

  predicate WellFormedEnv(env: Env) {
    WellFormedTowers(env.towers)
  }

  // ---------- index maintenance ----------

  function Sequences(ins: seq<TxIn>): seq<Sequence> {
    seq(|ins|, i requires 0 <= i < |ins| => ins[i].sequence)
  }

  /** The index rows of a transaction with these inputs. */
  function Owned(ins: seq<TxIn>, id: TxId): map<Outpoint, TxId> {
    map o | o in Prevs(ins) :: id
  }

  /** The index without the rows that these inputs have under this identifier. */
  function Released(spentBy: map<Outpoint, TxId>, ins: seq<TxIn>, id: TxId): map<Outpoint, TxId> {
    map o | o in spentBy && !(o in Prevs(ins) && spentBy[o] == id) :: spentBy[o]
  }

  function Insert(s: PoolState, tx: Tx, fee: int): PoolState {
    s.(entries := s.entries[IdOf(tx) := Entry(tx, fee, Sequences(tx.inputs))],
       spentBy := s.spentBy + Owned(tx.inputs, IdOf(tx)))
  }

  function Evict(s: PoolState, id: TxId): PoolState {
    if id !in s.entries then s
    else
      s.(entries := s.entries - {id}, spentBy := Released(s.spentBy, s.entries[id].tx.inputs, id))
  }

  /** Evicts the given transactions one after the other. */
  function EvictAll(s: PoolState, txs: seq<Tx>): PoolState
    decreases txs
  {
    if txs == [] then s else EvictAll(Evict(s, IdOf(txs[0])), txs[1..])
  }

  lemma {:induction false} EvictAllAppend(s: PoolState, a: seq<Tx>, b: seq<Tx>)
    ensures EvictAll(s, a + b) == EvictAll(EvictAll(s, a), b)
    decreases a
  {
    if a == [] {
      assert a + b == b;
    } else {
      assert (a + b)[1..] == a[1..] + b;
      EvictAllAppend(Evict(s, IdOf(a[0])), a[1..], b);
    }
  }

  /** The list holds the transaction of every entry exactly once. */
  ghost predicate Enumerates(txs: seq<Tx>, entries: map<TxId, Entry>) {
    && (forall i, j :: 0 <= i < j < |txs| ==> txs[i] != txs[j])
    && (forall tx :: tx in txs <==> IdOf(tx) in entries)
  }

  /** The entries that already spend an input of the transaction. */
  function Conflicts(s: PoolState, tx: Tx): set<TxId> {
    set o | o in Prevs(tx.inputs) && o in s.spentBy && s.spentBy[o] != IdOf(tx) :: s.spentBy[o]
  }

  /** The sequence number under which a list of inputs spends an outpoint; the last one counts. */
  function SeqAt(ins: seq<TxIn>, o: Outpoint): Sequence
    requires o in Prevs(ins)
  {
    if ins[|ins| - 1].prev == o then ins[|ins| - 1].sequence
    else
      var i :| 0 <= i < |ins| && ins[i].prev == o;
      assert ins[..|ins| - 1][i].prev == o;
      SeqAt(ins[..|ins| - 1], o)
  }

  /** Every input shared with the older transaction carries a strictly higher sequence number. */
  predicate Outranks(tx: Tx, older: Tx) {
    forall i :: 0 <= i < |tx.inputs| && tx.inputs[i].prev in Prevs(older.inputs)
      ==> tx.inputs[i].sequence > SeqAt(older.inputs, tx.inputs[i].prev)
  }

  ghost function Only<T>(c: set<T>): (x: T)
    requires |c| == 1
    ensures c == {x}
  {
    var x :| x in c;
    assert |c - {x}| == 0;
    x
  }

  // ---------- the cascade ----------

  function MinSeq(ins: seq<TxIn>): Sequence
    requires ins != []
    ensures forall i :: 0 <= i < |ins| ==> MinSeq(ins) <= ins[i].sequence
  {
    if |ins| == 1 then ins[0].sequence
    else
      var m := MinSeq(ins[..|ins| - 1]);
      assert forall i :: 0 <= i < |ins| - 1 ==> ins[..|ins| - 1][i] == ins[i];
      if m <= ins[|ins| - 1].sequence then m else ins[|ins| - 1].sequence
  }

  /** Shrinks with every nested submission: towers only answer with a higher sequence number. */
  function Measure(tx: Tx): nat {
    if tx.inputs == [] then 1 else 0x1_0000_0000 - MinSeq(tx.inputs)
  }

  /** Tower `i` finds that input `j` spends a channel it watches with an outdated state. */
  predicate Stale(env: Env, i: nat, tx: Tx, j: nat)
    requires WellFormedEnv(env) && i < |env.towers| && j < |tx.inputs|
  {
    var o := tx.inputs[j].prev;
    && o.vout == 0 && o.txid in env.towers[i]
    && tx.inputs[j].sequence < env.towers[i][o.txid].current.inputs[0].sequence
  }

  ghost function Admit(s: PoolState, env: Env, tx: Tx): (PoolState, Verdict)
    requires WellFormedEnv(env)
    decreases Measure(tx), 2, 0
  {
    if IdOf(tx) in s.entries then (s, Accepted(0, 0))
    else
      var clash := Conflicts(s, tx);
      var v := Judge(env.utxos, env.verify, tx);
      if clash == {} then
        if v.Rejected? then (s, v) else (Notify(Insert(s, tx, v.Fee()), env, tx, 0), v)
      else if |clash| != 1 then (s, Rejected(MultiConflict))
      else
        var older := Only(clash);
        if older in s.entries && !Outranks(tx, s.entries[older].tx) then (s, Rejected(SequenceNotHigher))
        else if v.Rejected? then (s, v)
        else (Notify(Insert(Evict(s, older), tx, v.Fee()), env, tx, 0), v)
  }

  /** The towers from the i-th on observe the transaction, in order. */
  ghost function Notify(s: PoolState, env: Env, tx: Tx, i: nat): PoolState
    requires WellFormedEnv(env)
    decreases Measure(tx), 1, |env.towers| - i
  {
    if i >= |env.towers| then s else Notify(Observe(s, env, tx, i, 0), env, tx, i + 1)
  }

  /** Tower `i` looks at the inputs from the j-th on, answering each outdated one. */
  ghost function Observe(s: PoolState, env: Env, tx: Tx, i: nat, j: nat): PoolState
    requires WellFormedEnv(env) && i < |env.towers|
    decreases Measure(tx), 0, |tx.inputs| - j
  {
    if j >= |tx.inputs| then s
    else if !Stale(env, i, tx, j) then Observe(s, env, tx, i, j + 1)
    else
      var current := env.towers[i][tx.inputs[j].prev.txid].current;
      var (s1, v) := Admit(s, env, current);
      Observe(if v.Accepted? then Counted(s1, i) else s1, env, tx, i, j + 1)
  }

  function Counted(s: PoolState, i: nat): PoolState {
    if i < |s.counts| then s.(counts := s.counts[i := s.counts[i] + 1]) else s
  }
}
