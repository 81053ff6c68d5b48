/** Which sequence numbers the mempool still asks for on an outpoint, and what it forgets. */
module Forgetting {
  import opened Ledger
  import opened Validation
  import opened Pool
  import opened Cascade
  import opened Cover
  import opened Mining
  import opened Supply

  /** Every submission that gets in with an input on `o` carries more than `f` there. */
  ghost predicate FloorAt(s: PoolState, env: Env, o: Outpoint, f: Sequence) {
    forall tx, i :: Inserts(s, env, tx) && 0 <= i < |tx.inputs| && tx.inputs[i].prev == o
      ==> tx.inputs[i].sequence > f
  }

  // ---------- spending one outpoint ----------

  type Unlocker = Tx -> Script

  /** A signed transaction that spends `o` alone, and pays everything as a fee. */
  function Spend(o: Outpoint, sign: Unlocker, q: Sequence, locktime: nat): Tx {
    var unsigned := Tx([TxIn(o, [], q)], [], locktime);
    unsigned.(inputs := [TxIn(o, sign(unsigned), q)])
  }

  /** The outpoint is unspent and its owner can sign for it. */
  ghost predicate Spendable(env: Env, o: Outpoint, sign: Unlocker) {
    && o in env.utxos && env.utxos[o].value >= 0 && o != COINBASE_PREV
    && forall q: Sequence, locktime: nat, out :: env.verify(Spend(o, sign, q, locktime), 0, out)
  }

  lemma SpendIsValid(env: Env, o: Outpoint, sign: Unlocker, q: Sequence, locktime: nat)
    requires Spendable(env, o, sign)
    ensures var tx := Spend(o, sign, q, locktime);
            Valid(env.utxos, env.verify, tx) && Prevs(tx.inputs) == {o} && SeqAt(tx.inputs, o) == q
  {
    var tx := Spend(o, sign, q, locktime);
    assert tx.inputs[0].prev == o && tx.inputs[..0] == [];
    assert Unlocks(env.utxos, env.verify, tx, 0);
  }

  /** No entry has this locktime, so no transaction with it is an entry yet. */
  ghost predicate Unused(s: PoolState, locktime: nat) {
    forall id :: id in s.entries ==> s.entries[id].tx.locktime != locktime
  }

  lemma {:induction false} UnusedExists(s: PoolState, ids: set<TxId>) returns (bound: nat)
    requires ids <= s.entries.Keys
    ensures forall id :: id in ids ==> s.entries[id].tx.locktime < bound
    decreases ids
  {
    if ids == {} {
      bound := 0;
    } else {
      var x :| x in ids;
      bound := UnusedExists(s, ids - {x});
      if bound <= s.entries[x].tx.locktime { bound := s.entries[x].tx.locktime + 1; }
    }
  }

  lemma SomeUnused(s: PoolState) returns (locktime: nat)
    ensures Unused(s, locktime)
  {
    locktime := UnusedExists(s, s.entries.Keys);
  }

  lemma UnusedIsNew(s: PoolState, tx: Tx)
    requires Indexed(s) && Unused(s, tx.locktime)
    ensures IdOf(tx) !in s.entries
  {
  }

  /** The one conflict of a transaction whose only held input is `o`. */
  lemma MeetsHolder(s: PoolState, tx: Tx, o: Outpoint)
    requires Indexed(s) && IdOf(tx) !in s.entries && o in Prevs(tx.inputs) && o in s.spentBy
    requires forall p :: p in Prevs(tx.inputs) && p in s.spentBy ==> s.spentBy[p] == s.spentBy[o]
    ensures Conflicts(s, tx) == {s.spentBy[o]} && |Conflicts(s, tx)| == 1
    ensures s.spentBy[o] in s.entries && o in Prevs(s.entries[s.spentBy[o]].tx.inputs)
  {
    assert Holds(s, o, s.spentBy[o]) && Spends(s, s.spentBy[o], o);
    assert Conflicts(s, tx) == {s.spentBy[o]};
  }

  lemma SpendEnters(s: PoolState, env: Env, o: Outpoint, sign: Unlocker, q: Sequence, locktime: nat)
    requires Indexed(s) && Spendable(env, o, sign) && Unused(s, locktime)
    requires o in s.spentBy ==> HolderSeq(s, o) < q
    ensures Inserts(s, env, Spend(o, sign, q, locktime))
  {
    var tx := Spend(o, sign, q, locktime);
    SpendIsValid(env, o, sign, q, locktime);
    UnusedIsNew(s, tx);
    if o in s.spentBy {
      MeetsHolder(s, tx, o);
    } else {
      assert Conflicts(s, tx) == {};
    }
  }

  /** Which floor the mempool keeps, exactly: every submission that gets in on an outpoint
      carries more than `f` there if and only if the outpoint is held under at least `f` now. What
      it was held under before does not matter. */
  lemma FloorExactly(s: PoolState, env: Env, o: Outpoint, sign: Unlocker, f: Sequence)
    requires Indexed(s) && Spendable(env, o, sign)
    ensures FloorAt(s, env, o, f) <==> o in s.spentBy && HolderSeq(s, o) >= f
  {
    if o in s.spentBy && HolderSeq(s, o) >= f {
      forall tx, i | Inserts(s, env, tx) && 0 <= i < |tx.inputs| && tx.inputs[i].prev == o
        ensures tx.inputs[i].sequence > f
      {
        EntrantOutranks(s, env, tx, i);
      }
    } else {
      var locktime := SomeUnused(s);
      var q: Sequence := if o in s.spentBy then HolderSeq(s, o) + 1 else 0;
      SpendEnters(s, env, o, sign, q, locktime);
      var tx := Spend(o, sign, q, locktime);
      assert Inserts(s, env, tx) && tx.inputs[0].prev == o && tx.inputs[0].sequence <= f;
    }
  }

  lemma EntrantOutranks(s: PoolState, env: Env, tx: Tx, i: nat)
    requires Indexed(s) && Inserts(s, env, tx) && i < |tx.inputs| && tx.inputs[i].prev in s.spentBy
    ensures tx.inputs[i].sequence > HolderSeq(s, tx.inputs[i].prev)
  {
    var o := tx.inputs[i].prev;
    ConflictsAreEntries(s, tx);
    assert o in Prevs(tx.inputs);
    assert Holds(s, o, s.spentBy[o]) && Spends(s, s.spentBy[o], o);
    assert s.spentBy[o] in Conflicts(s, tx);
  }

  lemma {:induction false} RunsStayIndexed(s: PoolState, env: Env, txs: seq<Tx>)
    requires WellFormedEnv(env) && Indexed(s)
    ensures Indexed(AdmitAll(s, env, txs))
    decreases txs
  {
    if txs != [] {
      AdmitEvolves(s, env, txs[0]);
      RunsStayIndexed(Admit(s, env, txs[0]).0, env, txs[1..]);
    }
  }

  /** The same after every run of submissions, towers answering in between. */
  lemma FloorAfterRun(s: PoolState, env: Env, txs: seq<Tx>, o: Outpoint, sign: Unlocker, f: Sequence)
    requires WellFormedEnv(env) && Indexed(s) && Spendable(env, o, sign)
    ensures Indexed(AdmitAll(s, env, txs))
    ensures FloorAt(AdmitAll(s, env, txs), env, o, f)
       <==> o in AdmitAll(s, env, txs).spentBy && HolderSeq(AdmitAll(s, env, txs), o) >= f
  {
    RunsStayIndexed(s, env, txs);
    FloorExactly(AdmitAll(s, env, txs), env, o, sign, f);
  }

  // ---------- floors that last ----------

  ghost predicate FloorForever(s: PoolState, env: Env, o: Outpoint, f: Sequence)
    requires WellFormedEnv(env)
  {
    forall txs :: FloorAt(AdmitAll(s, env, txs), env, o, f)
  }

  /** Nothing can replace the transaction: it spends every input under the final number. */
  ghost predicate Fixed(tx: Tx) {
    forall p :: p in Prevs(tx.inputs) ==> SeqAt(tx.inputs, p) == FINAL_SEQUENCE
  }

  /** No tower is online, whoever wants to can spend, and the pool's inputs are unspent. */
  ghost predicate OpenMarket(s: PoolState, env: Env) {
    && env.towers == [] && Indexed(s) && COINBASE_PREV !in env.utxos
    && (forall tx, i, out :: env.verify(tx, i, out))
    && (forall o :: o in env.utxos ==> env.utxos[o].value >= 0)
    && (forall o :: o in s.spentBy ==> o in env.utxos)
  }

  const NO_SCRIPT: Unlocker := (tx: Tx) => []

  lemma AllSpendable(s: PoolState, env: Env, o: Outpoint)
    requires OpenMarket(s, env) && o in env.utxos
    ensures Spendable(env, o, NO_SCRIPT)
  {
  }

  /** A submission that no tower answers. */
  lemma QuietAdmit(s: PoolState, env: Env, tx: Tx)
    requires WellFormedEnv(env) && OpenMarket(s, env) && Inserts(s, env, tx)
    ensures Admit(s, env, tx).0 == Inserted(s, env, tx) && Admit(s, env, tx).1.Accepted?
    ensures OpenMarket(Inserted(s, env, tx), env)
    ensures forall p :: p in Prevs(tx.inputs) ==> Holds(Inserted(s, env, tx), p, IdOf(tx))
    ensures Inserted(s, env, tx).entries[IdOf(tx)].tx == tx
  {
    AdmitCases(s, env, tx);
    ClearedKeepsIndexed(s, env, tx);
    InsertsUnspent(s, env, tx);
  }

  lemma QuietStays(s: PoolState, env: Env, tx: Tx)
    requires WellFormedEnv(env) && OpenMarket(s, env)
    ensures OpenMarket(Admit(s, env, tx).0, env)
  {
    AdmitCases(s, env, tx);
    if Inserts(s, env, tx) { QuietAdmit(s, env, tx); }
  }

  /** Replacing the holder of `o` by a spend of another of its inputs lets go of `o`. */
  lemma LetsGo(s: PoolState, env: Env, o: Outpoint, p: Outpoint) returns (tx: Tx)
    requires WellFormedEnv(env) && OpenMarket(s, env) && o != p
    requires o in s.spentBy && p in s.spentBy && s.spentBy[p] == s.spentBy[o] && HolderSeq(s, p) < FINAL_SEQUENCE
    ensures Inserts(s, env, tx) && o !in Admit(s, env, tx).0.spentBy
    ensures |tx.inputs| == 1 && tx.inputs[0].prev == p
  {
    var locktime := SomeUnused(s);
    AllSpendable(s, env, p);
    tx := Spend(p, NO_SCRIPT, HolderSeq(s, p) + 1, locktime);
    SpendEnters(s, env, p, NO_SCRIPT, HolderSeq(s, p) + 1, locktime);
    SpendIsValid(env, p, NO_SCRIPT, HolderSeq(s, p) + 1, locktime);
    MeetsHolder(s, tx, p);
    QuietAdmit(s, env, tx);
    assert Only(Conflicts(s, tx)) == s.spentBy[o] by { assert s.spentBy[o] in {Only(Conflicts(s, tx))}; }
    assert Holds(s, o, s.spentBy[o]) && Spends(s, s.spentBy[o], o);
  }

  /** A spend of `o` and of a free outpoint, the latter under sequence number 0. */
  function SpendBoth(o: Outpoint, q: Sequence, free: Outpoint, locktime: nat): Tx {
    Tx([TxIn(o, [], q), TxIn(free, [], 0)], [], locktime)
  }

  lemma BothAreSpent(o: Outpoint, q: Sequence, free: Outpoint, locktime: nat)
    requires o != free
    ensures var ins := SpendBoth(o, q, free, locktime).inputs;
            Prevs(ins) == {o, free} && SeqAt(ins, o) == q && SeqAt(ins, free) == 0
  {
    var ins := SpendBoth(o, q, free, locktime).inputs;
    assert ins[0].prev == o && ins[1].prev == free;
    assert ins[..1] == [ins[0]] && [ins[0]][0].prev == o;
    assert SeqAt(ins[..1], o) == q;
  }

  lemma BothEnter(s: PoolState, env: Env, o: Outpoint, q: Sequence, free: Outpoint, locktime: nat)
    requires OpenMarket(s, env) && o in env.utxos && free in env.utxos && o != free && free !in s.spentBy
    requires Unused(s, locktime) && (o in s.spentBy ==> HolderSeq(s, o) < q)
    ensures Inserts(s, env, SpendBoth(o, q, free, locktime))
  {
    var tx := SpendBoth(o, q, free, locktime);
    UnusedIsNew(s, tx);
    BothAreSpent(o, q, free, locktime);
    BothAreValid(s, env, o, q, free, locktime);
    if o in s.spentBy {
      MeetsHolder(s, tx, o);
      assert Holds(s, free, s.spentBy[o]) <==> Spends(s, s.spentBy[o], free);
    } else {
      assert Conflicts(s, tx) == {};
    }
  }

  lemma BothAreValid(s: PoolState, env: Env, o: Outpoint, q: Sequence, free: Outpoint, locktime: nat)
    requires OpenMarket(s, env) && o in env.utxos && free in env.utxos
    ensures Valid(env.utxos, env.verify, SpendBoth(o, q, free, locktime))
  {
    var ins := SpendBoth(o, q, free, locktime).inputs;
    assert ins[..1] == [ins[0]] && [ins[0]][..0] == [];
    assert InputSum(env.utxos, [ins[0]]) == env.utxos[o].value;
    assert InputSum(env.utxos, ins) == InputSum(env.utxos, ins[..1]) + env.utxos[free].value;
  }

  /** From every holder that is not fixed, at most two submissions lead to a pool in which the
      outpoint is not held at all. */
  lemma Released(s: PoolState, env: Env, o: Outpoint, free: Outpoint) returns (txs: seq<Tx>)
    requires WellFormedEnv(env) && OpenMarket(s, env) && o in s.spentBy
    requires free in env.utxos && free !in s.spentBy
    requires s.spentBy[o] in s.entries && !Fixed(s.entries[s.spentBy[o]].tx)
    ensures o !in AdmitAll(s, env, txs).spentBy
  {
    var holder := s.entries[s.spentBy[o]].tx;
    var p :| p in Prevs(holder.inputs) && SeqAt(holder.inputs, p) < FINAL_SEQUENCE;
    assert Spends(s, s.spentBy[o], p) && Holds(s, p, s.spentBy[o]);
    if p != o {
      var tx := LetsGo(s, env, o, p);
      txs := [tx];
      OneSubmission(s, env, tx);
    } else {
      var locktime := SomeUnused(s);
      var x := SpendBoth(o, HolderSeq(s, o) + 1, free, locktime);
      BothEnter(s, env, o, HolderSeq(s, o) + 1, free, locktime);
      BothAreSpent(o, HolderSeq(s, o) + 1, free, locktime);
      QuietAdmit(s, env, x);
      var t := Admit(s, env, x).0;
      assert Holds(t, o, IdOf(x)) && Holds(t, free, IdOf(x));
      var y := LetsGo(t, env, o, free);
      txs := [x, y];
      assert txs[1..] == [y];
      OneSubmission(t, env, y);
    }
  }

  lemma OneSubmission(s: PoolState, env: Env, tx: Tx)
    requires WellFormedEnv(env)
    ensures AdmitAll(s, env, [tx]) == Admit(s, env, tx).0
  {
    assert [tx][1..] == [];
    assert AdmitAll(Admit(s, env, tx).0, env, []) == Admit(s, env, tx).0;
  }

  lemma {:induction false} FixedStays(s: PoolState, env: Env, txs: seq<Tx>, id: TxId)
    requires WellFormedEnv(env) && OpenMarket(s, env) && id in s.entries && Fixed(s.entries[id].tx)
    ensures OpenMarket(AdmitAll(s, env, txs), env)
    ensures id in AdmitAll(s, env, txs).entries && AdmitAll(s, env, txs).entries[id].tx == s.entries[id].tx
    decreases txs
  {
    if txs != [] {
      var t := Admit(s, env, txs[0]).0;
      QuietStays(s, env, txs[0]);
      AdmitCases(s, env, txs[0]);
      if Inserts(s, env, txs[0]) {
        QuietAdmit(s, env, txs[0]);
        FixedIsKept(s, env, txs[0], id);
      }
      FixedStays(t, env, txs[1..], id);
    }
  }

  lemma FixedIsKept(s: PoolState, env: Env, tx: Tx, id: TxId)
    requires Indexed(s) && Inserts(s, env, tx) && id in s.entries && Fixed(s.entries[id].tx)
    ensures id in Inserted(s, env, tx).entries && Inserted(s, env, tx).entries[id].tx == s.entries[id].tx
  {
    FixedIsNoConflict(s, env, tx, id);
  }

  lemma FixedIsNoConflict(s: PoolState, env: Env, tx: Tx, id: TxId)
    requires Indexed(s) && Inserts(s, env, tx) && id in s.entries && Fixed(s.entries[id].tx)
    ensures id !in Conflicts(s, tx)
  {
    forall p | p in Prevs(tx.inputs) && p in s.spentBy ensures s.spentBy[p] != id {
      var i :| 0 <= i < |tx.inputs| && tx.inputs[i].prev == p;
      assert Holds(s, p, s.spentBy[p]) && Spends(s, s.spentBy[p], p);
      EntrantOutranks(s, env, tx, i);
    }
  }

  /** Which floors last, exactly: on an open market with one more unspent outpoint free, a floor
      on an outpoint survives every run of submissions if and only if the outpoint's holder spends
      all its inputs under the final number. Any lower floor is lost in some run. */
  lemma FloorLastsExactly(s: PoolState, env: Env, o: Outpoint, f: Sequence, free: Outpoint)
    requires WellFormedEnv(env) && OpenMarket(s, env) && o in env.utxos
    requires free in env.utxos && free !in s.spentBy && free != o
    ensures FloorForever(s, env, o, f)
       <==> o in s.spentBy && s.spentBy[o] in s.entries && Fixed(s.entries[s.spentBy[o]].tx)
  {
    AllSpendable(s, env, o);
    if o in s.spentBy && s.spentBy[o] in s.entries && Fixed(s.entries[s.spentBy[o]].tx) {
      assert Holds(s, o, s.spentBy[o]) && Spends(s, s.spentBy[o], o);
      forall txs ensures FloorAt(AdmitAll(s, env, txs), env, o, f) {
        FixedStays(s, env, txs, s.spentBy[o]);
        var t := AdmitAll(s, env, txs);
        assert Spends(t, s.spentBy[o], o) && Holds(t, o, s.spentBy[o]);
        FloorExactly(t, env, o, NO_SCRIPT, f);
      }
    } else if o in s.spentBy {
      assert Holds(s, o, s.spentBy[o]) && Spends(s, s.spentBy[o], o);
      var txs := Released(s, env, o, free);
      FloorAfterRun(s, env, txs, o, NO_SCRIPT, f);
    } else {
      assert AdmitAll(s, env, []) == s;
      FloorAfterRun(s, env, [], o, NO_SCRIPT, f);
    }
  }

  // ---------- a run of the node ----------

  const OPEN_RULES: Rules := Rules(1, (tx: Tx, i: nat, out: TxOut) => true)
  const TWO_BLOCKS: seq<Step> := [Mine([], [], []), Mine([], [], [])]

  ghost function AfterTwo(): NodeState {
    Next(Next(START, OPEN_RULES, TWO_BLOCKS[0]), OPEN_RULES, TWO_BLOCKS[1])
  }

  lemma TwoBlocksRun()
    ensures LegalRun(START, OPEN_RULES, TWO_BLOCKS) && Run(START, OPEN_RULES, TWO_BLOCKS) == AfterTwo()
  {
    hide Next, Legal;
    assert Legal(START, OPEN_RULES, TWO_BLOCKS[0]) by { EmptyBlock(START, OPEN_RULES); }
    var n1, last := Next(START, OPEN_RULES, TWO_BLOCKS[0]), TWO_BLOCKS[1..];
    assert Legal(n1, OPEN_RULES, TWO_BLOCKS[1]) by { EmptyBlock(n1, OPEN_RULES); }
    assert last[0] == TWO_BLOCKS[1] && last[1..] == [];
    assert LegalRun(AfterTwo(), OPEN_RULES, []) && LegalRun(n1, OPEN_RULES, last);
    assert Run(n1, OPEN_RULES, last) == Run(AfterTwo(), OPEN_RULES, []);
  }

  /** Two empty blocks leave two unspent coinbases and an empty mempool. */
  lemma TwoCoinbases()
    ensures var n := AfterTwo();
            && n.pool == START.pool && COINBASE_PREV !in n.utxos
            && n.utxos.Keys == {CoinOf(1), CoinOf(2)}
            && (forall o :: o in n.utxos ==> n.utxos[o].value == 1)
    ensures Coinbase(1) != Coinbase(2)
  {
    hide Next, Legal, MakeCoinbase;
    EmptyBlock(START, OPEN_RULES);
    var n1 := Next(START, OPEN_RULES, TWO_BLOCKS[0]);
    EmptyBlock(n1, OPEN_RULES);
    assert AfterTwo().utxos == map[CoinOf(1) := Utxo(1, [], 1), CoinOf(2) := Utxo(1, [], 2)];
    if Coinbase(1) == Coinbase(2) { CoinbasesDiffer(1, 1, [], [], 1, 2, [], []); }
  }

  /** Two unspent outpoints of a pool that holds neither: the first is held at 5, let go, and
      held at 1. */
  lemma HeldLower(s: PoolState, env: Env, o: Outpoint, other: Outpoint) returns (high: Tx, between: Tx, low: Tx)
    requires WellFormedEnv(env) && OpenMarket(s, env) && o in env.utxos && other in env.utxos && o != other
    requires o !in s.spentBy && other !in s.spentBy
    ensures var s1 := Admit(s, env, high).0;
            var s2 := Admit(s1, env, between).0;
            var s3 := Admit(s2, env, low).0;
            && Holds(s1, o, IdOf(high)) && TxIn(o, [], 5) in high.inputs
            && o !in s2.spentBy
            && Holds(s3, o, IdOf(low)) && low.inputs == [TxIn(o, [], 1)]
  {
    hide Spendable, FloorAt, Unused;
    var locktime := SomeUnused(s);
    high := SpendBoth(o, 5, other, locktime);
    BothEnter(s, env, o, 5, other, locktime);
    BothAreSpent(o, 5, other, locktime);
    QuietAdmit(s, env, high);
    var s1 := Admit(s, env, high).0;
    assert Holds(s1, o, IdOf(high)) && Holds(s1, other, IdOf(high));
    between := LetsGo(s1, env, o, other);
    QuietStays(s1, env, between);
    low := HeldAtOne(Admit(s1, env, between).0, env, o);
  }

  lemma HeldAtOne(s: PoolState, env: Env, o: Outpoint) returns (low: Tx)
    requires WellFormedEnv(env) && OpenMarket(s, env) && o in env.utxos && o !in s.spentBy
    ensures Holds(Admit(s, env, low).0, o, IdOf(low)) && low.inputs == [TxIn(o, [], 1)]
  {
    AllSpendable(s, env, o);
    var locktime := SomeUnused(s);
    low := Spend(o, NO_SCRIPT, 1, locktime);
    SpendEnters(s, env, o, NO_SCRIPT, 1, locktime);
    SpendIsValid(env, o, NO_SCRIPT, 1, locktime);
    QuietAdmit(s, env, low);
  }

  /** The documented "highest sequence seen" is not kept. On a node that has mined two blocks, an
      output held at sequence 5 is let go when another input of its holder is taken over; then a
      spend of it at sequence 1 gets in. */
  lemma HighestIsForgotten() returns (env: Env, o: Outpoint, high: Tx, between: Tx, low: Tx)
    ensures LegalRun(START, OPEN_RULES, TWO_BLOCKS)
    ensures env == Env(Run(START, OPEN_RULES, TWO_BLOCKS).utxos, OPEN_RULES.verify, [])
    ensures Run(START, OPEN_RULES, TWO_BLOCKS).pool == START.pool
    ensures WellFormedEnv(env)
    ensures var s1 := Admit(START.pool, env, high).0;
            var s2 := Admit(s1, env, between).0;
            var s3 := Admit(s2, env, low).0;
            && Holds(s1, o, IdOf(high)) && TxIn(o, [], 5) in high.inputs
            && o !in s2.spentBy
            && Holds(s3, o, IdOf(low)) && low.inputs == [TxIn(o, [], 1)]
  {
    hide Next, LegalRun, Run, AfterTwo;
    TwoBlocksRun();
    TwoCoinbases();
    EmptyIsIndexed([]);
    env := Env(AfterTwo().utxos, OPEN_RULES.verify, []);
    o := CoinOf(1);
    assert OpenMarket(START.pool, env);
    high, between, low := HeldLower(START.pool, env, o, CoinOf(2));
  }
}
