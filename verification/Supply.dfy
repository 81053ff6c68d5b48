/** Runs of submissions and mined blocks from an empty node: which transactions are ever created
    twice, and the total of the unspent outputs. */
module Supply {
  import opened Ledger
  import opened Validation
  import opened Pool
  import opened Cascade
  import opened Mining

  /** `mined` collects the transactions of all blocks so far. */
  datatype NodeState = NodeState(utxos: Table, height: nat, pool: PoolState, mined: set<Tx>)

  datatype Rules = Rules(reward: nat, verify: Interpreter)

  datatype Step =
    | Submit(tx: Tx, towers: seq<Registry>)
    | Mine(payout: Script, extra: Bytes, included: seq<Tx>)

  /** A block takes the whole mempool or nothing of it. */
  ghost predicate Legal(n: NodeState, rules: Rules, step: Step) {
    match step
    case Submit(tx, towers) => WellFormedEnv(Env(n.utxos, rules.verify, towers))
    case Mine(_, _, included) => included == [] || Enumerates(included, n.pool.entries)
  }

  function MinedBlock(n: NodeState, rules: Rules, payout: Script, extra: Bytes, included: seq<Tx>): seq<Tx> {
    BlockTxs(n.utxos, rules.verify, rules.reward, n.height + 1, payout, extra, included)
  }

  ghost function Next(n: NodeState, rules: Rules, step: Step): NodeState
    requires Legal(n, rules, step)
  {
    match step
    case Submit(tx, towers) => n.(pool := Admit(n.pool, Env(n.utxos, rules.verify, towers), tx).0)
    case Mine(payout, extra, included) =>
      var txs := MinedBlock(n, rules, payout, extra, included);
      NodeState(ConnectBlock(n.utxos, n.height + 1, txs), n.height + 1, EvictAll(n.pool, included),
                n.mined + SetOf(txs))
  }

  ghost predicate LegalRun(n: NodeState, rules: Rules, steps: seq<Step>)
    decreases steps
  {
    steps == [] || (Legal(n, rules, steps[0]) && LegalRun(Next(n, rules, steps[0]), rules, steps[1..]))
  }

  ghost function Run(n: NodeState, rules: Rules, steps: seq<Step>): NodeState
    requires LegalRun(n, rules, steps)
    decreases steps
  {
    if steps == [] then n else Run(Next(n, rules, steps[0]), rules, steps[1..])
  }

  /** A run with one more step at its end. */
  lemma {:induction false} OneMoreStep(n: NodeState, rules: Rules, steps: seq<Step>, step: Step)
    requires LegalRun(n, rules, steps) && Legal(Run(n, rules, steps), rules, step)
    ensures LegalRun(n, rules, steps + [step])
    ensures Run(n, rules, steps + [step]) == Next(Run(n, rules, steps), rules, step)
    decreases steps
  {
    hide Legal, Next;
    if steps == [] {
      var m := Next(n, rules, step);
      assert ([] + [step])[0] == step && ([] + [step])[1..] == [];
      assert LegalRun(m, rules, []) && Run(m, rules, []) == m;
    } else {
      assert (steps + [step])[0] == steps[0] && (steps + [step])[1..] == steps[1..] + [step];
      OneMoreStep(Next(n, rules, steps[0]), rules, steps[1..], step);
    }
  }

  const START := NodeState(map[], 0, PoolState(map[], map[], []), {})

  // ---------- transactions made of nothing ----------

  /** Made of nothing: no coinbase stands behind any of its inputs. The least such transaction has
      no inputs at all, which validation accepts. */
  predicate Rootless(tx: Tx) {
    !IsCoinbase(tx) && forall i :: 0 <= i < |tx.inputs| ==> RootlessOutput(tx.inputs[i].prev)
  }

  predicate RootlessOutput(o: Outpoint) {
    match o.txid
    case NullId => false
    case IdOf(tx) => Rootless(tx)
  }

  predicate Worthless(tx: Tx) {
    forall i :: 0 <= i < |tx.outputs| ==> tx.outputs[i].value == 0
  }

  // ---------- the invariant ----------

  /** The coinbase of some height from 1 to `top`. */
  ghost predicate CoinbaseUpTo(tx: Tx, top: nat) {
    exists value, payout, height: nat, extra :: CoinbaseAt(tx, value, payout, height, extra) && 1 <= height <= top
  }

  predicate CoinbaseAt(tx: Tx, value: int, payout: Script, height: nat, extra: Bytes) {
    tx == MakeCoinbase(value, payout, height, extra)
  }

  predicate FromMined(n: NodeState, o: Outpoint) {
    o.txid.IdOf? && o.txid.tx in n.mined
  }

  /** The row holds the value of the output it stands for, which is not negative. */
  predicate RowFits(u: Table, o: Outpoint)
    requires o in u
  {
    && o.txid.IdOf? && o.vout < |o.txid.tx.outputs|
    && u[o].value == o.txid.tx.outputs[o.vout].value >= 0
  }

  /** A mined transaction is a coinbase of a past height; or it is made of nothing and worth
      nothing; or all its inputs that are made of something came from mined transactions and are
      spent for good. */
  ghost predicate Settled(n: NodeState, tx: Tx) {
    if IsCoinbase(tx) then CoinbaseUpTo(tx, n.height)
    else if Rootless(tx) then Worthless(tx)
    else forall o :: o in Prevs(tx.inputs) && !RootlessOutput(o) ==> FromMined(n, o) && o !in n.utxos
  }

  ghost predicate Recorded(n: NodeState) {
    && (forall o :: o in n.utxos ==> FromMined(n, o) && RowFits(n.utxos, o))
    && (forall tx :: tx in n.mined ==> Settled(n, tx))
  }

  ghost predicate PoolSound(n: NodeState, rules: Rules) {
    && Indexed(n.pool)
    && forall id :: id in n.pool.entries ==> Valid(n.utxos, rules.verify, n.pool.entries[id].tx)
  }

  ghost predicate Sound(n: NodeState, rules: Rules) {
    Recorded(n) && PoolSound(n, rules)
  }

  lemma StartIsSound(rules: Rules)
    ensures Sound(START, rules)
  {
    EmptyIsIndexed([]);
  }

  // ---------- submissions ----------

  lemma SubmitKeepsSound(n: NodeState, rules: Rules, tx: Tx, towers: seq<Registry>)
    requires Sound(n, rules) && Legal(n, rules, Submit(tx, towers))
    ensures Sound(Next(n, rules, Submit(tx, towers)), rules)
  {
    AdmitEvolves(n.pool, Env(n.utxos, rules.verify, towers), tx);
    PoolIsApart(n, Next(n, rules, Submit(tx, towers)).pool);
  }

  lemma PoolIsApart(n: NodeState, pool: PoolState)
    requires Recorded(n)
    ensures Recorded(n.(pool := pool))
  {
    var m := n.(pool := pool);
    assert forall o :: FromMined(m, o) == FromMined(n, o);
    forall tx | tx in m.mined ensures Settled(m, tx) { assert Settled(n, tx); }
  }

  // ---------- what can be mined together ----------

  lemma PoolIsMinable(n: NodeState, rules: Rules, included: seq<Tx>)
    requires PoolSound(n, rules) && (included == [] || Enumerates(included, n.pool.entries))
    ensures Minable(n.utxos, rules.verify, included)
  {
    forall t | t in included ensures Valid(n.utxos, rules.verify, t) && IdOf(t) in n.pool.entries {
      assert n.pool.entries[IdOf(t)].tx == t;
    }
    forall i, j | 0 <= i < j < |included| ensures Prevs(included[i].inputs) !! Prevs(included[j].inputs) {
      assert included[i] in included && included[j] in included;
      assert n.pool.entries[IdOf(included[i])].tx == included[i] && n.pool.entries[IdOf(included[j])].tx == included[j];
      EntriesAreDisjoint(n.pool, IdOf(included[i]), IdOf(included[j]));
    }
  }

  lemma ValidInputsUnspent(u: Table, verify: Interpreter, tx: Tx)
    requires Valid(u, verify, tx)
    ensures forall o :: o in Prevs(tx.inputs) ==> o in u
  {
    forall o | o in Prevs(tx.inputs) ensures o in u {
      var i :| 0 <= i < |tx.inputs| && tx.inputs[i].prev == o;
      assert Unlocks(u, verify, tx, i);
    }
  }

  /** A transaction that is valid again after it was mined is made of nothing. */
  lemma ValidAgainIsRootless(n: NodeState, rules: Rules, t: Tx)
    requires Recorded(n) && Valid(n.utxos, rules.verify, t) && t in n.mined
    ensures Rootless(t)
  {
    ValidInputsUnspent(n.utxos, rules.verify, t);
    assert Settled(n, t);
    forall i | 0 <= i < |t.inputs| ensures RootlessOutput(t.inputs[i].prev) || Rootless(t) {
      assert t.inputs[i].prev in Prevs(t.inputs);
    }
  }

  lemma {:induction false} NothingIn(u: Table, ins: seq<TxIn>)
    requires forall i :: 0 <= i < |ins| ==> ValueAt(u, ins[i].prev) == 0
    ensures InputSum(u, ins) == 0
  {
    if ins != [] { NothingIn(u, ins[..|ins| - 1]); }
  }

  lemma {:induction false} NothingOut(outs: seq<TxOut>)
    requires forall i :: 0 <= i < |outs| ==> outs[i].value >= 0
    ensures OutputSum(outs) >= 0
    ensures OutputSum(outs) == 0 ==> forall i :: 0 <= i < |outs| ==> outs[i].value == 0
  {
    if outs != [] {
      var n := |outs| - 1;
      NothingOut(outs[..n]);
      assert forall i :: 0 <= i < n ==> outs[..n][i] == outs[i];
    }
  }

  /** What is made of nothing is worth nothing. */
  lemma RootlessIsWorthless(n: NodeState, rules: Rules, t: Tx)
    requires Recorded(n) && Valid(n.utxos, rules.verify, t) && Rootless(t)
    ensures Worthless(t)
  {
    forall i | 0 <= i < |t.inputs| ensures ValueAt(n.utxos, t.inputs[i].prev) == 0 {
      var o := t.inputs[i].prev;
      assert Unlocks(n.utxos, rules.verify, t, i) && RootlessOutput(o);
      assert FromMined(n, o) && RowFits(n.utxos, o) && Rootless(o.txid.tx) && Settled(n, o.txid.tx);
      assert n.utxos[o].value == o.txid.tx.outputs[o.vout].value == 0;
    }
    NothingIn(n.utxos, t.inputs);
    NothingOut(t.outputs);
  }

  /** The transactions of a mined block overwrite nothing of value, and one that was mined before
      is made of nothing. */
  lemma MinedIsNew(n: NodeState, rules: Rules, payout: Script, extra: Bytes, included: seq<Tx>)
    requires Recorded(n) && PoolSound(n, rules) && (included == [] || Enumerates(included, n.pool.entries))
    ensures var txs := MinedBlock(n, rules, payout, extra, included);
            && (forall t :: t in txs && t in n.mined ==> Rootless(t))
            && AllNew(n.utxos, txs)
  {
    var txs := MinedBlock(n, rules, payout, extra, included);
    var cb := txs[0];
    PoolIsMinable(n, rules, included);
    CoinbaseIsNew(n, rules.reward + FeeSum(n.utxos, rules.verify, included), payout, extra);
    hide MakeCoinbase, Settled, Minable;
    forall t | t in txs ensures (t in n.mined ==> Rootless(t)) && Renews(n.utxos, t) {
      assert t == cb || t in included;
      if t in n.mined {
        MinableIsValid(n, rules, included, t);
        ValidAgainIsRootless(n, rules, t);
        RootlessIsWorthless(n, rules, t);
      }
      RenewsIfRecorded(n, t);
    }
    DistinctBlock(n, rules, payout, extra, included);
  }

  lemma MinableIsValid(n: NodeState, rules: Rules, included: seq<Tx>, t: Tx)
    requires Minable(n.utxos, rules.verify, included) && t in included
    ensures Valid(n.utxos, rules.verify, t)
  {
  }

  lemma RenewsIfRecorded(n: NodeState, t: Tx)
    requires Recorded(n) && (t in n.mined ==> Worthless(t))
    ensures Renews(n.utxos, t)
  {
    forall o | o in Created(t) && o in n.utxos ensures n.utxos[o].value == 0 == t.outputs[o.vout].value {
      assert FromMined(n, o) && RowFits(n.utxos, o);
    }
  }

  lemma DistinctBlock(n: NodeState, rules: Rules, payout: Script, extra: Bytes, included: seq<Tx>)
    requires PoolSound(n, rules) && (included == [] || Enumerates(included, n.pool.entries))
    ensures var txs := MinedBlock(n, rules, payout, extra, included);
            forall i, j :: 0 <= i < j < |txs| ==> txs[i] != txs[j]
  {
    var txs := MinedBlock(n, rules, payout, extra, included);
    PoolIsMinable(n, rules, included);
    forall i, j | 0 <= i < j < |txs| ensures txs[i] != txs[j] {
      assert txs[j] == included[j - 1];
      assert txs[j] in included;
      if i > 0 { assert txs[i] == included[i - 1]; }
    }
  }

  lemma CoinbaseIsNew(n: NodeState, value: int, payout: Script, extra: Bytes)
    requires Recorded(n)
    ensures MakeCoinbase(value, payout, n.height + 1, extra) !in n.mined
  {
    var cb := MakeCoinbase(value, payout, n.height + 1, extra);
    if cb in n.mined {
      assert Settled(n, cb);
      var w, q, h: nat, y :| CoinbaseAt(cb, w, q, h, y) && 1 <= h <= n.height;
      CoinbasesDiffer(value, w, payout, q, n.height + 1, h, extra, y);
    }
  }

  // ---------- mining ----------

  lemma {:induction false} NoFeeIsNegative(u: Table, verify: Interpreter, txs: seq<Tx>)
    ensures FeeSum(u, verify, txs) >= 0
  {
    if txs != [] {
      NoFeeIsNegative(u, verify, txs[..|txs| - 1]);
      AcceptedIffValid(u, verify, txs[|txs| - 1]);
    }
  }

  lemma {:induction false} RowsFit(u: Table, height: int, txs: seq<Tx>, o: Outpoint)
    requires forall p :: p in u ==> RowFits(u, p)
    requires forall t, i :: t in txs && 0 <= i < |t.outputs| ==> t.outputs[i].value >= 0
    ensures o in ConnectBlock(u, height, txs) ==> RowFits(ConnectBlock(u, height, txs), o)
    ensures o in ConnectBlock(u, height, txs) ==> (o in u && o !in SpentBy(txs)) || o in CreatedBy(txs)
  {
    if txs != [] {
      var n := |txs| - 1;
      RowsFit(u, height, txs[..n], o);
      TouchedStep(txs);
      assert txs[n] in txs;
    }
  }

  lemma OutputsAreWhole(n: NodeState, rules: Rules, payout: Script, extra: Bytes, included: seq<Tx>)
    requires Minable(n.utxos, rules.verify, included)
    ensures forall t, i :: t in MinedBlock(n, rules, payout, extra, included) && 0 <= i < |t.outputs| ==>
            t.outputs[i].value >= 0
  {
    NoFeeIsNegative(n.utxos, rules.verify, included);
  }

  lemma CreatedIsMined(txs: seq<Tx>)
    ensures forall o :: o in CreatedBy(txs) ==> o.txid.IdOf? && o.txid.tx in txs
  {
  }

  lemma MineKeepsRecorded(n: NodeState, rules: Rules, payout: Script, extra: Bytes, included: seq<Tx>)
    requires Recorded(n) && PoolSound(n, rules) && (included == [] || Enumerates(included, n.pool.entries))
    ensures Recorded(Next(n, rules, Mine(payout, extra, included)))
  {
    hide ConnectBlock, Minable, Enumerates, MakeCoinbase, PoolSound, FeeSum, EvictAll, Valid, RowFits, AllNew, BlockTxs;
    var txs := MinedBlock(n, rules, payout, extra, included);
    var m := Next(n, rules, Mine(payout, extra, included));
    MinedIsNew(n, rules, payout, extra, included);
    PoolIsMinable(n, rules, included);
    OutputsAreWhole(n, rules, payout, extra, included);
    CreatedIsMined(txs);
    forall o | o in m.utxos
      ensures FromMined(m, o) && RowFits(m.utxos, o) && ((o in n.utxos && o !in SpentBy(txs)) || o in CreatedBy(txs))
    {
      RowsFit(n.utxos, n.height + 1, txs, o);
      assert o in n.utxos ==> FromMined(n, o);
    }
    forall tx | tx in m.mined ensures Settled(m, tx) {
      if tx in n.mined {
        OldStaysSettled(n, m, txs, tx);
      } else {
        NewIsSettled(n, m, rules, payout, extra, included, tx);
      }
    }
  }

  /** An outpoint made of something that came from mined transactions is not created again. */
  lemma NotCreatedAgain(n: NodeState, txs: seq<Tx>, o: Outpoint)
    requires forall t :: t in txs && t in n.mined ==> Rootless(t)
    requires FromMined(n, o) && !RootlessOutput(o)
    ensures o !in CreatedBy(txs)
  {
    CreatedIsMined(txs);
  }

  lemma OldStaysSettled(n: NodeState, m: NodeState, txs: seq<Tx>, tx: Tx)
    requires Settled(n, tx) && m.height == n.height + 1 && m.mined == n.mined + SetOf(txs)
    requires forall t :: t in txs && t in n.mined ==> Rootless(t)
    requires forall o :: o in m.utxos ==> o in n.utxos || o in CreatedBy(txs)
    ensures Settled(m, tx)
  {
    if IsCoinbase(tx) {
      var w, q, h: nat, y :| CoinbaseAt(tx, w, q, h, y) && 1 <= h <= n.height;
      assert CoinbaseAt(tx, w, q, h, y) && 1 <= h <= m.height;
    } else if !Rootless(tx) {
      forall o | o in Prevs(tx.inputs) && !RootlessOutput(o) ensures FromMined(m, o) && o !in m.utxos {
        assert FromMined(n, o);
        NotCreatedAgain(n, txs, o);
      }
    }
  }

  lemma NewIsSettled(n: NodeState, m: NodeState, rules: Rules, payout: Script, extra: Bytes, included: seq<Tx>, tx: Tx)
    requires Recorded(n) && Minable(n.utxos, rules.verify, included)
    requires var txs := MinedBlock(n, rules, payout, extra, included);
             && tx in txs && m.height == n.height + 1 && m.mined == n.mined + SetOf(txs)
             && (forall t :: t in txs && t in n.mined ==> Rootless(t))
             && (forall o :: o in m.utxos ==> (o in n.utxos && o !in SpentBy(txs)) || o in CreatedBy(txs))
    ensures Settled(m, tx)
  {
    var txs := MinedBlock(n, rules, payout, extra, included);
    if tx == txs[0] {
      assert CoinbaseAt(tx, rules.reward + FeeSum(n.utxos, rules.verify, included), payout, n.height + 1, extra);
    } else {
      var k :| 0 <= k < |txs| && txs[k] == tx;
      assert txs[k] == included[k - 1] && tx in included;
      if Rootless(tx) {
        RootlessIsWorthless(n, rules, tx);
      } else {
        ValidInputsUnspent(n.utxos, rules.verify, tx);
        forall o | o in Prevs(tx.inputs) && !RootlessOutput(o) ensures FromMined(m, o) && o !in m.utxos {
          assert FromMined(n, o) && o in Spent(txs[k]);
          NotCreatedAgain(n, txs, o);
        }
      }
    }
  }

  /** After a block, the mempool is empty or, if nothing was taken from it, still valid. */
  lemma MineKeepsPool(n: NodeState, rules: Rules, payout: Script, extra: Bytes, included: seq<Tx>)
    requires Recorded(n) && PoolSound(n, rules) && (included == [] || Enumerates(included, n.pool.entries))
    ensures PoolSound(Next(n, rules, Mine(payout, extra, included)), rules)
    ensures included != [] ==> Next(n, rules, Mine(payout, extra, included)).pool.entries == map[]
  {
    if included != [] {
      MineEmptiesPool(n, rules, payout, extra, included);
    } else {
      EmptyBlockKeepsPool(n, rules, payout, extra);
    }
  }

  lemma MineEmptiesPool(n: NodeState, rules: Rules, payout: Script, extra: Bytes, included: seq<Tx>)
    requires Recorded(n) && PoolSound(n, rules) && included != [] && Enumerates(included, n.pool.entries)
    ensures Next(n, rules, Mine(payout, extra, included)).pool.entries == map[]
    ensures PoolSound(Next(n, rules, Mine(payout, extra, included)), rules)
  {
    var m := Next(n, rules, Mine(payout, extra, included));
    EvictAllEntries(n.pool, included);
    forall id | id in n.pool.entries ensures id !in m.pool.entries {
      assert id == IdOf(n.pool.entries[id].tx) && n.pool.entries[id].tx in included;
    }
  }

  lemma EmptyBlockKeepsPool(n: NodeState, rules: Rules, payout: Script, extra: Bytes)
    requires Recorded(n) && PoolSound(n, rules)
    ensures PoolSound(Next(n, rules, Mine(payout, extra, [])), rules)
  {
    var cb := MinedBlock(n, rules, payout, extra, [])[0];
    EmptyBlockIsCoinbase(n, rules, payout, extra);
    EvictAllEntries(n.pool, []);
    hide Next, Valid, ConnectTx, MinedBlock, Recorded, Indexed;
    forall id | id in n.pool.entries
      ensures Valid(ConnectTx(n.utxos, n.height + 1, cb), rules.verify, n.pool.entries[id].tx) {
      StaysValid(n.utxos, rules.verify, n.height + 1, cb, n.pool.entries[id].tx);
    }
  }

  lemma EmptyBlockIsCoinbase(n: NodeState, rules: Rules, payout: Script, extra: Bytes)
    requires Recorded(n) && PoolSound(n, rules)
    ensures var m, txs := Next(n, rules, Mine(payout, extra, [])), MinedBlock(n, rules, payout, extra, []);
            && |txs| == 1 && IsCoinbase(txs[0]) && Created(txs[0]) !! n.utxos.Keys
            && m.pool == n.pool && m.utxos == ConnectTx(n.utxos, n.height + 1, txs[0])
  {
    hide ConnectTx, FeeSum, PoolSound, RowFits, Settled, SetOf;
    var txs := MinedBlock(n, rules, payout, extra, []);
    assert txs == [txs[0]] + [];
    ConnectAfterFirst(n.utxos, n.height + 1, txs[0], []);
    CoinbaseIsNew(n, rules.reward + FeeSum(n.utxos, rules.verify, []), payout, extra);
    forall o | o in n.utxos ensures o !in Created(txs[0]) { assert FromMined(n, o); }
  }

  lemma StaysValid(u: Table, verify: Interpreter, height: int, cb: Tx, tx: Tx)
    requires Valid(u, verify, tx) && IsCoinbase(cb) && Created(cb) !! u.Keys
    ensures Valid(ConnectTx(u, height, cb), verify, tx)
  {
    var v := ConnectTx(u, height, cb);
    ValidInputsUnspent(u, verify, tx);
    forall i | 0 <= i < |tx.inputs|
      ensures Unlocks(v, verify, tx, i) && ValueAt(u, tx.inputs[i].prev) == ValueAt(v, tx.inputs[i].prev) {
      assert Unlocks(u, verify, tx, i) && tx.inputs[i].prev in Prevs(tx.inputs);
    }
    SumsAgree(u, v, tx.inputs);
  }

  lemma StepKeepsSound(n: NodeState, rules: Rules, step: Step)
    requires Sound(n, rules) && Legal(n, rules, step)
    ensures Sound(Next(n, rules, step), rules)
  {
    hide Recorded, PoolSound, Legal;
    match step
    case Submit(tx, towers) => SubmitKeepsSound(n, rules, tx, towers);
    case Mine(payout, extra, included) =>
      assert included == [] || Enumerates(included, n.pool.entries) by { LegalMine(n, rules, payout, extra, included); }
      MineKeepsRecorded(n, rules, payout, extra, included);
      MineKeepsPool(n, rules, payout, extra, included);
  }

  lemma LegalMine(n: NodeState, rules: Rules, payout: Script, extra: Bytes, included: seq<Tx>)
    ensures Legal(n, rules, Mine(payout, extra, included)) <==> included == [] || Enumerates(included, n.pool.entries)
  {
  }

  /** Over every run of submissions and mined blocks - whatever is submitted, with towers coming and
      going - unspent outputs come from mined transactions, mined inputs are spent for good, and
      mempool entries stay valid. */
  lemma {:induction false} EveryRunIsSound(n: NodeState, rules: Rules, steps: seq<Step>)
    requires Sound(n, rules) && LegalRun(n, rules, steps)
    ensures Sound(Run(n, rules, steps), rules)
    decreases steps
  {
    if steps != [] {
      StepKeepsSound(n, rules, steps[0]);
      EveryRunIsSound(Next(n, rules, steps[0]), rules, steps[1..]);
    }
  }

  // ---------- what is created twice ----------

  /** Over every legal run no transaction that can be mined next spends the coinbase of its block. */
  lemma CoinbaseIsUnspent(rules: Rules, steps: seq<Step>, payout: Script, extra: Bytes, included: seq<Tx>)
    requires LegalRun(START, rules, steps)
    requires Legal(Run(START, rules, steps), rules, Mine(payout, extra, included))
    ensures var txs := MinedBlock(Run(START, rules, steps), rules, payout, extra, included);
            Outpoint(IdOf(txs[0]), 0) !in SpentBy(included)
  {
    hide MakeCoinbase, Recorded, PoolSound, Legal, LegalRun, Run, Minable;
    var n := Run(START, rules, steps);
    StartIsSound(rules);
    EveryRunIsSound(START, rules, steps);
    LegalMine(n, rules, payout, extra, included);
    PoolIsMinable(n, rules, included);
    CoinbaseIsNew(n, rules.reward + FeeSum(n.utxos, rules.verify, included), payout, extra);
    var o := Outpoint(IdOf(MinedBlock(n, rules, payout, extra, included)[0]), 0);
    RowIsMined(n, o);
    forall i | 0 <= i < |included| ensures o !in Spent(included[i]) {
      MinableIsValid(n, rules, included, included[i]);
      ValidInputsUnspent(n.utxos, rules.verify, included[i]);
    }
  }

  lemma RowIsMined(n: NodeState, o: Outpoint)
    requires Recorded(n)
    ensures o in n.utxos ==> FromMined(n, o)
  {
  }

  /** Over every run: a transaction that is mined again after it was mined is made of nothing and
      worth nothing; and no block holds a transaction twice. */
  lemma NoTxidTwice(rules: Rules, steps: seq<Step>, payout: Script, extra: Bytes, included: seq<Tx>)
    requires LegalRun(START, rules, steps)
    requires Legal(Run(START, rules, steps), rules, Mine(payout, extra, included))
    ensures var n := Run(START, rules, steps);
            var txs := MinedBlock(n, rules, payout, extra, included);
            && (forall t :: t in txs && t in n.mined ==> Rootless(t) && Worthless(t))
            && (forall i, j :: 0 <= i < j < |txs| ==> txs[i] != txs[j])
  {
    hide Sound, Next, Legal;
    var n := Run(START, rules, steps);
    assert Sound(n, rules) by { StartIsSound(rules); EveryRunIsSound(START, rules, steps); }
    LegalMine(n, rules, payout, extra, included);
    RepeatedIsRootless(n, rules, payout, extra, included);
  }

  lemma RepeatedIsRootless(n: NodeState, rules: Rules, payout: Script, extra: Bytes, included: seq<Tx>)
    requires Sound(n, rules) && (included == [] || Enumerates(included, n.pool.entries))
    ensures var txs := MinedBlock(n, rules, payout, extra, included);
            && (forall t :: t in txs && t in n.mined ==> Rootless(t) && Worthless(t))
            && (forall i, j :: 0 <= i < j < |txs| ==> txs[i] != txs[j])
  {
    MinedIsNew(n, rules, payout, extra, included);
    forall t | t in MinedBlock(n, rules, payout, extra, included) && t in n.mined ensures Worthless(t) {
      assert Settled(n, t);
    }
  }

  /** Made of nothing at all: no inputs, and worth nothing. */
  predicate FromNothing(tx: Tx) {
    tx.inputs == [] && Worthless(tx)
  }

  lemma {:induction false} ZeroSum(outs: seq<TxOut>)
    requires forall i :: 0 <= i < |outs| ==> outs[i].value == 0
    ensures OutputSum(outs) == 0
  {
    if outs != [] {
      assert forall i :: 0 <= i < |outs| - 1 ==> outs[..|outs| - 1][i] == outs[i];
      ZeroSum(outs[..|outs| - 1]);
    }
  }

  /** Of the transactions without inputs, exactly the worthless ones are valid, on any table. */
  lemma ValidFromNothing(u: Table, verify: Interpreter, tx: Tx)
    requires tx.inputs == []
    ensures Valid(u, verify, tx) <==> FromNothing(tx)
  {
    if FromNothing(tx) { ZeroSum(tx.outputs); }
    if Valid(u, verify, tx) { NothingOut(tx.outputs); }
  }

  /** Nothing made of nothing has been mined or waits to be. */
  ghost predicate AllRooted(n: NodeState) {
    && (forall t :: t in n.mined ==> !Rootless(t))
    && (forall id :: id in n.pool.entries ==> n.pool.entries[id].tx.inputs != [])
  }

  lemma SubmitKeepsRooted(n: NodeState, rules: Rules, tx: Tx, towers: seq<Registry>)
    requires Sound(n, rules) && Legal(n, rules, Submit(tx, towers)) && AllRooted(n) && !FromNothing(tx)
    ensures AllRooted(Next(n, rules, Submit(tx, towers)))
  {
    hide Valid, FromNothing, Rootless, Recorded, Admit;
    var env := Env(n.utxos, rules.verify, towers);
    AdmitEvolves(n.pool, env, tx);
    var t := Admit(n.pool, env, tx).0;
    forall id | id in t.entries ensures t.entries[id].tx.inputs != [] {
      assert id == IdOf(t.entries[id].tx);
      if id !in n.pool.entries && id != IdOf(tx) {
        var i, c :| 0 <= i < |env.towers| && c in env.towers[i] && env.towers[i][c].current == id.tx;
        assert WellFormedRecord(c, env.towers[i][c]);
      } else if id !in n.pool.entries {
        assert ValidEntry(t.entries[id], env);
        assert tx.inputs == [] ==> !Valid(n.utxos, rules.verify, tx) by {
          if tx.inputs == [] { ValidFromNothing(n.utxos, rules.verify, tx); }
        }
      }
    }
  }

  lemma MineKeepsRooted(n: NodeState, rules: Rules, payout: Script, extra: Bytes, included: seq<Tx>)
    requires Sound(n, rules) && AllRooted(n) && (included == [] || Enumerates(included, n.pool.entries))
    ensures AllRooted(Next(n, rules, Mine(payout, extra, included)))
  {
    hide ConnectBlock, FeeSum;
    var txs := MinedBlock(n, rules, payout, extra, included);
    EvictAllEntries(n.pool, included);
    forall t | t in txs ensures !Rootless(t) {
      assert t == txs[0] || t in included;
      if t != txs[0] {
        assert n.pool.entries[IdOf(t)].tx == t && Unlocks(n.utxos, rules.verify, t, 0);
        assert FromMined(n, t.inputs[0].prev) && !RootlessOutput(t.inputs[0].prev);
      }
    }
  }

  /** The run submits allowed transactions only. */
  ghost predicate Within(steps: seq<Step>, allowed: Tx -> bool) {
    forall i :: 0 <= i < |steps| && steps[i].Submit? ==> allowed(steps[i].tx)
  }

  lemma {:induction false} RunKeepsRooted(n: NodeState, rules: Rules, steps: seq<Step>, allowed: Tx -> bool)
    requires Sound(n, rules) && LegalRun(n, rules, steps) && AllRooted(n)
    requires Within(steps, allowed) && forall t :: allowed(t) ==> !FromNothing(t)
    ensures AllRooted(Run(n, rules, steps))
    decreases steps
  {
    hide Sound, AllRooted, FromNothing, Next, Legal;
    if steps != [] {
      StepKeepsSound(n, rules, steps[0]);
      match steps[0] {
        case Submit(tx, towers) => SubmitKeepsRooted(n, rules, tx, towers);
        case Mine(payout, extra, included) =>
          LegalMine(n, rules, payout, extra, included);
          MineKeepsRooted(n, rules, payout, extra, included);
      }
      RunKeepsRooted(Next(n, rules, steps[0]), rules, steps[1..], allowed);
    }
  }

  /** The block that this step mines holds nothing that was mined before, and nothing twice. */
  ghost predicate MinesNew(n: NodeState, rules: Rules, step: Step) {
    step.Mine? ==>
      var txs := MinedBlock(n, rules, step.payout, step.extra, step.included);
      NoRepeats(txs) && forall t :: t in txs ==> t !in n.mined
  }

  /** After no run of allowed submissions and mined blocks does a block repeat a transaction. */
  ghost predicate NeverRepeats(rules: Rules, allowed: Tx -> bool) {
    forall steps, step |
      LegalRun(START, rules, steps) && Within(steps, allowed) && Legal(Run(START, rules, steps), rules, step) ::
      MinesNew(Run(START, rules, steps), rules, step)
  }

  lemma RootedMinesNew(rules: Rules, allowed: Tx -> bool, steps: seq<Step>, step: Step)
    requires forall t :: allowed(t) ==> !FromNothing(t)
    requires LegalRun(START, rules, steps) && Within(steps, allowed) && Legal(Run(START, rules, steps), rules, step)
    ensures MinesNew(Run(START, rules, steps), rules, step)
  {
    hide Sound, FromNothing, Next, Legal, Within, MinedBlock, Rootless;
    if step.Mine? {
      NoTxidTwice(rules, steps, step.payout, step.extra, step.included);
      StartIsSound(rules);
      RunKeepsRooted(START, rules, steps, allowed);
    }
  }

  // The same transaction, made of nothing, is submitted, mined and submitted again.
  function Twice(t: Tx): seq<Step> {
    [Submit(t, []), Mine([], [], [t]), Submit(t, [])]
  }

  lemma ValidEnters(n: NodeState, rules: Rules, t: Tx)
    requires PoolSound(n, rules) && n.pool.entries == map[] && Valid(n.utxos, rules.verify, t)
    ensures Legal(n, rules, Submit(t, []))
    ensures var m := Next(n, rules, Submit(t, []));
            Enumerates([t], m.pool.entries) && m.mined == n.mined && m.utxos == n.utxos && m.height == n.height
  {
    hide Valid, Indexed, Outranks, Admit;
    var env := Env(n.utxos, rules.verify, []);
    ConflictsAreEntries(n.pool, t);
    AdmitCases(n.pool, env, t);
    assert Conflicts(n.pool, t) == {};
    assert Admit(n.pool, env, t).0.entries.Keys == {IdOf(t)};
  }

  lemma NothingEnters(n: NodeState, rules: Rules, t: Tx)
    requires PoolSound(n, rules) && n.pool.entries == map[] && FromNothing(t)
    ensures Legal(n, rules, Submit(t, []))
    ensures var m := Next(n, rules, Submit(t, []));
            Enumerates([t], m.pool.entries) && m.mined == n.mined
  {
    hide Valid, Next, PoolSound, Legal, Worthless;
    ValidFromNothing(n.utxos, rules.verify, t);
    ValidEnters(n, rules, t);
  }

  lemma EntryIsMined(n: NodeState, rules: Rules, t: Tx)
    requires Sound(n, rules) && Enumerates([t], n.pool.entries)
    ensures Legal(n, rules, Mine([], [], [t]))
    ensures var m := Next(n, rules, Mine([], [], [t]));
            m.pool.entries == map[] && t in m.mined && Sound(m, rules)
    ensures t in MinedBlock(n, rules, [], [], [t])
  {
    hide ConnectBlock, Recorded, PoolSound, EvictAll, FeeSum, MakeCoinbase;
    assert t == MinedBlock(n, rules, [], [], [t])[1];
    MineEmptiesPool(n, rules, [], [], [t]);
    StepKeepsSound(n, rules, Mine([], [], [t]));
  }

  /** Whatever is made of nothing can be mined again and again. */
  lemma NothingIsMinedTwice(rules: Rules, t: Tx)
    requires FromNothing(t)
    ensures LegalRun(START, rules, Twice(t))
    ensures var n := Run(START, rules, Twice(t));
            && Legal(n, rules, Mine([], [], [t])) && t in n.mined
            && t in MinedBlock(n, rules, [], [], [t])
  {
    hide Legal, Next, Sound, FromNothing, MinedBlock;
    var s := Twice(t);
    assert Sound(START, rules) && PoolSound(START, rules) by { StartIsSound(rules); SoundPool(START, rules); }
    NothingEnters(START, rules, t);
    StepKeepsSound(START, rules, s[0]);
    var n1 := Next(START, rules, s[0]);
    EntryIsMined(n1, rules, t);
    var n2 := Next(n1, rules, s[1]);
    SoundPool(n2, rules);
    NothingEnters(n2, rules, t);
    StepKeepsSound(n2, rules, s[2]);
    var n3 := Next(n2, rules, s[2]);
    EntryIsMined(n3, rules, t);
    ThreeSteps(START, rules, s, n1, n2, n3);
  }

  lemma SoundPool(n: NodeState, rules: Rules)
    requires Sound(n, rules)
    ensures PoolSound(n, rules)
  {
  }

  lemma ThreeSteps(n: NodeState, rules: Rules, s: seq<Step>, n1: NodeState, n2: NodeState, n3: NodeState)
    requires |s| == 3
    requires Legal(n, rules, s[0]) && Next(n, rules, s[0]) == n1
    requires Legal(n1, rules, s[1]) && Next(n1, rules, s[1]) == n2
    requires Legal(n2, rules, s[2]) && Next(n2, rules, s[2]) == n3
    ensures LegalRun(n, rules, s) && Run(n, rules, s) == n3
  {
    hide Legal, Next;
    assert s[1..][0] == s[1] && s[1..][1..] == [s[2]] && [s[2]][1..] == [];
    assert LegalRun(n3, rules, []) && Run(n3, rules, []) == n3;
    assert LegalRun(n2, rules, [s[2]]) && Run(n2, rules, [s[2]]) == n3;
    assert LegalRun(n1, rules, s[1..]) && Run(n1, rules, s[1..]) == n3;
  }

  /** When no transaction identifier is ever created twice, exactly: whatever is allowed to be
      submitted, no run of allowed submissions and mined blocks repeats a transaction if and only if
      nothing allowed is without inputs and worthless. */
  lemma NoTxidTwiceExactly(rules: Rules, allowed: Tx -> bool)
    ensures NeverRepeats(rules, allowed) <==> forall t :: allowed(t) ==> !FromNothing(t)
  {
    hide Legal, LegalRun, Run, FromNothing, MinesNew;
    if forall t :: allowed(t) ==> !FromNothing(t) {
      forall steps, step |
        LegalRun(START, rules, steps) && Within(steps, allowed) && Legal(Run(START, rules, steps), rules, step)
        ensures MinesNew(Run(START, rules, steps), rules, step)
      {
        RootedMinesNew(rules, allowed, steps, step);
      }
    } else {
      var t :| allowed(t) && FromNothing(t);
      NothingIsMinedTwice(rules, t);
      assert Within(Twice(t), allowed);
      NotNew(Run(START, rules, Twice(t)), rules, t);
    }
  }

  lemma NotNew(n: NodeState, rules: Rules, t: Tx)
    requires t in n.mined && t in MinedBlock(n, rules, [], [], [t])
    ensures !MinesNew(n, rules, Mine([], [], [t]))
  {
  }

  // ---------- the money supply ----------

  /** What the blocks of the run bring in twice, because a transaction names an outpoint repeatedly. */
  ghost function Doubled(n: NodeState, rules: Rules, steps: seq<Step>): int
    requires LegalRun(n, rules, steps)
    decreases steps
  {
    if steps == [] then 0
    else
      (if steps[0].Mine? then RepeatedBy(n.utxos, steps[0].included) else 0)
      + Doubled(Next(n, rules, steps[0]), rules, steps[1..])
  }

  lemma {:induction false} RepeatedIsWhole(u: Table, txs: seq<Tx>)
    requires forall o :: o in u ==> u[o].value >= 0
    ensures RepeatedBy(u, txs) >= 0
  {
    if txs != [] {
      RepeatedIsWhole(u, txs[..|txs| - 1]);
      RepeatedIsZero(u, txs[|txs| - 1].inputs);
    }
  }

  /** A mined block raises the total by the reward and what it brings in twice. */
  lemma MineMints(n: NodeState, rules: Rules, payout: Script, extra: Bytes, included: seq<Tx>)
    requires Sound(n, rules) && (included == [] || Enumerates(included, n.pool.entries))
    ensures Total(Next(n, rules, Mine(payout, extra, included)).utxos)
            == Total(n.utxos) + rules.reward + RepeatedBy(n.utxos, included)
    ensures RepeatedBy(n.utxos, included) >= 0
  {
    hide Total, Recorded, PoolSound, ConnectBlock, Minable, AllNew, Enumerates, MakeCoinbase, FeeSum, RepeatedBy,
         Rootless, Worthless, EvictAll, SetOf, RootlessOutput, Renews;
    MinedIsNew(n, rules, payout, extra, included);
    PoolIsMinable(n, rules, included);
    BlockMintsExactly(n.utxos, rules.verify, rules.reward, n.height + 1, payout, extra, included);
    RowsAreWhole(n);
    RepeatedIsWhole(n.utxos, included);
  }

  lemma RowsAreWhole(n: NodeState)
    requires Recorded(n)
    ensures forall o :: o in n.utxos ==> n.utxos[o].value >= 0
  {
    assert forall o :: o in n.utxos ==> RowFits(n.utxos, o);
  }

  lemma StepMints(n: NodeState, rules: Rules, step: Step)
    requires Sound(n, rules) && Legal(n, rules, step)
    ensures var m, twice := Next(n, rules, step), if step.Mine? then RepeatedBy(n.utxos, step.included) else 0;
            && m.height == n.height + (if step.Mine? then 1 else 0) && twice >= 0
            && Total(m.utxos) == Total(n.utxos) + rules.reward * (m.height - n.height) + twice
  {
    hide Sound, Total, RepeatedBy, ConnectBlock, EvictAll, Admit, BlockTxs;
    if step.Mine? { MineMints(n, rules, step.payout, step.extra, step.included); }
  }

  lemma {:induction false} RunMints(n: NodeState, rules: Rules, steps: seq<Step>)
    requires Sound(n, rules) && LegalRun(n, rules, steps)
    ensures var m := Run(n, rules, steps);
            && m.height >= n.height && Doubled(n, rules, steps) >= 0
            && Total(m.utxos) == Total(n.utxos) + rules.reward * (m.height - n.height) + Doubled(n, rules, steps)
    decreases steps
  {
    hide Sound, Total, RepeatedBy, Next, Legal;
    if steps != [] {
      var n1, m := Next(n, rules, steps[0]), Run(n, rules, steps);
      StepKeepsSound(n, rules, steps[0]);
      StepMints(n, rules, steps[0]);
      RunMints(n1, rules, steps[1..]);
      Distribute(rules.reward, n1.height - n.height, m.height - n1.height);
    }
  }

  lemma Distribute(r: int, g: int, h: int)
    ensures r * (g + h) == r * g + r * h
  {
  }

  /** Over every run from genesis: the unspent outputs total the reward times the height, and what
      repeated inputs brought in twice, which is never negative; so the supply is as promised if
      and only if that is nothing. */
  lemma MoneySupply(rules: Rules, steps: seq<Step>)
    requires LegalRun(START, rules, steps)
    ensures var n := Run(START, rules, steps);
            && Total(n.utxos) == rules.reward * n.height + Doubled(START, rules, steps)
            && Doubled(START, rules, steps) >= 0
  {
    hide Sound, LegalRun, Run, Doubled;
    StartIsSound(rules);
    RunMints(START, rules, steps);
  }

  lemma EmptyBlock(n: NodeState, rules: Rules)
    requires rules.reward == 1
    ensures Legal(n, rules, Mine([], [], []))
    ensures var m := Next(n, rules, Mine([], [], []));
            && m.utxos == n.utxos[CoinOf(n.height + 1) := Utxo(1, [], n.height + 1)]
            && m.height == n.height + 1 && m.pool == n.pool
  {
    hide ConnectBlock, MakeCoinbase;
    CoinbaseConnects(n.utxos, n.height + 1);
    assert MinedBlock(n, rules, [], [], []) == [Coinbase(n.height + 1)];
  }

  const DOUBLING: seq<Step> := [Mine([], [], []), Submit(DOUBLER, []), Mine([], [], [DOUBLER])]

  /** Money is made in a run from genesis: after two blocks under a reward of one, the second
      taking in a transaction that names the first coinbase twice, three are in circulation. */
  lemma DoublingRun(verify: Interpreter)
    requires forall i, out :: verify(DOUBLER, i, out)
    ensures var rules := Rules(1, verify);
            && LegalRun(START, rules, DOUBLING) && Doubled(START, rules, DOUBLING) == 1
            && Run(START, rules, DOUBLING).height == 2 && Total(Run(START, rules, DOUBLING).utxos) == 3
  {
    hide Legal, Next, Sound, Total, Valid, MinedBlock, MakeCoinbase, Repeated;
    var rules, s := Rules(1, verify), DOUBLING;
    StartIsSound(rules);
    EmptyBlock(START, rules);
    StepKeepsSound(START, rules, s[0]);
    var n1 := Next(START, rules, s[0]);
    assert n1.utxos == ONE_COIN;
    DoubledInputMints(verify);
    SoundPool(n1, rules);
    ValidEnters(n1, rules, DOUBLER);
    StepKeepsSound(n1, rules, s[1]);
    var n2 := Next(n1, rules, s[1]);
    EntryIsMined(n2, rules, DOUBLER);
    var n3 := Next(n2, rules, s[2]);
    MineRaisesHeight(n2, rules, [DOUBLER]);
    ThreeSteps(START, rules, s, n1, n2, n3);
    DoublerBringsTwo();
    DoubledThree(START, rules, s, n1, n2);
    OneRepeated(ONE_COIN, DOUBLER);
    MoneySupply(rules, s);
  }

  lemma MineRaisesHeight(n: NodeState, rules: Rules, included: seq<Tx>)
    requires Legal(n, rules, Mine([], [], included))
    ensures Next(n, rules, Mine([], [], included)).height == n.height + 1
  {
  }

  lemma OneRepeated(u: Table, t: Tx)
    ensures RepeatedBy(u, []) == 0 && RepeatedBy(u, [t]) == Repeated(u, t.inputs)
  {
    assert [t][..0] == [];
  }

  lemma DoubledThree(n: NodeState, rules: Rules, s: seq<Step>, n1: NodeState, n2: NodeState)
    requires LegalRun(n, rules, s) && |s| == 3 && s[0].Mine? && s[1].Submit? && s[2].Mine?
    requires Next(n, rules, s[0]) == n1
    requires Legal(n1, rules, s[1]) && Next(n1, rules, s[1]) == n2
    ensures Doubled(n, rules, s) == RepeatedBy(n.utxos, s[0].included) + RepeatedBy(n2.utxos, s[2].included)
  {
    hide Legal, Next, RepeatedBy;
    assert s[1..][0] == s[1] && s[1..][1..] == [s[2]] && [s[2]][1..] == [];
    assert LegalRun(n2, rules, [s[2]]);
    assert Doubled(n2, rules, [s[2]]) == RepeatedBy(n2.utxos, s[2].included);
  }

  /** No outpoint is named twice. */
  predicate DistinctInputs(tx: Tx) {
    forall i, j :: 0 <= i < j < |tx.inputs| ==> tx.inputs[i].prev != tx.inputs[j].prev
  }

  ghost predicate PoolDistinct(n: NodeState) {
    forall id :: id in n.pool.entries ==> DistinctInputs(n.pool.entries[id].tx)
  }

  lemma {:induction false} NothingRepeats(u: Table, ins: seq<TxIn>)
    requires forall i, j :: 0 <= i < j < |ins| ==> ins[i].prev != ins[j].prev
    ensures Repeated(u, ins) == 0
  {
    if ins != [] {
      var n := |ins| - 1;
      assert forall i :: 0 <= i < n ==> ins[..n][i] == ins[i];
      NothingRepeats(u, ins[..n]);
    }
  }

  lemma {:induction false} NothingRepeatsInBlock(u: Table, txs: seq<Tx>)
    requires forall t :: t in txs ==> DistinctInputs(t)
    ensures RepeatedBy(u, txs) == 0
  {
    if txs != [] {
      NothingRepeatsInBlock(u, txs[..|txs| - 1]);
      assert txs[|txs| - 1] in txs;
      NothingRepeats(u, txs[|txs| - 1].inputs);
    }
  }

  lemma StepKeepsDistinct(n: NodeState, rules: Rules, step: Step)
    requires Sound(n, rules) && Legal(n, rules, step) && PoolDistinct(n)
    requires step.Submit? ==> DistinctInputs(step.tx)
    ensures PoolDistinct(Next(n, rules, step))
  {
    match step
    case Submit(tx, towers) =>
      var env := Env(n.utxos, rules.verify, towers);
      AdmitEvolves(n.pool, env, tx);
      var t := Admit(n.pool, env, tx).0;
      forall id | id in t.entries ensures DistinctInputs(t.entries[id].tx) {
        assert id == IdOf(t.entries[id].tx);
        if id !in n.pool.entries && id != IdOf(tx) {
          var i, c :| 0 <= i < |env.towers| && c in env.towers[i] && env.towers[i][c].current == id.tx;
          assert WellFormedRecord(c, env.towers[i][c]);
        }
      }
    case Mine(payout, extra, included) =>
      EvictAllEntries(n.pool, included);
  }

  lemma {:induction false} NothingDoubled(n: NodeState, rules: Rules, steps: seq<Step>)
    requires Sound(n, rules) && LegalRun(n, rules, steps) && PoolDistinct(n)
    requires forall i :: 0 <= i < |steps| && steps[i].Submit? ==> DistinctInputs(steps[i].tx)
    ensures Doubled(n, rules, steps) == 0
    decreases steps
  {
    if steps != [] {
      StepKeepsSound(n, rules, steps[0]);
      StepKeepsDistinct(n, rules, steps[0]);
      NothingDoubled(Next(n, rules, steps[0]), rules, steps[1..]);
      if steps[0].Mine? { BlockIsDistinct(n, rules, steps[0]); }
    }
  }

  lemma BlockIsDistinct(n: NodeState, rules: Rules, step: Step)
    requires Legal(n, rules, step) && PoolDistinct(n) && step.Mine? && Indexed(n.pool)
    ensures RepeatedBy(n.utxos, step.included) == 0
  {
    forall t | t in step.included ensures DistinctInputs(t) {
      assert n.pool.entries[IdOf(t)].tx == t;
    }
    NothingRepeatsInBlock(n.utxos, step.included);
  }

  /** If nobody names an outpoint twice, every coin in circulation was minted by a block reward. */
  lemma RewardsOnly(rules: Rules, steps: seq<Step>)
    requires LegalRun(START, rules, steps)
    requires forall i :: 0 <= i < |steps| && steps[i].Submit? ==> DistinctInputs(steps[i].tx)
    ensures Total(Run(START, rules, steps).utxos) == rules.reward * Run(START, rules, steps).height
  {
    StartIsSound(rules);
    MoneySupply(rules, steps);
    NothingDoubled(START, rules, steps);
  }
}
