/** Blocks mined from the mempool: the coinbase, what is created fresh, and the money supply. */
module Mining {
  import opened Ledger
  import opened Validation
  import ScriptNum

  /** Pays the reward and the fees; the height goes into the input script as a minimal number. */
  function MakeCoinbase(value: int, payout: Script, height: nat, extra: Bytes): Tx {
    var scriptSig := [Push(ScriptNum.Encode(height))] + if extra == [] then [] else [Push(extra)];
    Tx([TxIn(COINBASE_PREV, scriptSig, FINAL_SEQUENCE)], [TxOut(value, payout)], 0)
  }

  /** Fees of the transactions that validate. */
  function FeeSum(u: Table, verify: Interpreter, txs: seq<Tx>): int {
    if txs == [] then 0
    else
      var v := Judge(u, verify, txs[|txs| - 1]);
      FeeSum(u, verify, txs[..|txs| - 1]) + if v.Accepted? then v.Fee() else 0
  }

  function BlockTxs(u: Table, verify: Interpreter, reward: nat, height: nat, payout: Script, extra: Bytes,
                    included: seq<Tx>): seq<Tx> {
    [MakeCoinbase(reward + FeeSum(u, verify, included), payout, height, extra)] + included
  }

  /** A push of the fewest bytes that read as the height. */
  ghost predicate PushesHeight(item: Item, height: nat) {
    && item.Push? && ScriptNum.Decode(item.data) == height
    && forall b :: ScriptNum.Decode(b) == height ==> |item.data| <= |b|
  }

  /** A coinbase: its only output pays the value to the given script; its only input names no
      transaction and is final; its unlocking script pushes the height and then the extra bytes,
      if there are any. */
  ghost predicate IsCoinbaseFor(cb: Tx, value: int, payout: Script, height: nat, extra: Bytes) {
    && cb.outputs == [TxOut(value, payout)] && cb.locktime == 0 && |cb.inputs| == 1
    && cb.inputs[0].prev == Outpoint(NullId, 0xFFFF_FFFF) && cb.inputs[0].sequence == 0xFFFF_FFFF
    && cb.inputs[0].scriptSig != [] && PushesHeight(cb.inputs[0].scriptSig[0], height)
    && cb.inputs[0].scriptSig[1..] == if extra == [] then [] else [Push(extra)]
  }

  lemma CoinbaseIs(value: int, payout: Script, height: nat, extra: Bytes)
    ensures IsCoinbaseFor(MakeCoinbase(value, payout, height, extra), value, payout, height, extra)
  {
    ScriptNum.DecodeEncode(height);
    forall b | ScriptNum.Decode(b) == height ensures |ScriptNum.Encode(height)| <= |b| {
      ScriptNum.EncodeIsMinimal(height, b);
    }
  }

  /** The fees of a list: each further transaction adds what its inputs bring in beyond its outputs
      if it is valid, and else nothing. */
  lemma FeesAdd(u: Table, verify: Interpreter, txs: seq<Tx>, t: Tx)
    ensures FeeSum(u, verify, []) == 0
    ensures FeeSum(u, verify, txs + [t]) == FeeSum(u, verify, txs)
              + if Valid(u, verify, t) then InputSum(u, t.inputs) - OutputSum(t.outputs) else 0
  {
    assert (txs + [t])[..|txs|] == txs;
    AcceptedIffValid(u, verify, t);
  }

  /** Coinbases of different heights differ, because the height's encoding is injective. */
  lemma CoinbasesDiffer(v: int, w: int, p: Script, q: Script, g: nat, h: nat, x: Bytes, y: Bytes)
    requires MakeCoinbase(v, p, g, x) == MakeCoinbase(w, q, h, y)
    ensures g == h
  {
    var a, b := MakeCoinbase(v, p, g, x), MakeCoinbase(w, q, h, y);
    assert a.inputs[0].scriptSig[0] == Push(ScriptNum.Encode(g));
    assert b.inputs[0].scriptSig[0] == Push(ScriptNum.Encode(h));
    ScriptNum.EncodeIsInjective(g, h);
  }

  // ---------- total value ----------

  ghost function Total(u: Table): int
    decreases |u|
  {
    if u == map[] then 0
    else
      var o :| o in u;
      assert |u - {o}| < |u| by { assert u.Keys - {o} == (u - {o}).Keys; assert |u.Keys - {o}| < |u.Keys|; }
      u[o].value + Total(u - {o})
  }

  lemma {:induction false} TotalRemove(u: Table, o: Outpoint)
    requires o in u
    ensures Total(u) == u[o].value + Total(u - {o})
    decreases |u|
  {
    var x :| x in u && Total(u) == u[x].value + Total(u - {x});
    if x != o {
      assert (u - {x}).Keys == u.Keys - {x};
      assert |u.Keys - {x}| == |u.Keys| - 1;
      TotalRemove(u - {x}, o);
      assert |u.Keys - {o}| == |u.Keys| - 1 && (u - {o}).Keys == u.Keys - {o};
      TotalRemove(u - {o}, x);
      assert u - {x} - {o} == u - {o} - {x};
    }
  }

  /** Writing a row where there was none, or a worthless one, adds its value. */
  lemma TotalSet(u: Table, o: Outpoint, e: Utxo)
    requires o in u ==> u[o].value == 0
    ensures Total(u[o := e]) == Total(u) + e.value
  {
    TotalRemove(u[o := e], o);
    if o in u {
      TotalRemove(u, o);
      assert u[o := e] - {o} == u - {o};
    } else {
      assert u[o := e] - {o} == u;
    }
  }

  /** What inputs bring in beyond what they remove: the value of repeated inputs. */
  function Repeated(u: Table, ins: seq<TxIn>): int {
    if ins == [] then 0
    else
      var o, rest := ins[|ins| - 1].prev, ins[..|ins| - 1];
      Repeated(u, rest) + if o in Prevs(rest) then ValueAt(u, o) else 0
  }

  lemma {:induction false} TotalDelete(u: Table, ins: seq<TxIn>)
    ensures Total(u - Prevs(ins)) == Total(u) - InputSum(u, ins) + Repeated(u, ins)
  {
    if ins == [] {
      assert u - Prevs(ins) == u;
    } else {
      var n := |ins| - 1;
      var o, rest := ins[n].prev, ins[..n];
      TotalDelete(u, rest);
      PrevsStep(ins, n);
      assert ins[..n + 1] == ins;
      assert u - Prevs(ins) == u - Prevs(rest) - {o};
      if o in u && o !in Prevs(rest) {
        TotalRemove(u - Prevs(rest), o);
      } else {
        assert u - Prevs(rest) - {o} == u - Prevs(rest);
      }
    }
  }

  lemma {:induction false} TotalInsert(u: Table, tx: Tx, height: int, j: nat)
    requires j <= |tx.outputs| && forall o :: o in Created(tx) && o in u ==> u[o].value == 0
    ensures Total(u + FirstEntries(tx, height, j)) == Total(u) + OutputSum(tx.outputs[..j])
  {
    if j == 0 {
      assert u + FirstEntries(tx, height, 0) == u;
    } else {
      TotalInsert(u, tx, height, j - 1);
      FirstEntriesStep(u, tx, height, j - 1);
      var o := Outpoint(IdOf(tx), j - 1);
      assert o in Created(tx);
      TotalSet(u + FirstEntries(tx, height, j - 1), o, Utxo(tx.outputs[j - 1].value, tx.outputs[j - 1].script, height));
      assert tx.outputs[..j][..j - 1] == tx.outputs[..j - 1];
    }
  }

  /** A transaction that overwrites nothing of value changes the total by its outputs minus the
      inputs it removes. */
  lemma TotalConnectTx(u: Table, height: int, tx: Tx)
    requires forall o :: o in Created(tx) && o in u ==> u[o].value == 0
    ensures Total(ConnectTx(u, height, tx)) == Total(u) + OutputSum(tx.outputs)
              - (if IsCoinbase(tx) then 0 else InputSum(u, tx.inputs) - Repeated(u, tx.inputs))
  {
    var v := u - Spent(tx);
    if !IsCoinbase(tx) { TotalDelete(u, tx.inputs); } else { assert v == u; }
    TotalInsert(v, tx, height, |tx.outputs|);
    assert FirstEntries(tx, height, |tx.outputs|) == NewEntries(tx, height);
    assert tx.outputs[..|tx.outputs|] == tx.outputs;
  }

  /** With values that are not negative, nothing is brought in twice exactly when every outpoint
      that occurs twice among the inputs is worth nothing. */
  lemma {:induction false} RepeatedIsZero(u: Table, ins: seq<TxIn>)
    requires forall o :: o in u ==> u[o].value >= 0
    ensures Repeated(u, ins) >= 0
    ensures Repeated(u, ins) == 0
       <==> forall i, j :: 0 <= i < j < |ins| && ins[i].prev == ins[j].prev ==> ValueAt(u, ins[j].prev) == 0
  {
    if ins != [] {
      var n := |ins| - 1;
      var o, rest := ins[n].prev, ins[..n];
      RepeatedIsZero(u, rest);
      assert forall i :: 0 <= i < n ==> rest[i] == ins[i];
      if o in Prevs(rest) {
        var i :| 0 <= i < n && rest[i].prev == o;
        assert ins[i].prev == ins[n].prev;
      } else {
        assert forall i :: 0 <= i < n ==> rest[i].prev != o;
      }
    }
  }

  // ---------- a block of mempool transactions ----------

  /** The transactions of a block, coinbase aside: each valid on the table, no shared inputs. */
  ghost predicate Minable(u: Table, verify: Interpreter, txs: seq<Tx>) {
    && (forall t :: t in txs ==> Valid(u, verify, t))
    && (forall i, j :: 0 <= i < j < |txs| ==> Prevs(txs[i].inputs) !! Prevs(txs[j].inputs))
  }

  /** What the transaction creates is not in the table, or is worthless there and in it. */
  ghost predicate Renews(u: Table, tx: Tx) {
    forall o :: o in Created(tx) && o in u ==> u[o].value == 0 == tx.outputs[o.vout].value
  }

  /** Nothing of value is overwritten, and no transaction occurs twice. */
  ghost predicate AllNew(u: Table, txs: seq<Tx>) {
    && (forall t :: t in txs ==> Renews(u, t))
    && (forall i, j :: 0 <= i < j < |txs| ==> txs[i] != txs[j])
  }

  function RepeatedBy(u: Table, txs: seq<Tx>): int {
    if txs == [] then 0 else RepeatedBy(u, txs[..|txs| - 1]) + Repeated(u, txs[|txs| - 1].inputs)
  }

  lemma {:induction false} SumsAgree(u: Table, v: Table, ins: seq<TxIn>)
    requires forall i :: 0 <= i < |ins| ==> ValueAt(u, ins[i].prev) == ValueAt(v, ins[i].prev)
    ensures InputSum(u, ins) == InputSum(v, ins) && Repeated(u, ins) == Repeated(v, ins)
  {
    if ins != [] {
      assert forall i :: 0 <= i < |ins| - 1 ==> ins[..|ins| - 1][i] == ins[i];
      SumsAgree(u, v, ins[..|ins| - 1]);
    }
  }

  lemma {:induction false} ConnectAfterFirst(u: Table, height: int, cb: Tx, txs: seq<Tx>)
    ensures ConnectBlock(u, height, [cb] + txs) == ConnectBlock(ConnectTx(u, height, cb), height, txs)
  {
    hide ConnectTx;
    var all, n := [cb] + txs, |txs|;
    if txs == [] {
      assert all[..0] == [];
    } else {
      assert all[..n] == [cb] + txs[..n - 1] && all[n] == txs[n - 1];
      ConnectAfterFirst(u, height, cb, txs[..n - 1]);
    }
  }

  lemma FrontIsMinable(u: Table, verify: Interpreter, cb: Tx, txs: seq<Tx>)
    requires txs != [] && Minable(u, verify, txs) && AllNew(u, [cb] + txs)
    ensures Minable(u, verify, txs[..|txs| - 1]) && AllNew(u, [cb] + txs[..|txs| - 1])
  {
    var front := txs[..|txs| - 1];
    var a, b := [cb] + front, [cb] + txs;
    assert forall i :: 0 <= i < |a| ==> a[i] == b[i];
    forall t | t in a ensures t in b {
      var i :| 0 <= i < |a| && a[i] == t;
      assert b[i] == t;
    }
    assert forall i :: 0 <= i < |front| ==> front[i] == txs[i];
    assert forall t :: t in front ==> t in txs;
  }

  /** Mempool transactions move value from the table to fees, except for repeated inputs. */
  lemma {:induction false} TotalMinable(u: Table, u1: Table, verify: Interpreter, height: int, cb: Tx, txs: seq<Tx>)
    requires Minable(u, verify, txs) && AllNew(u, [cb] + txs) && IsCoinbase(cb)
    requires u1 == ConnectTx(u, height, cb)
    ensures Total(ConnectBlock(u1, height, txs)) == Total(u1) - FeeSum(u, verify, txs) + RepeatedBy(u, txs)
    decreases |txs|
  {
    if txs != [] {
      var n := |txs| - 1;
      FrontIsMinable(u, verify, cb, txs);
      TotalMinable(u, u1, verify, height, cb, txs[..n]);
      TotalLast(u, u1, verify, height, cb, txs);
    }
  }

  lemma TotalLast(u: Table, u1: Table, verify: Interpreter, height: int, cb: Tx, txs: seq<Tx>)
    requires txs != [] && Minable(u, verify, txs) && AllNew(u, [cb] + txs) && IsCoinbase(cb)
    requires u1 == ConnectTx(u, height, cb)
    ensures var t := txs[|txs| - 1];
            && Judge(u, verify, t).Accepted?
            && Total(ConnectBlock(u1, height, txs)) == Total(ConnectBlock(u1, height, txs[..|txs| - 1]))
                 - Judge(u, verify, t).Fee() + Repeated(u, t.inputs)
  {
    var n := |txs| - 1;
    var v, t := ConnectBlock(u1, height, txs[..n]), txs[n];
    LastTx(u, u1, verify, height, cb, txs);
    TotalConnectTx(v, height, t);
    SumsAgree(u, v, t.inputs);
    assert t in txs;
    AcceptedIffValid(u, verify, t);
  }

  /** An outpoint that no transaction of a list creates is afterwards as before, or gone. */
  lemma {:induction false} NotCreated(u: Table, height: int, txs: seq<Tx>, o: Outpoint)
    requires forall t :: t in txs ==> o !in Created(t)
    ensures var v := ConnectBlock(u, height, txs);
            o in v ==> o in u && v[o] == u[o]
  {
    if txs != [] { NotCreated(u, height, txs[..|txs| - 1], o); }
  }

  /** An outpoint that no transaction of a list spends, and none creates with another value, keeps
      its value. */
  lemma {:induction false} KeepsValue(u: Table, height: int, txs: seq<Tx>, o: Outpoint)
    requires o in u && forall t :: t in txs ==> o !in Spent(t)
    requires forall t :: t in txs && o in Created(t) ==> t.outputs[o.vout].value == u[o].value
    ensures var v := ConnectBlock(u, height, txs);
            o in v && v[o].value == u[o].value
  {
    if txs != [] {
      KeepsValue(u, height, txs[..|txs| - 1], o);
      assert txs[|txs| - 1] in txs;
    }
  }

  /** The last transaction finds its inputs worth what they were before the block, and overwrites
      nothing of value. */
  lemma LastTx(u: Table, u1: Table, verify: Interpreter, height: int, cb: Tx, txs: seq<Tx>)
    requires txs != [] && Minable(u, verify, txs) && AllNew(u, [cb] + txs) && IsCoinbase(cb)
    requires u1 == ConnectTx(u, height, cb)
    ensures var n := |txs| - 1;
            var v := ConnectBlock(u1, height, txs[..n]);
            && (forall o :: o in Created(txs[n]) && o in v ==> v[o].value == 0) && !IsCoinbase(txs[n])
            && (forall i :: 0 <= i < |txs[n].inputs| ==>
                  ValueAt(u, txs[n].inputs[i].prev) == ValueAt(v, txs[n].inputs[i].prev))
  {
    var n := |txs| - 1;
    var t, front := txs[n], [cb] + txs[..n];
    var v := ConnectBlock(u1, height, txs[..n]);
    ConnectAfterFirst(u, height, cb, txs[..n]);
    assert v == ConnectBlock(u, height, front);
    assert t in txs && t == ([cb] + txs)[n + 1] && t in [cb] + txs;
    FrontIsApart(u, verify, cb, txs);
    hide ConnectBlock, ConnectTx, Valid, Created, Spent;
    forall o | o in Created(t) && o in v ensures v[o].value == 0 {
      NotCreated(u, height, front, o);
      assert Renews(u, t);
    }
    forall i | 0 <= i < |t.inputs| ensures ValueAt(u, t.inputs[i].prev) == ValueAt(v, t.inputs[i].prev) {
      KeepsValue(u, height, front, t.inputs[i].prev);
    }
  }

  /** The transactions before the last one create none of its outputs and spend none of its inputs. */
  lemma FrontIsApart(u: Table, verify: Interpreter, cb: Tx, txs: seq<Tx>)
    requires txs != [] && Minable(u, verify, txs) && AllNew(u, [cb] + txs) && IsCoinbase(cb)
    ensures var n := |txs| - 1;
            var t, front := txs[n], [cb] + txs[..n];
            && !IsCoinbase(t) && (forall i :: 0 <= i < |t.inputs| ==> t.inputs[i].prev in u)
            && (forall x :: x in front ==> Created(x) !! Created(t))
            && (forall x, i :: x in front && 0 <= i < |t.inputs| ==> t.inputs[i].prev !in Spent(x))
            && (forall x, o :: x in front && o in u && o in Created(x) ==> x.outputs[o.vout].value == u[o].value)
  {
    var n := |txs| - 1;
    var t, front, all := txs[n], [cb] + txs[..n], [cb] + txs;
    assert t in txs && Valid(u, verify, t);
    assert forall i :: 0 <= i < |t.inputs| ==> Unlocks(u, verify, t, i) && t.inputs[i].prev in Prevs(t.inputs);
    forall x | x in front
      ensures Created(x) !! Created(t) && Renews(u, x)
              && (forall i :: 0 <= i < |t.inputs| ==> t.inputs[i].prev !in Spent(x))
    {
      var k :| 0 <= k < |front| && front[k] == x;
      assert all[k] == x && all[n + 1] == t && x in all;
      CreatedDisjoint(x, t);
      if k > 0 { assert txs[k - 1] == x && Prevs(txs[k - 1].inputs) !! Prevs(txs[n].inputs); }
    }
  }

  lemma CreatedDisjoint(a: Tx, b: Tx)
    requires a != b
    ensures Created(a) !! Created(b)
  {
    forall o | o in Created(a) ensures o !in Created(b) { assert o.txid == IdOf(a); }
  }

  /** A mined block raises the total by the reward and, exactly, by the value of repeated inputs. */
  lemma BlockMintsExactly(u: Table, verify: Interpreter, reward: nat, height: nat, payout: Script, extra: Bytes,
                          included: seq<Tx>)
    requires Minable(u, verify, included)
    requires AllNew(u, BlockTxs(u, verify, reward, height, payout, extra, included))
    ensures Total(ConnectBlock(u, height, BlockTxs(u, verify, reward, height, payout, extra, included)))
         == Total(u) + reward + RepeatedBy(u, included)
  {
    var txs := BlockTxs(u, verify, reward, height, payout, extra, included);
    var cb := txs[0];
    assert cb in txs;
    TotalConnectTx(u, height, cb);
    assert OutputSum(cb.outputs) == cb.outputs[0].value by { assert cb.outputs[..0] == []; }
    ConnectAfterFirst(u, height, cb, included);
    TotalMinable(u, ConnectTx(u, height, cb), verify, height, cb, included);
  }

  /** What the first transaction of a block pays first is held afterwards, unless a later one spends it. */
  lemma {:induction false} FirstIsPaid(u: Table, height: int, cb: Tx, txs: seq<Tx>)
    requires cb.outputs != [] && Outpoint(IdOf(cb), 0) !in SpentBy(txs)
    ensures var o, v := Outpoint(IdOf(cb), 0), ConnectBlock(ConnectTx(u, height, cb), height, txs);
            o in v && v[o] == Utxo(cb.outputs[0].value, cb.outputs[0].script, height)
  {
    assert Outpoint(IdOf(cb), 0) in Created(cb);
    if txs != [] {
      TouchedStep(txs);
      FirstIsPaid(u, height, cb, txs[..|txs| - 1]);
    }
  }

  /** The miner of a block is paid: the reward and the fees are held for the payout script. */
  lemma MinerIsPaid(u: Table, verify: Interpreter, reward: nat, height: nat, payout: Script, extra: Bytes,
                    included: seq<Tx>)
    requires var txs := BlockTxs(u, verify, reward, height, payout, extra, included);
             Outpoint(IdOf(txs[0]), 0) !in SpentBy(included)
    ensures var txs := BlockTxs(u, verify, reward, height, payout, extra, included);
            var o, v := Outpoint(IdOf(txs[0]), 0), ConnectBlock(u, height, txs);
            o in v && v[o] == Utxo(reward + FeeSum(u, verify, included), payout, height)
  {
    hide ConnectTx, ConnectBlock, SpentBy;
    var cb := BlockTxs(u, verify, reward, height, payout, extra, included)[0];
    ConnectAfterFirst(u, height, cb, included);
    FirstIsPaid(u, height, cb, included);
  }

  // ---------- money out of a repeated input ----------

  /** The coinbase of an empty block of that height, under a reward of one. */
  function Coinbase(height: nat): Tx {
    MakeCoinbase(1, [], height, [])
  }

  function CoinOf(height: nat): Outpoint {
    Outpoint(IdOf(Coinbase(height)), 0)
  }

  lemma CoinbaseOutput(height: nat)
    ensures Created(Coinbase(height)) == {CoinOf(height)}
  {
    assert CoinOf(height) in Created(Coinbase(height));
  }

  lemma CoinbaseConnects(u: Table, height: nat)
    ensures ConnectBlock(u, height, [Coinbase(height)]) == u[CoinOf(height) := Utxo(1, [], height)]
  {
    var cb := Coinbase(height);
    assert [cb] + [] == [cb];
    ConnectAfterFirst(u, height, cb, []);
    CoinbaseOutput(height);
    assert IsCoinbase(cb) && cb.outputs == [TxOut(1, [])];
    hide MakeCoinbase, Created;
  }

  const REPEATED_COIN: Outpoint := CoinOf(1)
  const ONE_COIN: Table := map[REPEATED_COIN := Utxo(1, [], 1)]
  const DOUBLER: Tx := Tx([TxIn(REPEATED_COIN, [], 0), TxIn(REPEATED_COIN, [], 0)], [TxOut(2, [])], 0)

  lemma DoublerBringsTwo()
    ensures InputSum(ONE_COIN, DOUBLER.inputs) == 2 && Repeated(ONE_COIN, DOUBLER.inputs) == 1
  {
    var a := DOUBLER.inputs[0];
    hide MakeCoinbase;
    assert DOUBLER.inputs[..1] == [a] && [a][..0] == [];
    assert InputSum(ONE_COIN, [a]) == InputSum(ONE_COIN, []) + 1
        && Repeated(ONE_COIN, [a]) == Repeated(ONE_COIN, []) == 0;
    assert [a][0].prev == REPEATED_COIN && REPEATED_COIN in Prevs([a]);
  }

  lemma DoublerPaysTwo()
    ensures OutputSum(DOUBLER.outputs) == 2
  {
    assert DOUBLER.outputs[..0] == [];
  }

  lemma DoublerIsNew(o: Outpoint)
    ensures o in Created(DOUBLER) ==> o !in ONE_COIN
  {
    hide MakeCoinbase;
    assert o in Created(DOUBLER) ==> o.txid == IdOf(DOUBLER);
    assert DOUBLER.inputs[0].prev == REPEATED_COIN;
  }

  /** Two equal inputs count twice, so money is made: the guard that is missing is that inputs
      are distinct. */
  lemma DoubledInputMints(verify: Interpreter)
    requires forall i, out :: verify(DOUBLER, i, out)
    ensures Valid(ONE_COIN, verify, DOUBLER)
    ensures Total(ConnectTx(ONE_COIN, 1, DOUBLER)) == Total(ONE_COIN) + 1
  {
    DoublerBringsTwo();
    DoublerPaysTwo();
    forall o { DoublerIsNew(o); }
    hide MakeCoinbase, InputSum, OutputSum, Repeated;
    TotalConnectTx(ONE_COIN, 1, DOUBLER);
  }
}
