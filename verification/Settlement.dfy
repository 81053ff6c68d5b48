/** Runs of settlement transactions against the table of unspent outputs, and their rank in the
    mempool. */
module Settlement {
  import opened Ledger
  import opened Accounting
  import opened Validation
  import opened Pool
  import opened Cascade
  import opened Cover
  import opened Lifecycle

  /** The same transaction up to its unlocking scripts: signing changes nothing else. */
  predicate SameSpend(a: Tx, b: Tx) {
    && |a.inputs| == |b.inputs| && a.outputs == b.outputs && a.locktime == b.locktime
    && forall i :: 0 <= i < |a.inputs| ==>
       a.inputs[i].prev == b.inputs[i].prev && a.inputs[i].sequence == b.inputs[i].sequence
  }

  /** What the parties can put on the chain: a signed state, close or forfeit. */
  datatype Exit =
    | StateExit(state: State)
    | CloseExit(state: State)
    | ForfeitExit(offender: nat, tower: Option<Script>, fee: nat)

  function Unsigned(t: Terms, e: Exit): Result<Tx, LifecycleError>
    requires ValidTerms(t)
  {
    match e
    case StateExit(s) => StateTx(t, s)
    case CloseExit(s) => CloseTx(t, s)
    case ForfeitExit(offender, tower, fee) => ForfeitTx(t, offender, tower, fee)
  }

  /** The transaction settles the channel in the given way, on a conserving state if one is involved. */
  predicate Settles(t: Terms, e: Exit, tx: Tx)
    requires ValidTerms(t)
  {
    && (e.ForfeitExit? || Conserving(e.state, t.cfg))
    && Unsigned(t, e).Ok? && SameSpend(tx, Unsigned(t, e).value)
  }

  /** Which of the funding outputs 0..n an exit spends. */
  predicate Takes(t: Terms, e: Exit, vout: nat) {
    match e
    case StateExit(_) => vout == 0
    case CloseExit(_) => vout <= t.cfg.n
    case ForfeitExit(offender, _, _) => vout == 1 + offender
  }

  /** The value of a funding output. */
  function Stake(t: Terms, vout: nat): nat
    requires ValidTerms(t) && vout <= t.cfg.n
  {
    if vout == 0 then t.cfg.S else t.cfg.bonds[vout - 1]
  }

  /** The funding outputs below `m` that are still in the table, with their value. */
  ghost function Locked(u: Table, t: Terms, m: nat): int {
    if m == 0 then 0 else Locked(u, t, m - 1) + ValueAt(u, Outpoint(t.funding, m - 1))
  }

  /** The funding outputs below `m` that an exit spends, with their value. */
  ghost function Taken(t: Terms, e: Exit, m: nat): int
    requires ValidTerms(t) && m <= t.cfg.n + 1
  {
    if m == 0 then 0 else Taken(t, e, m - 1) + if Takes(t, e, m - 1) then Stake(t, m - 1) else 0
  }

  /** What is still unspent of the funding transaction has its original value. */
  ghost predicate StakesIntact(u: Table, t: Terms)
    requires ValidTerms(t)
  {
    forall i: nat :: i <= t.cfg.n && Outpoint(t.funding, i) in u ==> u[Outpoint(t.funding, i)].value == Stake(t, i)
  }

  lemma {:induction false} TakenOne(t: Terms, e: Exit, vout: nat, m: nat)
    requires ValidTerms(t) && vout <= t.cfg.n && m <= t.cfg.n + 1
    requires forall i: nat :: i <= t.cfg.n ==> (Takes(t, e, i) <==> i == vout)
    ensures Taken(t, e, m) == if vout < m then Stake(t, vout) else 0
  {
    if m > 0 { TakenOne(t, e, vout, m - 1); }
  }

  lemma {:induction false} TakenAll(t: Terms, e: Exit, m: nat)
    requires ValidTerms(t) && e.CloseExit? && 1 <= m <= t.cfg.n + 1
    ensures Taken(t, e, m) == t.cfg.S + Sum(t.cfg.bonds[..m - 1])
  {
    if m > 1 {
      TakenAll(t, e, m - 1);
      var b: seq<int> := t.cfg.bonds[..m - 1];
      assert b[..m - 2] == t.cfg.bonds[..m - 2];
    } else {
      assert Taken(t, e, 0) == 0;
    }
  }

  lemma ExitOutputs(t: Terms, e: Exit, tx: Tx)
    requires ValidTerms(t) && Settles(t, e, tx)
    ensures OutputSum(tx.outputs) == Taken(t, e, t.cfg.n + 1) && WholeOutputs(tx.outputs)
  {
    match e
    case StateExit(s) =>
      StateTxSum(t, s);
      TakenOne(t, e, 0, t.cfg.n + 1);
    case CloseExit(s) =>
      CloseTxSum(t, s);
      TakenAll(t, e, t.cfg.n + 1);
      assert t.cfg.bonds[..t.cfg.n] == t.cfg.bonds;
    case ForfeitExit(offender, tower, fee) =>
      ForfeitTxSum(t, offender, tower, fee);
      TakenOne(t, e, 1 + offender, t.cfg.n + 1);
  }

  /** An exit spends exactly its own funding outputs, each once. */
  lemma ExitInputs(t: Terms, e: Exit, tx: Tx)
    requires ValidTerms(t) && Settles(t, e, tx)
    ensures forall o :: o in Prevs(tx.inputs) <==> o.txid == t.funding && o.vout <= t.cfg.n && Takes(t, e, o.vout)
    ensures !IsCoinbase(tx) && t.funding != IdOf(tx)
  {
    var w := Unsigned(t, e).value;
    assert |tx.inputs| > 0 && tx.inputs[0].prev == w.inputs[0].prev && tx.inputs[0].prev.txid == t.funding;
    forall o ensures o in Prevs(tx.inputs) <==> o.txid == t.funding && o.vout <= t.cfg.n && Takes(t, e, o.vout) {
      if o.txid == t.funding && o.vout <= t.cfg.n && Takes(t, e, o.vout) {
        var k := if e.CloseExit? then o.vout else 0;
        assert tx.inputs[k].prev == w.inputs[k].prev;
        assert tx.inputs[k].prev == o;
      }
      assert forall k :: 0 <= k < |tx.inputs| ==> tx.inputs[k].prev == w.inputs[k].prev;
    }
  }

  // ---------- what a settlement leaves locked ----------

  lemma {:induction false} LockedStep(u: Table, v: Table, t: Terms, e: Exit, m: nat)
    requires ValidTerms(t) && StakesIntact(u, t) && m <= t.cfg.n + 1
    requires forall i: nat :: i <= t.cfg.n && Takes(t, e, i) ==>
             Outpoint(t.funding, i) in u && Outpoint(t.funding, i) !in v
    requires forall i: nat :: i <= t.cfg.n && !Takes(t, e, i) ==> Same(u, v, Outpoint(t.funding, i))
    ensures Locked(v, t, m) == Locked(u, t, m) - Taken(t, e, m)
  {
    if m > 0 {
      LockedStep(u, v, t, e, m - 1);
      assert Takes(t, e, m - 1) || Same(u, v, Outpoint(t.funding, m - 1));
    }
  }

  /** The two tables agree on an outpoint. */
  ghost predicate Same(u: Table, v: Table, o: Outpoint) {
    (o in u <==> o in v) && (o in u ==> u[o] == v[o])
  }

  lemma {:induction false} LockedSame(u: Table, v: Table, t: Terms, m: nat)
    requires ValidTerms(t) && m <= t.cfg.n + 1
    requires forall i: nat :: i <= t.cfg.n ==> Same(u, v, Outpoint(t.funding, i))
    ensures Locked(v, t, m) == Locked(u, t, m)
  {
    if m > 0 {
      LockedSame(u, v, t, m - 1);
      assert Same(u, v, Outpoint(t.funding, m - 1));
    }
  }

  /** With every funding output unspent, S and all bonds are locked. */
  lemma {:induction false} FullyLocked(u: Table, t: Terms, m: nat)
    requires ValidTerms(t) && StakesIntact(u, t) && 1 <= m <= t.cfg.n + 1
    requires forall i: nat :: i <= t.cfg.n ==> Outpoint(t.funding, i) in u
    ensures Locked(u, t, m) == t.cfg.S + Sum(t.cfg.bonds[..m - 1])
  {
    if m > 1 {
      FullyLocked(u, t, m - 1);
      var b: seq<int> := t.cfg.bonds[..m - 1];
      assert b[..m - 2] == t.cfg.bonds[..m - 2];
    } else {
      assert Locked(u, t, 0) == 0;
    }
  }

  /** What happens on the chain: an exit of the channel, or any transaction that neither spends
      its funding outputs nor is its funding transaction. */
  datatype Event =
    | Exits(exit: Exit, tx: Tx)
    | Unrelated(tx: Tx)

  ghost predicate Foreign(t: Terms, tx: Tx) {
    IdOf(tx) != t.funding && forall o :: o in Spent(tx) ==> o.txid != t.funding
  }

  /** The event can be confirmed on this table. */
  ghost predicate Confirms(u: Table, t: Terms, ev: Event)
    requires ValidTerms(t)
  {
    match ev
    case Exits(e, tx) => Settles(t, e, tx) && Prevs(tx.inputs) <= u.Keys
    case Unrelated(tx) => Foreign(t, tx)
  }

  ghost predicate AllConfirm(u: Table, height: int, t: Terms, evs: seq<Event>)
    requires ValidTerms(t)
    decreases evs
  {
    evs != [] ==> Confirms(u, t, evs[0]) && AllConfirm(ConnectTx(u, height, evs[0].tx), height, t, evs[1..])
  }

  ghost function After(u: Table, height: int, evs: seq<Event>): Table
    decreases evs
  {
    if evs == [] then u else After(ConnectTx(u, height, evs[0].tx), height, evs[1..])
  }

  /** What all exits in the run pay out. */
  ghost function PaidOut(evs: seq<Event>): int
    decreases evs
  {
    if evs == [] then 0
    else PaidOut(evs[1..]) + if evs[0].Exits? then OutputSum(evs[0].tx.outputs) else 0
  }

  /** Spending exactly the taken funding outputs, and creating none. */
  lemma SpendStep(u: Table, height: int, t: Terms, e: Exit, tx: Tx, i: nat)
    requires !IsCoinbase(tx) && t.funding != IdOf(tx) && Prevs(tx.inputs) <= u.Keys && i <= t.cfg.n
    requires Outpoint(t.funding, i) in Prevs(tx.inputs) <==> Takes(t, e, i)
    ensures var v, o := ConnectTx(u, height, tx), Outpoint(t.funding, i);
            if Takes(t, e, i) then o in u && o !in v else Same(u, v, o)
  {
    hide Takes;
  }

  ghost predicate StepsTo(u: Table, v: Table, t: Terms, e: Exit) {
    && (forall i: nat :: i <= t.cfg.n && Takes(t, e, i) ==> Outpoint(t.funding, i) in u && Outpoint(t.funding, i) !in v)
    && (forall i: nat :: i <= t.cfg.n && !Takes(t, e, i) ==> Same(u, v, Outpoint(t.funding, i)))
  }

  lemma StepsToKeeps(u: Table, v: Table, t: Terms, e: Exit)
    requires ValidTerms(t) && StakesIntact(u, t) && StepsTo(u, v, t, e)
    ensures StakesIntact(v, t)
    ensures Locked(v, t, t.cfg.n + 1) == Locked(u, t, t.cfg.n + 1) - Taken(t, e, t.cfg.n + 1)
  {
    hide Takes, ValidTerms, Locked, Taken;
    LockedStep(u, v, t, e, t.cfg.n + 1);
    forall i: nat | i <= t.cfg.n && Outpoint(t.funding, i) in v ensures v[Outpoint(t.funding, i)].value == Stake(t, i) {
      assert Takes(t, e, i) || Same(u, v, Outpoint(t.funding, i));
    }
  }

  lemma ExitStep(u: Table, height: int, t: Terms, e: Exit, tx: Tx)
    requires ValidTerms(t) && StakesIntact(u, t) && Settles(t, e, tx) && Prevs(tx.inputs) <= u.Keys
    ensures var v := ConnectTx(u, height, tx);
            && StakesIntact(v, t) && StepsTo(u, v, t, e)
            && Locked(v, t, t.cfg.n + 1) == Locked(u, t, t.cfg.n + 1) - OutputSum(tx.outputs)
  {
    hide Settles, Takes, OutputSum, ConnectTx, StakesIntact, ValidTerms, IsCoinbase, WholeOutputs, Locked, Taken, Prevs;
    ExitInputs(t, e, tx);
    ExitOutputs(t, e, tx);
    var v := ConnectTx(u, height, tx);
    forall i: nat | i <= t.cfg.n
      ensures if Takes(t, e, i) then Outpoint(t.funding, i) in u && Outpoint(t.funding, i) !in v
              else Same(u, v, Outpoint(t.funding, i)) {
      SpendStep(u, height, t, e, tx, i);
    }
    StepsToKeeps(u, v, t, e);
  }

  lemma ForeignStep(u: Table, height: int, t: Terms, tx: Tx)
    requires ValidTerms(t) && StakesIntact(u, t) && Foreign(t, tx)
    ensures var v := ConnectTx(u, height, tx);
            && StakesIntact(v, t)
            && Locked(v, t, t.cfg.n + 1) == Locked(u, t, t.cfg.n + 1)
            && (forall i: nat :: i <= t.cfg.n ==> Same(u, v, Outpoint(t.funding, i)))
  {
    LockedSame(u, ConnectTx(u, height, tx), t, t.cfg.n + 1);
  }

  /** Over every run, whatever exits are taken and whatever else confirms in between: what was
      paid out and what is still locked add up to what was locked at the start. */
  lemma {:induction false} SettlementConserves(u: Table, height: int, t: Terms, evs: seq<Event>)
    requires ValidTerms(t) && StakesIntact(u, t) && AllConfirm(u, height, t, evs)
    ensures StakesIntact(After(u, height, evs), t)
    ensures PaidOut(evs) + Locked(After(u, height, evs), t, t.cfg.n + 1) == Locked(u, t, t.cfg.n + 1)
    decreases evs
  {
    if evs != [] {
      var v := ConnectTx(u, height, evs[0].tx);
      match evs[0] {
        case Exits(e, tx) => ExitStep(u, height, t, e, tx);
        case Unrelated(tx) => ForeignStep(u, height, t, tx);
      }
      SettlementConserves(v, height, t, evs[1..]);
    }
  }

  /** From a confirmed funding transaction: paid plus still locked is always S and all bonds. */
  lemma PaidPlusLocked(u: Table, height: int, t: Terms, evs: seq<Event>)
    requires ValidTerms(t) && StakesIntact(u, t) && AllConfirm(u, height, t, evs)
    requires forall i: nat :: i <= t.cfg.n ==> Outpoint(t.funding, i) in u
    ensures PaidOut(evs) + Locked(After(u, height, evs), t, t.cfg.n + 1) == t.cfg.S + Sum(t.cfg.bonds)
  {
    FullyLocked(u, t, t.cfg.n + 1);
    assert t.cfg.bonds[..t.cfg.n] == t.cfg.bonds;
    SettlementConserves(u, height, t, evs);
  }

  /** A funding output that has been spent is not spent again. */
  lemma {:induction false} SpentStaysSpent(u: Table, height: int, t: Terms, evs: seq<Event>, vout: nat, j: nat)
    requires ValidTerms(t) && StakesIntact(u, t) && AllConfirm(u, height, t, evs)
    requires vout <= t.cfg.n && Outpoint(t.funding, vout) !in u
    requires j < |evs| && evs[j].Exits?
    ensures !Takes(t, evs[j].exit, vout)
    decreases evs
  {
    var v := ConnectTx(u, height, evs[0].tx);
    match evs[0] {
      case Exits(e, tx) => ExitStep(u, height, t, e, tx);
      case Unrelated(tx) => ForeignStep(u, height, t, tx);
    }
    assert Same(u, v, Outpoint(t.funding, vout));
    if j > 0 {
      SpentStaysSpent(v, height, t, evs[1..], vout, j - 1);
    }
  }

  /** No two exits of a run spend the same funding output: at most one state or close confirms,
      at most one forfeit for each bond, and a close excludes every other exit. */
  lemma {:induction false} ExitsExclude(u: Table, height: int, t: Terms, evs: seq<Event>, i: nat, j: nat)
    requires ValidTerms(t) && StakesIntact(u, t) && AllConfirm(u, height, t, evs)
    requires i < j < |evs| && evs[i].Exits? && evs[j].Exits?
    ensures forall x: nat :: x <= t.cfg.n ==> !(Takes(t, evs[i].exit, x) && Takes(t, evs[j].exit, x))
    ensures !evs[i].exit.CloseExit? && !evs[j].exit.CloseExit?
    decreases evs
  {
    hide Takes, StakesIntact, ConnectTx, Settles, ValidTerms, Confirms;
    if i > 0 {
      StakesStayIntact(u, height, t, evs[0]);
      ExitsExclude(ConnectTx(u, height, evs[0].tx), height, t, evs[1..], i - 1, j - 1);
    } else {
      FirstExcludes(u, height, t, evs, j);
      ExitTakesSome(t, evs[j].exit, evs, u, height, j);
      ExitTakesSome(t, evs[0].exit, evs, u, height, 0);
      CloseTakesAll(t, evs[0].exit, evs[j].exit);
    }
  }

  lemma CloseTakesAll(t: Terms, a: Exit, b: Exit)
    requires exists x: nat :: x <= t.cfg.n && Takes(t, a, x)
    requires exists x: nat :: x <= t.cfg.n && Takes(t, b, x)
    requires forall x: nat :: x <= t.cfg.n && Takes(t, a, x) ==> !Takes(t, b, x)
    ensures !a.CloseExit? && !b.CloseExit?
  {
  }

  lemma StakesStayIntact(u: Table, height: int, t: Terms, ev: Event)
    requires ValidTerms(t) && StakesIntact(u, t) && Confirms(u, t, ev)
    ensures StakesIntact(ConnectTx(u, height, ev.tx), t)
  {
    match ev
    case Exits(e, tx) => ExitStep(u, height, t, e, tx);
    case Unrelated(tx) => ForeignStep(u, height, t, tx);
  }

  lemma FirstExcludes(u: Table, height: int, t: Terms, evs: seq<Event>, j: nat)
    requires ValidTerms(t) && StakesIntact(u, t) && AllConfirm(u, height, t, evs)
    requires 0 < j < |evs| && evs[0].Exits? && evs[j].Exits?
    ensures forall x: nat :: x <= t.cfg.n && Takes(t, evs[0].exit, x) ==> !Takes(t, evs[j].exit, x)
  {
    ExitStep(u, height, t, evs[0].exit, evs[0].tx);
    forall x: nat | x <= t.cfg.n && Takes(t, evs[0].exit, x) ensures !Takes(t, evs[j].exit, x) {
      SpentStaysSpent(ConnectTx(u, height, evs[0].tx), height, t, evs[1..], x, j - 1);
    }
  }

  /** Every exit of a run spends some funding output. */
  lemma {:induction false} ExitTakesSome(t: Terms, e: Exit, evs: seq<Event>, u: Table, height: int, j: nat)
    requires ValidTerms(t) && AllConfirm(u, height, t, evs) && j < |evs| && evs[j].Exits? && evs[j].exit == e
    ensures exists x: nat :: x <= t.cfg.n && Takes(t, e, x)
    decreases evs
  {
    if j > 0 {
      ExitTakesSome(t, e, evs[1..], ConnectTx(u, height, evs[0].tx), height, j - 1);
    } else {
      assert Takes(t, e, if e.ForfeitExit? then 1 + e.offender else 0);
    }
  }

  // ---------- validity and fee ----------

  lemma {:induction false} CloseInputSum(u: Table, t: Terms, ins: seq<TxIn>)
    requires |ins| <= t.cfg.n + 1 && forall i :: 0 <= i < |ins| ==> ins[i].prev == Outpoint(t.funding, i)
    ensures InputSum(u, ins) == Locked(u, t, |ins|)
  {
    if ins != [] { CloseInputSum(u, t, ins[..|ins| - 1]); }
  }

  /** An exit whose inputs are unspent brings in exactly what it pays: it is valid exactly when
      its scripts unlock, and then its fee is zero. */
  lemma ExitIsFree(u: Table, verify: Interpreter, t: Terms, e: Exit, tx: Tx)
    requires ValidTerms(t) && StakesIntact(u, t) && Settles(t, e, tx) && Prevs(tx.inputs) <= u.Keys
    ensures Valid(u, verify, tx) <==> forall i :: 0 <= i < |tx.inputs| ==> Unlocks(u, verify, tx, i)
    ensures Valid(u, verify, tx) ==> Judge(u, verify, tx).Accepted? && Judge(u, verify, tx).Fee() == 0
  {
    ExitOutputs(t, e, tx);
    ExitInputs(t, e, tx);
    ExitInputSum(u, t, e, tx);
    AcceptedIffValid(u, verify, tx);
  }

  lemma ExitInputSum(u: Table, t: Terms, e: Exit, tx: Tx)
    requires ValidTerms(t) && StakesIntact(u, t) && Settles(t, e, tx) && Prevs(tx.inputs) <= u.Keys
    ensures InputSum(u, tx.inputs) == Taken(t, e, t.cfg.n + 1)
  {
    if e.CloseExit? {
      assert |tx.inputs| == t.cfg.n + 1 && forall i :: 0 <= i < |tx.inputs| ==>
          tx.inputs[i].prev == Outpoint(t.funding, i);
      CloseBringsAll(u, t, e, tx.inputs);
    } else {
      var vout := if e.StateExit? then 0 else 1 + e.offender;
      assert |tx.inputs| == 1 && tx.inputs[0].prev == Outpoint(t.funding, vout);
      TakenOne(t, e, vout, t.cfg.n + 1);
      OneInputSum(u, tx.inputs);
      assert tx.inputs[0].prev in Prevs(tx.inputs);
    }
  }

  lemma OneInputSum(u: Table, ins: seq<TxIn>)
    requires |ins| == 1
    ensures InputSum(u, ins) == ValueAt(u, ins[0].prev)
  {
    assert ins[..0] == [];
  }

  lemma CloseBringsAll(u: Table, t: Terms, e: Exit, ins: seq<TxIn>)
    requires ValidTerms(t) && StakesIntact(u, t) && e.CloseExit? && Prevs(ins) <= u.Keys
    requires |ins| == t.cfg.n + 1 && forall i :: 0 <= i < |ins| ==> ins[i].prev == Outpoint(t.funding, i)
    ensures InputSum(u, ins) == Taken(t, e, t.cfg.n + 1)
  {
    CloseInputSum(u, t, ins);
    forall i: nat | i <= t.cfg.n ensures Outpoint(t.funding, i) in u {
      assert ins[i].prev in Prevs(ins);
    }
    hide StakesIntact, ValidTerms, Prevs, InputSum;
    FullyLocked(u, t, t.cfg.n + 1);
    TakenAll(t, e, t.cfg.n + 1);
  }

  // ---------- rank in the mempool ----------

  /** Of two states the one with the higher version outranks the other; a close outranks every state. */
  lemma StatesRankByVersion(t: Terms, a: State, ta: Tx, b: State, tb: Tx)
    requires ValidTerms(t) && Settles(t, StateExit(a), ta) && Settles(t, StateExit(b), tb)
    ensures Outranks(tb, ta) <==> a.version < b.version
  {
    assert ta.inputs[0].prev == Outpoint(t.funding, 0) && tb.inputs[0].prev == Outpoint(t.funding, 0);
    assert tb.inputs[0].prev in Prevs(ta.inputs);
    assert SeqAt(ta.inputs, Outpoint(t.funding, 0)) == ta.inputs[0].sequence;
  }

  lemma CloseOutranksStates(t: Terms, s: State, tx: Tx, e: Exit, final: Tx)
    requires ValidTerms(t) && Settles(t, StateExit(s), tx) && e.CloseExit? && Settles(t, e, final)
    ensures Outranks(final, tx) && !Outranks(tx, final)
  {
    FinalExits(t, e, final);
    ExitInputs(t, StateExit(s), tx);
    ExitInputs(t, e, final);
    assert |tx.inputs| == 1 && tx.inputs[0].sequence < FINAL_SEQUENCE;
    FinalOutranks(tx, final, Outpoint(t.funding, 0));
  }

  lemma FinalOutranks(tx: Tx, final: Tx, o: Outpoint)
    requires |tx.inputs| == 1 && tx.inputs[0].prev == o && tx.inputs[0].sequence < FINAL_SEQUENCE
    requires IsFinal(final) && o in Prevs(final.inputs)
    ensures Outranks(final, tx) && !Outranks(tx, final)
  {
    assert SeqAt(tx.inputs, o) == tx.inputs[0].sequence;
    var k := SeqAtIsSome(final.inputs, o);
  }

  /** Closes and forfeits are final on every input; states on none. */
  lemma FinalExits(t: Terms, e: Exit, tx: Tx)
    requires ValidTerms(t) && Settles(t, e, tx)
    ensures IsFinal(tx) <==> !e.StateExit?
  {
    var w := Unsigned(t, e).value;
    assert |tx.inputs| > 0 && tx.inputs[0].sequence == w.inputs[0].sequence;
  }

  /** A valid state enters a pool that holds another state of the channel exactly when its version
      is higher, and then takes its place. */
  lemma NewerStateEnters(s: PoolState, env: Env, t: Terms, a: State, ta: Tx, b: State, tb: Tx)
    requires WellFormedEnv(env) && Indexed(s) && ValidTerms(t)
    requires Settles(t, StateExit(a), ta) && Settles(t, StateExit(b), tb)
    requires IdOf(ta) in s.entries && IdOf(tb) !in s.entries && Valid(env.utxos, env.verify, tb)
    ensures Inserts(s, env, tb) <==> a.version < b.version
    ensures Inserts(s, env, tb) ==>
            IdOf(ta) !in Inserted(s, env, tb).entries && IdOf(tb) in Inserted(s, env, tb).entries
  {
    var o := Outpoint(t.funding, 0);
    ExitInputs(t, StateExit(a), ta);
    ExitInputs(t, StateExit(b), tb);
    assert Prevs(ta.inputs) == {o} && Prevs(tb.inputs) == {o};
    assert s.entries[IdOf(ta)].tx == ta;
    assert Spends(s, IdOf(ta), o) && Holds(s, o, IdOf(ta));
    assert Conflicts(s, tb) == {IdOf(ta)};
    assert |Conflicts(s, tb)| == 1;
    StatesRankByVersion(t, a, ta, b, tb);
    assert Only(Conflicts(s, tb)) == IdOf(ta) by { assert IdOf(ta) in {Only(Conflicts(s, tb))}; }
  }

  lemma StateSpends(t: Terms, a: State, st: Tx)
    requires ValidTerms(t) && Settles(t, StateExit(a), st)
    ensures Prevs(st.inputs) == {Outpoint(t.funding, 0)}
  {
    ExitInputs(t, StateExit(a), st);
  }

  /** What a close meets in a pool that holds a state of the channel: that state, and the holder
      of every bond. */
  lemma CloseConflicts(s: PoolState, t: Terms, st: Tx, e: Exit, close: Tx)
    requires Indexed(s) && ValidTerms(t) && e.CloseExit? && Settles(t, e, close) && IdOf(close) !in s.entries
    requires Prevs(st.inputs) == {Outpoint(t.funding, 0)} && IdOf(st) in s.entries
    ensures IdOf(st) in Conflicts(s, close) && s.entries[IdOf(st)].tx == st
    ensures Conflicts(s, close) == {IdOf(st)}
            <==> forall i: nat :: 1 <= i <= t.cfg.n ==> Outpoint(t.funding, i) !in s.spentBy
  {
    var o := Outpoint(t.funding, 0);
    ExitInputs(t, e, close);
    assert Spends(s, IdOf(st), o) && Holds(s, o, IdOf(st));
    assert forall i: nat :: i <= t.cfg.n ==> Outpoint(t.funding, i) in Prevs(close.inputs);
    forall i: nat | 1 <= i <= t.cfg.n && Outpoint(t.funding, i) in s.spentBy
      ensures s.spentBy[Outpoint(t.funding, i)] in Conflicts(s, close) - {IdOf(st)}
    {
      var p := Outpoint(t.funding, i);
      assert Holds(s, p, s.spentBy[p]) && Spends(s, s.spentBy[p], p);
    }
  }

  /** A valid close enters a pool that holds a state of the channel if and only if no bond of the
      channel is being spent there; then it takes the state's place. Otherwise it is refused for
      meeting several transactions, although it outranks the state. */
  lemma CloseEnters(s: PoolState, env: Env, t: Terms, a: State, st: Tx, e: Exit, close: Tx)
    requires WellFormedEnv(env) && Indexed(s) && ValidTerms(t)
    requires Settles(t, StateExit(a), st) && e.CloseExit? && Settles(t, e, close)
    requires IdOf(st) in s.entries && IdOf(close) !in s.entries && Valid(env.utxos, env.verify, close)
    ensures Inserts(s, env, close) <==> forall i: nat :: 1 <= i <= t.cfg.n ==> Outpoint(t.funding, i) !in s.spentBy
    ensures Inserts(s, env, close)
        ==> IdOf(st) !in Inserted(s, env, close).entries && IdOf(close) in Inserted(s, env, close).entries
    ensures !Inserts(s, env, close) ==> Admit(s, env, close) == (s, Rejected(MultiConflict))
  {
    hide Settles, Outranks, Valid, Admit, Indexed, Conflicts, ValidTerms, Unsigned, Prevs;
    StateSpends(t, a, st);
    CloseConflicts(s, t, st, e, close);
    CloseOutranksStates(t, a, st, e, close);
    AdmitRefuses(s, env, close);
    var clash := Conflicts(s, close);
    if clash == {IdOf(st)} {
      assert Only(clash) == IdOf(st) by { assert IdOf(st) in {Only(clash)}; }
    } else {
      assert |clash - {IdOf(st)}| > 0;
      assert |clash| == |clash - {IdOf(st)}| + 1;
    }
  }

  /** Once a close or a forfeit is in the pool, over every later run of submissions it stays, and
      no other exit that spends one of its outputs - no second forfeit of the bond, with whatever
      tower and fee, no state, no other close - is ever held. */
  lemma SettledForGood(s: PoolState, env: Env, txs: seq<Tx>, t: Terms, e: Exit, tx: Tx, e': Exit, rival: Tx, vout: nat)
    requires WellFormedEnv(env) && Indexed(s) && ValidTerms(t)
    requires Settles(t, e, tx) && !e.StateExit? && IdOf(tx) in s.entries
    requires Settles(t, e', rival) && rival != tx
    requires vout <= t.cfg.n && Takes(t, e, vout) && Takes(t, e', vout)
    ensures IdOf(tx) in AdmitAll(s, env, txs).entries
    ensures IdOf(rival) !in AdmitAll(s, env, txs).entries
  {
    ExitInputs(t, e, tx);
    ExitInputs(t, e', rival);
    FinalExits(t, e, tx);
    assert Outpoint(t.funding, vout) in Prevs(rival.inputs) * Prevs(tx.inputs);
    FinalityIsAbsorbing(s, env, txs, tx, rival);
  }
}
