/** Settling a channel: state transactions, the cooperative close and bond forfeits, what each
    pays, what they leave locked, and how they rank in the mempool. */
module Lifecycle {
  import opened Ledger
  import opened Accounting
  import opened Validation

  const START_SEQUENCE: nat := 0
  const COOP_LOCKTIME: nat := 0
  const OP_RETURN: Item := Op(0x6A)

  datatype LifecycleError =
    | Unconfirmed
    | NegativeVersion
    | VersionExhausted
    | Netting(why: AccountingError)
    | OffenderOutOfRange
    | NegativeFee
    | FeeAboveBond
    | NotVerified
    | TooFewOutputs
    | ValueMismatch(output: nat)
    | ScriptMismatch(output: nat)

  /** The scripts the parties' keys give: a payout script and a bond script each, and the script
      of the shared channel output. */
  datatype Keys = Keys(payout: seq<Script>, bond: seq<Script>, channel: Script)

  /** What is fixed when a channel opens. */
  datatype Terms = Terms(cfg: Config, keys: Keys, funding: TxId)

  predicate ValidKeys(cfg: Config, keys: Keys) {
    |keys.payout| == cfg.n && |keys.bond| == cfg.n
  }

  predicate ValidTerms(t: Terms) {
    ValidConfig(t.cfg) && ValidKeys(t.cfg, t.keys) && t.funding.IdOf?
  }

  // ---------- sequence numbers ----------

  function SequenceForVersion(version: int): Result<Sequence, LifecycleError> {
    if version < 0 then Err(NegativeVersion)
    else if START_SEQUENCE + version >= FINAL_SEQUENCE then Err(VersionExhausted)
    else Ok(START_SEQUENCE + version)
  }

  // ---------- outputs ----------

  /** One output for each positive amount, in order. */
  function Payments(amounts: seq<int>, payees: seq<Script>): seq<TxOut>
    requires |amounts| == |payees|
  {
    if amounts == [] then []
    else
      var n := |amounts| - 1;
      Payments(amounts[..n], payees[..n]) + if amounts[n] > 0 then [TxOut(amounts[n], payees[n])] else []
  }

  /** What a list of outputs pays to one script. */
  function PaidTo(outs: seq<TxOut>, script: Script): int {
    if outs == [] then 0
    else PaidTo(outs[..|outs| - 1], script) + if outs[|outs| - 1].script == script then outs[|outs| - 1].value else 0
  }

  lemma {:induction false} PaidToAppend(a: seq<TxOut>, b: seq<TxOut>, script: Script)
    ensures PaidTo(a + b, script) == PaidTo(a, script) + PaidTo(b, script)
    ensures OutputSum(a + b) == OutputSum(a) + OutputSum(b)
  {
    if b == [] {
      assert a + b == a;
    } else {
      var n := |b| - 1;
      PaidToAppend(a, b[..n], script);
      assert (a + b)[..|a + b| - 1] == a + b[..n];
    }
  }

  /** Where each payment stands: the positive amounts in order, nothing else. */
  lemma {:induction false} PaymentAt(amounts: seq<int>, payees: seq<Script>, i: nat)
    requires |amounts| == |payees| && i <= |amounts|
    ensures |Payments(amounts, payees)| == |set j | 0 <= j < |amounts| && amounts[j] > 0|
    ensures i < |amounts| && amounts[i] > 0 ==>
              var at := |set j | 0 <= j < i && amounts[j] > 0|;
              at < |Payments(amounts, payees)| && Payments(amounts, payees)[at] == TxOut(amounts[i], payees[i])
  {
    if amounts != [] {
      var n := |amounts| - 1;
      PaymentAt(amounts[..n], payees[..n], if i < n then i else n);
      var front, all := set j | 0 <= j < n && amounts[..n][j] > 0, set j | 0 <= j < |amounts| && amounts[j] > 0;
      assert front == set j | 0 <= j < n && amounts[j] > 0;
      assert all == if amounts[n] > 0 then front + {n} else front;
      if i < n {
        assert (set j | 0 <= j < i && amounts[..n][j] > 0) == set j | 0 <= j < i && amounts[j] > 0;
      }
    }
  }

  function AmountFor(amounts: seq<int>, payees: seq<Script>, script: Script): int
    requires |amounts| == |payees|
  {
    if amounts == [] then 0
    else
      var n := |amounts| - 1;
      AmountFor(amounts[..n], payees[..n], script) + if payees[n] == script then amounts[n] else 0
  }

  /** Dropping the zero amounts loses nothing: not in total, and to nobody. */
  lemma {:induction false} PaymentsPay(amounts: seq<int>, payees: seq<Script>, script: Script)
    requires |amounts| == |payees| && forall i :: 0 <= i < |amounts| ==> amounts[i] >= 0
    ensures OutputSum(Payments(amounts, payees)) == Sum(amounts)
    ensures PaidTo(Payments(amounts, payees), script) == AmountFor(amounts, payees, script)
    ensures forall i :: 0 <= i < |Payments(amounts, payees)| ==> Payments(amounts, payees)[i].value > 0
  {
    if amounts != [] {
      var n := |amounts| - 1;
      PaymentsPay(amounts[..n], payees[..n], script);
      var last := if amounts[n] > 0 then [TxOut(amounts[n], payees[n])] else [];
      PaidToAppend(Payments(amounts[..n], payees[..n]), last, script);
      assert amounts[n] > 0 ==> last[..0] == [];
    }
  }

  /** With distinct payees each is paid its own amount, and everybody else nothing. */
  lemma {:induction false} AmountIsOwn(amounts: seq<int>, payees: seq<Script>, script: Script)
    requires |amounts| == |payees| && NoRepeats(payees)
    ensures forall i :: 0 <= i < |payees| && payees[i] == script ==> AmountFor(amounts, payees, script) == amounts[i]
    ensures script !in payees ==> AmountFor(amounts, payees, script) == 0
  {
    if amounts != [] {
      var n := |amounts| - 1;
      AmountIsOwn(amounts[..n], payees[..n], script);
      assert forall i :: 0 <= i < n ==> payees[..n][i] == payees[i] && amounts[..n][i] == amounts[i];
      assert payees[n] == script ==> script !in payees[..n];
      assert script !in payees ==> script !in payees[..n];
    }
  }

  // ---------- the three settlement transactions ----------

  /** The outputs of the funding transaction: the channel's, then a bond for each party. */
  function ChannelOutputs(cfg: Config, keys: Keys): seq<TxOut>
    requires |cfg.bonds| == cfg.n && ValidKeys(cfg, keys)
  {
    [TxOut(cfg.S, keys.channel)] + seq(cfg.n, i requires 0 <= i < cfg.n => TxOut(cfg.bonds[i], keys.bond[i]))
  }

  /** Output 0 holds S under the channel's script, output 1 + i the bond of party i under its bond script. */
  lemma ChannelOutputsAre(cfg: Config, keys: Keys)
    requires |cfg.bonds| == cfg.n && ValidKeys(cfg, keys)
    ensures |ChannelOutputs(cfg, keys)| == 1 + cfg.n && ChannelOutputs(cfg, keys)[0] == TxOut(cfg.S, keys.channel)
    ensures forall i :: 0 <= i < cfg.n ==> ChannelOutputs(cfg, keys)[1 + i] == TxOut(cfg.bonds[i], keys.bond[i])
  {
  }

  function StateTx(t: Terms, s: State): Result<Tx, LifecycleError>
    requires ValidTerms(t)
  {
    var q := Quantise(s, t.cfg);
    if q.Err? then Err(Netting(q.error))
    else
      var sequence := SequenceForVersion(s.version);
      if sequence.Err? then Err(sequence.error)
      else
        var paid := if |q.value| == t.cfg.n then Payments(q.value, t.keys.payout) else [];
        Ok(Tx([TxIn(Outpoint(t.funding, 0), [], sequence.value)],
              if paid == [] then [TxOut(0, [OP_RETURN])] else paid, 0))
  }

  function CloseInputs(t: Terms): seq<TxIn> {
    seq(t.cfg.n + 1, i requires 0 <= i => TxIn(Outpoint(t.funding, i), [], FINAL_SEQUENCE))
  }

  function Plus(a: seq<int>, b: seq<nat>): seq<int>
    requires |a| <= |b|
  {
    seq(|a|, i requires 0 <= i < |a| => a[i] + b[i])
  }

  function CloseTx(t: Terms, s: State): Result<Tx, LifecycleError>
    requires ValidTerms(t)
  {
    var q := Quantise(s, t.cfg);
    if q.Err? then Err(Netting(q.error))
    else
      var paid := if |q.value| == t.cfg.n then Payments(Plus(q.value, t.cfg.bonds), t.keys.payout) else [];
      Ok(Tx(CloseInputs(t), paid, COOP_LOCKTIME))
  }

  /** An amount in `m` equal whole parts, the last taking what does not divide. */
  function Shares(amount: nat, m: nat): seq<int>
    requires m >= 1
  {
    seq(m, i => amount / m + if i == m - 1 then amount % m else 0)
  }

  function Without(payees: seq<Script>, i: nat): seq<Script>
    requires i < |payees|
  {
    payees[..i] + payees[i + 1..]
  }

  function TowerOutputs(tower: Option<Script>, fee: nat): seq<TxOut> {
    if tower.Some? && fee > 0 then [TxOut(fee, tower.value)] else []
  }

  /** What is left of the bond for the honest parties; the fee only counts if a tower is named. */
  function Remaining(bond: nat, tower: Option<Script>, fee: nat): nat
    requires fee <= bond
  {
    bond - if tower.Some? then fee else 0
  }

  function ForfeitTx(t: Terms, offender: int, tower: Option<Script>, fee: int): Result<Tx, LifecycleError>
    requires ValidTerms(t)
  {
    if !(0 <= offender < t.cfg.n) then Err(OffenderOutOfRange)
    else if fee < 0 then Err(NegativeFee)
    else if fee > t.cfg.bonds[offender] then Err(FeeAboveBond)
    else
      var shares := Shares(Remaining(t.cfg.bonds[offender], tower, fee), t.cfg.n - 1);
      Ok(Tx([TxIn(Outpoint(t.funding, 1 + offender), [], FINAL_SEQUENCE)],
            TowerOutputs(tower, fee) + Payments(shares, Without(t.keys.payout, offender)), 0))
  }

  lemma {:induction false} SumPlus(a: seq<int>, b: seq<nat>)
    requires |a| == |b|
    ensures Sum(Plus(a, b)) == Sum(a) + Sum(b)
  {
    if a != [] {
      var n := |a| - 1;
      SumPlus(a[..n], b[..n]);
      var c: seq<int> := b;
      assert c[..n] == b[..n];
      assert Plus(a, b)[..n] == Plus(a[..n], b[..n]);
    }
  }

  lemma {:induction false} SumShares(amount: nat, m: nat)
    requires m >= 1
    ensures Sum(Shares(amount, m)) == amount
  {
    var s := Shares(amount, m);
    SumBound(s[..m - 1], amount / m, amount / m);
    MulAdd(amount / m, m - 1, 1);
    DivMod(amount, m);
  }

  ghost predicate WholeOutputs(outs: seq<TxOut>) {
    forall i :: 0 <= i < |outs| ==> outs[i].value >= 0
  }

  lemma StateTxSum(t: Terms, s: State)
    requires ValidTerms(t) && Conserving(s, t.cfg) && StateTx(t, s).Ok?
    ensures OutputSum(StateTx(t, s).value.outputs) == t.cfg.S && WholeOutputs(StateTx(t, s).value.outputs)
  {
    QuantiseSucceeds(s, t.cfg);
    PayoutsAreWhole(s, t.cfg);
    PaymentsPay(Quantise(s, t.cfg).value, t.keys.payout, []);
  }

  lemma CloseTxSum(t: Terms, s: State)
    requires ValidTerms(t) && Conserving(s, t.cfg)
    ensures CloseTx(t, s).Ok?
    ensures OutputSum(CloseTx(t, s).value.outputs) == t.cfg.S + Sum(t.cfg.bonds)
            && WholeOutputs(CloseTx(t, s).value.outputs)
  {
    QuantiseSucceeds(s, t.cfg);
    PayoutsAreWhole(s, t.cfg);
    var q := Quantise(s, t.cfg).value;
    SumPlus(q, t.cfg.bonds);
    PaymentsPay(Plus(q, t.cfg.bonds), t.keys.payout, []);
  }

  lemma ForfeitOutputsSum(payees: seq<Script>, offender: nat, tower: Option<Script>, fee: nat, amount: nat)
    requires |payees| >= 2 && offender < |payees|
    ensures |Without(payees, offender)| == |payees| - 1
    ensures var outs := TowerOutputs(tower, fee) + Payments(Shares(amount, |payees| - 1), Without(payees, offender));
            OutputSum(outs) == amount + (if tower.Some? then fee else 0) && WholeOutputs(outs)
  {
    var shares, honest := Shares(amount, |payees| - 1), Without(payees, offender);
    SumShares(amount, |payees| - 1);
    PaymentsPay(shares, honest, []);
    hide Payments, Shares, Without, OutputSum, PaidTo;
    TowerOutputsPay(tower, fee, []);
    PaidToAppend(TowerOutputs(tower, fee), Payments(shares, honest), []);
  }

  lemma ForfeitTxSum(t: Terms, offender: int, tower: Option<Script>, fee: int)
    requires ValidTerms(t) && ForfeitTx(t, offender, tower, fee).Ok?
    ensures OutputSum(ForfeitTx(t, offender, tower, fee).value.outputs) == t.cfg.bonds[offender]
    ensures WholeOutputs(ForfeitTx(t, offender, tower, fee).value.outputs)
  {
    hide Payments, Shares, Without, OutputSum, TowerOutputs, WholeOutputs;
    ForfeitOutputsSum(t.keys.payout, offender, tower, fee, Remaining(t.cfg.bonds[offender], tower, fee));
  }

  /** The shape of a state transaction and its refusals: it spends the channel's output under the
      version as sequence number and pays the positive netted amounts in party order. */
  lemma StateTxIs(t: Terms, s: State)
    requires ValidTerms(t)
    ensures StateTx(t, s) == Err(Netting(NotConserving)) <==> !Conserving(s, t.cfg)
    ensures StateTx(t, s) == Err(VersionExhausted) <==> Conserving(s, t.cfg) && s.version >= 0xFFFF_FFFF
    ensures StateTx(t, s).Ok? <==> Conserving(s, t.cfg) && s.version < 0xFFFF_FFFF
    ensures StateTx(t, s).Ok? ==>
              var tx := StateTx(t, s).value;
              && tx.inputs == [TxIn(Outpoint(t.funding, 0), [], s.version)] && tx.locktime == 0
              && |Quantise(s, t.cfg).value| == t.cfg.n
              && tx.outputs == Payments(Quantise(s, t.cfg).value, t.keys.payout)
  {
    hide Payments;
    if Conserving(s, t.cfg) {
      QuantiseSucceeds(s, t.cfg);
      hide Quantise, Conserving;
      if s.version < 0xFFFF_FFFF { StateTxSum(t, s); }
    }
  }

  /** The shape of a close and its refusal: it spends all the funding outputs, each finally, and
      pays in party order what is positive of netted amount and bond. */
  lemma CloseTxIs(t: Terms, s: State)
    requires ValidTerms(t)
    ensures CloseTx(t, s) == Err(Netting(NotConserving)) <==> !Conserving(s, t.cfg)
    ensures CloseTx(t, s).Ok? <==> Conserving(s, t.cfg)
    ensures CloseTx(t, s).Ok? ==>
              var tx := CloseTx(t, s).value;
              && |tx.inputs| == 1 + t.cfg.n && tx.locktime == 0
              && (forall i :: 0 <= i <= t.cfg.n ==>
                    tx.inputs[i] == TxIn(Outpoint(t.funding, i), [], 0xFFFF_FFFF))
              && |Quantise(s, t.cfg).value| == t.cfg.n
              && tx.outputs == Payments(seq(t.cfg.n, i requires 0 <= i < t.cfg.n =>
                                          Quantise(s, t.cfg).value[i] + t.cfg.bonds[i]), t.keys.payout)
  {
    hide Payments;
    if Conserving(s, t.cfg) {
      QuantiseSucceeds(s, t.cfg);
      hide Quantise, Conserving;
      var q := Quantise(s, t.cfg).value;
      assert Plus(q, t.cfg.bonds) == seq(t.cfg.n, i requires 0 <= i < t.cfg.n => q[i] + t.cfg.bonds[i]);
    }
  }

  /** The state transaction exists for every conserving state below the final version; it pays
      exactly S, each party exactly its netted amount, and its empty-output fallback is dead. */
  lemma StateTxPays(t: Terms, s: State, i: nat)
    requires ValidTerms(t) && Conserving(s, t.cfg) && i < t.cfg.n && NoRepeats(t.keys.payout)
    ensures StateTx(t, s).Ok? <==> s.version < 0xFFFFFFFF
    ensures Quantise(s, t.cfg).Ok? && |Quantise(s, t.cfg).value| == t.cfg.n
    ensures StateTx(t, s).Ok? ==>
              var tx := StateTx(t, s).value;
              && OutputSum(tx.outputs) == t.cfg.S && TxOut(0, [OP_RETURN]) !in tx.outputs
              && PaidTo(tx.outputs, t.keys.payout[i]) == Quantise(s, t.cfg).value[i]
  {
    QuantiseSucceeds(s, t.cfg);
    var q := Quantise(s, t.cfg).value;
    PayoutsAreWhole(s, t.cfg);
    PaymentsPay(q, t.keys.payout, t.keys.payout[i]);
    AmountIsOwn(q, t.keys.payout, t.keys.payout[i]);
  }

  /** No netted amount is negative. */
  lemma PayoutsAreWhole(s: State, cfg: Config)
    requires Conserving(s, cfg) && cfg.k >= 1 && cfg.n >= 1
    ensures Quantise(s, cfg).Ok? && |Quantise(s, cfg).value| == cfg.n
    ensures forall i :: 0 <= i < cfg.n ==> Quantise(s, cfg).value[i] >= 0
  {
    hide Quantise;
    QuantiseSucceeds(s, cfg);
    forall i | 0 <= i < cfg.n ensures Quantise(s, cfg).value[i] >= 0 {
      QuotaRule(s, cfg, i);
      NotNegative(cfg.k, Quantise(s, cfg).value[i], s.balances[i]);
    }
  }

  lemma NotNegative(k: nat, q: int, balance: nat)
    requires k >= 1 && balance - k < k * q
    ensures q >= 0
  {
    if q < 0 {
      MulAdd(k, q, -q);
      MulSign(-q, k);
    }
  }

  /** The close exists for every conserving state, of any version; it pays S and all bonds, each
      party its netted amount and its own bond. */
  lemma CloseTxPays(t: Terms, s: State, i: nat)
    requires ValidTerms(t) && Conserving(s, t.cfg) && i < t.cfg.n && NoRepeats(t.keys.payout)
    ensures CloseTx(t, s).Ok? && Quantise(s, t.cfg).Ok? && |Quantise(s, t.cfg).value| == t.cfg.n
    ensures OutputSum(CloseTx(t, s).value.outputs) == t.cfg.S + Sum(t.cfg.bonds)
    ensures PaidTo(CloseTx(t, s).value.outputs, t.keys.payout[i]) == Quantise(s, t.cfg).value[i] + t.cfg.bonds[i]
  {
    hide Quantise, Conserving;
    QuantiseSucceeds(s, t.cfg);
    PayoutsAreWhole(s, t.cfg);
    var q := Quantise(s, t.cfg).value;
    SumPlus(q, t.cfg.bonds);
    PaymentsPay(Plus(q, t.cfg.bonds), t.keys.payout, t.keys.payout[i]);
    AmountIsOwn(Plus(q, t.cfg.bonds), t.keys.payout, t.keys.payout[i]);
  }

  /** Netted before any transfer, the funder has S and everybody else nothing. */
  lemma FreshNetting(cfg: Config, i: nat)
    requires ValidConfig(cfg) && i < cfg.n
    ensures var q := Quantise(InitialState(cfg, 0), cfg);
            q.Ok? && |q.value| == cfg.n && q.value[i] == if i == 0 then cfg.S else 0
  {
    hide Quantise, Conserving, InitialState;
    InitialConserves(cfg, 0);
    QuotaRule(InitialState(cfg, 0), cfg, i);
    Nearest(cfg.k, Quantise(InitialState(cfg, 0), cfg).value[i], if i == 0 then cfg.S else 0);
  }

  lemma Nearest(k: int, q: int, x: int)
    requires k >= 1 && k * x - k < k * q < k * x + k
    ensures q == x
  {
    MulAdd(k, x, q - x);
    if q < x { MulAdd(k, q - x, x - q); MulSign(x - q, k); }
    if q > x { MulSign(q - x, k); }
  }

  /** The close of a channel before any transfer pays party 0 what it funded and its bond, and
      every other party its bond alone. */
  lemma FreshClosePays(t: Terms, i: nat)
    requires ValidTerms(t) && i < t.cfg.n && NoRepeats(t.keys.payout)
    ensures CloseTx(t, InitialState(t.cfg, 0)).Ok?
    ensures PaidTo(CloseTx(t, InitialState(t.cfg, 0)).value.outputs, t.keys.payout[i])
         == t.cfg.bonds[i] + if i == 0 then t.cfg.S else 0
  {
    hide CloseTx, PaidTo, NoRepeats, InitialState, Quantise;
    InitialConserves(t.cfg, 0);
    FreshNetting(t.cfg, i);
    CloseTxPays(t, InitialState(t.cfg, 0), i);
  }

  lemma CloseSpends(t: Terms, s: State)
    requires ValidTerms(t)
    ensures CloseTx(t, s) != Err(Unconfirmed)
    ensures CloseTx(t, s).Ok? ==>
              var tx := CloseTx(t, s).value;
              && |tx.inputs| == 1 + t.cfg.n && tx.locktime == 0
              && forall i :: 0 <= i <= t.cfg.n ==> tx.inputs[i] == TxIn(Outpoint(t.funding, i), [], 0xFFFF_FFFF)
  {
    hide Quantise, Payments, Plus;
  }

  /** The honest parties' part of a bond: nothing to the offender or to outsiders, equal parts to
      the rest, the last of them also taking what does not divide. */
  lemma HonestPay(payees: seq<Script>, offender: nat, amount: nat, i: nat)
    requires |payees| >= 2 && NoRepeats(payees) && offender < |payees| && i < |payees|
    ensures |Without(payees, offender)| == |payees| - 1
    ensures var outs := Payments(Shares(amount, |payees| - 1), Without(payees, offender));
            PaidTo(outs, payees[i]) == HonestShare(|payees|, offender, amount, i)
  {
    hide Payments, PaidTo, AmountFor;
    var m := |payees| - 1;
    var honest, shares := Without(payees, offender), Shares(amount, m);
    WithoutIsDistinct(payees, offender);
    PaymentsPay(shares, honest, payees[i]);
    AmountIsOwn(shares, honest, payees[i]);
    if i != offender { HonestAt(payees, offender, amount, i); }
  }

  /** Where an honest party stands among the others, and the part that falls there. */
  lemma HonestAt(payees: seq<Script>, offender: nat, amount: nat, i: nat)
    requires |payees| >= 2 && offender < |payees| && i < |payees| && i != offender
    ensures var k := if i < offender then i else i - 1;
            && k < |Without(payees, offender)| == |payees| - 1 && Without(payees, offender)[k] == payees[i]
            && Shares(amount, |payees| - 1)[k] == HonestShare(|payees|, offender, amount, i)
  {
  }

  lemma OutsiderGetsNothing(payees: seq<Script>, offender: nat, amount: nat, script: Script)
    requires |payees| >= 2 && NoRepeats(payees) && offender < |payees|
    ensures |Without(payees, offender)| == |payees| - 1
    ensures OutputSum(Payments(Shares(amount, |payees| - 1), Without(payees, offender))) == amount
    ensures script !in payees ==> PaidTo(Payments(Shares(amount, |payees| - 1), Without(payees, offender)), script) == 0
  {
    var m := |payees| - 1;
    var honest, shares := Without(payees, offender), Shares(amount, m);
    WithoutIsDistinct(payees, offender);
    PaymentsPay(shares, honest, script);
    AmountIsOwn(shares, honest, script);
    SumShares(amount, m);
  }

  function HonestShare(n: nat, offender: nat, amount: nat, i: nat): nat
    requires n >= 2
  {
    var last := if offender == n - 1 then n - 2 else n - 1;
    if i == offender then 0 else amount / (n - 1) + if i == last then amount % (n - 1) else 0
  }

  lemma TowerOutputsPay(tower: Option<Script>, fee: nat, script: Script)
    ensures OutputSum(TowerOutputs(tower, fee)) == if tower.Some? then fee else 0
    ensures PaidTo(TowerOutputs(tower, fee), script) == if tower == Some(script) then fee else 0
  {
    var outs := TowerOutputs(tower, fee);
    assert outs != [] ==> outs[..0] == [];
  }

  /** A forfeit is built exactly when the offender and the fee are in range. Its outputs add up to
      the bond whether or not a tower is named and however the rest divides; the offender's
      part is nothing and the honest parties' parts are equal up to the indivisible rest; the tower
      gets its fee, on top of a party's part if it is paid under that party's script. */
  lemma ForfeitTxPays(t: Terms, offender: int, tower: Option<Script>, fee: int, i: nat)
    requires ValidTerms(t) && NoRepeats(t.keys.payout) && i < t.cfg.n
    ensures ForfeitTx(t, offender, tower, fee).Ok? <==> 0 <= offender < t.cfg.n && 0 <= fee <= t.cfg.bonds[offender]
    ensures ForfeitTx(t, offender, tower, fee).Ok? ==>
              var outs := ForfeitTx(t, offender, tower, fee).value.outputs;
              && OutputSum(outs) == t.cfg.bonds[offender]
              && (tower.Some? && tower.value !in t.keys.payout ==> PaidTo(outs, tower.value) == fee)
              && PaidTo(outs, t.keys.payout[i])
                 == HonestShare(t.cfg.n, offender, Remaining(t.cfg.bonds[offender], tower, fee), i)
                    + (if tower == Some(t.keys.payout[i]) then fee else 0)
  {
    hide Payments, PaidTo, Shares, Without, TowerOutputs, OutputSum, HonestShare, NoRepeats;
    if ForfeitTx(t, offender, tower, fee).Ok? {
      var remaining := Remaining(t.cfg.bonds[offender], tower, fee);
      ForfeitOutputs(t.keys.payout, offender, tower, fee, remaining, t.keys.payout[i]);
      HonestPay(t.keys.payout, offender, remaining, i);
      assert t.keys.payout[i] in t.keys.payout;
      if tower.Some? { ForfeitOutputs(t.keys.payout, offender, tower, fee, remaining, tower.value); }
    }
  }

  lemma {:induction false} PaymentsInFull(amounts: seq<int>, payees: seq<Script>)
    requires |amounts| == |payees| && forall i :: 0 <= i < |amounts| ==> amounts[i] > 0
    ensures Payments(amounts, payees) == seq(|amounts|, i requires 0 <= i < |amounts| => TxOut(amounts[i], payees[i]))
  {
    if amounts != [] { PaymentsInFull(amounts[..|amounts| - 1], payees[..|amounts| - 1]); }
  }

  lemma {:induction false} NoPayments(amounts: seq<int>, payees: seq<Script>)
    requires |amounts| == |payees| && forall i :: 0 <= i < |amounts| ==> amounts[i] == 0
    ensures Payments(amounts, payees) == []
  {
    if amounts != [] { NoPayments(amounts[..|amounts| - 1], payees[..|amounts| - 1]); }
  }

  /** The outputs that pay everybody the same share, and the last one the rest too: one each in
      order if there is a share, one for the last if there is only a rest, else none. */
  ghost predicate PaysEqually(outs: seq<TxOut>, share: nat, rest: nat, payees: seq<Script>)
    requires payees != []
  {
    var m := |payees|;
    if share > 0 then
      && |outs| == m
      && forall k :: 0 <= k < m ==> outs[k] == TxOut(share + (if k == m - 1 then rest else 0), payees[k])
    else outs == if rest > 0 then [TxOut(rest, payees[m - 1])] else []
  }

  lemma EqualSharesArePaid(share: nat, rest: nat, amounts: seq<int>, payees: seq<Script>)
    requires payees != [] && |amounts| == |payees|
    requires forall k :: 0 <= k < |amounts| ==> amounts[k] == share + if k == |amounts| - 1 then rest else 0
    ensures PaysEqually(Payments(amounts, payees), share, rest, payees)
  {
    var m := |payees|;
    if share > 0 {
      PaymentsInFull(amounts, payees);
    } else {
      NoPayments(amounts[..m - 1], payees[..m - 1]);
    }
  }

  lemma SharesAre(amount: nat, m: nat) returns (share: nat, rest: nat)
    requires m >= 1
    ensures m * share + rest == amount && rest < m
    ensures |Shares(amount, m)| == m
    ensures forall k :: 0 <= k < m ==> Shares(amount, m)[k] == share + if k == m - 1 then rest else 0
  {
    DivMod(amount, m);
    share, rest := amount / m, amount % m;
  }

  /** The shape of a forfeit and its refusals: it spends the offender's bond, finally; the tower's
      output comes first; the rest of the bond is divided evenly among the honest parties in order,
      and the last one also takes what does not divide. */
  lemma ForfeitTxIs(t: Terms, offender: int, tower: Option<Script>, fee: int) returns (share: nat, rest: nat)
    requires ValidTerms(t)
    ensures var r, known := ForfeitTx(t, offender, tower, fee), 0 <= offender < t.cfg.n;
            && (r == Err(OffenderOutOfRange) <==> !known)
            && (r == Err(NegativeFee) <==> known && fee < 0)
            && (r == Err(FeeAboveBond) <==> known && fee > t.cfg.bonds[offender])
            && (r.Ok? <==> known && 0 <= fee <= t.cfg.bonds[offender])
    ensures ForfeitTx(t, offender, tower, fee).Ok? ==>
              var tx := ForfeitTx(t, offender, tower, fee).value;
              var first := if tower.Some? && fee > 0 then [TxOut(fee, tower.value)] else [];
              var honest := t.keys.payout[..offender] + t.keys.payout[offender + 1..];
              && tx.inputs == [TxIn(Outpoint(t.funding, 1 + offender), [], 0xFFFF_FFFF)] && tx.locktime == 0
              && first <= tx.outputs && PaysEqually(tx.outputs[|first|..], share, rest, honest)
              && |honest| * share + rest == t.cfg.bonds[offender] - (if tower.Some? then fee else 0)
              && rest < |honest|
  {
    hide Payments, Shares, PaysEqually;
    share, rest := 0, 0;
    if ForfeitTx(t, offender, tower, fee).Ok? {
      var amount, honest := Remaining(t.cfg.bonds[offender], tower, fee), Without(t.keys.payout, offender);
      share, rest := SharesAre(amount, t.cfg.n - 1);
      EqualSharesArePaid(share, rest, Shares(amount, t.cfg.n - 1), honest);
      var outs := ForfeitTx(t, offender, tower, fee).value.outputs;
      assert outs[|TowerOutputs(tower, fee)|..] == Payments(Shares(amount, t.cfg.n - 1), honest);
    }
  }

  lemma ForfeitSpends(t: Terms, offender: int, tower: Option<Script>, fee: int)
    requires ValidTerms(t)
    ensures ForfeitTx(t, offender, tower, fee) != Err(Unconfirmed)
    ensures ForfeitTx(t, offender, tower, fee).Ok? ==>
              var tx := ForfeitTx(t, offender, tower, fee).value;
              && 0 <= offender < t.cfg.n && tx.locktime == 0
              && tx.inputs == [TxIn(Outpoint(t.funding, 1 + offender), [], 0xFFFF_FFFF)]
  {
    hide Payments, Shares;
  }

  lemma ForfeitOutputs(payees: seq<Script>, offender: nat, tower: Option<Script>, fee: nat, amount: nat, script: Script)
    requires |payees| >= 2 && NoRepeats(payees) && offender < |payees|
    ensures |Without(payees, offender)| == |payees| - 1
    ensures var rest := Payments(Shares(amount, |payees| - 1), Without(payees, offender));
            var outs := TowerOutputs(tower, fee) + rest;
            && OutputSum(outs) == amount + (if tower.Some? then fee else 0)
            && PaidTo(outs, script) == PaidTo(rest, script) + (if tower == Some(script) then fee else 0)
            && (script !in payees ==> PaidTo(rest, script) == 0)
  {
    OutsiderGetsNothing(payees, offender, amount, script);
    PaidToAppend(TowerOutputs(tower, fee), Payments(Shares(amount, |payees| - 1), Without(payees, offender)), script);
    TowerOutputsPay(tower, fee, script);
  }

  lemma WithoutIsDistinct(payees: seq<Script>, i: nat)
    requires i < |payees| && NoRepeats(payees)
    ensures NoRepeats(Without(payees, i)) && |Without(payees, i)| == |payees| - 1
    ensures payees[i] !in Without(payees, i)
    ensures forall x :: x in Without(payees, i) ==> x in payees
  {
    var w := Without(payees, i);
    forall x | x in w ensures x in payees && x != payees[i] {
      var j :| 0 <= j < |w| && w[j] == x;
      assert x == payees[if j < i then j else j + 1];
    }
    forall a, b | 0 <= a < b < |w| ensures w[a] != w[b] {
      assert w[a] == payees[if a < i then a else a + 1] && w[b] == payees[if b < i then b else b + 1];
    }
  }
}
