/** A channel as an object: the current state changes with every transfer, and the settlement
    transactions are built, signed and checked from it. */
module Channels {
  import opened Ledger
  import opened Accounting
  import opened Validation
  import opened Lifecycle
  import opened Settlement

  /** The parties' signatures as unlocking scripts. They commit to everything but the scripts. */
  datatype Signer = Signer(channel: Tx -> Script, bondReturn: (Tx, nat) -> Script, bondForfeit: Tx -> Script)

  function WithScripts(tx: Tx, sigs: seq<Script>): Tx
    requires |sigs| == |tx.inputs|
  {
    tx.(inputs := seq(|sigs|, i requires 0 <= i < |sigs| => tx.inputs[i].(scriptSig := sigs[i])))
  }

  predicate AllUnlock(verify: Interpreter, tx: Tx, spent: seq<TxOut>)
    requires |spent| == |tx.inputs|
  {
    forall i :: 0 <= i < |tx.inputs| ==> verify(tx, i, spent[i])
  }

  function CloseScripts(t: Terms, signer: Signer, tx: Tx): seq<Script> {
    [signer.channel(tx)] + seq(t.cfg.n, i requires 0 <= i => signer.bondReturn(tx, 1 + i))
  }

  function SignedState(t: Terms, signer: Signer, confirmed: bool, s: State): Result<Tx, LifecycleError>
    requires ValidTerms(t)
  {
    if !confirmed then Err(Unconfirmed)
    else
      var tx := StateTx(t, s);
      if tx.Err? then tx else Ok(WithScripts(tx.value, [signer.channel(tx.value)]))
  }

  function SignedClose(t: Terms, signer: Signer, verify: Interpreter, confirmed: bool, s: State)
      : Result<Tx, LifecycleError>
    requires ValidTerms(t)
  {
    if !confirmed then Err(Unconfirmed)
    else
      var tx := CloseTx(t, s);
      if tx.Err? then tx
      else
        var signed := WithScripts(tx.value, CloseScripts(t, signer, tx.value));
        if AllUnlock(verify, signed, ChannelOutputs(t.cfg, t.keys)) then Ok(signed) else Err(NotVerified)
  }

  function SignedForfeit(t: Terms, signer: Signer, verify: Interpreter, confirmed: bool,
                         offender: int, tower: Option<Script>, fee: int): Result<Tx, LifecycleError>
    requires ValidTerms(t)
  {
    if !confirmed then Err(Unconfirmed)
    else
      var tx := ForfeitTx(t, offender, tower, fee);
      if tx.Err? then tx
      else
        var signed := WithScripts(tx.value, [signer.bondForfeit(tx.value)]);
        var spent := [ChannelOutputs(t.cfg, t.keys)[1 + offender]];
        if AllUnlock(verify, signed, spent) then Ok(signed) else Err(NotVerified)
  }

  /** What a signed state is: refused before the funding is confirmed, else the state transaction
      with the channel's script over the unsigned transaction. */
  lemma SignedStateIs(t: Terms, signer: Signer, confirmed: bool, s: State)
    requires ValidTerms(t)
    ensures SignedState(t, signer, confirmed, s) == Err(Unconfirmed) <==> !confirmed
    ensures confirmed ==> (SignedState(t, signer, confirmed, s).Ok? <==> StateTx(t, s).Ok?)
    ensures confirmed && StateTx(t, s).Err? ==> SignedState(t, signer, confirmed, s) == StateTx(t, s)
    ensures confirmed && StateTx(t, s).Ok? ==>
              var blank := StateTx(t, s).value;
              SignedState(t, signer, confirmed, s).value
                == Tx([TxIn(Outpoint(t.funding, 0), signer.channel(blank), s.version)], blank.outputs, 0)
  {
    StateTxIs(t, s);
    hide Quantise, Payments, Conserving;
  }

  /** What a signed close is: the close with the channel's script on input 0 and each party's bond
      script on its input, all over the unsigned transaction. It is handed out only if every script
      unlocks the output its input spends, S for the channel and each party's own bond. */
  lemma SignedCloseIs(t: Terms, signer: Signer, verify: Interpreter, confirmed: bool, s: State)
    requires ValidTerms(t)
    ensures SignedClose(t, signer, verify, confirmed, s) == Err(Unconfirmed) <==> !confirmed
    ensures confirmed && CloseTx(t, s).Err? ==> SignedClose(t, signer, verify, confirmed, s) == CloseTx(t, s)
    ensures confirmed && CloseTx(t, s).Ok? ==>
              var r, blank := SignedClose(t, signer, verify, confirmed, s), CloseTx(t, s).value;
              var inputs := seq(1 + t.cfg.n, i requires 0 <= i < 1 + t.cfg.n =>
                TxIn(Outpoint(t.funding, i), if i == 0 then signer.channel(blank) else signer.bondReturn(blank, i),
                     0xFFFF_FFFF));
              var signed := Tx(inputs, blank.outputs, 0);
              var unlocked := && verify(signed, 0, TxOut(t.cfg.S, t.keys.channel))
                              && forall i :: 0 <= i < t.cfg.n ==>
                                   verify(signed, 1 + i, TxOut(t.cfg.bonds[i], t.keys.bond[i]));
              r == if unlocked then Ok(signed) else Err(NotVerified)
  {
    hide CloseTx, WithScripts, CloseScripts, AllUnlock, ChannelOutputs;
    CloseSpends(t, s);
    if confirmed && CloseTx(t, s).Ok? {
      var blank := CloseTx(t, s).value;
      SignsAll(t, signer, blank);
      ChannelOutputsAre(t.cfg, t.keys);
      UnlocksAll(t, verify, WithScripts(blank, CloseScripts(t, signer, blank)));
    }
  }

  lemma SignsAll(t: Terms, signer: Signer, tx: Tx)
    requires |tx.inputs| == 1 + t.cfg.n && tx.locktime == 0
    requires forall i :: 0 <= i <= t.cfg.n ==> tx.inputs[i] == TxIn(Outpoint(t.funding, i), [], 0xFFFF_FFFF)
    ensures |CloseScripts(t, signer, tx)| == |tx.inputs|
    ensures WithScripts(tx, CloseScripts(t, signer, tx))
         == Tx(seq(1 + t.cfg.n, i requires 0 <= i < 1 + t.cfg.n =>
                 TxIn(Outpoint(t.funding, i), if i == 0 then signer.channel(tx) else signer.bondReturn(tx, i),
                      0xFFFF_FFFF)), tx.outputs, 0)
  {
    assert WithScripts(tx, CloseScripts(t, signer, tx)).inputs == seq(1 + t.cfg.n, i requires 0 <= i < 1 + t.cfg.n =>
      TxIn(Outpoint(t.funding, i), if i == 0 then signer.channel(tx) else signer.bondReturn(tx, i), 0xFFFF_FFFF));
  }

  lemma UnlocksAll(t: Terms, verify: Interpreter, tx: Tx)
    requires ValidTerms(t) && |tx.inputs| == 1 + t.cfg.n
    ensures |ChannelOutputs(t.cfg, t.keys)| == 1 + t.cfg.n
    ensures AllUnlock(verify, tx, ChannelOutputs(t.cfg, t.keys))
       <==> && verify(tx, 0, TxOut(t.cfg.S, t.keys.channel))
            && forall i :: 0 <= i < t.cfg.n ==> verify(tx, 1 + i, TxOut(t.cfg.bonds[i], t.keys.bond[i]))
  {
    var outs := ChannelOutputs(t.cfg, t.keys);
    ChannelOutputsAre(t.cfg, t.keys);
    hide ChannelOutputs;
    assert forall i :: 0 <= i < t.cfg.n ==> (verify(tx, 1 + i, outs[1 + i])
                  <==> verify(tx, 1 + i, TxOut(t.cfg.bonds[i], t.keys.bond[i])));
    assert forall k :: 1 <= k <= t.cfg.n ==> outs[k] == TxOut(t.cfg.bonds[k - 1], t.keys.bond[k - 1]);
  }

  lemma UnlocksOne(verify: Interpreter, tx: Tx, spent: TxOut)
    requires |tx.inputs| == 1
    ensures AllUnlock(verify, tx, [spent]) <==> verify(tx, 0, spent)
  {
    assert [spent][0] == spent;
  }

  /** What a signed forfeit is: the forfeit with the parties' script over the unsigned transaction.
      It is handed out only if that unlocks the offender's bond. */
  lemma SignedForfeitIs(t: Terms, signer: Signer, verify: Interpreter, confirmed: bool, offender: int,
                        tower: Option<Script>, fee: int)
    requires ValidTerms(t)
    ensures SignedForfeit(t, signer, verify, confirmed, offender, tower, fee) == Err(Unconfirmed) <==> !confirmed
    ensures confirmed && ForfeitTx(t, offender, tower, fee).Err?
        ==> SignedForfeit(t, signer, verify, confirmed, offender, tower, fee) == ForfeitTx(t, offender, tower, fee)
    ensures confirmed && ForfeitTx(t, offender, tower, fee).Ok? ==>
              var blank := ForfeitTx(t, offender, tower, fee).value;
              var signed := Tx([TxIn(Outpoint(t.funding, 1 + offender), signer.bondForfeit(blank), 0xFFFF_FFFF)],
                               blank.outputs, 0);
              && 0 <= offender < t.cfg.n
              && SignedForfeit(t, signer, verify, confirmed, offender, tower, fee)
                 == if verify(signed, 0, TxOut(t.cfg.bonds[offender], t.keys.bond[offender])) then Ok(signed)
                    else Err(NotVerified)
  {
    hide ForfeitTx, ChannelOutputs, WithScripts, AllUnlock;
    ForfeitSpends(t, offender, tower, fee);
    if confirmed && ForfeitTx(t, offender, tower, fee).Ok? {
      ChannelOutputsAre(t.cfg, t.keys);
      var blank := ForfeitTx(t, offender, tower, fee).value;
      var script := signer.bondForfeit(blank);
      SignsOne(blank, script);
      UnlocksOne(verify, WithScripts(blank, [script]), TxOut(t.cfg.bonds[offender], t.keys.bond[offender]));
    }
  }

  lemma SignsOne(tx: Tx, script: Script)
    requires |tx.inputs| == 1
    ensures WithScripts(tx, [script])
         == Tx([TxIn(tx.inputs[0].prev, script, tx.inputs[0].sequence)], tx.outputs, tx.locktime)
  {
    assert WithScripts(tx, [script]).inputs == [TxIn(tx.inputs[0].prev, script, tx.inputs[0].sequence)];
  }

  lemma StateHandedOut(t: Terms, signer: Signer, confirmed: bool, s: State)
    requires ValidTerms(t) && Conserving(s, t.cfg)
    ensures SignedState(t, signer, confirmed, s).Ok? <==> confirmed && s.version < 0xFFFFFFFF
    ensures SignedState(t, signer, confirmed, s).Ok? ==>
            Settles(t, StateExit(s), SignedState(t, signer, confirmed, s).value)
  {
    QuantiseSucceeds(s, t.cfg);
    hide Quantise, Payments, Conserving;
  }

  lemma CloseHandedOut(t: Terms, signer: Signer, verify: Interpreter, confirmed: bool, s: State)
    requires ValidTerms(t) && Conserving(s, t.cfg)
    ensures var r := SignedClose(t, signer, verify, confirmed, s);
            && (r.Ok? ==> confirmed && Settles(t, CloseExit(s), r.value))
            && (confirmed && r.Err? ==> r == Err(NotVerified))
  {
    QuantiseSucceeds(s, t.cfg);
    hide Quantise, Payments, Conserving, ChannelOutputs, AllUnlock;
  }

  lemma ForfeitHandedOut(t: Terms, signer: Signer, verify: Interpreter, confirmed: bool, offender: nat,
                         tower: Option<Script>, fee: nat)
    requires ValidTerms(t)
    ensures var r := SignedForfeit(t, signer, verify, confirmed, offender, tower, fee);
            r.Ok? ==> confirmed && Settles(t, ForfeitExit(offender, tower, fee), r.value)
  {
    hide Payments, ChannelOutputs, AllUnlock, TowerOutputs, Without, Shares;
  }

  /** Whatever a channel hands out after any legal transfers from its initial state settles it:
      nothing before the funding is confirmed; then a state below the final version always, and a
      close or a forfeit only if its scripts unlock. */
  lemma HandsOutSettlements(t: Terms, signer: Signer, verify: Interpreter, confirmed: bool, orders: seq<Order>,
                            offender: nat, tower: Option<Script>, fee: nat)
    requires ValidTerms(t)
    ensures Conserving(InitialState(t.cfg, 0), t.cfg)
    ensures var r := TransferAll(InitialState(t.cfg, 0), orders, t.cfg);
            r.Ok? ==>
              && (SignedState(t, signer, confirmed, r.value).Ok? <==> confirmed && |orders| < 0xFFFFFFFF)
              && (SignedState(t, signer, confirmed, r.value).Ok?
                  ==> Settles(t, StateExit(r.value), SignedState(t, signer, confirmed, r.value).value))
              && (SignedClose(t, signer, verify, confirmed, r.value).Ok?
                  ==> confirmed && Settles(t, CloseExit(r.value),
                                           SignedClose(t, signer, verify, confirmed, r.value).value))
              && (confirmed && SignedClose(t, signer, verify, confirmed, r.value).Err?
                  ==> SignedClose(t, signer, verify, confirmed, r.value) == Err(NotVerified))
    ensures SignedForfeit(t, signer, verify, confirmed, offender, tower, fee).Ok?
        ==> confirmed && Settles(t, ForfeitExit(offender, tower, fee),
                                 SignedForfeit(t, signer, verify, confirmed, offender, tower, fee).value)
  {
    hide SignedState, SignedClose, SignedForfeit, Settles, Conserving, TransferAll, Transfer;
    InitialConserves(t.cfg, 0);
    TransfersConserve(InitialState(t.cfg, 0), orders, t.cfg);
    var r := TransferAll(InitialState(t.cfg, 0), orders, t.cfg);
    if r.Ok? {
      StateHandedOut(t, signer, confirmed, r.value);
      CloseHandedOut(t, signer, verify, confirmed, r.value);
    }
    ForfeitHandedOut(t, signer, verify, confirmed, offender, tower, fee);
  }

  /** Output `i` is the first that is not as expected; the value is compared before the script. */
  ghost predicate FirstMismatch(expected: seq<TxOut>, outputs: seq<TxOut>, i: nat, error: LifecycleError)
    requires i < |expected| <= |outputs|
  {
    && expected[..i] == outputs[..i] && expected[i] != outputs[i]
    && error == if expected[i].value != outputs[i].value then ValueMismatch(i) else ScriptMismatch(i)
  }

  class Channel {
    const terms: Terms
    const fundingTx: Tx
    const signer: Signer
    const verify: Interpreter
    var confirmed: bool
    var state: State

    /** The funding transaction carries the channel's outputs, and the state conserves. */
    ghost predicate Valid()
      reads this
    {
      && ValidTerms(terms) && terms.funding == IdOf(fundingTx)
      && ChannelOutputs(terms.cfg, terms.keys) <= fundingTx.outputs
      && Conserving(state, terms.cfg)
    }

    constructor (cfg: Config, keys: Keys, signer: Signer, verify: Interpreter, fundingTx: Tx)
      requires ValidConfig(cfg) && ValidKeys(cfg, keys) && ChannelOutputs(cfg, keys) <= fundingTx.outputs
      ensures Valid() && terms == Terms(cfg, keys, IdOf(fundingTx))
      ensures this.fundingTx == fundingTx && this.signer == signer && this.verify == verify
      ensures !confirmed && state == InitialState(cfg, 0)
    {
      this.terms := Terms(cfg, keys, IdOf(fundingTx));
      this.fundingTx, this.signer, this.verify := fundingTx, signer, verify;
      confirmed, state := false, InitialState(cfg, 0);
      InitialConserves(cfg, 0);
    }

    /** Accepts a funding transaction exactly when its first outputs are the channel's, with the
        value compared before the script, output by output; further outputs do not matter. */
    static method FromFundingTx(cfg: Config, keys: Keys, signer: Signer, verify: Interpreter, fundingTx: Tx)
        returns (r: Result<Channel, LifecycleError>)
      requires ValidConfig(cfg) && ValidKeys(cfg, keys)
      ensures r.Ok? <==>
                && |fundingTx.outputs| >= 1 + cfg.n && fundingTx.outputs[0] == TxOut(cfg.S, keys.channel)
                && forall i :: 0 <= i < cfg.n ==> fundingTx.outputs[1 + i] == TxOut(cfg.bonds[i], keys.bond[i])
      ensures r.Ok? ==>
                && fresh(r.value) && r.value.Valid()
                && r.value.fundingTx == fundingTx && r.value.terms == Terms(cfg, keys, IdOf(fundingTx))
                && r.value.signer == signer && r.value.verify == verify
                && !r.value.confirmed && r.value.state == InitialState(cfg, 0)
                && r.value.state.balances[0] == cfg.k * cfg.S && r.value.state.version == 0
                && forall i :: 1 <= i < cfg.n ==> r.value.state.balances[i] == 0
      ensures r == Err(TooFewOutputs) <==> |fundingTx.outputs| < 1 + cfg.n
      ensures r.Err? && |fundingTx.outputs| >= 1 + cfg.n ==>
                exists i: nat :: i <= cfg.n && FirstMismatch(ChannelOutputs(cfg, keys), fundingTx.outputs, i, r.error)
    {
      var expected := ChannelOutputs(cfg, keys);
      ChannelOutputsAre(cfg, keys);
      InitialConserves(cfg, 0);
      if |fundingTx.outputs| < 1 + cfg.n { return Err(TooFewOutputs); }
      for i := 0 to 1 + cfg.n
        invariant forall k :: 0 <= k < i ==> fundingTx.outputs[k] == expected[k]
      {
        if fundingTx.outputs[i].value != expected[i].value {
          assert FirstMismatch(expected, fundingTx.outputs, i, ValueMismatch(i));
          return Err(ValueMismatch(i));
        }
        if fundingTx.outputs[i].script != expected[i].script {
          assert FirstMismatch(expected, fundingTx.outputs, i, ScriptMismatch(i));
          return Err(ScriptMismatch(i));
        }
      }
      assert fundingTx.outputs[..1 + cfg.n] == expected;
      var channel := new Channel(cfg, keys, signer, verify, fundingTx);
      return Ok(channel);
    }

    lemma Conserves()
      requires Valid()
      ensures Conserving(state, terms.cfg) && ValidTerms(terms)
    {
    }

    method MarkConfirmed()
      modifies this`confirmed
      ensures confirmed
    {
      confirmed := true;
    }

    method ApplyTransfer(sender: int, recipient: int, delta: int) returns (r: Result<State, AccountingError>)
      requires Valid()
      modifies this`state
      ensures Valid() && r == Transfer(old(state), sender, recipient, delta, terms.cfg)
      ensures state == if r.Ok? then r.value else old(state)
    {
      TransferExact(state, sender, recipient, delta, terms.cfg);
      r := Transfer(state, sender, recipient, delta, terms.cfg);
      if r.Ok? { state := r.value; }
    }

    method BuildStateTx(s: State) returns (r: Result<Tx, LifecycleError>)
      requires Valid()
      ensures r == StateTx(terms, s)
    {
      var q := Quantise(s, terms.cfg);
      if q.Err? { return Err(Netting(q.error)); }
      QuantiseSucceeds(s, terms.cfg);
      var sequence := SequenceForVersion(s.version);
      if sequence.Err? { return Err(sequence.error); }
      var outputs := BuildPayments(q.value, terms.keys.payout);
      if outputs == [] { outputs := [TxOut(0, [OP_RETURN])]; }
      return Ok(Tx([TxIn(Outpoint(terms.funding, 0), [], sequence.value)], outputs, 0));
    }

    method BuildPayments(amounts: seq<int>, payees: seq<Script>) returns (outputs: seq<TxOut>)
      requires |amounts| == |payees|
      ensures outputs == Payments(amounts, payees)
    {
      outputs := [];
      for i := 0 to |amounts|
        invariant outputs == Payments(amounts[..i], payees[..i])
      {
        assert amounts[..i + 1][..i] == amounts[..i] && payees[..i + 1][..i] == payees[..i];
        if amounts[i] > 0 { outputs := outputs + [TxOut(amounts[i], payees[i])]; }
      }
      assert amounts[..|amounts|] == amounts && payees[..|amounts|] == payees;
    }

    method SignStateTx(s: State) returns (r: Result<Tx, LifecycleError>)
      requires Valid()
      ensures r == SignedState(terms, signer, confirmed, s)
    {
      if !confirmed { return Err(Unconfirmed); }
      r := BuildStateTx(s);
      if r.Ok? {
        var tx := r.value;
        var signed := tx.(inputs := tx.inputs[0 := tx.inputs[0].(scriptSig := signer.channel(tx))]);
        assert signed.inputs == WithScripts(tx, [signer.channel(tx)]).inputs;
        r := Ok(signed);
      }
    }

    /** Signs a state that need not be the current one, which it sets aside and puts back. */
    method SupersededStateTxFor(version: nat, allocation: seq<nat>) returns (r: Result<Tx, LifecycleError>)
      requires Valid()
      modifies this`state
      ensures Valid() && state == old(state)
      ensures var s := State(allocation, version);
              r == if !confirmed then Err(Unconfirmed)
                   else if !Conserving(s, terms.cfg) then Err(Netting(NotConserving))
                   else SignedState(terms, signer, confirmed, s)
    {
      if !confirmed { return Err(Unconfirmed); }
      var s := State(allocation, version);
      if !Conserving(s, terms.cfg) { return Err(Netting(NotConserving)); }
      var saved := state;
      state := s;
      r := SignStateTx(s);
      state := saved;
    }

    method BuildCloseTx(s: State) returns (r: Result<Tx, LifecycleError>)
      requires Valid()
      ensures r == CloseTx(terms, s)
    {
      hide Quantise, Conserving, CloseInputs, Payments, Sum;
      var q := Quantise(s, terms.cfg);
      if q.Err? { return Err(Netting(q.error)); }
      NettedConserves(s, terms.cfg);
      QuantiseSucceeds(s, terms.cfg);
      var inputs := BuildCloseInputs();
      var outputs := BuildRefunds(q.value);
      return Ok(Tx(inputs, outputs, COOP_LOCKTIME));
    }

    /** The channel's input and then each bond's, all under the final sequence number. */
    method BuildCloseInputs() returns (inputs: seq<TxIn>)
      ensures inputs == CloseInputs(terms)
    {
      inputs := [TxIn(Outpoint(terms.funding, 0), [], FINAL_SEQUENCE)];
      for i := 0 to terms.cfg.n
        invariant inputs == CloseInputs(terms)[..i + 1]
      {
        inputs := inputs + [TxIn(Outpoint(terms.funding, 1 + i), [], FINAL_SEQUENCE)];
      }
      assert inputs == CloseInputs(terms);
    }

    /** Pays each party its amount and its own bond. */
    method BuildRefunds(amounts: seq<int>) returns (outputs: seq<TxOut>)
      requires |amounts| == |terms.cfg.bonds| == |terms.keys.payout| == terms.cfg.n
      ensures outputs == Payments(Plus(amounts, terms.cfg.bonds), terms.keys.payout)
    {
      outputs := [];
      ghost var sums, payees := Plus(amounts, terms.cfg.bonds), terms.keys.payout;
      for i := 0 to terms.cfg.n
        invariant outputs == Payments(sums[..i], payees[..i])
      {
        assert sums[..i + 1][..i] == sums[..i] && payees[..i + 1][..i] == payees[..i];
        var payout := amounts[i] + terms.cfg.bonds[i];
        if payout > 0 { outputs := outputs + [TxOut(payout, terms.keys.payout[i])]; }
      }
      assert sums[..terms.cfg.n] == sums && payees[..terms.cfg.n] == payees;
    }

    /** Checks every input against the output it spends. */
    method VerifyAllInputs(tx: Tx, spent: seq<TxOut>) returns (ok: bool)
      requires |spent| == |tx.inputs|
      ensures ok <==> AllUnlock(verify, tx, spent)
    {
      for i := 0 to |tx.inputs|
        invariant forall k :: 0 <= k < i ==> verify(tx, k, spent[k])
      {
        if !verify(tx, i, spent[i]) { return false; }
      }
      return true;
    }

    /** Closes on the given state, or on the current one. */
    method CooperativeClose(given: Option<State>) returns (r: Result<Tx, LifecycleError>)
      requires Valid()
      ensures r == SignedClose(terms, signer, verify, confirmed, if given.Some? then given.value else state)
    {
      hide Payments, Quantise, AllUnlock, Conserving;
      if !confirmed { return Err(Unconfirmed); }
      r := BuildCloseTx(if given.Some? then given.value else state);
      if r.Err? { return; }
      var signed := SignCloseInputs(r.value);
      var ok := VerifyAllInputs(signed, ChannelOutputs(terms.cfg, terms.keys));
      return if ok then Ok(signed) else Err(NotVerified);
    }

    /** Signs the channel's input and then each bond's. */
    method SignCloseInputs(tx: Tx) returns (signed: Tx)
      requires |tx.inputs| == terms.cfg.n + 1
      ensures signed == WithScripts(tx, CloseScripts(terms, signer, tx))
    {
      ghost var full := WithScripts(tx, CloseScripts(terms, signer, tx));
      var inputs := tx.inputs[0 := tx.inputs[0].(scriptSig := signer.channel(tx))];
      for i := 0 to terms.cfg.n
        invariant |inputs| == terms.cfg.n + 1
        invariant inputs == full.inputs[..i + 1] + tx.inputs[i + 1..]
      {
        inputs := inputs[1 + i := inputs[1 + i].(scriptSig := signer.bondReturn(tx, 1 + i))];
      }
      assert inputs == full.inputs;
      signed := tx.(inputs := inputs);
    }

    method BuildForfeitTx(offender: int, tower: Option<Script>, fee: int) returns (r: Result<Tx, LifecycleError>)
      requires Valid()
      ensures r == ForfeitTx(terms, offender, tower, fee)
    {
      hide Payments, Shares, Conserving;
      if !(0 <= offender < terms.cfg.n) { return Err(OffenderOutOfRange); }
      if fee < 0 { return Err(NegativeFee); }
      if fee > terms.cfg.bonds[offender] { return Err(FeeAboveBond); }
      var outputs: seq<TxOut> := [];
      if tower.Some? && fee > 0 { outputs := [TxOut(fee, tower.value)]; }
      var remaining := terms.cfg.bonds[offender] - if tower.Some? then fee else 0;
      var rest := BuildShares(remaining, Without(terms.keys.payout, offender));
      return Ok(Tx([TxIn(Outpoint(terms.funding, 1 + offender), [], FINAL_SEQUENCE)], outputs + rest, 0));
    }

    method ForfeitBondTx(offender: int, tower: Option<Script>, fee: int) returns (r: Result<Tx, LifecycleError>)
      requires Valid()
      ensures r == SignedForfeit(terms, signer, verify, confirmed, offender, tower, fee)
    {
      hide Payments, Shares, Conserving, TowerOutputs, Without, AllUnlock, ChannelOutputs;
      if !confirmed { return Err(Unconfirmed); }
      r := BuildForfeitTx(offender, tower, fee);
      if r.Err? { return; }
      var tx := r.value;
      var signed := tx.(inputs := [tx.inputs[0].(scriptSig := signer.bondForfeit(tx))]);
      assert signed.inputs == WithScripts(tx, [signer.bondForfeit(tx)]).inputs;
      ChannelOutputsAre(terms.cfg, terms.keys);
      var ok := VerifyAllInputs(signed, [ChannelOutputs(terms.cfg, terms.keys)[1 + offender]]);
      return if ok then Ok(signed) else Err(NotVerified);
    }

    /** Splits an amount among the honest parties; the last one takes what does not divide. */
    method BuildShares(remaining: nat, honest: seq<Script>) returns (outputs: seq<TxOut>)
      requires |honest| >= 1
      ensures outputs == Payments(Shares(remaining, |honest|), honest)
    {
      var m := |honest|;
      var share := remaining / m;
      var rem := remaining - share * m;
      DivMod(remaining, m);
      ghost var shares := Shares(remaining, m);
      outputs := [];
      for k := 0 to m
        invariant outputs == Payments(shares[..k], honest[..k])
      {
        assert shares[..k + 1][..k] == shares[..k] && honest[..k + 1][..k] == honest[..k];
        var v := share + if k == m - 1 then rem else 0;
        if v > 0 { outputs := outputs + [TxOut(v, honest[k])]; }
      }
      assert shares[..m] == shares && honest[..m] == honest;
    }
  }
}
