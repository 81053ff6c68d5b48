/** Checking one transaction against the table of unspent outputs. */
module Validation {
  import opened Ledger

  datatype Reason =
    | CoinbaseRefused
    | NegativeOutput
    | UtxoNotFound(input: nat)
    | ScriptRejected(input: nat)
    | InputsBelowOutputs
    | MultiConflict
    | SequenceNotHigher

  datatype Verdict = Accepted(inputsValue: int, outputsValue: int) | Rejected(why: Reason) {
    function Fee(): int
      requires Accepted?
    {
      inputsValue - outputsValue
    }
  }

  /** The script interpreter: does input `i` of the transaction unlock this output? */
  type Interpreter = (Tx, nat, TxOut) -> bool

  function OutputSum(outs: seq<TxOut>): int {
    if outs == [] then 0 else OutputSum(outs[..|outs| - 1]) + outs[|outs| - 1].value
  }

  function ValueAt(u: Table, o: Outpoint): int {
    if o in u then u[o].value else 0
  }

  /** What the inputs bring in, each occurrence counted. */
  function InputSum(u: Table, ins: seq<TxIn>): int {
    if ins == [] then 0 else InputSum(u, ins[..|ins| - 1]) + ValueAt(u, ins[|ins| - 1].prev)
  }

  predicate Unlocks(u: Table, verify: Interpreter, tx: Tx, i: nat)
    requires i < |tx.inputs|
  {
    var o := tx.inputs[i].prev;
    o in u && verify(tx, i, TxOut(u[o].value, u[o].script))
  }

  predicate Valid(u: Table, verify: Interpreter, tx: Tx) {
    && !IsCoinbase(tx)
    && (forall i :: 0 <= i < |tx.outputs| ==> tx.outputs[i].value >= 0)
    && (forall i :: 0 <= i < |tx.inputs| ==> Unlocks(u, verify, tx, i))
    && InputSum(u, tx.inputs) >= OutputSum(tx.outputs)
  }

  /** The first reason for a refusal, in the order in which things are looked at. */
  function Judge(u: Table, verify: Interpreter, tx: Tx): Verdict {
    if IsCoinbase(tx) then Rejected(CoinbaseRefused)
    else if exists i :: 0 <= i < |tx.outputs| && tx.outputs[i].value < 0 then Rejected(NegativeOutput)
    else match FirstFailure(u, verify, tx, 0)
      case Some(why) => Rejected(why)
      case None =>
        if InputSum(u, tx.inputs) < OutputSum(tx.outputs) then Rejected(InputsBelowOutputs)
        else Accepted(InputSum(u, tx.inputs), OutputSum(tx.outputs))
  }

  function FirstFailure(u: Table, verify: Interpreter, tx: Tx, i: nat): Option<Reason>
    requires i <= |tx.inputs|
    decreases |tx.inputs| - i
  {
    if i == |tx.inputs| then None
    else if tx.inputs[i].prev !in u then Some(UtxoNotFound(i))
    else if !Unlocks(u, verify, tx, i) then Some(ScriptRejected(i))
    else FirstFailure(u, verify, tx, i + 1)
  }

  lemma {:induction false} NoFailure(u: Table, verify: Interpreter, tx: Tx, i: nat)
    requires i <= |tx.inputs|
    ensures FirstFailure(u, verify, tx, i) == None
       <==> forall k :: i <= k < |tx.inputs| ==> Unlocks(u, verify, tx, k)
    decreases |tx.inputs| - i
  {
    if i < |tx.inputs| {
      NoFailure(u, verify, tx, i + 1);
      assert Unlocks(u, verify, tx, i) || !Unlocks(u, verify, tx, i);
    }
  }

  /** A transaction is accepted exactly when it is valid, and then with its true sums. */
  lemma AcceptedIffValid(u: Table, verify: Interpreter, tx: Tx)
    ensures Judge(u, verify, tx).Accepted? <==> Valid(u, verify, tx)
    ensures Valid(u, verify, tx) ==> Judge(u, verify, tx) == Accepted(InputSum(u, tx.inputs), OutputSum(tx.outputs))
  {
    NoFailure(u, verify, tx, 0);
  }

  /** Input `i` is unspent and its script unlocks it. */
  ghost predicate InputPasses(u: Table, verify: Interpreter, tx: Tx, i: nat)
    requires i < |tx.inputs|
  {
    var o := tx.inputs[i].prev;
    o in u && verify(tx, i, TxOut(u[o].value, u[o].script))
  }

  lemma {:induction false} FirstFailureAt(u: Table, verify: Interpreter, tx: Tx, from: nat, i: nat)
    requires from <= i <= |tx.inputs| && (i < |tx.inputs| ==> !InputPasses(u, verify, tx, i))
    requires forall k: nat :: from <= k < i ==> InputPasses(u, verify, tx, k)
    ensures FirstFailure(u, verify, tx, from)
         == if i == |tx.inputs| then None
            else Some(if tx.inputs[i].prev in u then ScriptRejected(i) else UtxoNotFound(i))
    decreases i - from
  {
    if from < i {
      assert InputPasses(u, verify, tx, from);
      FirstFailureAt(u, verify, tx, from + 1, i);
    }
  }

  /** The verdict, with its refusals in the order in which they are decided: a coinbase, a negative
      output, the first input that is missing or that its script does not unlock, inputs worth less
      than the outputs. */
  lemma JudgeRefuses(u: Table, verify: Interpreter, tx: Tx, i: nat)
    requires i <= |tx.inputs| && (i < |tx.inputs| ==> !InputPasses(u, verify, tx, i))
    requires forall k: nat :: k < i ==> InputPasses(u, verify, tx, k)
    ensures Judge(u, verify, tx)
         == if |tx.inputs| > 0 && tx.inputs[0].prev == Outpoint(NullId, 0xFFFF_FFFF) then Rejected(CoinbaseRefused)
            else if exists j :: 0 <= j < |tx.outputs| && tx.outputs[j].value < 0 then Rejected(NegativeOutput)
            else if i < |tx.inputs| then
              Rejected(if tx.inputs[i].prev in u then ScriptRejected(i) else UtxoNotFound(i))
            else if InputSum(u, tx.inputs) < OutputSum(tx.outputs) then Rejected(InputsBelowOutputs)
            else Accepted(InputSum(u, tx.inputs), OutputSum(tx.outputs))
  {
    FirstFailureAt(u, verify, tx, 0, i);
    hide FirstFailure, InputSum, OutputSum, InputPasses;
  }
}
