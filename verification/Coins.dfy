/** Choosing coins for a payment, and building payments with change and fee. */
module Coins {
  import opened Ledger
  import opened Accounting
  import opened Validation
  import opened Lifecycle

  datatype Coin = Coin(outpoint: Outpoint, value: int, script: Script)

  datatype WalletError =
    | NegativeTarget
    | InsufficientFunds
    | NoInputs
    | NegativeValue

  function Worth(coins: seq<Coin>): int {
    if coins == [] then 0 else Worth(coins[..|coins| - 1]) + coins[|coins| - 1].value
  }

  // ---------- largest first ----------

  /** Puts a coin behind all coins of at least its value. */
  function Insert(c: Coin, sorted: seq<Coin>): seq<Coin> {
    if sorted == [] then [c]
    else if sorted[|sorted| - 1].value >= c.value then sorted + [c]
    else Insert(c, sorted[..|sorted| - 1]) + [sorted[|sorted| - 1]]
  }

  /** By falling value; coins of the same value stay in their order. */
  function LargestFirst(coins: seq<Coin>): seq<Coin> {
    if coins == [] then [] else Insert(coins[|coins| - 1], LargestFirst(coins[..|coins| - 1]))
  }

  predicate Falling(coins: seq<Coin>) {
    forall i, j :: 0 <= i < j < |coins| ==> coins[i].value >= coins[j].value
  }

  lemma {:induction false} InsertAdds(c: Coin, sorted: seq<Coin>)
    ensures multiset(Insert(c, sorted)) == multiset(sorted) + multiset{c} && |Insert(c, sorted)| == |sorted| + 1
  {
    if sorted != [] && sorted[|sorted| - 1].value < c.value {
      InsertAdds(c, sorted[..|sorted| - 1]);
      assert sorted == sorted[..|sorted| - 1] + [sorted[|sorted| - 1]];
    }
  }

  lemma {:induction false} InsertKeepsFalling(c: Coin, sorted: seq<Coin>)
    requires Falling(sorted)
    ensures Falling(Insert(c, sorted))
    ensures forall i :: 0 <= i < |Insert(c, sorted)| ==> Insert(c, sorted)[i] == c || Insert(c, sorted)[i] in sorted
  {
    if sorted != [] && sorted[|sorted| - 1].value < c.value {
      var front, last := sorted[..|sorted| - 1], sorted[|sorted| - 1];
      InsertKeepsFalling(c, front);
      var r := Insert(c, front);
      forall i | 0 <= i < |r| ensures r[i].value >= last.value && (r[i] == c || r[i] in sorted) {
        assert r[i] == c || r[i] in front;
      }
    }
  }

  lemma {:induction false} LargestFirstSorts(coins: seq<Coin>)
    ensures Falling(LargestFirst(coins)) && multiset(LargestFirst(coins)) == multiset(coins)
    ensures |LargestFirst(coins)| == |coins|
  {
    if coins != [] {
      hide Falling, Insert;
      var n := |coins| - 1;
      LargestFirstSorts(coins[..n]);
      InsertAdds(coins[n], LargestFirst(coins[..n]));
      InsertKeepsFalling(coins[n], LargestFirst(coins[..n]));
      assert coins == coins[..n] + [coins[n]];
    }
  }

  /** The coins of one value, in order. */
  function OfValue(coins: seq<Coin>, value: int): seq<Coin> {
    if coins == [] then []
    else
      var last := coins[|coins| - 1];
      OfValue(coins[..|coins| - 1], value) + if last.value == value then [last] else []
  }

  lemma OfValueLast(coins: seq<Coin>, last: Coin, value: int)
    ensures OfValue(coins + [last], value) == OfValue(coins, value) + if last.value == value then [last] else []
  {
    assert (coins + [last])[..|coins|] == coins;
  }

  lemma {:induction false} InsertIsBehind(c: Coin, sorted: seq<Coin>, value: int)
    ensures OfValue(Insert(c, sorted), value) == OfValue(sorted, value) + if c.value == value then [c] else []
  {
    hide OfValue;
    OfValueLast([], c, value);
    OfValueLast(sorted, c, value);
    if sorted != [] {
      var n := |sorted| - 1;
      InsertIsBehind(c, sorted[..n], value);
      OfValueLast(sorted[..n], sorted[n], value);
      OfValueLast(Insert(c, sorted[..n]), sorted[n], value);
      assert sorted[..n] + [sorted[n]] == sorted;
    } else {
      assert [] + [c] == [c];
    }
  }

  /** Coins of the same value stay in their order. */
  lemma {:induction false} LargestFirstIsStable(coins: seq<Coin>, value: int)
    ensures OfValue(LargestFirst(coins), value) == OfValue(coins, value)
  {
    if coins != [] {
      var n := |coins| - 1;
      LargestFirstIsStable(coins[..n], value);
      InsertIsBehind(coins[n], LargestFirst(coins[..n]), value);
    }
  }

  /** The shortest nonempty front, from length `k` on, that is worth the target. */
  function Cover(sorted: seq<Coin>, target: int, k: nat): Result<seq<Coin>, WalletError>
    requires k >= 1
    decreases |sorted| - k
  {
    if k > |sorted| then Err(InsufficientFunds)
    else if Worth(sorted[..k]) >= target then Ok(sorted[..k])
    else Cover(sorted, target, k + 1)
  }

  function Select(coins: seq<Coin>, target: int): Result<seq<Coin>, WalletError> {
    if target < 0 then Err(NegativeTarget) else Cover(LargestFirst(coins), target, 1)
  }

  method SelectUtxos(coins: seq<Coin>, target: int) returns (r: Result<seq<Coin>, WalletError>)
    ensures r == Select(coins, target)
  {
    if target < 0 { return Err(NegativeTarget); }
    var sorted := LargestFirst(coins);
    var selected: seq<Coin> := [];
    var acc := 0;
    for i := 0 to |sorted|
      invariant selected == sorted[..i] && acc == Worth(selected)
      invariant Cover(sorted, target, i + 1) == Cover(sorted, target, 1)
    {
      selected := selected + [sorted[i]];
      assert selected[..i] == sorted[..i] && selected == sorted[..i + 1];
      acc := acc + sorted[i].value;
      if acc >= target { return Ok(selected); }
    }
    return Err(InsufficientFunds);
  }

  lemma {:induction false} CoverIsFirst(sorted: seq<Coin>, target: int, k: nat)
    requires k >= 1
    ensures var r := Cover(sorted, target, k);
            && (r.Ok? ==> k <= |r.value| <= |sorted| && r.value == sorted[..|r.value|] && Worth(r.value) >= target)
            && (r.Ok? ==> forall m :: k <= m < |r.value| ==> Worth(sorted[..m]) < target)
            && (r.Err? ==> r == Err(InsufficientFunds) && forall m :: k <= m <= |sorted| ==>
                Worth(sorted[..m]) < target)
    decreases |sorted| - k
  {
    if k <= |sorted| && Worth(sorted[..k]) < target { CoverIsFirst(sorted, target, k + 1); }
  }

  /** What is selected, exactly: the shortest nonempty front of the largest coins that is worth the
      target; refused are a negative target, and one that no front is worth. */
  lemma SelectExactly(coins: seq<Coin>, target: int)
    ensures var r, sorted := Select(coins, target), LargestFirst(coins);
            && (r == Err(NegativeTarget) <==> target < 0)
            && (r == Err(InsufficientFunds) <==>
                target >= 0 && forall m :: 1 <= m <= |sorted| ==> Worth(sorted[..m]) < target)
            && (r.Ok? ==>
                && 1 <= |r.value| <= |sorted| && r.value == sorted[..|r.value|] && Worth(r.value) >= target
                && forall m :: 1 <= m < |r.value| ==> Worth(sorted[..m]) < target)
  {
    hide Worth, LargestFirst;
    CoverIsFirst(LargestFirst(coins), target, 1);
  }

  // ---------- no selection does better ----------

  lemma {:induction false} WorthAppend(a: seq<Coin>, b: seq<Coin>)
    ensures Worth(a + b) == Worth(a) + Worth(b)
  {
    if b == [] {
      assert a + b == a;
    } else {
      WorthAppend(a, b[..|b| - 1]);
      assert (a + b)[..|a + b| - 1] == a + b[..|b| - 1];
    }
  }

  /** A list without its i-th coin. */
  function Removed(coins: seq<Coin>, i: nat): seq<Coin>
    requires i < |coins|
  {
    coins[..i] + coins[i + 1..]
  }

  lemma RemoveSplits(coins: seq<Coin>, i: nat)
    requires i < |coins|
    ensures coins == (coins[..i] + [coins[i]]) + coins[i + 1..]
  {
  }

  lemma WorthRemoved(coins: seq<Coin>, i: nat)
    requires i < |coins|
    ensures Worth(coins) == Worth(Removed(coins, i)) + coins[i].value
  {
    var a, b, x := coins[..i], coins[i + 1..], [coins[i]];
    RemoveSplits(coins, i);
    WorthAppend(a + x, b);
    WorthAppend(a, x);
    WorthAppend(a, b);
    assert x[..0] == [];
  }

  lemma MultisetRemoved(coins: seq<Coin>, i: nat)
    requires i < |coins|
    ensures multiset(coins) == multiset(Removed(coins, i)) + multiset{coins[i]}
  {
    RemoveSplits(coins, i);
  }

  /** A choice from [head] + tail is a choice from the tail, after taking out the head if it is there. */
  lemma ChoiceWithHead(head: Coin, tail: seq<Coin>, chosen: seq<Coin>, i: nat)
    requires multiset(chosen) <= multiset([head] + tail) && i < |chosen| && chosen[i] == head
    ensures multiset(Removed(chosen, i)) <= multiset(tail)
  {
    MultisetRemoved(chosen, i);
    assert multiset([head] + tail) == multiset(tail) + multiset{head};
    CancelOne(multiset(Removed(chosen, i)), multiset(tail), head);
  }

  lemma CancelOne(a: multiset<Coin>, b: multiset<Coin>, x: Coin)
    requires a + multiset{x} <= b + multiset{x}
    ensures a <= b
  {
    forall y ensures a[y] <= b[y] {
      assert (a + multiset{x})[y] <= (b + multiset{x})[y];
    }
  }

  lemma ChoiceWithoutHead(head: Coin, tail: seq<Coin>, chosen: seq<Coin>)
    requires multiset(chosen) <= multiset([head] + tail) && head !in chosen
    ensures multiset(chosen) <= multiset(tail)
  {
    assert multiset([head] + tail) == multiset(tail) + multiset{head};
    assert multiset(chosen)[head] == 0;
  }

  lemma ChoiceIsNoLonger(chosen: seq<Coin>, sorted: seq<Coin>)
    requires multiset(chosen) <= multiset(sorted)
    ensures |chosen| <= |sorted|
    ensures chosen != [] ==> sorted != []
  {
    assert |multiset(chosen)| == |chosen| && |multiset(sorted)| == |sorted|;
    assert multiset(sorted) == multiset(chosen) + (multiset(sorted) - multiset(chosen));
  }

  lemma FrontBeatsTail(sorted: seq<Coin>, m: nat)
    requires Falling(sorted) && 1 <= m < |sorted|
    ensures Worth(sorted[1..][..m]) <= Worth(sorted[..m])
  {
    FrontStep(sorted, m - 1);
    assert sorted[1..][..m][..m - 1] == sorted[1..][..m - 1];
  }

  lemma FallingTail(sorted: seq<Coin>)
    requires Falling(sorted) && sorted != []
    ensures Falling(sorted[1..])
  {
  }

  /** No choice of m coins is worth more than the m largest. */
  lemma {:induction false} FrontIsWorthMost(sorted: seq<Coin>, chosen: seq<Coin>)
    requires Falling(sorted) && multiset(chosen) <= multiset(sorted)
    ensures |chosen| <= |sorted| && Worth(chosen) <= Worth(sorted[..|chosen|])
    decreases sorted
  {
    hide Removed, Worth, Falling;
    ChoiceIsNoLonger(chosen, sorted);
    if chosen == [] {
      assert sorted[..|chosen|] == chosen;
    } else {
      var head, tail := sorted[0], sorted[1..];
      FallingTail(sorted);
      assert sorted == [head] + tail;
      if head in chosen {
        var i :| 0 <= i < |chosen| && chosen[i] == head;
        ChoiceWithHead(head, tail, chosen, i);
        WorthRemoved(chosen, i);
        RemovedLength(chosen, i);
        FrontIsWorthMost(tail, Removed(chosen, i));
        FrontStep(sorted, |chosen| - 1);
      } else {
        ChoiceWithoutHead(head, tail, chosen);
        FrontIsWorthMost(tail, chosen);
        FrontBeatsTail(sorted, |chosen|);
      }
    }
  }

  lemma RemovedLength(coins: seq<Coin>, i: nat)
    requires i < |coins|
    ensures |Removed(coins, i)| == |coins| - 1
  {
  }

  lemma FrontStep(sorted: seq<Coin>, m: nat)
    requires m < |sorted|
    ensures Worth(sorted[..m + 1]) == sorted[0].value + Worth(sorted[1..][..m])
  {
    assert sorted[..m + 1] == [sorted[0]] + sorted[1..][..m];
    WorthAppend([sorted[0]], sorted[1..][..m]);
    assert [sorted[0]][..0] == [];
  }

  /** A choice of coins that is worth the target. */
  ghost predicate Covers(coins: seq<Coin>, chosen: seq<Coin>, target: int) {
    chosen != [] && multiset(chosen) <= multiset(coins) && Worth(chosen) >= target
  }

  /** Selection fails exactly when no choice of coins covers the target. Otherwise what it returns
      covers the target and no choice with fewer coins does. */
  lemma SelectionIsMinimal(coins: seq<Coin>, target: int)
    requires target >= 0
    ensures Select(coins, target).Ok? <==> exists chosen :: Covers(coins, chosen, target)
    ensures Select(coins, target).Ok? ==> Covers(coins, Select(coins, target).value, target)
    ensures Select(coins, target).Ok? ==> forall chosen :: Covers(coins, chosen, target) ==>
            |Select(coins, target).value| <= |chosen|
  {
    hide Worth, Falling, LargestFirst, Cover;
    var sorted, r := LargestFirst(coins), Select(coins, target);
    LargestFirstSorts(coins);
    CoverIsFirst(sorted, target, 1);
    if r.Ok? {
      assert sorted == r.value + sorted[|r.value|..];
      assert Covers(coins, r.value, target);
    }
    forall chosen | Covers(coins, chosen, target) ensures r.Ok? && |r.value| <= |chosen| {
      FrontIsWorthMost(sorted, chosen);
    }
  }

  /** A target of zero, which needs no coin, still takes one, and fails without coins. */
  lemma ZeroTargetTakesOne(coins: seq<Coin>)
    requires forall i :: 0 <= i < |coins| ==> coins[i].value >= 0
    ensures Select(coins, 0).Ok? <==> coins != []
    ensures coins != [] ==> |Select(coins, 0).value| == 1
  {
    LargestFirstSorts(coins);
    var sorted := LargestFirst(coins);
    if coins != [] {
      assert sorted[0] in multiset(sorted);
      assert sorted[..1] == [sorted[0]] && [sorted[0]][..0] == [];
      assert Worth(sorted[..1]) == sorted[0].value;
    }
  }

  // ---------- payments ----------

  /** The size in bytes of a transaction without its unlocking scripts. */
  type Sizer = Tx -> nat

  const SCRIPT_ESTIMATE: nat := 108

  function Unlocked(coins: seq<Coin>): seq<TxIn> {
    seq(|coins|, i requires 0 <= i < |coins| => TxIn(coins[i].outpoint, [], FINAL_SEQUENCE))
  }

  /** The fee is estimated with a change output, whether or not there will be one. */
  function EstimatedFee(size: Sizer, coins: seq<Coin>, outputs: seq<TxOut>, change: Script, rate: int): int {
    (size(Tx(Unlocked(coins), outputs + [TxOut(0, change)], 0)) + SCRIPT_ESTIMATE * |coins|) * rate
  }

  function Payment(size: Sizer, coins: seq<Coin>, outputs: seq<TxOut>, change: Script, rate: int,
                   dust: int): Result<Tx, WalletError>
  {
    var left := Worth(coins) - OutputSum(outputs) - EstimatedFee(size, coins, outputs, change, rate);
    if left < 0 then Err(InsufficientFunds)
    else Ok(Tx(Unlocked(coins), if left < dust then outputs else outputs + [TxOut(left, change)], 0))
  }

  function SignedInputs(tx: Tx, sign: (Tx, nat) -> Script): Tx {
    tx.(inputs := seq(|tx.inputs|, i requires 0 <= i < |tx.inputs| => tx.inputs[i].(scriptSig := sign(tx, i))))
  }

  /** Signing changes the unlocking scripts alone. */
  lemma SigningKeepsAll(tx: Tx, sign: (Tx, nat) -> Script)
    ensures var signed := SignedInputs(tx, sign);
            && signed.outputs == tx.outputs && signed.locktime == tx.locktime && |signed.inputs| == |tx.inputs|
            && (forall i :: 0 <= i < |tx.inputs| ==>
                signed.inputs[i] == TxIn(tx.inputs[i].prev, sign(tx, i), tx.inputs[i].sequence))
  {
  }

  method SignInputs(tx: Tx, sign: (Tx, nat) -> Script) returns (signed: Tx)
    ensures signed == SignedInputs(tx, sign)
  {
    var inputs := tx.inputs;
    for i := 0 to |tx.inputs|
      invariant |inputs| == |tx.inputs|
      invariant inputs == SignedInputs(tx, sign).inputs[..i] + tx.inputs[i..]
    {
      inputs := inputs[i := inputs[i].(scriptSig := sign(tx, i))];
    }
    assert inputs == SignedInputs(tx, sign).inputs;
    signed := tx.(inputs := inputs);
  }

  /** The whole payment, from coins chosen before. */
  function SignedPayment(size: Sizer, sign: (Tx, nat) -> Script, coins: seq<Coin>, outputs: seq<TxOut>,
                         change: Script, rate: int, dust: int): Result<Tx, WalletError> {
    if coins == [] then Err(NoInputs)
    else if (exists i :: 0 <= i < |coins| && coins[i].value < 0)
        || (exists i :: 0 <= i < |outputs| && outputs[i].value < 0) then
      Err(NegativeValue)
    else
      var tx := Payment(size, coins, outputs, change, rate, dust);
      if tx.Err? then tx else Ok(SignedInputs(tx.value, sign))
  }

  method BuildAndSignPayment(size: Sizer, sign: (Tx, nat) -> Script, coins: seq<Coin>, outputs: seq<TxOut>,
                             change: Script, rate: int, dust: int) returns (r: Result<Tx, WalletError>)
    ensures r == SignedPayment(size, sign, coins, outputs, change, rate, dust)
  {
    if coins == [] { return Err(NoInputs); }
    var total := TotalIn(coins);
    if total.Err? { return Err(total.error); }
    var specified := 0;
    for i := 0 to |outputs|
      invariant forall k :: 0 <= k < i ==> outputs[k].value >= 0
      invariant specified == OutputSum(outputs[..i])
    {
      if outputs[i].value < 0 { return Err(NegativeValue); }
      assert outputs[..i + 1][..i] == outputs[..i];
      specified := specified + outputs[i].value;
    }
    assert outputs[..|outputs|] == outputs;
    r := Finish(size, sign, coins, outputs, change, rate, dust, total.value - specified);
  }

  /** The coins' total, unless one of them is negative. */
  method TotalIn(coins: seq<Coin>) returns (r: Result<int, WalletError>)
    ensures r.Ok? <==> forall i :: 0 <= i < |coins| ==> coins[i].value >= 0
    ensures r == Ok(Worth(coins)) || r == Err(NegativeValue)
  {
    var total := 0;
    for i := 0 to |coins|
      invariant forall k :: 0 <= k < i ==> coins[k].value >= 0
      invariant total == Worth(coins[..i])
    {
      if coins[i].value < 0 { return Err(NegativeValue); }
      assert coins[..i + 1][..i] == coins[..i];
      total := total + coins[i].value;
    }
    assert coins[..|coins|] == coins;
    return Ok(total);
  }

  /** Fee, change and signatures, once both sides are added up. */
  method Finish(size: Sizer, sign: (Tx, nat) -> Script, coins: seq<Coin>, outputs: seq<TxOut>, change: Script,
                rate: int, dust: int, surplus: int)
      returns (r: Result<Tx, WalletError>)
    requires surplus == Worth(coins) - OutputSum(outputs)
    ensures var tx := Payment(size, coins, outputs, change, rate, dust);
            r == if tx.Err? then tx else Ok(SignedInputs(tx.value, sign))
  {
    var outList := outputs + [TxOut(0, change)];
    var fee := (size(Tx(Unlocked(coins), outList, 0)) + SCRIPT_ESTIMATE * |coins|) * rate;
    var left := surplus - fee;
    if left < 0 { return Err(InsufficientFunds); }
    if left < dust {
      outList := outputs;
    } else {
      outList := outList[|outList| - 1 := TxOut(left, change)];
      assert outList == outputs + [TxOut(left, change)];
    }
    var signed := SignInputs(Tx(Unlocked(coins), outList, 0), sign);
    return Ok(signed);
  }

  lemma OutputSumLast(outs: seq<TxOut>, last: TxOut)
    ensures OutputSum(outs + [last]) == OutputSum(outs) + last.value
  {
    assert (outs + [last])[..|outs|] == outs;
  }

  /** Which payments are refused, and why, in this order: without coins, with a negative coin or
      output, and if the coins do not bring the outputs and the fee. */
  lemma PaymentRefuses(size: Sizer, sign: (Tx, nat) -> Script, coins: seq<Coin>, outputs: seq<TxOut>, change: Script,
                       rate: int, dust: int)
    ensures var r := SignedPayment(size, sign, coins, outputs, change, rate, dust);
            var whole := && (forall i :: 0 <= i < |coins| ==> coins[i].value >= 0)
                         && (forall i :: 0 <= i < |outputs| ==> outputs[i].value >= 0);
            var blank := Tx(Unlocked(coins), outputs + [TxOut(0, change)], 0);
            var needed := OutputSum(outputs) + (size(blank) + 108 * |coins|) * rate;
            && (r == Err(NoInputs) <==> coins == [])
            && (r == Err(NegativeValue) <==> coins != [] && !whole)
            && (r == Err(InsufficientFunds) <==> coins != [] && whole && Worth(coins) < needed)
            && (r.Ok? <==> coins != [] && whole && Worth(coins) >= needed)
  {
    hide Worth, OutputSum, Unlocked, SignedInputs;
  }

  /** The inputs before signing: each coin in order, finally, with nothing to unlock it yet. */
  lemma UnlockedAre(coins: seq<Coin>)
    ensures |Unlocked(coins)| == |coins|
    ensures forall i :: 0 <= i < |coins| ==> Unlocked(coins)[i] == TxIn(coins[i].outpoint, [], 0xFFFF_FFFF)
  {
  }

  /** What the coins bring is what the payment's outputs pay and the fee it leaves. The fee is the
      rate for every byte of the unsigned payment with a change output and for 108 bytes more for
      every coin, exactly if there is change, and less than the dust threshold above that if not.
      There is change exactly if it reaches the threshold. The caller's outputs come first and
      unchanged, and the change follows. Every coin is spent, in order, under its signature. */
  lemma PaymentBalances(size: Sizer, sign: (Tx, nat) -> Script, coins: seq<Coin>, outputs: seq<TxOut>, change: Script,
                        rate: int, dust: int)
    requires SignedPayment(size, sign, coins, outputs, change, rate, dust).Ok?
    ensures var tx := SignedPayment(size, sign, coins, outputs, change, rate, dust).value;
            var blank := Tx(Unlocked(coins), outputs + [TxOut(0, change)], 0);
            var fee, paid := (size(blank) + 108 * |coins|) * rate, Worth(coins) - OutputSum(tx.outputs);
            && (|tx.outputs| > |outputs| ==> paid == fee) && (paid == fee || fee <= paid < fee + dust)
            && (dust <= 1 ==> paid == fee)
            && outputs <= tx.outputs && |tx.outputs| <= |outputs| + 1
            && (|tx.outputs| > |outputs| <==> Worth(coins) - OutputSum(outputs) - fee >= dust)
            && (|tx.outputs| > |outputs| ==>
                tx.outputs[|outputs|].script == change && tx.outputs[|outputs|].value >= dust)
            && (forall i :: 0 <= i < |tx.outputs| ==> tx.outputs[i].value >= 0)
            && |tx.inputs| == |coins| && tx.locktime == 0
            && (forall i :: 0 <= i < |coins| ==>
                tx.inputs[i] == TxIn(coins[i].outpoint, sign(Tx(Unlocked(coins), tx.outputs, 0), i), 0xFFFF_FFFF))
  {
    hide Worth, OutputSum, Unlocked, SignedInputs;
    UnlockedAre(coins);
    PaymentRefuses(size, sign, coins, outputs, change, rate, dust);
    var left := Worth(coins) - OutputSum(outputs) - EstimatedFee(size, coins, outputs, change, rate);
    OutputSumLast(outputs, TxOut(left, change));
    SigningKeepsAll(Payment(size, coins, outputs, change, rate, dust).value, sign);
  }

  /** A transaction with only its first `k` unlocking scripts. */
  function FirstScripts(tx: Tx, k: nat): Tx
    requires k <= |tx.inputs|
  {
    tx.(inputs := seq(|tx.inputs|, i requires 0 <= i < |tx.inputs| =>
      if i < k then tx.inputs[i] else tx.inputs[i].(scriptSig := [])))
  }

  /** Every unlocking script adds at most 108 bytes. */
  ghost predicate SmallScripts(size: Sizer, tx: Tx) {
    forall k: nat :: k < |tx.inputs| ==> size(FirstScripts(tx, k + 1)) <= size(FirstScripts(tx, k)) + 108
  }

  lemma {:induction false} ScriptsAdd(size: Sizer, tx: Tx, k: nat)
    requires SmallScripts(size, tx) && k <= |tx.inputs|
    ensures size(FirstScripts(tx, k)) <= size(FirstScripts(tx, 0)) + 108 * k
  {
    if k > 0 { ScriptsAdd(size, tx, k - 1); }
  }

  /** The fee pays the rate for every byte of the signed payment, if no unlocking script adds more
      than 108 bytes and the payment is without them no larger than its draft with a change output. */
  lemma FeeCoversSize(size: Sizer, sign: (Tx, nat) -> Script, coins: seq<Coin>, outputs: seq<TxOut>, change: Script,
                      rate: nat, dust: int)
    requires SignedPayment(size, sign, coins, outputs, change, rate, dust).Ok?
    requires var tx := SignedPayment(size, sign, coins, outputs, change, rate, dust).value;
             && SmallScripts(size, tx)
             && size(FirstScripts(tx, 0)) <= size(Tx(Unlocked(coins), outputs + [TxOut(0, change)], 0))
    ensures var tx := SignedPayment(size, sign, coins, outputs, change, rate, dust).value;
            Worth(coins) - OutputSum(tx.outputs) >= size(tx) * rate
  {
    hide Worth, OutputSum, Unlocked, SignedPayment, SmallScripts;
    PaymentBalances(size, sign, coins, outputs, change, rate, dust);
    var tx := SignedPayment(size, sign, coins, outputs, change, rate, dust).value;
    ScriptsAdd(size, tx, |tx.inputs|);
    assert FirstScripts(tx, |tx.inputs|).inputs == tx.inputs;
    Costs(size(tx), size(Tx(Unlocked(coins), outputs + [TxOut(0, change)], 0)) + 108 * |coins|, rate);
  }

  lemma Costs(a: nat, b: nat, rate: nat)
    requires a <= b
    ensures a * rate <= b * rate
  {
    assert b * rate == a * rate + (b - a) * rate;
  }

  lemma PaymentTakesCoins(size: Sizer, sign: (Tx, nat) -> Script, coins: seq<Coin>, outputs: seq<TxOut>,
                          change: Script, rate: int, dust: int)
    requires SignedPayment(size, sign, coins, outputs, change, rate, dust).Ok?
    ensures coins != [] && (rate >= 0 ==> EstimatedFee(size, coins, outputs, change, rate) >= 0)
  {
  }

  ghost predicate InTable(u: Table, coins: seq<Coin>) {
    forall i :: 0 <= i < |coins| ==> coins[i].outpoint in u && u[coins[i].outpoint].value == coins[i].value
  }

  lemma {:induction false} InputsBringWorth(u: Table, coins: seq<Coin>, ins: seq<TxIn>)
    requires InTable(u, coins) && |ins| == |coins| && forall i :: 0 <= i < |coins| ==> ins[i].prev == coins[i].outpoint
    ensures InputSum(u, ins) == Worth(coins)
  {
    if coins != [] { InputsBringWorth(u, coins[..|coins| - 1], ins[..|ins| - 1]); }
  }

  /** The node takes a payment from unspent coins exactly when its scripts unlock them, and then
      charges exactly the fee that the payment left. */
  lemma PaymentIsAccepted(u: Table, verify: Interpreter, size: Sizer, sign: (Tx, nat) -> Script,
                          coins: seq<Coin>, outputs: seq<TxOut>, change: Script, rate: int, dust: int)
    requires SignedPayment(size, sign, coins, outputs, change, rate, dust).Ok?
    requires rate >= 0 && InTable(u, coins) && COINBASE_PREV !in u
    ensures var tx := SignedPayment(size, sign, coins, outputs, change, rate, dust).value;
            && (Valid(u, verify, tx) <==> forall i :: 0 <= i < |tx.inputs| ==> Unlocks(u, verify, tx, i))
            && (Valid(u, verify, tx) ==>
                Judge(u, verify, tx).Accepted? && Judge(u, verify, tx).Fee() == Worth(coins) - OutputSum(tx.outputs))
  {
    hide SignedPayment, EstimatedFee, Worth, OutputSum, InputSum, Unlocks;
    var tx := SignedPayment(size, sign, coins, outputs, change, rate, dust).value;
    PaymentBalances(size, sign, coins, outputs, change, rate, dust);
    PaymentTakesCoins(size, sign, coins, outputs, change, rate, dust);
    InputsBringWorth(u, coins, tx.inputs);
    AcceptedIffValid(u, verify, tx);
    assert tx.inputs[0].prev == coins[0].outpoint;
  }

  // ---------- funding a channel ----------

  const DEFAULT_DUST_THRESHOLD: int := 1

  method BuildChannelFundingTx(size: Sizer, sign: (Tx, nat) -> Script, coins: seq<Coin>, cfg: Config, keys: Keys,
                               change: Script, rate: int)
      returns (r: Result<Tx, WalletError>)
    requires ValidConfig(cfg) && ValidKeys(cfg, keys)
    ensures r == SignedPayment(size, sign, coins, ChannelOutputs(cfg, keys), change, rate, DEFAULT_DUST_THRESHOLD)
  {
    if coins == [] { return Err(NoInputs); }
    var total := TotalIn(coins);
    if total.Err? { return Err(total.error); }
    var outputs := ChannelOutputs(cfg, keys);
    r := Finish(size, sign, coins, outputs, change, rate, DEFAULT_DUST_THRESHOLD, total.value - OutputSum(outputs));
  }

  lemma {:induction false} ChannelValue(cfg: Config, keys: Keys, m: nat)
    requires ValidConfig(cfg) && ValidKeys(cfg, keys) && m <= cfg.n
    ensures OutputSum(ChannelOutputs(cfg, keys)[..m + 1]) == cfg.S + Sum(cfg.bonds[..m])
  {
    var outs := ChannelOutputs(cfg, keys);
    if m == 0 {
      assert outs[..1][..0] == [];
      assert OutputSum(outs[..1]) == OutputSum(outs[..1][..0]) + outs[0].value;
    } else {
      ChannelValue(cfg, keys, m - 1);
      assert outs[..m + 1][..m] == outs[..m];
      var b: seq<int> := cfg.bonds[..m];
      assert b[..m - 1] == cfg.bonds[..m - 1];
    }
  }

  /** A wallet-built funding transaction pays exactly the estimated fee, its first outputs are the
      channel's - which is what wrapping it as a channel asks for - and it locks S and all bonds. */
  lemma FundingFitsChannel(size: Sizer, sign: (Tx, nat) -> Script, coins: seq<Coin>, cfg: Config, keys: Keys,
                           change: Script, rate: int)
    requires ValidConfig(cfg) && ValidKeys(cfg, keys)
    ensures var r := SignedPayment(size, sign, coins, ChannelOutputs(cfg, keys), change, rate, DEFAULT_DUST_THRESHOLD);
            r.Ok? ==>
              && ChannelOutputs(cfg, keys) <= r.value.outputs
              && Worth(coins) - OutputSum(r.value.outputs)
                 == (size(Tx(Unlocked(coins), ChannelOutputs(cfg, keys) + [TxOut(0, change)], 0))
                     + 108 * |coins|) * rate
              && r.value.outputs[0] == TxOut(cfg.S, keys.channel)
              && (forall i :: 0 <= i < cfg.n ==> r.value.outputs[1 + i] == TxOut(cfg.bonds[i], keys.bond[i]))
              && OutputSum(ChannelOutputs(cfg, keys)) == cfg.S + Sum(cfg.bonds)
              && 1 + cfg.n <= |r.value.outputs| <= 2 + cfg.n
              && (|r.value.outputs| == 2 + cfg.n ==>
                  r.value.outputs[1 + cfg.n].script == change && r.value.outputs[1 + cfg.n].value >= 1)
  {
    hide Worth, OutputSum, Sum, Unlocked, SignedPayment, ChannelOutputs;
    if SignedPayment(size, sign, coins, ChannelOutputs(cfg, keys), change, rate, DEFAULT_DUST_THRESHOLD).Ok? {
      PaymentBalances(size, sign, coins, ChannelOutputs(cfg, keys), change, rate, DEFAULT_DUST_THRESHOLD);
      ChannelValue(cfg, keys, cfg.n);
      ChannelOutputsAre(cfg, keys);
      assert ChannelOutputs(cfg, keys)[..cfg.n + 1] == ChannelOutputs(cfg, keys);
      assert cfg.bonds[..cfg.n] == cfg.bonds;
    }
  }
}
