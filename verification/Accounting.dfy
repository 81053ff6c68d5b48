/** Channel states, transfers, and the netting of micro-units into whole satoshis. */
module Accounting {
  import opened Ledger

  /** n parties, k micro-units per satoshi, S funded satoshis, one bond per party. */
  datatype Config = Config(n: nat, k: nat, S: nat, bonds: seq<nat>, L0: nat, delta: nat)

  predicate ValidConfig(cfg: Config) {
    && cfg.n >= 2 && cfg.k >= 1 && cfg.S >= 1
    && |cfg.bonds| == cfg.n && (forall i :: 0 <= i < |cfg.bonds| ==> cfg.bonds[i] >= 1)
    && 1 <= cfg.L0 < 500_000_000 && cfg.delta >= 1
  }

  datatype ConfigError = FewParties | NoSubdivision | NoFunds | BondCount | NoBond(party: nat) | NoHorizon
                       | NoStagger | FarHorizon

  /** Accepts exactly the valid parameters; else the error names the first check that fails. */
  method MakeConfig(n: int, k: int, S: int, bonds: seq<int>, L0: int, delta: int)
      returns (r: Result<Config, ConfigError>)
    ensures var whole := forall i :: 0 <= i < |bonds| ==> bonds[i] >= 1;
            && (r.Ok? <==> n >= 2 && k >= 1 && S >= 1 && |bonds| == n && whole && 1 <= L0 < 500_000_000 && delta >= 1)
            && (r == Err(FewParties) <==> n < 2)
            && (r == Err(NoSubdivision) <==> n >= 2 && k < 1)
            && (r == Err(NoFunds) <==> n >= 2 && k >= 1 && S < 1)
            && (r == Err(BondCount) <==> n >= 2 && k >= 1 && S >= 1 && |bonds| != n)
            && (r == Err(NoHorizon) <==> n >= 2 && k >= 1 && S >= 1 && |bonds| == n && whole && L0 < 1)
            && (r == Err(NoStagger) <==>
                n >= 2 && k >= 1 && S >= 1 && |bonds| == n && whole && L0 >= 1 && delta < 1)
            && (r == Err(FarHorizon) <==>
                n >= 2 && k >= 1 && S >= 1 && |bonds| == n && whole && L0 >= 500_000_000 && delta >= 1)
    ensures forall i: nat :: r == Err(NoBond(i)) ==>
              i < |bonds| && bonds[i] < 1 && forall j :: 0 <= j < i ==> bonds[j] >= 1
    ensures r.Ok? ==>
              && ValidConfig(r.value) && r.value.n == n && r.value.k == k && r.value.S == S
              && r.value.bonds == bonds && r.value.L0 == L0 && r.value.delta == delta
  {
    if n < 2 { return Err(FewParties); }
    if k < 1 { return Err(NoSubdivision); }
    if S < 1 { return Err(NoFunds); }
    if |bonds| != n { return Err(BondCount); }
    for i := 0 to |bonds|
      invariant forall j :: 0 <= j < i ==> bonds[j] >= 1
    {
      if bonds[i] < 1 { return Err(NoBond(i)); }
    }
    if L0 < 1 { return Err(NoHorizon); }
    if delta < 1 { return Err(NoStagger); }
    if L0 >= 500_000_000 { return Err(FarHorizon); }
    return Ok(Config(n, k, S, bonds, L0, delta));
  }

  datatype State = State(balances: seq<nat>, version: nat)

  datatype AccountingError =
    | SamePartyTwice
    | SenderOutOfRange
    | RecipientOutOfRange
    | NegativeDelta
    | BalanceExceeded
    | NotConserving
    | NettingViolated

  function Sum(a: seq<int>): int {
    if a == [] then 0 else Sum(a[..|a| - 1]) + a[|a| - 1]
  }

  /** The total is k*S and there is one balance for each party. */
  predicate Conserving(s: State, cfg: Config) {
    Sum(s.balances) == cfg.k * cfg.S && |s.balances| == cfg.n
  }

  // ---------- transfers ----------

  /** Moves `delta` micro-units from one party to another. */
  function Transfer(s: State, sender: int, recipient: int, delta: int, cfg: Config): Result<State, AccountingError>
    requires |s.balances| == cfg.n
  {
    if sender == recipient then Err(SamePartyTwice)
    else if !(0 <= sender < cfg.n) then Err(SenderOutOfRange)
    else if !(0 <= recipient < cfg.n) then Err(RecipientOutOfRange)
    else if delta < 0 then Err(NegativeDelta)
    else if delta > s.balances[sender] then Err(BalanceExceeded)
    else
      var paid := s.balances[sender := s.balances[sender] - delta];
      var s' := State(paid[recipient := paid[recipient] + delta], s.version + 1);
      if Conserving(s', cfg) then Ok(s') else Err(NotConserving)
  }

  lemma {:induction false} SumUpdate(a: seq<int>, i: nat, x: int)
    requires i < |a|
    ensures Sum(a[i := x]) == Sum(a) - a[i] + x
  {
    var n := |a| - 1;
    if i < n {
      SumUpdate(a[..n], i, x);
      assert a[i := x][..n] == a[..n][i := x];
    } else {
      assert a[i := x][..n] == a[..n];
    }
  }

  /** On a conserving state a transfer is accepted exactly when its arguments are in range and
      covered; then it moves exactly `delta`, touches no third party, and conserves the total. */
  lemma TransferExact(s: State, sender: int, recipient: int, delta: int, cfg: Config)
    requires Conserving(s, cfg)
    ensures Transfer(s, sender, recipient, delta, cfg).Ok?
       <==> sender != recipient && 0 <= sender < cfg.n && 0 <= recipient < cfg.n && 0 <= delta <= s.balances[sender]
    ensures var r := Transfer(s, sender, recipient, delta, cfg);
            r.Ok? ==>
              && Conserving(r.value, cfg) && r.value.version == s.version + 1
              && (forall i :: 0 <= i < cfg.n ==>
                    r.value.balances[i] == s.balances[i] - (if i == sender then delta else 0)
                                            + (if i == recipient then delta else 0))
  {
    if sender != recipient && 0 <= sender < cfg.n && 0 <= recipient < cfg.n && 0 <= delta <= s.balances[sender] {
      var a: seq<int> := s.balances;
      var paid: seq<int> := a[sender := a[sender] - delta];
      SumUpdate(a, sender, a[sender] - delta);
      SumUpdate(paid, recipient, paid[recipient] + delta);
    }
  }

  /** Which transfers are refused, and why, in this order. On a conserving state the last check
      never fires. */
  lemma TransferRefuses(s: State, sender: int, recipient: int, delta: int, cfg: Config)
    requires Conserving(s, cfg)
    ensures var r := Transfer(s, sender, recipient, delta, cfg);
            var known := 0 <= sender < cfg.n && 0 <= recipient < cfg.n && sender != recipient;
            && (r == Err(SamePartyTwice) <==> sender == recipient)
            && (r == Err(SenderOutOfRange) <==> sender != recipient && !(0 <= sender < cfg.n))
            && (r == Err(RecipientOutOfRange) <==>
                sender != recipient && 0 <= sender < cfg.n && !(0 <= recipient < cfg.n))
            && (r == Err(NegativeDelta) <==> known && delta < 0)
            && (r == Err(BalanceExceeded) <==> known && delta >= 0 && delta > s.balances[sender])
            && (r.Ok? <==> known && 0 <= delta <= s.balances[sender])
  {
    TransferExact(s, sender, recipient, delta, cfg);
  }

  datatype Order = Order(sender: int, recipient: int, delta: int)

  /** A sequence of transfers; the first refusal ends it. */
  function TransferAll(s: State, orders: seq<Order>, cfg: Config): Result<State, AccountingError>
    requires Conserving(s, cfg)
    decreases orders
  {
    if orders == [] then Ok(s)
    else
      var r := Transfer(s, orders[0].sender, orders[0].recipient, orders[0].delta, cfg);
      if r.Err? then r else TransferAll(r.value, orders[1..], cfg)
  }

  /** A sequence is its front and then its rest, and a single transfer is that transfer. */
  lemma {:induction false} TransferAllSplits(s: State, front: seq<Order>, rest: seq<Order>, o: Order, cfg: Config)
    requires Conserving(s, cfg)
    ensures TransferAll(s, [o], cfg) == Transfer(s, o.sender, o.recipient, o.delta, cfg)
    ensures var r := TransferAll(s, front, cfg);
            && (r.Ok? ==> Conserving(r.value, cfg))
            && TransferAll(s, front + rest, cfg) == if r.Ok? then TransferAll(r.value, rest, cfg) else r
    decreases front
  {
    TransfersConserve(s, front, cfg);
    assert [o][1..] == [];
    if front == [] {
      assert front + rest == rest;
    } else {
      assert (front + rest)[1..] == front[1..] + rest;
      var p := front[0];
      TransferExact(s, p.sender, p.recipient, p.delta, cfg);
      hide Transfer;
      var r := Transfer(s, p.sender, p.recipient, p.delta, cfg);
      if r.Ok? { TransferAllSplits(r.value, front[1..], rest, o, cfg); }
    }
  }

  /** What a party receives less what it sends. */
  function Flow(orders: seq<Order>, i: nat): int {
    if orders == [] then 0
    else
      var o := orders[0];
      (if o.recipient == i then o.delta else 0) - (if o.sender == i then o.delta else 0) + Flow(orders[1..], i)
  }

  /** After any transfers a party holds what it held, and what it received, less what it sent. */
  lemma {:induction false} BalancesFlow(s: State, orders: seq<Order>, cfg: Config, i: nat)
    requires Conserving(s, cfg) && i < cfg.n && TransferAll(s, orders, cfg).Ok?
    ensures |TransferAll(s, orders, cfg).value.balances| == cfg.n
    ensures TransferAll(s, orders, cfg).value.balances[i] == s.balances[i] + Flow(orders, i)
    decreases orders
  {
    if orders != [] {
      var o := orders[0];
      hide Transfer;
      TransferExact(s, o.sender, o.recipient, o.delta, cfg);
      BalancesFlow(Transfer(s, o.sender, o.recipient, o.delta, cfg).value, orders[1..], cfg, i);
    }
  }

  /** Every state reached by transfers conserves, and its version counts them. */
  lemma {:induction false} TransfersConserve(s: State, orders: seq<Order>, cfg: Config)
    requires Conserving(s, cfg)
    ensures var r := TransferAll(s, orders, cfg);
            r.Ok? ==> Conserving(r.value, cfg) && r.value.version == s.version + |orders|
    decreases orders
  {
    if orders != [] {
      var r := Transfer(s, orders[0].sender, orders[0].recipient, orders[0].delta, cfg);
      if r.Ok? { TransfersConserve(r.value, orders[1..], cfg); }
    }
  }

  /** The program's loop over a sequence of transfers. */
  method AssertConservationOverSequence(initial: State, orders: seq<Order>, cfg: Config)
      returns (r: Result<State, AccountingError>)
    requires |initial.balances| == cfg.n
    ensures !Conserving(initial, cfg) ==> r == Err(NotConserving)
    ensures Conserving(initial, cfg) ==> r == TransferAll(initial, orders, cfg)
  {
    if !Conserving(initial, cfg) { return Err(NotConserving); }
    var cur := initial;
    assert orders[0..] == orders;
    for i := 0 to |orders|
      invariant Conserving(cur, cfg)
      invariant TransferAll(cur, orders[i..], cfg) == TransferAll(initial, orders, cfg)
    {
      assert orders[i..][1..] == orders[i + 1..];
      var next := Transfer(cur, orders[i].sender, orders[i].recipient, orders[i].delta, cfg);
      if next.Err? { return next; }
      cur := next.value;
    }
    return Ok(cur);
  }

  function Zeros(n: nat): seq<nat> {
    seq(n, i => 0)
  }

  /** The funder holds everything; version 0. */
  function InitialState(cfg: Config, funder: nat): State
    requires funder < cfg.n
  {
    State(Zeros(cfg.n)[funder := cfg.k * cfg.S], 0)
  }

  lemma {:induction false} SumZeros(n: nat)
    ensures Sum(Zeros(n)) == 0
  {
    if n > 0 {
      SumZeros(n - 1);
      assert Zeros(n)[..n - 1] == Zeros(n - 1);
    }
  }

  /** At first the funder holds all of it and nobody else anything; that conserves. */
  lemma InitialConserves(cfg: Config, funder: nat)
    requires funder < cfg.n
    ensures var s := InitialState(cfg, funder);
            && Conserving(s, cfg) && |s.balances| == cfg.n && s.version == 0
            && forall i :: 0 <= i < cfg.n ==> s.balances[i] == if i == funder then cfg.k * cfg.S else 0
  {
    SumZeros(cfg.n);
    SumUpdate(Zeros(cfg.n), funder, cfg.k * cfg.S);
  }

  // ---------- netting ----------

  function Floors(a: seq<nat>, k: nat): seq<int>
    requires k >= 1
  {
    seq(|a|, i requires 0 <= i < |a| => a[i] / k)
  }

  function Remainders(a: seq<nat>, k: nat): seq<int>
    requires k >= 1
  {
    seq(|a|, i requires 0 <= i < |a| => a[i] % k)
  }

  /** Comes before in the order: a larger remainder, or the same and a smaller index. */
  predicate Before(r: seq<int>, i: nat, j: nat)
    requires i < |r| && j < |r|
  {
    r[i] > r[j] || (r[i] == r[j] && i < j)
  }

  predicate InRange(order: seq<nat>, n: nat) {
    forall i :: 0 <= i < |order| ==> order[i] < n
  }

  /** Puts an index into its place in a list ordered by remainder. */
  function InsertIndex(r: seq<int>, order: seq<nat>, x: nat): (res: seq<nat>)
    requires x < |r| && InRange(order, |r|)
    ensures InRange(res, |r|) && |res| == |order| + 1
    ensures SetOf(res) == SetOf(order) + {x}
  {
    if order == [] || Before(r, x, order[0]) then
      SetOfAppend([x], order);
      [x] + order
    else
      var rest := InsertIndex(r, order[1..], x);
      assert order == [order[0]] + order[1..];
      SetOfAppend([order[0]], order[1..]);
      SetOfAppend([order[0]], rest);
      [order[0]] + rest
  }

  /** The first `n` indices by decreasing remainder, ties by index. */
  function Ordering(r: seq<int>, n: nat): (order: seq<nat>)
    requires n <= |r|
    ensures InRange(order, |r|) && |order| == n
    ensures forall i: nat :: i in SetOf(order) <==> i < n
  {
    if n == 0 then [] else InsertIndex(r, Ordering(r, n - 1), n - 1)
  }

  predicate Ordered(r: seq<int>, order: seq<nat>)
    requires InRange(order, |r|)
  {
    forall x, y :: 0 <= x < y < |order| ==> Before(r, order[x], order[y])
  }

  lemma {:induction false} InsertKeepsOrder(r: seq<int>, order: seq<nat>, x: nat)
    requires InRange(order, |r|) && Ordered(r, order) && x < |r| && x !in SetOf(order)
    ensures Ordered(r, InsertIndex(r, order, x))
  {
    if order != [] && Before(r, x, order[0]) {
      OrderedCons(r, x, order);
    } else if order != [] {
      var rest := InsertIndex(r, order[1..], x);
      assert order[0] in SetOf(order);
      assert forall y :: y in SetOf(order[1..]) ==> y in SetOf(order);
      InsertKeepsOrder(r, order[1..], x);
      forall b | 0 <= b < |rest| ensures Before(r, order[0], rest[b]) {
        assert rest[b] in SetOf(rest);
        if rest[b] != x {
          var c :| 0 <= c < |order| - 1 && order[1..][c] == rest[b];
          assert Before(r, order[0], order[c + 1]);
        }
      }
      OrderedFrom(r, order[0], rest);
    }
  }

  /** An ordered list stays ordered behind an index that comes before its first. */
  lemma OrderedCons(r: seq<int>, x: nat, order: seq<nat>)
    requires InRange(order, |r|) && Ordered(r, order) && x < |r| && order != [] && Before(r, x, order[0])
    ensures Ordered(r, [x] + order)
  {
    forall b | 0 <= b < |order| ensures Before(r, x, order[b]) {
      if b > 0 { assert Before(r, order[0], order[b]); }
    }
    OrderedFrom(r, x, order);
  }

  lemma OrderedFrom(r: seq<int>, x: nat, order: seq<nat>)
    requires InRange(order, |r|) && Ordered(r, order) && x < |r|
    requires forall b :: 0 <= b < |order| ==> Before(r, x, order[b])
    ensures Ordered(r, [x] + order)
  {
    var res := [x] + order;
    forall a, b | 0 <= a < b < |res| ensures Before(r, res[a], res[b]) {
      if a > 0 { assert Before(r, order[a - 1], order[b - 1]); }
    }
  }

  lemma {:induction false} OrderingIsOrdered(r: seq<int>, n: nat)
    requires n <= |r|
    ensures Ordered(r, Ordering(r, n))
  {
    hide Before, InsertIndex;
    if n > 0 {
      OrderingIsOrdered(r, n - 1);
      InsertKeepsOrder(r, Ordering(r, n - 1), n - 1);
    }
  }

  /** The parties that get one satoshi of the remainder. */
  function Winners(r: seq<int>, count: nat): set<nat>
    requires count <= |r|
  {
    SetOf(Ordering(r, |r|)[..count])
  }

  function Payouts(floors: seq<int>, winners: set<nat>): seq<int> {
    seq(|floors|, i requires 0 <= i < |floors| => floors[i] + if i in winners then 1 else 0)
  }

  /** Floors first, then one satoshi each to the largest remainders. */
  function Quantise(s: State, cfg: Config): Result<seq<int>, AccountingError>
    requires cfg.k >= 1
  {
    if !Conserving(s, cfg) then Err(NotConserving)
    else
      var floors, rems := Floors(s.balances, cfg.k), Remainders(s.balances, cfg.k);
      var left := cfg.S - Sum(floors);
      if left < 0 || left >= cfg.n then Err(NettingViolated)
      else
        var q := Payouts(floors, Winners(rems, left));
        if Sum(q) != cfg.S then Err(NettingViolated) else Ok(q)
  }

  // ---------- what netting guarantees ----------

  lemma MulAdd(k: int, x: int, y: int)
    ensures k * (x + y) == k * x + k * y
  {
  }

  lemma {:induction false} SumOfParts(a: seq<nat>, k: nat)
    requires k >= 1
    ensures Sum(a) == k * Sum(Floors(a, k)) + Sum(Remainders(a, k))
  {
    if a == [] {
      assert k * 0 == 0;
    } else {
      var n := |a| - 1;
      SumOfParts(a[..n], k);
      var f, r := Floors(a, k), Remainders(a, k);
      assert f[..n] == Floors(a[..n], k) && r[..n] == Remainders(a[..n], k);
      var b: seq<int> := a;
      assert b[..n] == a[..n];
      MulAdd(k, Sum(f[..n]), f[n]);
      DivMod(a[n], k);
    }
  }

  lemma DivMod(x: nat, k: nat)
    requires k >= 1
    ensures x == k * (x / k) + x % k && 0 <= x % k < k
  {
  }

  lemma {:induction false} SumBound(r: seq<int>, lo: int, hi: int)
    requires forall i :: 0 <= i < |r| ==> lo <= r[i] <= hi
    ensures lo * |r| <= Sum(r) <= hi * |r|
  {
    if r == [] {
      assert lo * 0 == 0 && hi * 0 == 0;
    } else {
      var n := |r| - 1;
      SumBound(r[..n], lo, hi);
      MulAdd(lo, n, 1);
      MulAdd(hi, n, 1);
    }
  }

  lemma Squeeze(k: int, x: int, n: int)
    requires k >= 1 && n >= 1 && 0 <= k * x <= (k - 1) * n
    ensures 0 <= x < n
  {
    if x < 0 { MulAdd(k, x, -x); MulSign(k, -x); }
    if x >= n { MulAdd(k, n, x - n); MulSign(k, x - n); MulAdd(n, k - 1, 1); }
  }

  lemma MulSign(x: int, y: int)
    requires x >= 1 && y >= 0
    ensures x * y >= y
  {
    if x > 1 { MulSign(x - 1, y); MulAdd(y, x - 1, 1); }
  }

  /** The remainder left after the floors, and what it is made of. */
  lemma LeftOver(s: State, cfg: Config)
    requires Conserving(s, cfg) && cfg.k >= 1 && cfg.n >= 1
    ensures var left := cfg.S - Sum(Floors(s.balances, cfg.k));
            0 <= left < cfg.n && cfg.k * left == Sum(Remainders(s.balances, cfg.k))
  {
    var f, r := Sum(Floors(s.balances, cfg.k)), Remainders(s.balances, cfg.k);
    SumOfParts(s.balances, cfg.k);
    SumBound(r, 0, cfg.k - 1);
    MulAdd(cfg.k, cfg.S - f, f);
    Squeeze(cfg.k, cfg.S - f, cfg.n);
  }

  /** Winners are listed first: they come before every other party. */
  lemma WinnersComeFirst(r: seq<int>, count: nat)
    requires count <= |r|
    ensures forall i: nat :: i in Winners(r, count) ==> i < |r|
    ensures forall i: nat, j: nat :: i in Winners(r, count) && j < |r| && j !in Winners(r, count) ==> Before(r, i, j)
  {
    var order := Ordering(r, |r|);
    OrderingIsOrdered(r, |r|);
    forall i: nat, j: nat | i in Winners(r, count) && j < |r| && j !in Winners(r, count)
      ensures i < |r| && Before(r, i, j)
    {
      var x :| 0 <= x < count && order[..count][x] == i;
      assert j in SetOf(order);
      var y :| 0 <= y < |r| && order[y] == j;
      assert forall z :: 0 <= z < count ==> order[..count][z] == order[z] && order[z] in SetOf(order[..count]);
      assert Before(r, order[x], order[y]);
    }
  }

  lemma {:induction false} SumPayouts(floors: seq<int>, list: seq<nat>)
    requires InRange(list, |floors|) && NoRepeats(list)
    ensures Sum(Payouts(floors, SetOf(list))) == Sum(floors) + |list|
  {
    if list == [] {
      assert Payouts(floors, SetOf(list)) == floors;
    } else {
      var n := |list| - 1;
      SumPayouts(floors, list[..n]);
      SetOfAppend(list[..n], [list[n]]);
      assert list == list[..n] + [list[n]];
      assert list[n] !in SetOf(list[..n]);
      var before := Payouts(floors, SetOf(list[..n]));
      assert Payouts(floors, SetOf(list)) == before[list[n] := before[list[n]] + 1];
      SumUpdate(before, list[n], before[list[n]] + 1);
    }
  }

  lemma SumOfWinners(floors: seq<int>, r: seq<int>, count: nat)
    requires count <= |r| == |floors|
    ensures Sum(Payouts(floors, Winners(r, count))) == Sum(floors) + count
  {
    WinnersAreDistinct(r, count);
    SumPayouts(floors, Ordering(r, |r|)[..count]);
  }

  lemma NettedConserves(s: State, cfg: Config)
    requires cfg.k >= 1 && Quantise(s, cfg).Ok?
    ensures Conserving(s, cfg)
  {
  }

  /** On every conserving state netting succeeds - both defensive checks are dead - and pays out
      exactly the funded satoshis. */
  lemma QuantiseSucceeds(s: State, cfg: Config)
    requires Conserving(s, cfg) && cfg.k >= 1 && cfg.n >= 1
    ensures Quantise(s, cfg).Ok?
    ensures |Quantise(s, cfg).value| == cfg.n && Sum(Quantise(s, cfg).value) == cfg.S
  {
    LeftOver(s, cfg);
    SumOfWinners(Floors(s.balances, cfg.k), Remainders(s.balances, cfg.k), cfg.S - Sum(Floors(s.balances, cfg.k)));
  }

  lemma {:induction false} SumMonotone(a: seq<int>, b: seq<int>)
    requires |a| == |b| && forall i :: 0 <= i < |a| ==> a[i] <= b[i]
    ensures Sum(a) <= Sum(b)
  {
    if a != [] { SumMonotone(a[..|a| - 1], b[..|b| - 1]); }
  }

  /** If only the listed positions can be positive, and none exceeds `c`, the sum is at most `c` for each. */
  lemma {:induction false} SumOnList(r: seq<int>, list: seq<nat>, c: int)
    requires InRange(list, |r|) && NoRepeats(list)
    requires c >= 0 && forall j: nat :: j < |r| ==> r[j] <= if j in SetOf(list) then c else 0
    ensures Sum(r) <= c * |list|
    decreases |list|
  {
    if list == [] {
      SumZeros(|r|);
      SumMonotone(r, Zeros(|r|));
      TimesZero(c);
    } else {
      var n, x := |list| - 1, list[|list| - 1];
      assert list == list[..n] + [x];
      SetOfAppend(list[..n], [x]);
      SumUpdate(r, x, 0);
      SumOnList(r[x := 0], list[..n], c);
      MulAdd(c, n, 1);
    }
  }

  lemma RemoveAt(list: seq<nat>, x: nat, n: nat)
    requires x < |list| && NoRepeats(list) && InRange(list, n)
    ensures NoRepeats(list[..x] + list[x + 1..]) && InRange(list[..x] + list[x + 1..], n)
    ensures SetOf(list) == SetOf(list[..x] + list[x + 1..]) + {list[x]}
  {
    var a, b := list[..x], list[x + 1..];
    assert list == (a + [list[x]]) + b;
    SetOfAppend(a + [list[x]], b);
    SetOfAppend(a, [list[x]]);
    SetOfAppend(a, b);
  }

  lemma WinnersAreDistinct(r: seq<int>, count: nat)
    requires count <= |r|
    ensures NoRepeats(Ordering(r, |r|)[..count])
  {
    var order := Ordering(r, |r|);
    OrderingIsOrdered(r, |r|);
    forall x, y | 0 <= x < y < count ensures order[..count][x] != order[..count][y] {
      assert Before(r, order[x], order[y]);
    }
  }

  /** One of the listed remainders is zero, and so are all that are not listed. */
  lemma ZeroAmong(r: seq<int>, c: int, w: seq<nat>, x: nat)
    requires c >= 0 && forall j :: 0 <= j < |r| ==> r[j] <= c
    requires NoRepeats(w) && InRange(w, |r|) && x < |w| && r[w[x]] == 0
    requires forall j: nat :: j < |r| && j !in SetOf(w) ==> r[j] == 0
    ensures Sum(r) <= c * (|w| - 1)
  {
    var list := w[..x] + w[x + 1..];
    RemoveAt(w, x, |r|);
    assert |list| == |w| - 1;
    SumOnList(r, list, c);
  }

  /** If a winner's remainder is zero, only the other winners' remainders can be positive. */
  lemma ZeroWinnerBound(r: seq<int>, c: int, w: seq<nat>, x: nat)
    requires c >= 0 && forall j :: 0 <= j < |r| ==> 0 <= r[j] <= c
    requires |w| <= |r| && w == Ordering(r, |r|)[..|w|] && x < |w| && r[w[x]] == 0
    ensures Sum(r) <= c * (|w| - 1)
  {
    hide Ordering;
    WinnersAreDistinct(r, |w|);
    assert forall j: nat :: j < |r| && j !in SetOf(w) ==> r[j] == 0 by {
      WinnersComeFirst(r, |w|);
      assert SetOf(w) == Winners(r, |w|) && w[x] in SetOf(w);
      forall j: nat | j < |r| && j !in SetOf(w) ensures r[j] == 0 { assert Before(r, w[x], j); }
    }
    ZeroAmong(r, c, w, x);
  }

  /** A winner's remainder is positive: were it zero, all others' would be, and the winners'
      remainders could not add up to k for each satoshi left. */
  lemma WinnersArePositive(r: seq<int>, k: int, count: nat, i: nat)
    requires count <= |r| && k >= 1 && k * count == Sum(r)
    requires forall j :: 0 <= j < |r| ==> 0 <= r[j] < k
    requires i in Winners(r, count)
    ensures i < |r| && r[i] > 0
  {
    hide Ordering, Sum, Before;
    WinnersComeFirst(r, count);
    var x :| 0 <= x < count && Ordering(r, |r|)[..count][x] == i;
    if r[i] == 0 {
      ZeroWinnerBound(r, k - 1, Ordering(r, |r|)[..count], x);
      Outweighs(k, count);
    }
  }

  lemma Outweighs(k: int, count: int)
    requires k >= 1 && count >= 1
    ensures (k - 1) * (count - 1) < k * count
  {
    assert k * count - (k - 1) * (count - 1) == k + count - 1;
  }

  /** The satoshis left after everyone's floor. */
  function Left(s: State, cfg: Config): (left: nat)
    requires Conserving(s, cfg) && cfg.k >= 1 && cfg.n >= 1
    ensures left < cfg.n && left == cfg.S - Sum(Floors(s.balances, cfg.k))
    ensures cfg.k * left == Sum(Remainders(s.balances, cfg.k))
  {
    LeftOver(s, cfg);
    cfg.S - Sum(Floors(s.balances, cfg.k))
  }

  /** Everything the later theorems need about one party's payout. */
  lemma PayoutOf(s: State, cfg: Config, i: nat)
    requires Conserving(s, cfg) && cfg.k >= 1 && i < cfg.n
    ensures Quantise(s, cfg).Ok? && |Quantise(s, cfg).value| == cfg.n
    ensures var r := Remainders(s.balances, cfg.k);
            var w := Winners(r, Left(s, cfg));
            && 0 <= r[i] < cfg.k
            && s.balances[i] == cfg.k * (s.balances[i] / cfg.k) + r[i]
            && Quantise(s, cfg).value[i] == s.balances[i] / cfg.k + (if i in w then 1 else 0)
            && (i in w ==> r[i] > 0)
  {
    QuantiseSucceeds(s, cfg);
    DivMod(s.balances[i], cfg.k);
    var r, left := Remainders(s.balances, cfg.k), Left(s, cfg);
    if i in Winners(r, left) { WinnersArePositive(r, cfg.k, left, i); }
  }

  /** A winner is one with fewer parties before it than there are satoshis left. */
  lemma WinnersByRank(r: seq<int>, count: nat, i: nat)
    requires count <= |r| && i < |r|
    ensures i in Winners(r, count) <==> |set j: nat | j < |r| && Before(r, j, i)| < count
  {
    hide Before, Ordering, Ordered;
    var order := Ordering(r, |r|);
    OrderingIsOrdered(r, |r|);
    assert i in SetOf(order);
    var x :| 0 <= x < |order| && order[x] == i;
    WinnersAreDistinct(r, |r|);
    assert order[..|r|] == order;
    FrontIsAhead(r, order, x);
    assert NoRepeats(order[..x]);
    SizeOfSet(order[..x]);
    assert x < count ==> order[..count][x] == i;
    assert i in order[..count] ==> exists z :: 0 <= z < count && order[z] == i;
  }

  /** Before an index in an ordered list of all indices stand those that come before it. */
  lemma FrontIsAhead(r: seq<int>, order: seq<nat>, x: nat)
    requires InRange(order, |r|) && Ordered(r, order) && x < |order|
    requires forall j: nat :: j < |r| ==> j in SetOf(order)
    ensures (set j: nat | j < |r| && Before(r, j, order[x])) == SetOf(order[..x])
  {
    hide Before, Ordered;
    forall j: nat | j < |r| ensures Before(r, j, order[x]) <==> j in SetOf(order[..x]) {
      assert j in SetOf(order);
      var y :| 0 <= y < |order| && order[y] == j;
      RankOf(r, order, x, y);
      assert y < x ==> order[..x][y] == j;
      if j in order[..x] {
        var z :| 0 <= z < x && order[..x][z] == j;
        RankOf(r, order, x, z);
      }
    }
    assert forall j :: j in SetOf(order[..x]) ==> j in order;
  }

  lemma RankOf(r: seq<int>, order: seq<nat>, x: nat, y: nat)
    requires InRange(order, |r|) && Ordered(r, order) && x < |order| && y < |order|
    ensures Before(r, order[y], order[x]) <==> y < x
  {
    assert x < y ==> Before(r, order[x], order[y]);
    assert y < x ==> Before(r, order[y], order[x]);
  }

  /** The parties that come before `i`: by a larger remainder, or by the same one and a smaller index. */
  ghost function Ahead(a: seq<nat>, k: nat, i: nat): set<nat>
    requires k >= 1 && i < |a|
  {
    set j: nat | j < |a| && (a[j] % k > a[i] % k || (a[j] % k == a[i] % k && j < i))
  }

  lemma AheadByRemainder(a: seq<nat>, k: nat, i: nat)
    requires k >= 1 && i < |a|
    ensures |Remainders(a, k)| == |a|
    ensures (set j: nat | j < |a| && Before(Remainders(a, k), j, i)) == Ahead(a, k, i)
  {
  }

  /** Netting exactly: it fails only on states that do not conserve; each party gets its balance in
      whole satoshis, and one more if fewer parties come before it than there are satoshis left. */
  lemma QuantiseExactly(s: State, cfg: Config, i: nat)
    requires cfg.k >= 1 && i < cfg.n
    ensures Quantise(s, cfg) == Err(NotConserving) <==> !Conserving(s, cfg)
    ensures Quantise(s, cfg).Ok? <==> Conserving(s, cfg)
    ensures Conserving(s, cfg) ==>
              var a, whole := s.balances, Floors(s.balances, cfg.k);
              && |whole| == |Quantise(s, cfg).value| == cfg.n && whole[i] == a[i] / cfg.k
              && Quantise(s, cfg).value[i]
                 == a[i] / cfg.k + if |Ahead(a, cfg.k, i)| < cfg.S - Sum(whole) then 1 else 0
  {
    if Conserving(s, cfg) {
      hide Quantise, Winners, Before, Remainders, Ahead;
      PayoutOf(s, cfg, i);
      AheadByRemainder(s.balances, cfg.k, i);
      WinnersByRank(Remainders(s.balances, cfg.k), Left(s, cfg), i);
    } else {
      assert Quantise(s, cfg) == Err(NotConserving);
    }
  }

  /** The quota rule: each party gets its exact share rounded down or up. */
  lemma QuotaRule(s: State, cfg: Config, i: nat)
    requires Conserving(s, cfg) && cfg.k >= 1 && i < cfg.n
    ensures Quantise(s, cfg).Ok? && |Quantise(s, cfg).value| == cfg.n
    ensures var q := Quantise(s, cfg).value[i];
            s.balances[i] - cfg.k < cfg.k * q < s.balances[i] + cfg.k
  {
    PayoutOf(s, cfg, i);
    MulAdd(cfg.k, s.balances[i] / cfg.k, 1);
  }

  /** Larger balances never get less; among equal ones the earlier party never gets less. */
  lemma OrderIsPreserved(s: State, cfg: Config, i: nat, j: nat)
    requires Conserving(s, cfg) && cfg.k >= 1 && i < cfg.n && j < cfg.n
    requires s.balances[i] > s.balances[j] || (s.balances[i] == s.balances[j] && i < j)
    ensures Quantise(s, cfg).Ok? && |Quantise(s, cfg).value| == cfg.n
    ensures Quantise(s, cfg).value[i] >= Quantise(s, cfg).value[j]
  {
    PayoutOf(s, cfg, i);
    PayoutOf(s, cfg, j);
    var r, left := Remainders(s.balances, cfg.k), Left(s, cfg);
    WinnersComeFirst(r, left);
    var x, y := s.balances[i] / cfg.k, s.balances[j] / cfg.k;
    QuotientMonotone(s.balances[i], s.balances[j], cfg.k);
    assert j in Winners(r, left) && i !in Winners(r, left) ==> Before(r, j, i);
  }

  lemma QuotientMonotone(a: nat, b: nat, k: nat)
    requires a >= b && k >= 1
    ensures a / k >= b / k
  {
    DivMod(a, k);
    DivMod(b, k);
    Scale(k, b / k - a / k);
    MulAdd(k, a / k, b / k - a / k);
  }

  /** Members of a coalition together gain less than a satoshi each by rounding. */
  lemma CoalitionGain(s: State, cfg: Config, members: seq<nat>)
    requires Conserving(s, cfg) && cfg.k >= 1 && cfg.n >= 1 && InRange(members, cfg.n)
    ensures Quantise(s, cfg).Ok? && |Quantise(s, cfg).value| == cfg.n
    ensures Sum(Gains(s, cfg, members)) <= (cfg.k - 1) * |members|
  {
    QuantiseSucceeds(s, cfg);
    var k: int, gains := cfg.k, Gains(s, cfg, members);
    forall x | 0 <= x < |members| ensures -k <= gains[x] <= k - 1 {
      QuotaRule(s, cfg, members[x]);
    }
    SumBound(gains, -k, k - 1);
  }

  /** Micro-units gained by each listed party. */
  function Gains(s: State, cfg: Config, members: seq<nat>): seq<int>
    requires cfg.k >= 1 && |s.balances| == cfg.n && InRange(members, cfg.n)
    requires Quantise(s, cfg).Ok? && |Quantise(s, cfg).value| == cfg.n
  {
    seq(|members|, x requires 0 <= x < |members| => cfg.k * Quantise(s, cfg).value[members[x]] - s.balances[members[x]])
  }

  // ---------- optimality ----------

  function Abs(x: int): nat {
    if x < 0 then -x else x
  }

  /** How far a payout in satoshis is from each balance, in micro-units. */
  function Distances(p: seq<int>, a: seq<int>, k: int): (d: seq<int>)
    requires |p| == |a|
    ensures |d| == |a|
  {
    seq(|a|, i requires 0 <= i < |a| => Abs(k * p[i] - a[i]))
  }

  function Squares(p: seq<int>, a: seq<int>, k: int): (d: seq<int>)
    requires |p| == |a|
    ensures |d| == |a|
  {
    seq(|a|, i requires 0 <= i < |a| => (k * p[i] - a[i]) * (k * p[i] - a[i]))
  }

  /** A remainder that separates winners from the rest. */
  lemma Threshold(r: seq<int>, k: int, count: nat) returns (rho: int)
    requires count <= |r| && k >= 1 && forall j :: 0 <= j < |r| ==> 0 <= r[j] < k
    ensures 0 <= rho < k
    ensures forall j: nat :: j < |r| ==> if j in Winners(r, count) then r[j] >= rho else r[j] <= rho
  {
    WinnersComeFirst(r, count);
    if count == 0 {
      rho := k - 1;
      assert Winners(r, count) == {};
    } else {
      var order := Ordering(r, |r|);
      OrderingIsOrdered(r, |r|);
      var last := order[count - 1];
      rho := r[last];
      assert order[..count][count - 1] == last;
      forall j: nat | j in Winners(r, count) ensures r[j] >= rho {
        var x :| 0 <= x < count && order[..count][x] == j;
        if x < count - 1 { assert Before(r, order[x], order[count - 1]); }
      }
      assert last in Winners(r, count);
      forall j: nat | j < |r| && j !in Winners(r, count) ensures r[j] <= rho { assert Before(r, last, j); }
    }
  }

  lemma Scale(c: int, d: int)
    requires c >= 0
    ensures d >= 1 ==> c * d >= c
    ensures d <= -1 ==> c * d <= -c
    ensures d == 0 ==> c * d == 0
  {
    if d >= 1 && c >= 1 { MulSign(d, c); }
    if d <= -1 && c >= 1 { MulSign(-d, c); MulAdd(c, d, -d); }
  }

  /** Deviating by `d` satoshis from the payout costs at least (k - 2 rho) d in distance. */
  lemma DeviationCost(k: int, rho: int, r: int, d: int, wins: bool)
    requires 0 <= r < k && 0 <= rho < k && (if wins then r >= rho else r <= rho)
    ensures var e := if wins then k - r else -r;
            Abs(e + k * d) - Abs(e) >= k * d - 2 * (rho * d)
  {
    Scale(k, d);
    Scale(rho, d);
    Scale(k - rho, d);
    MulAdd(d, k - rho, rho);
  }

  /** The same for squared distance, with k (k - 2 rho) d. */
  lemma DeviationCostSquared(k: int, rho: int, r: int, d: int, wins: bool)
    requires 0 <= r < k && 0 <= rho < k && (if wins then r >= rho else r <= rho)
    ensures var e := if wins then k - r else -r;
            (e + k * d) * (e + k * d) - e * e >= (k * d) * (k - 2 * rho)
  {
    var e, t := if wins then k - r else -r, k * d;
    Scale(k, d);
    SameSign(t, 2 * e + t - k + 2 * rho);
    Expand(e, t, k - 2 * rho);
  }

  lemma SameSign(x: int, y: int)
    requires (x >= 0 && y >= 0) || (x <= 0 && y <= 0)
    ensures x * y >= 0
  {
  }

  lemma Expand(e: int, t: int, c: int)
    ensures (e + t) * (e + t) - e * e - t * c == t * (2 * e + t - c)
  {
  }

  lemma {:induction false} SumDominates(cp: seq<int>, cq: seq<int>, p: seq<int>, q: seq<int>, lambda: int)
    requires |cp| == |cq| == |p| == |q|
    requires forall i :: 0 <= i < |p| ==> cp[i] - cq[i] >= lambda * (p[i] - q[i])
    ensures Sum(cp) - Sum(cq) >= lambda * (Sum(p) - Sum(q))
  {
    if p == [] {
      assert lambda * 0 == 0;
    } else {
      var n := |p| - 1;
      SumDominates(cp[..n], cq[..n], p[..n], q[..n], lambda);
      MulAdd(lambda, Sum(p[..n]) - Sum(q[..n]), p[n] - q[n]);
    }
  }

  /** The deviation of one party, in terms of its remainder. */
  lemma PartyDeviation(s: State, cfg: Config, p: seq<int>, i: nat)
    requires Conserving(s, cfg) && cfg.k >= 1 && i < cfg.n && |p| == cfg.n
    ensures Quantise(s, cfg).Ok? && |Quantise(s, cfg).value| == cfg.n
    ensures var r := Remainders(s.balances, cfg.k);
            var wins, q := i in Winners(r, Left(s, cfg)), Quantise(s, cfg).value;
            && 0 <= r[i] < cfg.k
            && cfg.k * q[i] - s.balances[i] == (if wins then cfg.k - r[i] else -r[i])
            && cfg.k * p[i] - s.balances[i] == (if wins then cfg.k - r[i] else -r[i]) + cfg.k * (p[i] - q[i])
  {
    PayoutOf(s, cfg, i);
    var q := Quantise(s, cfg).value;
    MulAdd(cfg.k, s.balances[i] / cfg.k, 1);
    MulAdd(cfg.k, q[i], p[i] - q[i]);
  }

  /** At every position, going from q to p costs at least the price for each unit. */
  ghost predicate Dearer(cp: seq<int>, cq: seq<int>, p: seq<int>, q: seq<int>, price: int) {
    && |cp| == |cq| == |p| == |q|
    && forall i :: 0 <= i < |p| ==> DearerAt(cp[i], cq[i], p[i] - q[i], price)
  }

  function SquarePrice(k: int, rho: int): int {
    k * (k - 2 * rho)
  }

  ghost predicate DearerAt(cp: int, cq: int, units: int, price: int) {
    cp - cq >= price * units
  }

  /** Winners' remainders are at least rho, all others' at most. */
  ghost predicate Separates(s: State, cfg: Config, rho: int)
    requires Conserving(s, cfg) && cfg.k >= 1 && cfg.n >= 1
  {
    var r := Remainders(s.balances, cfg.k);
    forall i: nat :: i < |r| ==> if i in Winners(r, Left(s, cfg)) then r[i] >= rho else r[i] <= rho
  }

  lemma SeparatesSome(s: State, cfg: Config) returns (rho: int)
    requires Conserving(s, cfg) && cfg.k >= 1 && cfg.n >= 1
    ensures 0 <= rho < cfg.k && Separates(s, cfg, rho)
  {
    rho := Threshold(Remainders(s.balances, cfg.k), cfg.k, Left(s, cfg));
  }

  /** A deviation by one party is at least as dear as the threshold price, in both measures. */
  lemma PartyPrice(s: State, cfg: Config, p: seq<int>, rho: int, i: nat)
    requires Conserving(s, cfg) && cfg.k >= 1 && i < cfg.n && |p| == cfg.n && 0 <= rho < cfg.k
    requires Separates(s, cfg, rho)
    ensures Quantise(s, cfg).Ok? && |Quantise(s, cfg).value| == cfg.n
    ensures var q, k, a := Quantise(s, cfg).value, cfg.k, s.balances;
            && DearerAt(Distances(p, a, k)[i], Distances(q, a, k)[i], p[i] - q[i], k - 2 * rho)
            && DearerAt(Squares(p, a, k)[i], Squares(q, a, k)[i], p[i] - q[i], SquarePrice(k, rho))
  {
    PartyDeviation(s, cfg, p, i);
    var r := Remainders(s.balances, cfg.k);
    var d, wins := p[i] - Quantise(s, cfg).value[i], i in Winners(r, Left(s, cfg));
    DeviationCost(cfg.k, rho, r[i], d, wins);
    DeviationCostSquared(cfg.k, rho, r[i], d, wins);
    Regroup(cfg.k, rho, d);
  }

  /** Sums of costs, if every party's deviation has the same price and the totals agree. */
  lemma NoGain(cp: seq<int>, cq: seq<int>, p: seq<int>, q: seq<int>, price: int)
    requires Dearer(cp, cq, p, q, price) && Sum(p) == Sum(q)
    ensures Sum(cq) <= Sum(cp)
  {
    assert forall i :: 0 <= i < |p| ==> DearerAt(cp[i], cq[i], p[i] - q[i], price);
    SumDominates(cp, cq, p, q, price);
    TimesZero(price);
  }

  /** With a remainder that separates the winners, one price per measure holds for every party. */
  lemma OnePrice(s: State, cfg: Config, p: seq<int>, rho: int)
    requires Conserving(s, cfg) && cfg.k >= 1 && cfg.n >= 1 && |p| == cfg.n && 0 <= rho < cfg.k
    requires Separates(s, cfg, rho)
    ensures Quantise(s, cfg).Ok? && |Quantise(s, cfg).value| == cfg.n
    ensures var q, k, a := Quantise(s, cfg).value, cfg.k, s.balances;
            && Dearer(Distances(p, a, k), Distances(q, a, k), p, q, k - 2 * rho)
            && Dearer(Squares(p, a, k), Squares(q, a, k), p, q, SquarePrice(k, rho))
  {
    hide Quantise, Sum, DearerAt, Distances, Squares, SquarePrice, Winners, Remainders;
    QuantiseSucceeds(s, cfg);
    var q, k, a := Quantise(s, cfg).value, cfg.k, s.balances;
    forall i: nat | i < cfg.n
      ensures DearerAt(Distances(p, a, k)[i], Distances(q, a, k)[i], p[i] - q[i], k - 2 * rho)
      ensures DearerAt(Squares(p, a, k)[i], Squares(q, a, k)[i], p[i] - q[i], SquarePrice(k, rho)) {
      PartyPrice(s, cfg, p, rho, i);
    }
  }

  /** Netting is optimal: no other vector of integers with the same total is closer to the
      balances, in total distance or in total squared distance. */
  lemma NettingIsOptimal(s: State, cfg: Config, p: seq<int>)
    requires Conserving(s, cfg) && cfg.k >= 1 && cfg.n >= 1 && |p| == cfg.n && Sum(p) == cfg.S
    ensures Quantise(s, cfg).Ok? && |Quantise(s, cfg).value| == cfg.n
    ensures Sum(Distances(Quantise(s, cfg).value, s.balances, cfg.k)) <= Sum(Distances(p, s.balances, cfg.k))
    ensures Sum(Squares(Quantise(s, cfg).value, s.balances, cfg.k)) <= Sum(Squares(p, s.balances, cfg.k))
  {
    hide Quantise, Sum, Distances, Squares, Dearer, SquarePrice, Separates;
    QuantiseSucceeds(s, cfg);
    var q, k, a := Quantise(s, cfg).value, cfg.k, s.balances;
    var rho := SeparatesSome(s, cfg);
    OnePrice(s, cfg, p, rho);
    NoGain(Distances(p, a, k), Distances(q, a, k), p, q, k - 2 * rho);
    NoGain(Squares(p, a, k), Squares(q, a, k), p, q, SquarePrice(k, rho));
  }

  lemma TimesZero(x: int)
    ensures x * 0 == 0
  {
  }

  lemma Regroup(k: int, rho: int, d: int)
    ensures k * d - 2 * (rho * d) == (k - 2 * rho) * d
    ensures (k * d) * (k - 2 * rho) == (k * (k - 2 * rho)) * d
  {
  }
}
