/** Building a multi-hop path with staggered locktimes, and the claim and return transactions of
    its hops. */
module Routing {
  import opened Ledger
  import opened Validation
  import opened Pool
  import opened Cascade

  /** A party's key; a secret and its image are bytes. */
  type Key = nat

  datatype Hop = Hop(payer: Key, payee: Key, value: int, image: Bytes, locktime: int, funding: Outpoint)

  datatype Path = Path(hops: seq<Hop>, L0: int, delta: int, image: Bytes, preimage: Option<Bytes>)

  datatype RoutingError =
    | NoHops
    | BadHorizon
    | BadDelta
    | Infeasible
    | OutpointCount
    | NoDefaultOutpoint
    | WrongLocktime(hop: nat)
    | WrongGap
    | FinalMarginTooSmall
    | WrongPreimage
    | NoPreimage
    | SpendRejected(hop: nat)

  /** What the scripts module and the keys provide; `repeated` is the identifier of one byte repeated. */
  datatype Crypto = Crypto(
    image: Bytes -> Bytes,
    payTo: Key -> Script,
    hopScript: (Bytes, Key, Key) -> Script,
    claimScript: (Tx, Key, Bytes) -> Script,
    returnScript: (Tx, Key) -> Script,
    repeated: nat -> TxId)

  // ---------- building a path ----------

  function HopsOf(keys: seq<Key>, value: int, L0: int, delta: int, image: Bytes, outpoints: seq<Outpoint>,
                  l: nat): seq<Hop>
    requires l < |keys| && l <= |outpoints|
  {
    seq(l, j requires 0 <= j < l => Hop(keys[j], keys[j + 1], value, image, L0 - j * delta, outpoints[j]))
  }

  /** The outpoints that fund the hops: the caller's, or output 0 of one repeated byte for each hop. */
  function FundingOutpoints(c: Crypto, outpoints: Option<seq<Outpoint>>, l: nat): Result<seq<Outpoint>, RoutingError> {
    match outpoints
    case Some(given) => Ok(given)
    case None =>
      if l > 255 then Err(NoDefaultOutpoint) else Ok(seq(l, j requires 0 <= j => Outpoint(c.repeated(j + 1), 0)))
  }

  method BuildPath(c: Crypto, keys: seq<Key>, value: int, L0: int, delta: int, preimage: Bytes,
                   outpoints: Option<seq<Outpoint>>)
      returns (r: Result<Path, RoutingError>)
    ensures var l := |keys| - 1;
            r.Ok? <==> && l >= 1 && L0 > 0 && delta > 0 && l * delta < L0
                       && (outpoints.Some? ==> |outpoints.value| == l) && (outpoints.None? ==> l <= 255)
    ensures r.Ok? ==>
              && WellBuilt(r.value)
              && |r.value.hops| == |keys| - 1 && r.value.L0 == L0 && r.value.delta == delta
              && r.value.image == c.image(preimage) && r.value.preimage == Some(preimage)
              && BuiltFrom(r.value, keys, value)
              && forall j :: 0 <= j < |r.value.hops| ==>
                   r.value.hops[j].funding
                     == if outpoints.Some? then outpoints.value[j] else Outpoint(c.repeated(j + 1), 0)
    ensures r.Ok? && outpoints.None? && (forall a, b :: 1 <= a < b <= 255 ==> c.repeated(a) != c.repeated(b)) ==>
              forall i, j :: 0 <= i < j < |r.value.hops| ==> r.value.hops[i].funding != r.value.hops[j].funding
    ensures r == Err(NoHops) <==> |keys| < 2
    ensures r == Err(BadHorizon) <==> |keys| >= 2 && L0 <= 0
    ensures r == Err(BadDelta) <==> |keys| >= 2 && L0 > 0 && delta <= 0
    ensures r == Err(Infeasible) <==> |keys| >= 2 && L0 > 0 && delta > 0 && (|keys| - 1) * delta >= L0
    ensures r.Err? && |keys| >= 2 && L0 > 0 && delta > 0 && (|keys| - 1) * delta < L0 ==>
              r == Err(if outpoints.Some? then OutpointCount else NoDefaultOutpoint)
  {
    if |keys| < 2 { return Err(NoHops); }
    var l := |keys| - 1;
    if L0 <= 0 { return Err(BadHorizon); }
    if delta <= 0 { return Err(BadDelta); }
    if l * delta >= L0 { return Err(Infeasible); }
    var image := c.image(preimage);
    var given := FundingOutpoints(c, outpoints, l);
    if given.Err? { return Err(given.error); }
    if |given.value| != l { return Err(OutpointCount); }
    var hops := BuildHops(keys, value, L0, delta, image, given.value);
    r := Ok(Path(hops, L0, delta, image, Some(preimage)));
    HopsAreWellBuilt(keys, value, L0, delta, image, given.value, preimage);
  }

  /** One hop after the other, each with its own locktime. */
  method BuildHops(keys: seq<Key>, value: int, L0: int, delta: int, image: Bytes, outpoints: seq<Outpoint>)
      returns (hops: seq<Hop>)
    requires |outpoints| == |keys| - 1
    ensures hops == HopsOf(keys, value, L0, delta, image, outpoints, |keys| - 1)
  {
    hops := [];
    for j := 0 to |keys| - 1
      invariant hops == HopsOf(keys, value, L0, delta, image, outpoints, j)
    {
      var locktime := L0 - j * delta;
      hops := hops + [Hop(keys[j], keys[j + 1], value, image, locktime, outpoints[j])];
    }
  }

  lemma HopsAreWellBuilt(keys: seq<Key>, value: int, L0: int, delta: int, image: Bytes, outpoints: seq<Outpoint>,
                         preimage: Bytes)
    requires |outpoints| == |keys| - 1 >= 1 && delta > 0 && (|keys| - 1) * delta < L0
    ensures WellBuilt(Path(HopsOf(keys, value, L0, delta, image, outpoints, |keys| - 1), L0, delta, image,
                           Some(preimage)))
  {
    LastMargin(|keys| - 1, L0, delta);
  }

  lemma LastMargin(l: int, L0: int, delta: int)
    requires l * delta < L0
    ensures L0 - (l - 1) * delta > delta
  {
  }

  /** Every locktime is a delta below the one before it, and the last leaves more than a delta. */
  predicate WellBuilt(p: Path) {
    && |p.hops| >= 1 && p.delta > 0
    && (forall j :: 0 <= j < |p.hops| ==> p.hops[j].locktime == p.L0 - j * p.delta)
    && p.hops[|p.hops| - 1].locktime > p.delta
    && (forall j :: 0 <= j < |p.hops| ==> p.hops[j].image == p.image)
    && (forall j :: 0 <= j < |p.hops| - 1 ==> p.hops[j].payee == p.hops[j + 1].payer)
  }

  /** Hop `j` goes from key `j` to key `j + 1` and carries the value. */
  predicate BuiltFrom(p: Path, keys: seq<Key>, value: int) {
    && |keys| == |p.hops| + 1
    && forall j :: 0 <= j < |p.hops| ==>
         p.hops[j].payer == keys[j] && p.hops[j].payee == keys[j + 1] && p.hops[j].value == value
  }

  /** The staggering check passes exactly on staggered paths, so on every built one; its second
      comparison, of neighbouring locktimes, never decides. */
  method AssertStaggeringInvariant(p: Path) returns (r: Option<RoutingError>)
    ensures r == None <==>
              && |p.hops| >= 1 && p.hops[|p.hops| - 1].locktime >= p.delta
              && forall j :: 0 <= j < |p.hops| ==> p.hops[j].locktime == p.L0 - j * p.delta
    ensures r == Some(NoHops) <==> p.hops == []
    ensures r == Some(FinalMarginTooSmall) <==>
              && |p.hops| >= 1 && p.hops[|p.hops| - 1].locktime < p.delta
              && forall j :: 0 <= j < |p.hops| ==> p.hops[j].locktime == p.L0 - j * p.delta
    ensures WellBuilt(p) ==> r == None
    ensures r.Some? ==> !r.value.WrongGap?
    ensures forall j: nat :: r == Some(WrongLocktime(j)) ==>
              && j < |p.hops| && p.hops[j].locktime != p.L0 - j * p.delta
              && forall i :: 0 <= i < j ==> p.hops[i].locktime == p.L0 - i * p.delta
  {
    var prev := p.L0 + p.delta;
    for j := 0 to |p.hops|
      invariant prev == p.L0 - (j - 1) * p.delta
      invariant forall i :: 0 <= i < j ==> p.hops[i].locktime == p.L0 - i * p.delta
    {
      Times(j, p.delta);
      var expected := p.L0 - j * p.delta;
      if p.hops[j].locktime != expected { return Some(WrongLocktime(j)); }
      if prev - p.hops[j].locktime != p.delta { return Some(WrongGap); }
      prev := p.hops[j].locktime;
    }
    if |p.hops| == 0 { return Some(NoHops); }
    if p.hops[|p.hops| - 1].locktime < p.delta { return Some(FinalMarginTooSmall); }
    return None;
  }

  lemma Times(j: int, d: int)
    ensures (j - 1) * d == j * d - d
  {
  }

  // ---------- claims and returns ----------

  function HopOutput(c: Crypto, hop: Hop): TxOut {
    TxOut(hop.value, c.hopScript(hop.image, hop.payee, hop.payer))
  }

  function ClaimTx(c: Crypto, hop: Hop, preimage: Bytes, sink: Option<Key>): Result<Tx, RoutingError> {
    if c.image(preimage) != hop.image then Err(WrongPreimage)
    else
      var to := if sink.Some? then sink.value else hop.payee;
      var unsigned := Tx([TxIn(hop.funding, [], FINAL_SEQUENCE)], [TxOut(hop.value, c.payTo(to))], 0);
      Ok(unsigned.(inputs := [TxIn(hop.funding, c.claimScript(unsigned, hop.payee, preimage), FINAL_SEQUENCE)]))
  }

  function ReturnTx(c: Crypto, hop: Hop): Result<Tx, RoutingError>
  {
    if hop.locktime < 0 then Err(BadHorizon)
    else
      var unsigned := Tx([TxIn(hop.funding, [], 0)], [TxOut(hop.value, c.payTo(hop.payer))], hop.locktime);
      Ok(unsigned.(inputs := [TxIn(hop.funding, c.returnScript(unsigned, hop.payer), 0)]))
  }

  /** For as long as neither is mined, the claim of a hop wins against its return: it displaces a
      return, and no return displaces it. */
  lemma ClaimOutranksReturn(c: Crypto, hop: Hop, preimage: Bytes, sink: Option<Key>)
    requires ClaimTx(c, hop, preimage, sink).Ok? && ReturnTx(c, hop).Ok?
    ensures var claim, back := ClaimTx(c, hop, preimage, sink).value, ReturnTx(c, hop).value;
            Outranks(claim, back) && !Outranks(back, claim) && IsFinal(claim) && !IsFinal(back)
  {
    var claim, back := ClaimTx(c, hop, preimage, sink).value, ReturnTx(c, hop).value;
    assert claim.inputs[0].prev == hop.funding && back.inputs[0].prev == hop.funding;
    assert SeqAt(claim.inputs, hop.funding) == FINAL_SEQUENCE && SeqAt(back.inputs, hop.funding) == 0;
    assert back.inputs[0].prev in Prevs(claim.inputs);
  }

  /** A claim needs the secret. It spends the hop finally and at once, and pays its whole value to
      the sink's key if one is given, else to the payee; the script is over the unsigned transaction. */
  lemma ClaimTxIs(c: Crypto, hop: Hop, preimage: Bytes, sink: Option<Key>)
    ensures var r, to := ClaimTx(c, hop, preimage, sink), if sink.Some? then sink.value else hop.payee;
            var outputs := [TxOut(hop.value, c.payTo(to))];
            var blank := Tx([TxIn(hop.funding, [], 0xFFFF_FFFF)], outputs, 0);
            var signed := Tx([TxIn(hop.funding, c.claimScript(blank, hop.payee, preimage), 0xFFFF_FFFF)], outputs, 0);
            r == if c.image(preimage) == hop.image then Ok(signed) else Err(WrongPreimage)
  {
  }

  /** A return spends the hop with sequence number 0, not before the hop's locktime, and pays its
      whole value to the payer. */
  lemma ReturnTxIs(c: Crypto, hop: Hop)
    ensures var r, outputs := ReturnTx(c, hop), [TxOut(hop.value, c.payTo(hop.payer))];
            hop.locktime >= 0 ==>
              var blank := Tx([TxIn(hop.funding, [], 0)], outputs, hop.locktime);
              r == Ok(Tx([TxIn(hop.funding, c.returnScript(blank, hop.payer), 0)], outputs, hop.locktime))
    ensures hop.locktime < 0 ==> ReturnTx(c, hop) == Err(BadHorizon)
  {
  }

  /** Claims every hop with the secret. Succeeds exactly when the secret is known and matches and
      every claim unlocks its hop; then transaction `j` pays the whole value of hop `j` to its payee.
      Else the error is that of the first hop that fails. */
  method SettleSecretRevealed(c: Crypto, verify: Interpreter, p: Path) returns (r: Result<seq<Tx>, RoutingError>)
    ensures r == Err(NoPreimage) <==> p.preimage == None
    ensures r.Ok? <==> && p.preimage.Some?
                       && forall j :: 0 <= j < |p.hops| ==> ClaimUnlocks(c, verify, p.hops[j], p.preimage.value)
    ensures r.Ok? ==> && |r.value| == |p.hops|
                      && forall j :: 0 <= j < |p.hops| ==>
                         var hop := p.hops[j];
                         && c.image(p.preimage.value) == hop.image
                         && |r.value[j].inputs| == 1 && r.value[j].inputs[0].prev == hop.funding
                         && r.value[j].inputs[0].sequence == 0xFFFF_FFFF && r.value[j].locktime == 0
                         && r.value[j].outputs == [TxOut(hop.value, c.payTo(hop.payee))]
                         && verify(r.value[j], 0, TxOut(hop.value, c.hopScript(hop.image, hop.payee, hop.payer)))
                         && Ok(r.value[j]) == ClaimTx(c, hop, p.preimage.value, None)
    ensures r.Err? && p.preimage.Some? ==>
              exists j :: 0 <= j < |p.hops| && !ClaimUnlocks(c, verify, p.hops[j], p.preimage.value)
                && (forall i :: 0 <= i < j ==> ClaimUnlocks(c, verify, p.hops[i], p.preimage.value))
                && r.error == if c.image(p.preimage.value) != p.hops[j].image then WrongPreimage else SpendRejected(j)
  {
    if p.preimage == None { return Err(NoPreimage); }
    var txs: seq<Tx> := [];
    for j := 0 to |p.hops|
      invariant |txs| == j
      invariant forall i :: 0 <= i < j ==> ClaimUnlocks(c, verify, p.hops[i], p.preimage.value)
      invariant forall i :: 0 <= i < j ==> Ok(txs[i]) == ClaimTx(c, p.hops[i], p.preimage.value, None)
    {
      var tx := ClaimTx(c, p.hops[j], p.preimage.value, None);
      if tx.Err? { return Err(tx.error); }
      if !verify(tx.value, 0, HopOutput(c, p.hops[j])) { return Err(SpendRejected(j)); }
      txs := txs + [tx.value];
    }
    return Ok(txs);
  }

  predicate ClaimUnlocks(c: Crypto, verify: Interpreter, hop: Hop, preimage: Bytes) {
    var tx := ClaimTx(c, hop, preimage, None);
    tx.Ok? && verify(tx.value, 0, HopOutput(c, hop))
  }

  predicate ReturnUnlocks(c: Crypto, verify: Interpreter, hop: Hop) {
    var tx := ReturnTx(c, hop);
    tx.Ok? && verify(tx.value, 0, HopOutput(c, hop))
  }

  /** Returns every hop to its payer: transaction `j` pays the whole value of hop `j` back, from its
      locktime on. Else the error is that of the first hop that fails. */
  method SettleSecretNotRevealed(c: Crypto, verify: Interpreter, p: Path) returns (r: Result<seq<Tx>, RoutingError>)
    ensures r.Ok? <==> forall j :: 0 <= j < |p.hops| ==> ReturnUnlocks(c, verify, p.hops[j])
    ensures r.Ok? ==> && |r.value| == |p.hops|
                      && forall j :: 0 <= j < |p.hops| ==>
                         var hop := p.hops[j];
                         && |r.value[j].inputs| == 1 && r.value[j].inputs[0].prev == hop.funding
                         && r.value[j].inputs[0].sequence == 0 && r.value[j].locktime == hop.locktime
                         && r.value[j].outputs == [TxOut(hop.value, c.payTo(hop.payer))]
                         && verify(r.value[j], 0, TxOut(hop.value, c.hopScript(hop.image, hop.payee, hop.payer)))
                         && Ok(r.value[j]) == ReturnTx(c, hop)
    ensures r.Err? ==>
              exists j :: 0 <= j < |p.hops| && !ReturnUnlocks(c, verify, p.hops[j])
                && (forall i :: 0 <= i < j ==> ReturnUnlocks(c, verify, p.hops[i]))
                && r.error == if p.hops[j].locktime < 0 then BadHorizon else SpendRejected(j)
  {
    var txs: seq<Tx> := [];
    for j := 0 to |p.hops|
      invariant |txs| == j
      invariant forall i :: 0 <= i < j ==> ReturnUnlocks(c, verify, p.hops[i])
      invariant forall i :: 0 <= i < j ==> Ok(txs[i]) == ReturnTx(c, p.hops[i])
    {
      var tx := ReturnTx(c, p.hops[j]);
      if tx.Err? { return Err(tx.error); }
      if !verify(tx.value, 0, HopOutput(c, p.hops[j])) { return Err(SpendRejected(j)); }
      txs := txs + [tx.value];
    }
    return Ok(txs);
  }

  /** On a built path the secret settles every hop or none: all claims match the path's image and
      pay the next key, all returns have their locktime and pay the key before. */
  lemma BuiltPathSettles(c: Crypto, p: Path, keys: seq<Key>, value: int)
    requires WellBuilt(p) && p.preimage.Some? && p.image == c.image(p.preimage.value) && BuiltFrom(p, keys, value)
    ensures forall j :: 0 <= j < |p.hops| ==>
              var claim := ClaimTx(c, p.hops[j], p.preimage.value, None);
              claim.Ok? && claim.value.outputs == [TxOut(value, c.payTo(keys[j + 1]))]
    ensures forall j :: 0 <= j < |p.hops| ==>
              var back := ReturnTx(c, p.hops[j]);
              && back.Ok? && back.value.outputs == [TxOut(value, c.payTo(keys[j]))]
              && back.value.locktime == p.L0 - j * p.delta
  {
    forall j | 0 <= j < |p.hops| ensures p.hops[j].locktime >= 0 { LaterIsLower(p, j); }
  }

  /** A locktime never lies below a later one. */
  lemma LaterIsLower(p: Path, j: nat)
    requires WellBuilt(p) && j < |p.hops|
    ensures p.hops[j].locktime >= p.hops[|p.hops| - 1].locktime
  {
    MulMonotone(j, |p.hops| - 1, p.delta);
  }

  lemma MulMonotone(a: int, b: int, d: int)
    requires a <= b && d > 0
    ensures a * d <= b * d
  {
    assert (b - a) * d >= 0;
    assert b * d - a * d == (b - a) * d;
  }
}
