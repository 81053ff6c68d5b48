/** Four deliveries after which a node's table is not that of a fresh ingest of its best chain. */
module Desync {
  import opened Ledger
  import opened Headers
  import opened Reorg
  import opened ChainSync

  const A1: RawHeader := On(ROOT, REGTEST_BITS, 0)
  const A2: RawHeader := On(A1, REGTEST_BITS, 0)
  const B2: RawHeader := On(A1, REGTEST_BITS, 1)
  const B3: RawHeader := On(B2, REGTEST_BITS, 0)

  /** A coinbase that pays so much. */
  function Coinbase(value: nat): Tx {
    Tx([TxIn(COINBASE_PREV, [], FINAL_SEQUENCE)], [TxOut(value, [])], 0)
  }

  const FRESH_NODE: ChainState :=
    ChainState(GenesisIndex(ROOT), map[HashOf(ROOT) := []], EMPTY_INDEX)

  const AFTER_A1: ChainState := Deliver(FRESH_NODE, EASY, A1, [Coinbase(1)])
  const AFTER_A2: ChainState := Deliver(AFTER_A1, EASY, A2, [Coinbase(1)])
  const AFTER_B2: ChainState := Deliver(AFTER_A2, EASY, B2, [Coinbase(2)])
  const AFTER_B3: ChainState := Deliver(AFTER_B2, EASY, B3, [Coinbase(3)])

  // ---------- the header trees ----------

  /** What the deliveries do to the header tree: extend twice, store a stale block, overtake. */
  lemma Trees()
    ensures ConnectHeader(FRESH_NODE.headers, EASY, A1).Ok? && AFTER_A1.headers.tip == HashOf(A1)
    ensures ConnectHeader(AFTER_A1.headers, EASY, A2).Ok? && AFTER_A2.headers.tip == HashOf(A2)
    ensures ConnectHeader(AFTER_A2.headers, EASY, B2).Ok? && AFTER_B2.headers.tip == HashOf(A2)
    ensures ConnectHeader(AFTER_B2.headers, EASY, B3).Ok? && AFTER_B3.headers.tip == HashOf(B3)
    ensures LeavesNothing(FRESH_NODE, EASY, A1) && LeavesNothing(AFTER_A1, EASY, A2)
            && LeavesNothing(AFTER_A2, EASY, B2)
    ensures HashOf(A1) !in FRESH_NODE.bodies && HashOf(A2) !in AFTER_A1.bodies
    ensures HashOf(B2) !in AFTER_A2.bodies && HashOf(B3) !in AFTER_B2.bodies
    ensures AFTER_B2.bodies
            == map[HashOf(ROOT) := [], HashOf(A1) := [Coinbase(1)], HashOf(A2) := [Coinbase(1)],
                   HashOf(B2) := [Coinbase(2)]]
  {
    hide Work, BitsToTarget, Reorganise;
    WorkValues();
    Connects(FRESH_NODE.headers, ROOT, A1);
    Connects(AFTER_A1.headers, A1, A2);
    Connects(AFTER_A2.headers, A1, B2);
    Connects(AFTER_B2.headers, B2, B3);
  }

  lemma Chains()
    ensures Chain(HashOf(A2)) == [HashOf(ROOT), HashOf(A1), HashOf(A2)]
    ensures Chain(HashOf(B3)) == [HashOf(ROOT), HashOf(A1), HashOf(B2), HashOf(B3)]
    ensures ForkPoint(HashOf(A2), HashOf(B3)) == 2
  {
    assert Chain(HashOf(ROOT)) == [HashOf(ROOT)] by { assert Chain(ZeroHash) == []; }
    assert Chain(HashOf(A1)) == [HashOf(ROOT), HashOf(A1)];
    assert Chain(HashOf(B2)) == [HashOf(ROOT), HashOf(A1), HashOf(B2)];
    var a, b := Chain(HashOf(A2)), Chain(HashOf(B3));
    assert a[1..][1..][0] != b[1..][1..][0];
  }

  // ---------- the node before the last delivery ----------

  lemma SyncedBeforeB3()
    ensures Synced(AFTER_B2, ROOT, EASY)
  {
    hide Synced, Deliver, LeavesNothing, ConnectHeader, WellFormed;
    Trees();
    FreshNodeIsSynced(ROOT, EASY, FRESH_NODE);
    LeavingNothingStaysSynced(FRESH_NODE, ROOT, EASY, A1, [Coinbase(1)]);
    LeavingNothingStaysSynced(AFTER_A1, ROOT, EASY, A2, [Coinbase(1)]);
    LeavingNothingStaysSynced(AFTER_A2, ROOT, EASY, B2, [Coinbase(2)]);
  }

  // ---------- the last delivery ----------

  lemma OneCoinbase(value: nat, o: Outpoint)
    ensures o in CreatedBy([Coinbase(value)]) <==> o == Outpoint(IdOf(Coinbase(value)), 0)
    ensures o !in SpentBy([Coinbase(value)])
  {
    var txs := [Coinbase(value)];
    assert txs[0] == Coinbase(value);
    assert Created(Coinbase(value)) == {Outpoint(IdOf(Coinbase(value)), 0)} by {
      assert Outpoint(IdOf(Coinbase(value)), 0) in Created(Coinbase(value));
    }
  }

  /** The first coinbase of the common part is overwritten on the branch that is left, and not
      touched on the branch that is entered. */
  lemma CoinbaseIsLost(bodies: map<BlockHash, seq<Tx>>)
    requires Body(bodies, HashOf(A1)) == [Coinbase(1)] && Body(bodies, HashOf(A2)) == [Coinbase(1)]
    requires Body(bodies, HashOf(B2)) == [Coinbase(2)] && Body(bodies, HashOf(B3)) == [Coinbase(3)]
    ensures |Chain(HashOf(A2))| == 3 && |Chain(HashOf(B3))| == 4
    ensures var o := Outpoint(IdOf(Coinbase(1)), 0);
            && o in Lost(Ingest(Branch(HashOf(B3), 1, bodies)[..1]).utxos.Keys, Branch(HashOf(A2), 2, bodies))
            && FirstTouch(o, Branch(HashOf(B3), 2, bodies)) == Untouched
  {
    var o := Outpoint(IdOf(Coinbase(1)), 0);
    Chains();
    OneCoinbase(1, o);
    OneCoinbase(2, o);
    OneCoinbase(3, o);
    assert Branch(HashOf(B3), 1, bodies)[..1] == [Block(HashOf(A1), 1, [Coinbase(1)])];
    assert Branch(HashOf(A2), 2, bodies) == [Block(HashOf(A2), 2, [Coinbase(1)])];
    var left, entered := Branch(HashOf(A2), 2, bodies), Branch(HashOf(B3), 2, bodies);
    assert entered == [Block(HashOf(B2), 2, [Coinbase(2)]), Block(HashOf(B3), 3, [Coinbase(3)])];
    assert FirstTouch(o, left) == Overwrites;
    assert entered[1..] == [Block(HashOf(B3), 3, [Coinbase(3)])] && entered[1..][1..] == [];
    assert FirstTouch(o, entered) == FirstTouch(o, entered[1..]) == FirstTouch(o, []);
    SharedCoinbase(HashOf(A1), o);
  }

  lemma SharedCoinbase(h: BlockHash, o: Outpoint)
    requires o == Outpoint(IdOf(Coinbase(1)), 0)
    ensures o in Ingest([Block(h, 1, [Coinbase(1)])]).utxos
  {
    IngestAppend([], Block(h, 1, [Coinbase(1)]));
    assert [] + [Block(h, 1, [Coinbase(1)])] == [Block(h, 1, [Coinbase(1)])];
    assert [Coinbase(1)][..0] == [];
    assert o in Created(Coinbase(1));
  }

  /** The promised equality fails in general. A fresh node receives A1 and then A2 on it, both
      with the same coinbase; then B2 and B3 on A1 with others. The reorganisation takes the
      coinbase of A1 with it, although A1 stays on the best chain: the node is in sync before the
      last delivery, and after it its table is not that of a fresh ingest. */
  lemma RepeatedCoinbaseDesyncs()
    ensures Synced(AFTER_B2, ROOT, EASY) && BodyOfItsHash(AFTER_B2, ROOT, B3, [Coinbase(3)])
    ensures !Synced(AFTER_B3, ROOT, EASY)
    ensures AFTER_B3.headers.tip == HashOf(B3) && |Chain(HashOf(B3))| >= 1
    ensures AFTER_B3.index.utxos != FreshIngest(HashOf(B3), AFTER_B3.bodies).utxos
  {
    hide Synced, Reorganise, Lost, FirstTouch, Ingest, WellFormed;
    Trees();
    Chains();
    SyncedBeforeB3();
    var hx := ConnectHeader(AFTER_B2.headers, EASY, B3).value;
    DeliverMoves(AFTER_B2, ROOT, EASY, B3, [Coinbase(3)], hx);
    CoinbaseIsLost(AFTER_B3.bodies);
    MoveExact(HashOf(A2), HashOf(B3), AFTER_B3.bodies);
    NotSynced();
  }

  lemma NotSynced()
    requires |Chain(HashOf(B3))| >= 1 && AFTER_B3.headers.tip == HashOf(B3)
    requires AFTER_B3.index.utxos != FreshIngest(HashOf(B3), AFTER_B3.bodies).utxos
    ensures !Synced(AFTER_B3, ROOT, EASY)
  {
  }
}
