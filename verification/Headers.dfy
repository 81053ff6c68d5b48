/** The header tree: compact targets and work, connecting headers, the tip of most work, and the
    backward walks along parent links. */
module Headers {
  import opened Ledger
  import opened LittleEndian

  /** `m` shifted left by `n` bytes. */
  function ShiftUp(m: nat, n: nat): nat {
    if n == 0 then m else 256 * ShiftUp(m, n - 1)
  }

  /** `m` shifted right by `n` bytes. */
  function ShiftDown(m: nat, n: nat): nat {
    if n == 0 then m else ShiftDown(m, n - 1) / 256
  }

  /** The compact-target encoding: the top byte is an exponent, the low 23 bits a mantissa. */
  function BitsToTarget(bits: nat): nat {
    var exponent, mantissa := bits / 0x100_0000, bits % 0x80_0000;
    if exponent <= 3 then ShiftDown(mantissa, 3 - exponent) else ShiftUp(mantissa, exponent - 3)
  }

  /** Expected number of hashes, 2^256 / (target + 1). */
  function Work(bits: nat): nat {
    var target := BitsToTarget(bits);
    if target <= 0 then 0 else Quotient(ShiftUp(1, 32), target + 1)
  }

  function Quotient(a: nat, b: nat): (q: nat)
    requires b > 0
    ensures q * b <= a < (q + 1) * b
    ensures q > 0 <==> b <= a
  {
    a / b
  }

  lemma {:induction false} ShiftUpIs(m: nat, n: nat)
    ensures ShiftUp(m, n) == m * Pow256(n)
  {
    if n > 0 { ShiftUpIs(m, n - 1); }
  }

  lemma {:induction false} ShiftDownIs(m: nat, n: nat)
    ensures ShiftDown(m, n) == m / Pow256(n)
  {
    if n > 0 {
      ShiftDownIs(m, n - 1);
      DivideTwice(m, Pow256(n - 1), 256);
    }
  }

  /** The target of compact bits: the mantissa, the low 23 bits, times 256 to the power of the
      exponent, the bits from 24 on, less three; rounded down for exponents below three. */
  lemma TargetIs(bits: nat)
    ensures var e, m := bits / 0x100_0000, bits % 0x80_0000;
            BitsToTarget(bits) == if e >= 3 then m * Pow256(e - 3) else m / Pow256(3 - e)
  {
    var e, m := bits / 0x100_0000, bits % 0x80_0000;
    if e >= 3 { ShiftUpIs(m, e - 3); }
    if e <= 3 { ShiftDownIs(m, 3 - e); }
  }

  /** The work of a header is 2^256 divided by its target plus one, rounded down. */
  lemma WorkIs(bits: nat)
    ensures BitsToTarget(bits) == 0 ==> Work(bits) == 0
    ensures BitsToTarget(bits) > 0 ==>
              Work(bits) * (BitsToTarget(bits) + 1) <= Pow256(32) < (Work(bits) + 1) * (BitsToTarget(bits) + 1)
  {
    hide BitsToTarget, Pow256, ShiftUp;
    ShiftUpIs(1, 32);
  }

  /** A lower target never has less work. */
  lemma LowerTargetMoreWork(a: nat, b: nat)
    requires 0 < BitsToTarget(a) <= BitsToTarget(b)
    ensures Work(a) >= Work(b)
  {
    hide Work, BitsToTarget, Pow256;
    WorkIs(a);
    WorkIs(b);
    Cheaper(Work(a), BitsToTarget(a) + 1, Work(b), BitsToTarget(b) + 1, Pow256(32));
  }

  lemma Cheaper(q: nat, d: nat, r: nat, e: nat, n: nat)
    requires d <= e && n < (q + 1) * d && r * e <= n
    ensures q >= r
  {
    assert r * d <= r * e by { Grows(r, d, e); }
    assert (q + 1) * d == d * (q + 1) && r * d == d * r;
    assert d * (q + 1 - r) == d * (q + 1) - d * r;
    Multiple(d, q + 1 - r);
  }

  lemma Grows(r: nat, d: nat, e: nat)
    requires d <= e
    ensures r * d <= r * e
  {
    assert r * e == r * d + r * (e - d);
  }

  /** A header adds work exactly when its target is positive and below 2^256. */
  lemma WorkIsPositive(bits: nat)
    ensures Work(bits) > 0 <==> 0 < BitsToTarget(bits) < ShiftUp(1, 32)
  {
  }

  lemma {:induction false} ShiftUpBounds(m: nat, n: nat, top: nat)
    requires 0 < m < 0x100_0000 && n + 3 <= top
    ensures 0 < ShiftUp(m, n) < ShiftUp(1, top)
    decreases top
  {
    if n > 0 {
      ShiftUpBounds(m, n - 1, top - 1);
    } else if top > 3 {
      ShiftUpBounds(m, 0, top - 1);
    } else {
      assert ShiftUp(1, 3) == 256 * ShiftUp(1, 2) && ShiftUp(1, 2) == 256 * ShiftUp(1, 1) && ShiftUp(1, 1) == 256;
    }
  }

  /** Compact bits with a mantissa and an exponent from 4 to 32 add work. */
  lemma CommonBitsAddWork(bits: nat)
    requires 3 < bits / 0x100_0000 <= 32 && bits % 0x80_0000 != 0
    ensures Work(bits) > 0
  {
    ShiftUpBounds(bits % 0x80_0000, bits / 0x100_0000 - 3, 32);
    WorkIsPositive(bits);
  }

  const REGTEST_BITS: nat := 0x207FFFFF

  lemma {:induction false} ShiftUpGrows(m: nat, n: nat)
    requires m >= 1
    ensures ShiftUp(m, n) >= ShiftUp(1, n) >= 1
  {
    if n > 0 { ShiftUpGrows(m, n - 1); }
  }

  /** The regtest target is above 2^224, that is 1 shifted by 28 bytes. */
  lemma RegtestTargetIsHigher()
    ensures BitsToTarget(REGTEST_BITS) > ShiftUp(1, 28)
  {
    hide ShiftUp, ShiftDown;
    ShiftUpStep(0x7F_FFFF, 28);
    ShiftUpGrows(0x7F_FFFF, 28);
  }

  lemma ShiftUpStep(m: nat, n: nat)
    ensures ShiftUp(m, n + 1) == 256 * ShiftUp(m, n)
  {
  }

  // ---------- parent chains ----------

  /** The headers from the first one down to `h`, oldest first. */
  function Chain(h: BlockHash): seq<BlockHash> {
    match h
    case ZeroHash => []
    case HashOf(raw) => Chain(raw.prev) + [h]
  }

  function PathWork(h: BlockHash): nat {
    match h
    case ZeroHash => 0
    case HashOf(raw) => PathWork(raw.prev) + Work(raw.bits)
  }

  /** A chain is determined by any of its members: they carry their own prefix. */
  lemma {:induction false} ChainPrefix(h: BlockHash, i: nat)
    requires i < |Chain(h)|
    ensures Chain(Chain(h)[i]) == Chain(h)[..i + 1]
  {
    if i < |Chain(h)| - 1 { ChainPrefix(h.header.prev, i); }
  }

  lemma ChainDistinct(h: BlockHash)
    ensures forall i, j :: 0 <= i < j < |Chain(h)| ==> Chain(h)[i] != Chain(h)[j]
  {
    forall i, j | 0 <= i < j < |Chain(h)| ensures Chain(h)[i] != Chain(h)[j] {
      ChainPrefix(h, i);
      ChainPrefix(h, j);
    }
  }

  // ---------- the store, as a value ----------

  datatype Header = Header(raw: RawHeader, height: nat, work: nat)
  datatype HeaderError = MissingParent | BadTarget | PowFailed

  /** `order` is the order of insertion into the table. */
  datatype HeaderIndex = HeaderIndex(byHash: map<BlockHash, Header>, order: seq<BlockHash>, tip: BlockHash)

  function GenesisIndex(genesis: RawHeader): HeaderIndex {
    var h := HashOf(genesis);
    HeaderIndex(map[h := Header(genesis, 0, Work(genesis.bits))], [h], h)
  }

  /** The index with a new header in it. */
  function Insert(hx: HeaderIndex, h: BlockHash, header: Header, tip: BlockHash): HeaderIndex {
    HeaderIndex(hx.byHash[h := header], hx.order + [h], tip)
  }

  /** `pow` reads a hash as a number. */
  function ConnectHeader(hx: HeaderIndex, pow: BlockHash -> nat, raw: RawHeader): Result<HeaderIndex, HeaderError> {
    var h := HashOf(raw);
    if h in hx.byHash then Ok(hx)
    else if raw.prev !in hx.byHash then Err(MissingParent)
    else if BitsToTarget(raw.bits) <= 0 then Err(BadTarget)
    else if pow(h) > BitsToTarget(raw.bits) then Err(PowFailed)
    else
      var parent := hx.byHash[raw.prev];
      var header := Header(raw, parent.height + 1, parent.work + Work(raw.bits));
      var best := if hx.tip in hx.byHash then hx.byHash[hx.tip].work else 0;
      Ok(Insert(hx, h, header, if header.work > best then h else hx.tip))
  }

  /** Table and insertion order list the same headers, each under its own hash, once. */
  predicate Listed(hx: HeaderIndex) {
    && SetOf(hx.order) == hx.byHash.Keys
    && (forall i, j :: 0 <= i < j < |hx.order| ==> hx.order[i] != hx.order[j])
    && (forall h :: h in hx.byHash ==> h == HashOf(hx.byHash[h].raw))
  }

  /** Every header but the first hangs under a stored parent, one higher, with its own work
      added, and meets its own target. */
  predicate Rooted(hx: HeaderIndex, genesis: RawHeader, pow: BlockHash -> nat) {
    && genesis.prev == ZeroHash
    && HashOf(genesis) in hx.byHash
    && hx.byHash[HashOf(genesis)] == Header(genesis, 0, Work(genesis.bits))
    && (forall h {:trigger ProperChild(hx, h, pow)} :: h in hx.byHash && h != HashOf(genesis) ==>
        ProperChild(hx, h, pow))
  }

  predicate ProperChild(hx: HeaderIndex, h: BlockHash, pow: BlockHash -> nat) {
    && h in hx.byHash && h.HashOf? && h.header.prev in hx.byHash
    && hx.byHash[h].height == hx.byHash[h.header.prev].height + 1
    && hx.byHash[h].work == hx.byHash[h.header.prev].work + Work(h.header.bits)
    && 0 < BitsToTarget(h.header.bits) && pow(h) <= BitsToTarget(h.header.bits)
  }

  /** The tip is the first of the stored headers of most work. */
  predicate FirstBest(hx: HeaderIndex)
    requires Listed(hx)
  {
    && hx.tip in hx.byHash
    && exists t :: 0 <= t < |hx.order| && hx.order[t] == hx.tip && BestAt(hx, t)
  }

  predicate BestAt(hx: HeaderIndex, t: int)
    requires Listed(hx) && 0 <= t < |hx.order|
  {
    && (forall j :: 0 <= j < t ==> WorkAt(hx, j) < WorkAt(hx, t))
    && (forall j :: t <= j < |hx.order| ==> WorkAt(hx, j) <= WorkAt(hx, t))
  }

  function WorkAt(hx: HeaderIndex, i: int): nat
    requires Listed(hx) && 0 <= i < |hx.order|
  {
    assert hx.order[i] in SetOf(hx.order);
    hx.byHash[hx.order[i]].work
  }

  predicate WellFormed(hx: HeaderIndex, genesis: RawHeader, pow: BlockHash -> nat) {
    Listed(hx) && Rooted(hx, genesis, pow) && FirstBest(hx)
  }

  lemma GenesisIsWellFormed(genesis: RawHeader, pow: BlockHash -> nat)
    requires genesis.prev == ZeroHash
    ensures WellFormed(GenesisIndex(genesis), genesis, pow)
  {
    var hx := GenesisIndex(genesis);
    assert hx.order[0] == hx.tip;
    assert BestAt(hx, 0);
  }

  lemma InsertKeepsListed(hx: HeaderIndex, h: BlockHash, header: Header, tip: BlockHash)
    requires Listed(hx) && h !in hx.byHash && h == HashOf(header.raw)
    ensures Listed(Insert(hx, h, header, tip))
    ensures WorkAt(Insert(hx, h, header, tip), |hx.order|) == header.work
    ensures forall j :: 0 <= j < |hx.order| ==> WorkAt(Insert(hx, h, header, tip), j) == WorkAt(hx, j)
  {
    assert h !in SetOf(hx.order);
    assert SetOf(hx.order + [h]) == SetOf(hx.order) + {h};
    forall j | 0 <= j < |hx.order| ensures hx.order[j] in SetOf(hx.order) {}
  }

  lemma InsertKeepsRooted(hx: HeaderIndex, genesis: RawHeader, pow: BlockHash -> nat, h: BlockHash, header: Header,
                          tip: BlockHash)
    requires Listed(hx) && Rooted(hx, genesis, pow) && h !in hx.byHash && h == HashOf(header.raw)
    requires ProperChild(hx.(byHash := hx.byHash[h := header]), h, pow)
    ensures Rooted(Insert(hx, h, header, tip), genesis, pow)
  {
    var hx' := Insert(hx, h, header, tip);
    forall x | x in hx'.byHash && x != HashOf(genesis) ensures ProperChild(hx', x, pow) {
      if x != h { assert ProperChild(hx, x, pow); }
    }
  }

  lemma InsertKeepsFirstBest(hx: HeaderIndex, h: BlockHash, header: Header)
    requires Listed(hx) && FirstBest(hx) && h !in hx.byHash && h == HashOf(header.raw)
    ensures var hx' := Insert(hx, h, header, if header.work > hx.byHash[hx.tip].work then h else hx.tip);
            Listed(hx') && FirstBest(hx')
  {
    var hx' := Insert(hx, h, header, if header.work > hx.byHash[hx.tip].work then h else hx.tip);
    InsertKeepsListed(hx, h, header, hx'.tip);
    var t :| 0 <= t < |hx.order| && hx.order[t] == hx.tip && BestAt(hx, t);
    assert WorkAt(hx, t) == hx.byHash[hx.tip].work;
    InsertKeepsBest(hx, hx', t, header.work);
    assert hx'.order[t] == hx.tip && hx'.order[|hx.order|] == h;
  }

  lemma InsertKeepsBest(hx: HeaderIndex, hx': HeaderIndex, t: int, work: nat)
    requires Listed(hx) && Listed(hx') && 0 <= t < |hx.order| && BestAt(hx, t)
    requires |hx'.order| == |hx.order| + 1 && WorkAt(hx', |hx.order|) == work
    requires forall j :: 0 <= j < |hx.order| ==> WorkAt(hx', j) == WorkAt(hx, j)
    ensures BestAt(hx', if work > WorkAt(hx, t) then |hx.order| else t)
  {
  }

  /** A header that is connected for the first time is a proper child of its parent. */
  lemma ConnectInserts(hx: HeaderIndex, pow: BlockHash -> nat, raw: RawHeader)
    requires ConnectHeader(hx, pow, raw).Ok? && HashOf(raw) !in hx.byHash && hx.tip in hx.byHash
    ensures var h, hx' := HashOf(raw), ConnectHeader(hx, pow, raw).value;
            && h in hx'.byHash && h == HashOf(hx'.byHash[h].raw)
            && ProperChild(hx.(byHash := hx.byHash[h := hx'.byHash[h]]), h, pow)
            && hx' == Insert(hx, h, hx'.byHash[h], if hx'.byHash[h].work > hx.byHash[hx.tip].work then h else hx.tip)
  {
  }

  /** Connecting any header, accepted or not, keeps the whole invariant. */
  lemma ConnectKeepsWellFormed(hx: HeaderIndex, genesis: RawHeader, pow: BlockHash -> nat, raw: RawHeader)
    requires WellFormed(hx, genesis, pow)
    ensures match ConnectHeader(hx, pow, raw)
            case Err(_) => true
            case Ok(hx') =>
              && WellFormed(hx', genesis, pow)
              && HashOf(raw) in hx'.byHash
              && hx.byHash.Keys + {HashOf(raw)} == hx'.byHash.Keys
              && (forall h :: h in hx.byHash ==> hx'.byHash[h] == hx.byHash[h])
  {
    hide Listed, Rooted, BestAt, ProperChild, BitsToTarget, Work;
    var r, h := ConnectHeader(hx, pow, raw), HashOf(raw);
    if r.Ok? && h !in hx.byHash {
      ConnectInserts(hx, pow, raw);
      var header := r.value.byHash[h];
      InsertKeepsRooted(hx, genesis, pow, h, header, r.value.tip);
      InsertKeepsFirstBest(hx, h, header);
    }
  }

  lemma TipIsBest(hx: HeaderIndex, h: BlockHash)
    requires Listed(hx) && FirstBest(hx) && h in hx.byHash
    ensures hx.byHash[h].work <= hx.byHash[hx.tip].work
  {
    var t :| 0 <= t < |hx.order| && hx.order[t] == hx.tip && BestAt(hx, t);
    assert h in SetOf(hx.order);
    var j :| 0 <= j < |hx.order| && hx.order[j] == h;
    assert WorkAt(hx, j) <= WorkAt(hx, t);
  }

  /** Headers arriving in any order, rejected ones dropped. */
  function ConnectMany(hx: HeaderIndex, pow: BlockHash -> nat, raws: seq<RawHeader>): HeaderIndex
    decreases raws
  {
    if raws == [] then hx
    else
      var r := ConnectHeader(hx, pow, raws[0]);
      ConnectMany(if r.Ok? then r.value else hx, pow, raws[1..])
  }

  /** Over every sequence of arrivals: heights and work are those of the path to the genesis,
      the tip has most work, and among headers of that work it arrived first. */
  lemma {:induction false} EveryRunIsWellFormed(hx: HeaderIndex, genesis: RawHeader, pow: BlockHash -> nat,
                                                raws: seq<RawHeader>)
    requires WellFormed(hx, genesis, pow)
    ensures WellFormed(ConnectMany(hx, pow, raws), genesis, pow)
    decreases raws
  {
    if raws != [] {
      ConnectKeepsWellFormed(hx, genesis, pow, raws[0]);
      var r := ConnectHeader(hx, pow, raws[0]);
      EveryRunIsWellFormed(if r.Ok? then r.value else hx, genesis, pow, raws[1..]);
    }
  }

  lemma {:induction false} StoredChain(hx: HeaderIndex, genesis: RawHeader, pow: BlockHash -> nat, h: BlockHash)
    requires Listed(hx) && Rooted(hx, genesis, pow) && h in hx.byHash
    ensures |Chain(h)| == hx.byHash[h].height + 1
    ensures Chain(h)[0] == HashOf(genesis)
    ensures forall x :: x in Chain(h) ==> x in hx.byHash
    ensures PathWork(h) == hx.byHash[h].work
    decreases h
  {
    assert h == HashOf(hx.byHash[h].raw);
    if h != HashOf(genesis) {
      assert ProperChild(hx, h, pow);
      StoredChain(hx, genesis, pow, h.header.prev);
    } else {
      assert Chain(ZeroHash) == [];
    }
  }

  /** A header that extends the tip with positive work is new and becomes the tip. */
  lemma ExtendingTheTip(hx: HeaderIndex, genesis: RawHeader, pow: BlockHash -> nat, raw: RawHeader)
    requires WellFormed(hx, genesis, pow) && raw.prev == hx.tip && Work(raw.bits) > 0
    requires pow(HashOf(raw)) <= BitsToTarget(raw.bits)
    ensures HashOf(raw) !in hx.byHash
    ensures ConnectHeader(hx, pow, raw).Ok? && ConnectHeader(hx, pow, raw).value.tip == HashOf(raw)
  {
    var h := HashOf(raw);
    if h in hx.byHash {
      StoredChain(hx, genesis, pow, h);
      StoredChain(hx, genesis, pow, hx.tip);
      TipIsBest(hx, h);
    }
  }

  // ---------- refusals ----------

  /** Which headers are refused, and why, in this order: an unknown parent, a target of zero, a hash
      above the target. A header that is known is neither refused nor connected again. */
  lemma ConnectRefuses(hx: HeaderIndex, pow: BlockHash -> nat, raw: RawHeader)
    ensures var r, h, t := ConnectHeader(hx, pow, raw), HashOf(raw), BitsToTarget(raw.bits);
            && (h in hx.byHash ==> r == Ok(hx))
            && (r == Err(MissingParent) <==> h !in hx.byHash && raw.prev !in hx.byHash)
            && (r == Err(BadTarget) <==> h !in hx.byHash && raw.prev in hx.byHash && t == 0)
            && (r == Err(PowFailed) <==> h !in hx.byHash && raw.prev in hx.byHash && 0 < t < pow(h))
            && (r.Ok? <==> h in hx.byHash || (raw.prev in hx.byHash && t > 0 && pow(h) <= t))
  {
  }

  // ---------- most work, not most blocks ----------

  const HARDER_BITS: nat := 0x1F7FFFFF

  /** A regtest header brings a work of two, one whose exponent is lower by one 512. */
  lemma WorkValues()
    ensures Work(0x207FFFFF) == 2 && Work(0x1F7FFFFF) == 512
    ensures BitsToTarget(0x207FFFFF) > 0 && BitsToTarget(0x1F7FFFFF) > 0
  {
    hide Work, BitsToTarget, Pow256;
    TargetIs(0x207FFFFF);
    TargetIs(0x1F7FFFFF);
    WorkIs(0x207FFFFF);
    WorkIs(0x1F7FFFFF);
    FourMore(28);
    WorkOver(Work(0x207FFFFF), 0x7FFFFF, Pow256(29), 0x100_0000, 2);
    WorkOver(Work(0x1F7FFFFF), 0x7FFFFF, Pow256(28), 0x1_0000_0000, 512);
  }

  lemma FourMore(n: nat)
    ensures Pow256(n + 1) == 256 * Pow256(n) && Pow256(n + 4) == 0x1_0000_0000 * Pow256(n)
  {
    PowAdds(4, n);
    PowValues();
  }

  lemma WorkOver(work: nat, m: nat, p: nat, top: nat, w: nat)
    requires p >= 1 && m >= 1 && work * (m * p + 1) <= top * p < (work + 1) * (m * p + 1)
    requires w * m + w <= top < (w + 1) * m
    ensures work == w
  {
    Scaled(w, m, p);
    Scaled(w + 1, m, p);
    Grows(p, w * m + w, top);
    Grows(p, top, (w + 1) * m);
    Split(p, w * m, w);
    Between(m * p + 1, work, w, top * p);
  }

  lemma Scaled(w: nat, m: nat, p: nat)
    ensures w * (m * p + 1) == p * (w * m) + w
  {
    assert w * (m * p) == p * (w * m);
  }

  lemma Split(p: nat, a: nat, w: nat)
    requires p >= 1
    ensures p * (a + w) >= p * a + w
  {
    assert p * w >= w;
  }

  lemma Between(d: nat, x: nat, y: nat, n: nat)
    requires d >= 1 && x * d <= n < (x + 1) * d && y * d <= n < (y + 1) * d
    ensures x == y
  {
    QuotientIs(n, d, x, n - x * d);
    QuotientIs(n, d, y, n - y * d);
  }

  /** A header on a parent. */
  function On(parent: RawHeader, bits: nat, nonce: nat): RawHeader {
    RawHeader(1, HashOf(parent), ZeroDigest, 0, bits, nonce)
  }

  const ROOT: RawHeader := RawHeader(1, ZeroHash, ZeroDigest, 0, REGTEST_BITS, 0)
  const LONG1: RawHeader := On(ROOT, REGTEST_BITS, 0)
  const LONG2: RawHeader := On(LONG1, REGTEST_BITS, 0)
  const LONG3: RawHeader := On(LONG2, REGTEST_BITS, 0)
  const HARD1: RawHeader := On(ROOT, HARDER_BITS, 0)

  /** Every hash meets every positive target. */
  const EASY: BlockHash -> nat := (h: BlockHash) => 0

  /** A header on a stored parent connects, and becomes the tip if its work is more than the tip's. */
  lemma Connects(hx: HeaderIndex, parent: RawHeader, raw: RawHeader)
    requires raw == On(parent, raw.bits, raw.nonce) && BitsToTarget(raw.bits) > 0
    requires HashOf(parent) in hx.byHash && HashOf(raw) !in hx.byHash && hx.tip in hx.byHash
    ensures var p := hx.byHash[HashOf(parent)];
            var header := Header(raw, p.height + 1, p.work + Work(raw.bits));
            ConnectHeader(hx, EASY, raw)
              == Ok(Insert(hx, HashOf(raw), header,
                           if header.work > hx.byHash[hx.tip].work then HashOf(raw) else hx.tip))
  {
    hide Work, BitsToTarget;
  }

  lemma FourConnect(hx: HeaderIndex, a: RawHeader, b: RawHeader, c: RawHeader, d: RawHeader,
                    h1: HeaderIndex, h2: HeaderIndex, h3: HeaderIndex, h4: HeaderIndex)
    requires ConnectHeader(hx, EASY, a) == Ok(h1) && ConnectHeader(h1, EASY, b) == Ok(h2)
    requires ConnectHeader(h2, EASY, c) == Ok(h3) && ConnectHeader(h3, EASY, d) == Ok(h4)
    ensures ConnectMany(hx, EASY, [a, b, c]) == h3 && ConnectMany(hx, EASY, [a, b, c, d]) == h4
  {
    hide ConnectHeader;
    assert [a, b, c][1..] == [b, c] && [b, c][1..] == [c] && [c][1..] == [];
    assert [a, b, c, d][1..] == [b, c, d] && [b, c, d][1..] == [c, d] && [c, d][1..] == [d] && [d][1..] == [];
    assert ConnectMany(h2, EASY, [c]) == h3 && ConnectMany(h3, EASY, [d]) == h4;
    assert ConnectMany(h1, EASY, [b, c]) == h3 && ConnectMany(h2, EASY, [c, d]) == h4;
    assert ConnectMany(h1, EASY, [b, c, d]) == h4;
  }

  lemma ChainsOfBoth()
    ensures |Chain(HashOf(LONG3))| == 4 && |Chain(HashOf(HARD1))| == 2
  {
    assert |Chain(HashOf(ROOT))| == 1 by { assert Chain(ZeroHash) == []; }
    assert |Chain(HashOf(LONG2))| == 3 by { assert |Chain(HashOf(LONG1))| == 2; }
  }

  /** The tip is that of most work, not of most blocks: one harder header on the first one takes
      over from a branch of three. */
  lemma HarderHeaderWins() returns (long: HeaderIndex, both: HeaderIndex)
    ensures long == ConnectMany(GenesisIndex(ROOT), EASY, [LONG1, LONG2, LONG3])
    ensures both == ConnectMany(GenesisIndex(ROOT), EASY, [LONG1, LONG2, LONG3, HARD1])
    ensures long.tip == HashOf(LONG3) && long.tip in long.byHash && long.byHash[long.tip].work == 8
    ensures both.tip == HashOf(HARD1) && both.tip in both.byHash && both.byHash[both.tip].work == 514
    ensures HashOf(LONG3) in both.byHash && |Chain(HashOf(LONG3))| == 4 && |Chain(HashOf(HARD1))| == 2
  {
    hide Work, BitsToTarget, ConnectHeader, ConnectMany, Chain;
    WorkValues();
    ChainsOfBoth();
    var start := GenesisIndex(ROOT);
    Connects(start, ROOT, LONG1);
    var h1 := ConnectHeader(start, EASY, LONG1).value;
    Connects(h1, LONG1, LONG2);
    var h2 := ConnectHeader(h1, EASY, LONG2).value;
    Connects(h2, LONG2, LONG3);
    long := ConnectHeader(h2, EASY, LONG3).value;
    Connects(long, ROOT, HARD1);
    both := ConnectHeader(long, EASY, HARD1).value;
    FourConnect(start, LONG1, LONG2, LONG3, HARD1, h1, h2, long, both);
  }

  // ---------- the store, as the program keeps it ----------

  class HeaderStore {
    const pow: BlockHash -> nat
    const genesis: RawHeader
    var byHash: map<BlockHash, Header>
    var tipHash: BlockHash
    ghost var order: seq<BlockHash>

    ghost function State(): HeaderIndex
      reads this
    {
      HeaderIndex(byHash, order, tipHash)
    }

    ghost predicate Valid()
      reads this
    {
      WellFormed(State(), genesis, pow)
    }

    constructor WithGenesis(raw: RawHeader, pow: BlockHash -> nat)
      requires raw.prev == ZeroHash
      ensures Valid() && genesis == raw && this.pow == pow
      ensures State() == GenesisIndex(raw)
    {
      this.pow := pow;
      genesis := raw;
      byHash := map[HashOf(raw) := Header(raw, 0, Work(raw.bits))];
      tipHash := HashOf(raw);
      order := [HashOf(raw)];
      new;
      GenesisIsWellFormed(raw, pow);
    }

    method ConnectRaw(raw: RawHeader) returns (r: Result<Header, HeaderError>)
      requires Valid()
      modifies this
      ensures Valid()
      ensures match ConnectHeader(old(State()), pow, raw)
              case Err(e) => r == Err(e) && State() == old(State())
              case Ok(hx) => State() == hx && r == Ok(hx.byHash[HashOf(raw)])
    {
      ghost var hx := State();
      var h := HashOf(raw);
      if h in byHash { return Ok(byHash[h]); }
      if raw.prev !in byHash { return Err(MissingParent); }
      var target := BitsToTarget(raw.bits);
      if target <= 0 { return Err(BadTarget); }
      if pow(h) > target { return Err(PowFailed); }
      var parent := byHash[raw.prev];
      var header := Header(raw, parent.height + 1, parent.work + Work(raw.bits));
      var tip := byHash[tipHash];
      byHash := byHash[h := header];
      order := order + [h];
      if header.work > tip.work { tipHash := h; }
      r := Ok(header);
      assert State() == ConnectHeader(hx, pow, raw).value;
      ConnectKeepsWellFormed(hx, genesis, pow, raw);
    }

    /** One step of a backward walk along the best chain. */
    lemma StepBack(h: BlockHash, i: nat)
      requires Valid() && i < |Chain(tipHash)| && h == Chain(tipHash)[i]
      ensures h in byHash && h.HashOf? && byHash[h].raw == h.header && byHash[h].height == i
      ensures i > 0 ==> h.header.prev in byHash && h.header.prev == Chain(tipHash)[i - 1]
    {
      StoredChain(State(), genesis, pow, tipHash);
      ChainPrefix(tipHash, i);
      StoredChain(State(), genesis, pow, h);
    }

    /** Walks back from the tip, newest first; a bound below 1 still yields the tip. */
    method ChainFromTip(n: Option<int>) returns (out: seq<Header>)
      requires Valid()
      ensures var c := Chain(tipHash);
              && |c| >= 1
              && |out| == (if n.None? || n.value >= |c| then |c| else if n.value < 1 then 1 else n.value)
              && forall i :: 0 <= i < |out| ==> c[|c| - 1 - i] in byHash && out[i] == byHash[c[|c| - 1 - i]]
    {
      hide Listed, Rooted, BestAt, Work;
      ghost var c := Chain(tipHash);
      StoredChain(State(), genesis, pow, tipHash);
      var h := tipHash;
      out := [];
      while true
        invariant h in byHash && |out| < |c| && h == c[|c| - 1 - |out|]
        invariant n.Some? && |out| > 0 ==> |out| < n.value
        invariant forall i :: 0 <= i < |out| ==> c[|c| - 1 - i] in byHash && out[i] == byHash[c[|c| - 1 - i]]
        decreases |c| - |out|
      {
        StepBack(h, |c| - 1 - |out|);
        out := out + [byHash[h]];
        if byHash[h].height == 0 || (n.Some? && |out| >= n.value) { return; }
        h := byHash[h].raw.prev;
      }
    }

    /** The header of the best chain at a height: the member of the walk with that index. */
    method HeaderAtHeight(height: int) returns (r: Option<Header>)
      requires Valid()
      ensures r == if 0 <= height < |Chain(tipHash)| && Chain(tipHash)[height] in byHash
                   then Some(byHash[Chain(tipHash)[height]]) else None
      ensures 0 <= height < |Chain(tipHash)| ==> r.Some? && r.value.height == height
    {
      ghost var c := Chain(tipHash);
      StoredChain(State(), genesis, pow, tipHash);
      if height < 0 || height > byHash[tipHash].height { return None; }
      var h := tipHash;
      ghost var i := |c| - 1;
      while byHash[h].height != height
        invariant h in byHash && height <= i < |c| && h == c[i] && byHash[h].height == i
        decreases i
      {
        StepBack(h, i);
        i := i - 1;
        h := byHash[h].raw.prev;
        StepBack(h, i);
      }
      return Some(byHash[h]);
    }
  }
}
