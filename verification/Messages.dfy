/** The wire messages: inventories, header requests and replies, version and ping. Each has a
    writer and a reader as functions, and the program's loops over a byte cursor beside them. */
module Messages {
  import opened Ledger
  import opened LittleEndian
  import opened Wire

  // ---------- lists ----------

  type Encoder<!T> = T -> Result<Bytes, WireError>
  type Decoder<T> = Bytes -> Parse<T>

  /** The elements one after the other; the first refusal decides. */
  function EncodeList<T>(encode: Encoder<T>, xs: seq<T>): Result<Bytes, WireError> {
    if xs == [] then Ok([])
    else
      var first := encode(xs[0]);
      if first.Err? then first
      else
        var others := EncodeList(encode, xs[1..]);
        if others.Err? then others else Ok(first.value + others.value)
  }

  /** A given number of elements off the front. */
  function DecodeList<T>(decode: Decoder<T>, s: Bytes, n: nat): Parse<seq<T>>
    decreases n
  {
    if n == 0 then Parsed([], s)
    else
      var (x, rest) :- decode(s);
      var (xs, rest') :- DecodeList(decode, rest, n - 1);
      Parsed([x] + xs, rest')
  }

  ghost predicate Inverse<T(!new)>(encode: Encoder<T>, decode: Decoder<T>) {
    forall x, rest :: encode(x).Ok? ==> decode(encode(x).value + rest) == Parsed(x, rest)
  }

  lemma {:induction false} ListRoundTrip<T(!new)>(encode: Encoder<T>, decode: Decoder<T>, xs: seq<T>, rest: Bytes)
    requires Inverse(encode, decode) && EncodeList(encode, xs).Ok?
    ensures DecodeList(decode, EncodeList(encode, xs).value + rest, |xs|) == Parsed(xs, rest)
    decreases xs
  {
    if xs == [] {
      assert [] + rest == rest;
    } else {
      var first, others := encode(xs[0]).value, EncodeList(encode, xs[1..]).value;
      assert (first + others) + rest == first + (others + rest);
      ListRoundTrip(encode, decode, xs[1..], rest);
      assert [xs[0]] + xs[1..] == xs;
    }
  }

  lemma {:induction false} ListEncodes<T>(encode: Encoder<T>, xs: seq<T>)
    ensures EncodeList(encode, xs).Ok? <==> forall i :: 0 <= i < |xs| ==> encode(xs[i]).Ok?
    decreases xs
  {
    if xs != [] {
      ListEncodes(encode, xs[1..]);
      assert forall i :: 1 <= i < |xs| ==> xs[i] == xs[1..][i - 1];
    }
  }

  /** The first element that is refused decides. */
  lemma {:induction false} ListRefuses<T>(encode: Encoder<T>, xs: seq<T>, j: nat)
    requires j < |xs| && encode(xs[j]).Err? && forall i :: 0 <= i < j ==> encode(xs[i]).Ok?
    ensures EncodeList(encode, xs) == encode(xs[j])
    decreases xs
  {
    if j > 0 {
      assert forall i :: 0 <= i < j - 1 ==> xs[1..][i] == xs[i + 1];
      ListRefuses(encode, xs[1..], j - 1);
    }
  }

  /** Elements of the same width stand at the multiples of it. */
  lemma {:induction false} ListAt<T>(encode: Encoder<T>, xs: seq<T>, w: nat, i: nat)
    requires EncodeList(encode, xs).Ok? && i < |xs|
    requires forall j :: 0 <= j < |xs| ==> encode(xs[j]).Ok? && |encode(xs[j]).value| == w
    ensures var s := EncodeList(encode, xs).value;
            && |s| == w * |xs| && 0 <= w * i && w * i + w <= |s|
            && s[w * i..w * i + w] == encode(xs[i]).value
    decreases xs
  {
    ListLength(encode, xs, w);
    var first, rest := encode(xs[0]).value, EncodeList(encode, xs[1..]).value;
    ListLength(encode, xs[1..], w);
    if i == 0 {
      Products(w, 0, |xs|);
    } else {
      assert forall j :: 0 <= j < |xs| - 1 ==> xs[1..][j] == xs[j + 1];
      ListAt(encode, xs[1..], w, i - 1);
      Products(w, i, |xs|);
      assert (first + rest)[w + w * (i - 1)..w + w * (i - 1) + w] == rest[w * (i - 1)..w * (i - 1) + w];
    }
  }

  lemma Products(w: nat, i: nat, n: nat)
    requires i < n
    ensures 0 <= w * i && w * i + w <= w * n && (i > 0 ==> w * i == w + w * (i - 1))
  {
    assert w * n == w * i + w + w * (n - i - 1);
  }

  lemma {:induction false} ListLength<T>(encode: Encoder<T>, xs: seq<T>, w: nat)
    requires EncodeList(encode, xs).Ok?
    requires forall j :: 0 <= j < |xs| ==> encode(xs[j]).Ok? && |encode(xs[j]).value| == w
    ensures |EncodeList(encode, xs).value| == w * |xs|
    decreases xs
  {
    if xs == [] {
      assert w * 0 == 0;
    } else {
      assert forall j :: 0 <= j < |xs| - 1 ==> xs[1..][j] == xs[j + 1];
      ListLength(encode, xs[1..], w);
      assert w * |xs| == w + w * (|xs| - 1);
    }
  }

  /** A count and then the elements. */
  function EncodeCounted<T>(encode: Encoder<T>, xs: seq<T>): Result<Bytes, WireError> {
    var n := EncodeVarint(|xs|);
    if n.Err? then n
    else
      var body := EncodeList(encode, xs);
      if body.Err? then body else Ok(n.value + body.value)
  }

  /** The bytes of a counted list: the count, then each element of width `w` in its place. */
  lemma CountedAt<T>(encode: Encoder<T>, xs: seq<T>, w: nat, i: nat)
    requires EncodeCounted(encode, xs).Ok? && i < |xs|
    requires forall j :: 0 <= j < |xs| ==> encode(xs[j]).Ok? && |encode(xs[j]).value| == w
    ensures EncodeVarint(|xs|).Ok?
    ensures var s, n := EncodeCounted(encode, xs).value, EncodeVarint(|xs|).value;
            && n <= s && |s| == |n| + w * |xs| && 0 <= w * i && |n| + w * i + w <= |s|
            && s[|n| + w * i..|n| + w * i + w] == encode(xs[i]).value
  {
    ListAt(encode, xs, w, i);
    var n, body := EncodeVarint(|xs|).value, EncodeList(encode, xs).value;
    assert (n + body)[|n| + w * i..|n| + w * i + w] == body[w * i..w * i + w];
  }

  /** What counted lists refuse: a count that does not fit, then the first bad element. */
  lemma CountedRefuses<T>(encode: Encoder<T>, xs: seq<T>, j: nat)
    requires |xs| < 0x1_0000_0000_0000_0000
    requires j < |xs| && encode(xs[j]).Err? && forall i :: 0 <= i < j ==> encode(xs[i]).Ok?
    ensures EncodeCounted(encode, xs) == encode(xs[j])
  {
    VarintRoundTrip(|xs|, []);
    ListRefuses(encode, xs, j);
  }

  function DecodeCounted<T>(decode: Decoder<T>, s: Bytes): Parse<seq<T>> {
    var (n, rest) :- ReadVarint(s);
    DecodeList(decode, rest, n)
  }

  lemma CountedRoundTrip<T(!new)>(encode: Encoder<T>, decode: Decoder<T>, xs: seq<T>, rest: Bytes)
    requires Inverse(encode, decode) && EncodeCounted(encode, xs).Ok?
    ensures DecodeCounted(decode, EncodeCounted(encode, xs).value + rest) == Parsed(xs, rest)
  {
    var n, body := EncodeVarint(|xs|).value, EncodeList(encode, xs).value;
    assert (n + body) + rest == n + (body + rest);
    VarintRoundTrip(|xs|, body + rest);
    ListRoundTrip(encode, decode, xs, rest);
  }

  // ---------- fields ----------

  function Unsigned(n: int, k: nat): Result<Bytes, WireError> {
    if 0 <= n < Pow256(k) then Ok(Le(n, k)) else Err(Overflow)
  }

  function Signed(n: int, k: nat): Result<Bytes, WireError> {
    if FitsSigned(n, k) then Ok(LeSigned(n, k)) else Err(Overflow)
  }

  function ReadUnsigned(s: Bytes, k: nat): Parse<int> {
    Parsed(FromLe(Take(s, k)), Drop(s, k))
  }

  function ReadSigned(s: Bytes, k: nat): Parse<int> {
    Parsed(FromLeSigned(Take(s, k)), Drop(s, k))
  }

  lemma UnsignedRoundTrip(n: int, k: nat, rest: Bytes)
    requires Unsigned(n, k).Ok?
    ensures ReadUnsigned(Unsigned(n, k).value + rest, k) == Parsed(n, rest)
  {
    FromLeLe(n, k);
    TakeAppend(Le(n, k), rest);
  }

  lemma SignedFieldRoundTrip(n: int, k: nat, rest: Bytes)
    requires k >= 1 && Signed(n, k).Ok?
    ensures ReadSigned(Signed(n, k).value + rest, k) == Parsed(n, rest)
  {
    SignedRoundTrip(n, k);
    TakeAppend(LeSigned(n, k), rest);
  }

  /** A field is read from its own bytes, or from those that are there if the data ends before. */
  lemma FieldsRead(s: Bytes, k: nat)
    ensures |s| >= k ==>
              && ReadUnsigned(s, k) == Parsed(FromLe(s[..k]), s[k..])
              && ReadSigned(s, k) == Parsed(FromLeSigned(s[..k]), s[k..])
    ensures |s| < k ==> ReadUnsigned(s, k) == Parsed(FromLe(s), []) && ReadSigned(s, k) == Parsed(FromLeSigned(s), [])
  {
  }

  /** Exactly `n` bytes, or a refusal. */
  function Exactly(s: Bytes, n: nat, why: WireError): Parse<Bytes> {
    if |Take(s, n)| != n then Failed(why) else Parsed(Take(s, n), Drop(s, n))
  }

  // ---------- inventories ----------

  datatype InvVector = InvVector(kind: int, hash: Bytes)

  function EncodeInvVector(v: InvVector): Result<Bytes, WireError> {
    if |v.hash| != 32 then Err(BadHashLength)
    else
      var kind := Unsigned(v.kind, 4);
      if kind.Err? then kind else Ok(kind.value + v.hash)
  }

  function DecodeInvVector(s: Bytes): Parse<InvVector> {
    var (kind, rest) :- ReadUnsigned(s, 4);
    var (hash, rest') :- Exactly(rest, 32, ShortHash);
    Parsed(InvVector(kind, hash), rest')
  }

  function EncodeInv(vs: seq<InvVector>): Result<Bytes, WireError> {
    EncodeCounted(EncodeInvVector, vs)
  }

  function DecodeInv(s: Bytes): Parse<seq<InvVector>> {
    DecodeCounted(DecodeInvVector, s)
  }

  lemma InvVectorRoundTrip()
    ensures Inverse(EncodeInvVector, DecodeInvVector)
  {
    forall v: InvVector, rest | EncodeInvVector(v).Ok?
      ensures DecodeInvVector(EncodeInvVector(v).value + rest) == Parsed(v, rest)
    {
      var kind := Unsigned(v.kind, 4).value;
      assert (kind + v.hash) + rest == kind + (v.hash + rest);
      UnsignedRoundTrip(v.kind, 4, v.hash + rest);
      TakeAppend(v.hash, rest);
    }
  }

  /** An inventory is written exactly when every entry has a 32-byte hash and a 4-byte kind, and
      is then read back, whatever follows. */
  lemma InvRoundTrip(vs: seq<InvVector>, rest: Bytes)
    requires |vs| < 0x1_0000_0000_0000_0000
    ensures EncodeInv(vs).Ok?
       <==> forall i :: 0 <= i < |vs| ==> |vs[i].hash| == 32 && 0 <= vs[i].kind < 0x1_0000_0000
    ensures EncodeInv(vs).Ok? ==> DecodeInv(EncodeInv(vs).value + rest) == Parsed(vs, rest)
  {
    PowValues();
    VarintRoundTrip(|vs|, []);
    ListEncodes(EncodeInvVector, vs);
    assert forall i :: 0 <= i < |vs| ==>
        (EncodeInvVector(vs[i]).Ok? <==> |vs[i].hash| == 32 && 0 <= vs[i].kind < 0x1_0000_0000);
    if EncodeInv(vs).Ok? {
      InvVectorRoundTrip();
      CountedRoundTrip(EncodeInvVector, DecodeInvVector, vs, rest);
    }
  }

  /** The bytes of an inventory: the count, and entry `i` 36 bytes further on for each one before it,
      its kind in four digits with the lowest first and then its hash. */
  lemma InvBytes(vs: seq<InvVector>, i: nat, b: nat)
    requires EncodeInv(vs).Ok? && |vs| < 0x1_0000_0000_0000_0000 && i < |vs| && b < 4
    ensures EncodeVarint(|vs|).Ok? && vs[i].kind >= 0
    ensures var s, n := EncodeInv(vs).value, |EncodeVarint(|vs|).value|;
            && EncodeVarint(|vs|).value <= s && |s| == n + 36 * |vs|
            && s[n + 36 * i + b] as int == vs[i].kind / Pow256(b) % 256
            && s[n + 36 * i + 4..n + 36 * i + 36] == vs[i].hash
  {
    hide Pow256, EncodeVarint, EncodeCounted, DecodeCounted, Le;
    InvRoundTrip(vs, []);
    PowValues();
    assert forall j :: 0 <= j < |vs| ==> EncodeInvVector(vs[j]).Ok? && |EncodeInvVector(vs[j]).value| == 36;
    CountedAt(EncodeInvVector, vs, 36, i);
    var kind, at := Le(vs[i].kind, 4), |EncodeVarint(|vs|).value| + 36 * i;
    TwoPieces(EncodeInv(vs).value, at, kind, vs[i].hash);
    assert EncodeInv(vs).value[at + b] == kind[b];
    LeAt(vs[i].kind, 4, b);
  }

  /** What is refused of an entry: a hash of another length, then a kind of more than four bytes. */
  lemma InvVectorRefuses(v: InvVector, s: Bytes)
    ensures EncodeInvVector(v) == Err(BadHashLength) <==> |v.hash| != 32
    ensures EncodeInvVector(v) == Err(Overflow) <==> |v.hash| == 32 && !(0 <= v.kind < 0x1_0000_0000)
    ensures DecodeInvVector(s) == if |s| < 36 then Failed(ShortHash)
              else Parsed(InvVector(FromLe(s[..4]), s[4..36]), s[36..])
  {
    PowValues();
    hide Pow256;
    assert |s| >= 36 ==> s[4..][..32] == s[4..36] && s[4..][32..] == s[36..];
  }

  // ---------- header requests ----------

  datatype GetHeaders = GetHeaders(version: int, locator: seq<Bytes>, hashStop: Bytes)

  function EncodeHash(h: Bytes): Result<Bytes, WireError> {
    if |h| != 32 then Err(BadHashLength) else Ok(h)
  }

  function DecodeHash(s: Bytes): Parse<Bytes> {
    Exactly(s, 32, ShortHash)
  }

  lemma HashRoundTrip()
    ensures Inverse(EncodeHash, DecodeHash)
  {
    forall h: Bytes, rest | EncodeHash(h).Ok? ensures DecodeHash(EncodeHash(h).value + rest) == Parsed(h, rest) {
      TakeAppend(h, rest);
    }
  }

  function EncodeGetHeaders(m: GetHeaders): Result<Bytes, WireError> {
    var version := Unsigned(m.version, 4);
    if version.Err? then version
    else
      var locator := EncodeCounted(EncodeHash, m.locator);
      if locator.Err? then locator
      else if |m.hashStop| != 32 then Err(BadHashLength)
      else Ok(version.value + locator.value + m.hashStop)
  }

  function DecodeGetHeaders(s: Bytes): Parse<GetHeaders> {
    var (version, rest) :- ReadUnsigned(s, 4);
    var (locator, rest') :- DecodeCounted(DecodeHash, rest);
    var (hashStop, rest'') :- Exactly(rest', 32, ShortHash);
    Parsed(GetHeaders(version, locator, hashStop), rest'')
  }

  lemma GetHeadersRoundTrip(m: GetHeaders, rest: Bytes)
    requires |m.locator| < 0x1_0000_0000_0000_0000
    ensures EncodeGetHeaders(m).Ok?
       <==> && 0 <= m.version < 0x1_0000_0000 && |m.hashStop| == 32
            && forall i :: 0 <= i < |m.locator| ==> |m.locator[i]| == 32
    ensures EncodeGetHeaders(m).Ok? ==> DecodeGetHeaders(EncodeGetHeaders(m).value + rest) == Parsed(m, rest)
  {
    PowValues();
    VarintRoundTrip(|m.locator|, []);
    ListEncodes(EncodeHash, m.locator);
    assert forall i :: 0 <= i < |m.locator| ==> (EncodeHash(m.locator[i]).Ok? <==> |m.locator[i]| == 32);
    if EncodeGetHeaders(m).Ok? {
      var version, locator := Unsigned(m.version, 4).value, EncodeCounted(EncodeHash, m.locator).value;
      assert (version + locator + m.hashStop) + rest == version + (locator + (m.hashStop + rest));
      UnsignedRoundTrip(m.version, 4, locator + (m.hashStop + rest));
      HashRoundTrip();
      CountedRoundTrip(EncodeHash, DecodeHash, m.locator, m.hashStop + rest);
      TakeAppend(m.hashStop, rest);
    }
  }

  /** The bytes of a header request: the version in four digits with the lowest first, the count,
      the locator's hashes one after the other, the hash to stop at. */
  lemma GetHeadersBytes(m: GetHeaders, i: nat)
    requires EncodeGetHeaders(m).Ok? && |m.locator| < 0x1_0000_0000_0000_0000 && i <= |m.locator|
    ensures EncodeVarint(|m.locator|).Ok? && m.version >= 0
    ensures var s, n := EncodeGetHeaders(m).value, EncodeVarint(|m.locator|).value;
            && |s| == 4 + |n| + 32 * |m.locator| + 32
            && s[..4] == Le(m.version, 4) && s[4..4 + |n|] == n
            && (i < |m.locator| ==> s[4 + |n| + 32 * i..4 + |n| + 32 * i + 32] == m.locator[i])
            && s[|s| - 32..] == m.hashStop
  {
    hide Pow256, EncodeVarint, Le;
    GetHeadersRoundTrip(m, []);
    ListEncodes(EncodeHash, m.locator);
    var n, list := EncodeVarint(|m.locator|).value, EncodeList(EncodeHash, m.locator).value;
    ListLength(EncodeHash, m.locator, 32);
    FourParts(Le(m.version, 4), n, list, m.hashStop);
    if i < |m.locator| {
      ListAt(EncodeHash, m.locator, 32, i);
      InThird(Le(m.version, 4), n, list, m.hashStop, 32 * i);
    }
  }

  lemma FourParts(a: Bytes, b: Bytes, c: Bytes, d: Bytes)
    requires |a| == 4
    ensures var s := a + (b + c) + d;
            s[..4] == a && s[4..4 + |b|] == b && s[|s| - |d|..] == d && |s| == 4 + |b| + |c| + |d|
  {
  }

  lemma InThird(a: Bytes, b: Bytes, c: Bytes, d: Bytes, at: nat)
    requires |a| == 4 && at + 32 <= |c|
    ensures var s := a + (b + c) + d;
            4 + |b| + at + 32 <= |s| && s[4 + |b| + at..4 + |b| + at + 32] == c[at..at + 32]
  {
  }

  /** What is refused of a request: a version of more than four bytes, then the first locator hash
      of another length than 32, then such a hash to stop at. */
  lemma GetHeadersRefuses(m: GetHeaders, s: Bytes)
    requires |m.locator| < 0x1_0000_0000_0000_0000
    ensures EncodeGetHeaders(m) == Err(Overflow) <==> !(0 <= m.version < 0x1_0000_0000)
    ensures EncodeGetHeaders(m).Err? && 0 <= m.version < 0x1_0000_0000 ==> EncodeGetHeaders(m) == Err(BadHashLength)
    ensures DecodeHash(s) == if |s| < 32 then Failed(ShortHash) else Parsed(s[..32], s[32..])
  {
    PowValues();
    hide Pow256;
    VarintRoundTrip(|m.locator|, []);
    NeverOverflows(m.locator);
  }

  lemma {:induction false} NeverOverflows(hashes: seq<Bytes>)
    ensures EncodeList(EncodeHash, hashes).Err? ==> EncodeList(EncodeHash, hashes) == Err(BadHashLength)
    decreases hashes
  {
    if hashes != [] { NeverOverflows(hashes[1..]); }
  }

  // ---------- headers ----------

  function EncodeHeader(h: Bytes): Result<Bytes, WireError> {
    if |h| != 80 then Err(BadHeaderLength) else Ok(h + [0])
  }

  /** Eighty bytes and a transaction count, which is read and ignored. */
  function DecodeHeader(s: Bytes): Parse<Bytes> {
    var (h, rest) :- Exactly(s, 80, ShortHeader);
    var (count, rest') :- ReadVarint(rest);
    Parsed(h, rest')
  }

  lemma HeaderParses(h: Bytes, rest: Bytes)
    requires |h| == 80
    ensures DecodeHeader(h + [0] + rest) == Parsed(h, rest)
  {
    var zero: Bytes := [0];
    assert h + zero + rest == h + (zero + rest);
    TakeAppend(h, zero + rest);
    assert ReadVarint(zero + rest) == Parsed(0, rest) by { assert (zero + rest)[1..] == rest; }
    hide ReadVarint, Take, Drop;
  }

  lemma HeaderRoundTrip()
    ensures Inverse(EncodeHeader, DecodeHeader)
  {
    hide DecodeHeader;
    forall h: Bytes, rest | EncodeHeader(h).Ok? ensures DecodeHeader(EncodeHeader(h).value + rest) == Parsed(h, rest) {
      HeaderParses(h, rest);
    }
  }

  function EncodeHeaders(hs: seq<Bytes>): Result<Bytes, WireError> {
    EncodeCounted(EncodeHeader, hs)
  }

  function DecodeHeaders(s: Bytes): Parse<seq<Bytes>> {
    DecodeCounted(DecodeHeader, s)
  }

  lemma HeadersRoundTrip(hs: seq<Bytes>, rest: Bytes)
    requires |hs| < 0x1_0000_0000_0000_0000
    ensures EncodeHeaders(hs).Ok? <==> forall i :: 0 <= i < |hs| ==> |hs[i]| == 80
    ensures EncodeHeaders(hs).Ok? ==> DecodeHeaders(EncodeHeaders(hs).value + rest) == Parsed(hs, rest)
  {
    VarintRoundTrip(|hs|, []);
    ListEncodes(EncodeHeader, hs);
    assert forall i :: 0 <= i < |hs| ==> (EncodeHeader(hs[i]).Ok? <==> |hs[i]| == 80);
    if EncodeHeaders(hs).Ok? {
      HeaderRoundTrip();
      CountedRoundTrip(EncodeHeader, DecodeHeader, hs, rest);
    }
  }

  /** The bytes of a header list: the count, then each header's 80 bytes and a zero. */
  lemma HeadersBytes(hs: seq<Bytes>, i: nat)
    requires EncodeHeaders(hs).Ok? && |hs| < 0x1_0000_0000_0000_0000 && i < |hs|
    ensures EncodeVarint(|hs|).Ok?
    ensures var s, n := EncodeHeaders(hs).value, |EncodeVarint(|hs|).value|;
            && EncodeVarint(|hs|).value <= s && |s| == n + 81 * |hs|
            && s[n + 81 * i..n + 81 * i + 80] == hs[i] && s[n + 81 * i + 80] == 0
  {
    hide EncodeVarint, EncodeCounted, DecodeCounted;
    HeadersRoundTrip(hs, []);
    assert forall j :: 0 <= j < |hs| ==> EncodeHeader(hs[j]) == Ok(hs[j] + [0]);
    CountedAt(EncodeHeader, hs, 81, i);
    TwoPieces(EncodeHeaders(hs).value, |EncodeVarint(|hs|).value| + 81 * i, hs[i], [0]);
  }

  /** Two pieces that stand together at a place. */
  lemma TwoPieces(s: Bytes, at: nat, a: Bytes, b: Bytes)
    requires at + |a| + |b| <= |s| && s[at..at + |a| + |b|] == a + b
    ensures s[at..at + |a|] == a && s[at + |a|..at + |a| + |b|] == b
    ensures forall i :: 0 <= i < |a| ==> s[at + i] == a[i]
    ensures b != [] ==> s[at + |a|] == b[0]
  {
    var w := s[at..at + |a| + |b|];
    assert w[..|a|] == s[at..at + |a|] && w[|a|..] == s[at + |a|..at + |a| + |b|];
    assert forall i :: 0 <= i < |a| ==> w[i] == s[at + i];
    assert b != [] ==> w[|a|] == s[at + |a|];
  }

  /** What is refused of a header: another length than 80, and on reading fewer bytes or a bad count. */
  lemma HeaderRefuses(h: Bytes, s: Bytes)
    ensures EncodeHeader(h) == Err(BadHeaderLength) <==> |h| != 80
    ensures |s| < 80 ==> DecodeHeader(s) == Failed(ShortHeader)
    ensures |s| >= 80 ==> DecodeHeader(s) == match ReadVarint(s[80..])
                                             case Failed(e) => Failed(e)
                                             case Parsed(_, rest) => Parsed(s[..80], rest)
  {
  }

  // ---------- version ----------

  datatype NetAddr = NetAddr(services: int, ip: Bytes, port: int)

  /** Addresses are cut or padded to sixteen bytes on the wire. */
  function SixteenBytes(ip: Bytes): Bytes {
    (ip + Zeros(16))[..16]
  }

  function EncodeAddr(a: NetAddr): Result<Bytes, WireError> {
    var services := Unsigned(a.services, 8);
    if services.Err? then services
    else if !(0 <= a.port < 0x1_0000) then Err(Overflow)
    else Ok(services.value + SixteenBytes(a.ip) + Be2(a.port))
  }

  function DecodeAddr(s: Bytes): Parse<NetAddr> {
    var (services, rest) :- ReadUnsigned(s, 8);
    var (ip, rest') :- Exactly(rest, 16, ShortAddress);
    Parsed(NetAddr(services, ip, FromBe(Take(rest', 2))), Drop(rest', 2))
  }

  lemma AddrRoundTrip(a: NetAddr, rest: Bytes)
    requires EncodeAddr(a).Ok?
    ensures DecodeAddr(EncodeAddr(a).value + rest) == Parsed(a.(ip := SixteenBytes(a.ip)), rest)
  {
    hide Unsigned, ReadUnsigned, Be2, FromBe;
    var services, ip, port := Unsigned(a.services, 8).value, SixteenBytes(a.ip), Be2(a.port);
    assert (services + ip + port) + rest == services + (ip + (port + rest));
    UnsignedRoundTrip(a.services, 8, ip + (port + rest));
    TakeAppend(ip, port + rest);
    TakeAppend(port, rest);
    FromBeBe2(a.port);
  }

  /** The 26 bytes of an address: services in eight digits with the lowest first, the address cut or
      padded with zeros to sixteen bytes, the port with the higher byte first. */
  lemma AddrBytes(a: NetAddr, i: nat)
    requires EncodeAddr(a).Ok? && i < 16
    ensures a.services >= 0
    ensures var s := EncodeAddr(a).value;
            && |s| == 26 && (i < 8 ==> s[i] as int == a.services / Pow256(i) % 256)
            && s[8 + i] == (if i < |a.ip| then a.ip[i] else 0)
            && s[24] as int * 256 + s[25] as int == a.port
  {
    hide Pow256;
    if i < 8 { LeAt(a.services, 8, i); }
    Be2Is(a.port, 0, 0);
  }

  /** Which data is read as an address: at least 24 bytes; a port that is cut short is read as it is. */
  lemma AddrReads(s: Bytes)
    ensures DecodeAddr(s)
         == if |s| < 24 then Failed(ShortAddress)
            else Parsed(NetAddr(FromLe(s[..8]), s[8..24], FromBe(Take(s[24..], 2))), Drop(s, 26))
  {
    assert |s| >= 24 ==> s[8..][..16] == s[8..24] && s[8..][16..] == s[24..];
    assert |s| >= 24 ==> Drop(s[24..], 2) == Drop(s, 26);
  }

  datatype Version = Version(version: int, services: int, timestamp: int, receiver: NetAddr, sender: NetAddr,
                             nonce: int, userAgent: Bytes, startHeight: int, relay: bool)

  predicate AddrFits(a: NetAddr) {
    0 <= a.services < Pow256(8) && 0 <= a.port < 0x1_0000
  }

  predicate VersionFits(m: Version) {
    && FitsSigned(m.version, 4) && 0 <= m.services < Pow256(8) && FitsSigned(m.timestamp, 8)
    && AddrFits(m.receiver) && AddrFits(m.sender) && 0 <= m.nonce < Pow256(8)
    && |m.userAgent| < 0x1_0000_0000_0000_0000 && FitsSigned(m.startHeight, 4)
  }

  function VersionTail(m: Version, relay: Bytes): Bytes
    requires VersionFits(m)
  {
    Le(m.nonce, 8) + (EncodeVarBytes(m.userAgent).value + (LeSigned(m.startHeight, 4) + relay))
  }

  /** The message up to the relay flag, and then anything. */
  function VersionBytes(m: Version, relay: Bytes): Bytes
    requires VersionFits(m)
  {
    LeSigned(m.version, 4) + (Le(m.services, 8) + (LeSigned(m.timestamp, 8)
      + (EncodeAddr(m.receiver).value + (EncodeAddr(m.sender).value + VersionTail(m, relay)))))
  }

  /** Every refusal of this writer is the same overflow. */
  function EncodeVersion(m: Version): Result<Bytes, WireError> {
    if VersionFits(m) then Ok(VersionBytes(m, [if m.relay then 1 else 0])) else Err(Overflow)
  }

  function DecodeVersion(s: Bytes): Parse<Version> {
    var (version, r1) :- ReadSigned(s, 4);
    var (services, r2) :- ReadUnsigned(r1, 8);
    var (timestamp, r3) :- ReadSigned(r2, 8);
    var (receiver, r4) :- DecodeAddr(r3);
    var (sender, r5) :- DecodeAddr(r4);
    DecodeVersionEnd(Version(version, services, timestamp, receiver, sender, 0, [], 0, false), r5)
  }

  /** The fields after the addresses. */
  function DecodeVersionEnd(m: Version, s: Bytes): Parse<Version> {
    var (nonce, r6) :- ReadUnsigned(s, 8);
    var (userAgent, r7) :- ReadVarBytes(r6, MAX_MESSAGE_SIZE);
    var (startHeight, r8) :- ReadSigned(r7, 4);
    var flag := Take(r8, 1);
    Parsed(m.(nonce := nonce, userAgent := userAgent, startHeight := startHeight, relay := flag != [] && flag[0] != 0),
           Drop(r8, 1))
  }

  /** What the reader makes of a message: its addresses in sixteen bytes. */
  function Normal(m: Version): Version {
    m.(receiver := m.receiver.(ip := SixteenBytes(m.receiver.ip)), sender := m.sender.(ip := SixteenBytes(m.sender.ip)))
  }

  lemma VersionTailParses(m: Version, head: Version, relay: Bytes)
    requires VersionFits(m)
    ensures DecodeVersionEnd(head, VersionTail(m, relay))
         == if |m.userAgent| > MAX_MESSAGE_SIZE then Failed(AboveCap)
            else Parsed(head.(nonce := m.nonce, userAgent := m.userAgent, startHeight := m.startHeight,
                              relay := relay != [] && relay[0] != 0), Drop(relay, 1))
  {
    UnsignedRoundTrip(m.nonce, 8, EncodeVarBytes(m.userAgent).value + (LeSigned(m.startHeight, 4) + relay));
    VarBytesRoundTrip(m.userAgent, MAX_MESSAGE_SIZE, LeSigned(m.startHeight, 4) + relay);
    SignedFieldRoundTrip(m.startHeight, 4, relay);
    hide ReadSigned, ReadUnsigned, ReadVarBytes;
  }

  lemma VersionParses(m: Version, relay: Bytes)
    requires VersionFits(m)
    ensures DecodeVersion(VersionBytes(m, relay))
         == if |m.userAgent| > MAX_MESSAGE_SIZE then Failed(AboveCap)
            else Parsed(Normal(m).(relay := relay != [] && relay[0] != 0), Drop(relay, 1))
  {
    assert EncodeAddr(m.receiver).Ok? && EncodeAddr(m.sender).Ok?;
    assert Unsigned(m.services, 8) == Ok(Le(m.services, 8));
    hide ReadSigned, ReadUnsigned, DecodeAddr, DecodeVersionEnd, EncodeAddr, VersionTail, Le, LeSigned, Pow256, Drop;
    var n, tail := Normal(m), VersionTail(m, relay);
    var b5 := EncodeAddr(m.sender).value + tail;
    var b4 := EncodeAddr(m.receiver).value + b5;
    var b3 := LeSigned(m.timestamp, 8) + b4;
    var b2 := Le(m.services, 8) + b3;
    SignedFieldRoundTrip(m.version, 4, b2);
    UnsignedRoundTrip(m.services, 8, b3);
    SignedFieldRoundTrip(m.timestamp, 8, b4);
    AddrRoundTrip(m.receiver, b5);
    AddrRoundTrip(m.sender, tail);
    VersionTailParses(m, Version(m.version, m.services, m.timestamp, n.receiver, n.sender, 0, [], 0, false), relay);
  }

  /** A version message that can be written is read back as itself exactly when both addresses
      have sixteen bytes and the user agent is within the reader's cap; the relay flag may also be
      missing at the end, and then reads as unset. */
  lemma VersionRoundTrip(m: Version, rest: Bytes)
    ensures EncodeVersion(m).Ok? <==> VersionFits(m)
    ensures EncodeVersion(m).Ok? ==>
              (DecodeVersion(EncodeVersion(m).value + rest) == Parsed(m, rest)
               <==> |m.receiver.ip| == 16 && |m.sender.ip| == 16 && |m.userAgent| <= MAX_MESSAGE_SIZE)
    ensures EncodeVersion(m).Ok? && |m.receiver.ip| == 16 && |m.sender.ip| == 16
            && |m.userAgent| <= MAX_MESSAGE_SIZE ==>
              DecodeVersion(EncodeVersion(m).value[..|EncodeVersion(m).value| - 1]) == Parsed(m.(relay := false), [])
  {
    hide VersionBytes, DecodeVersion, SixteenBytes, VersionFits;
    if VersionFits(m) {
      var flag := [if m.relay then 1 else 0];
      VersionIsBytes(m, flag, rest);
      VersionParses(m, flag + rest);
      VersionParses(m, []);
      assert Drop(flag + rest, 1) == rest;
      SixteenIsSame(m.receiver.ip);
      SixteenIsSame(m.sender.ip);
    }
  }

  lemma SixteenIsSame(ip: Bytes)
    ensures SixteenBytes(ip) == ip <==> |ip| == 16
  {
  }

  lemma VersionIsBytes(m: Version, flag: Bytes, rest: Bytes)
    requires VersionFits(m) && |flag| == 1
    ensures VersionBytes(m, flag) + rest == VersionBytes(m, flag + rest)
    ensures VersionBytes(m, flag)[..|VersionBytes(m, flag)| - 1] == VersionBytes(m, [])
  {
    var a, b, c, d, e := LeSigned(m.version, 4), Le(m.services, 8), LeSigned(m.timestamp, 8),
        EncodeAddr(m.receiver).value, EncodeAddr(m.sender).value;
    var f, g, h := Le(m.nonce, 8), EncodeVarBytes(m.userAgent).value, LeSigned(m.startHeight, 4);
    EightParts(a, b, c, d, e, f, g, h, flag, rest);
  }

  lemma EightParts(a: Bytes, b: Bytes, c: Bytes, d: Bytes, e: Bytes, f: Bytes, g: Bytes, h: Bytes, flag: Bytes,
                   rest: Bytes)
    requires |flag| == 1
    ensures var whole := a + (b + (c + (d + (e + (f + (g + (h + flag)))))));
            && whole + rest == a + (b + (c + (d + (e + (f + (g + (h + (flag + rest))))))))
            && whole[..|whole| - 1] == a + (b + (c + (d + (e + (f + (g + (h + [])))))))
  {
    var front := a + b + c + d + e + f + g + h;
    assert a + (b + (c + (d + (e + (f + (g + (h + flag))))))) == front + flag;
    assert a + (b + (c + (d + (e + (f + (g + (h + (flag + rest)))))))) == front + flag + rest;
    assert a + (b + (c + (d + (e + (f + (g + (h + []))))))) == front;
  }

  /** The bytes of a version message: version, services and time in 4, 8 and 8 bytes, the two
      addresses, the nonce in 8, the counted user agent, the height in 4, and a flag of one byte. */
  lemma VersionLayout(m: Version)
    requires EncodeVersion(m).Ok?
    ensures VersionFits(m) && EncodeAddr(m.receiver).Ok? && EncodeAddr(m.sender).Ok?
    ensures EncodeVarBytes(m.userAgent).Ok? && EncodeVarint(|m.userAgent|).Ok?
    ensures var s, agent := EncodeVersion(m).value, EncodeVarint(|m.userAgent|).value + m.userAgent;
            && |s| == 85 + |agent|
            && s[..4] == LeSigned(m.version, 4) && s[4..12] == Le(m.services, 8)
            && s[12..20] == LeSigned(m.timestamp, 8)
            && s[20..46] == EncodeAddr(m.receiver).value && s[46..72] == EncodeAddr(m.sender).value
            && s[72..80] == Le(m.nonce, 8) && s[80..80 + |agent|] == agent
            && s[80 + |agent|..84 + |agent|] == LeSigned(m.startHeight, 4)
            && s[84 + |agent|] == if m.relay then 1 else 0
  {
    VarintRoundTrip(|m.userAgent|, []);
    NineParts(LeSigned(m.version, 4), Le(m.services, 8), LeSigned(m.timestamp, 8), EncodeAddr(m.receiver).value,
              EncodeAddr(m.sender).value, Le(m.nonce, 8), EncodeVarBytes(m.userAgent).value,
              LeSigned(m.startHeight, 4), [if m.relay then 1 else 0]);
  }

  lemma NineParts(a: Bytes, b: Bytes, c: Bytes, d: Bytes, e: Bytes, f: Bytes, g: Bytes, h: Bytes, flag: Bytes)
    requires |a| == 4 && |b| == 8 && |c| == 8 && |d| == 26 && |e| == 26 && |f| == 8 && |h| == 4 && |flag| == 1
    ensures var s, n := a + (b + (c + (d + (e + (f + (g + (h + flag))))))), |g|;
            && |s| == 85 + n && s[..4] == a && s[4..12] == b && s[12..20] == c && s[20..46] == d && s[46..72] == e
            && s[72..80] == f && s[80..80 + n] == g && s[80 + n..84 + n] == h && s[84 + n] == flag[0]
  {
  }

  // ---------- ping ----------

  function EncodePing(nonce: int): Result<Bytes, WireError> {
    Unsigned(nonce, 8)
  }

  function DecodePing(s: Bytes): Result<int, WireError> {
    if |s| < 8 then Err(ShortPing) else Ok(FromLe(s[..8]))
  }

  /** A ping is the nonce in eight digits with the lowest first; fewer bytes are refused. */
  lemma PingBytes(nonce: int, i: nat, s: Bytes)
    requires i < 8
    ensures EncodePing(nonce).Ok? ==>
              nonce >= 0 && |EncodePing(nonce).value| == 8
              && EncodePing(nonce).value[i] as int == nonce / Pow256(i) % 256
    ensures EncodePing(nonce).Err? ==> EncodePing(nonce) == Err(Overflow)
    ensures DecodePing(s) == Err(ShortPing) <==> |s| < 8
  {
    hide Pow256;
    if EncodePing(nonce).Ok? { LeAt(nonce, 8, i); }
  }

  lemma PingRoundTrip(nonce: int, rest: Bytes)
    ensures EncodePing(nonce).Ok? <==> 0 <= nonce < 0x1_0000_0000_0000_0000
    ensures EncodePing(nonce).Ok? ==> DecodePing(EncodePing(nonce).value + rest) == Ok(nonce)
  {
    PowValues();
    if EncodePing(nonce).Ok? {
      FromLeLe(nonce, 8);
      assert (Le(nonce, 8) + rest)[..8] == Le(nonce, 8);
    }
  }
}
