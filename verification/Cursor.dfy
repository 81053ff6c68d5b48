/** The program's readers over a byte cursor and its writers that append to a buffer, proved to
    compute the codecs. */
module Cursor {
  import opened Ledger
  import opened LittleEndian
  import opened Wire
  import opened Messages

  class ByteReader {
    const data: Bytes
    var pos: nat

    ghost predicate Valid()
      reads this
    {
      pos <= |data|
    }

    /** What has not been read yet. */
    function Rest(): Bytes
      requires Valid()
      reads this
    {
      data[pos..]
    }

    constructor (data: Bytes)
      ensures Valid() && this.data == data && Rest() == data
    {
      this.data, pos := data, 0;
    }

    /** Up to `n` bytes. */
    method Read(n: nat) returns (r: Bytes)
      requires Valid()
      modifies this
      ensures Valid() && r == Take(old(Rest()), n) && Rest() == Drop(old(Rest()), n)
    {
      var end := if pos + n <= |data| then pos + n else |data|;
      r := data[pos..end];
      pos := end;
    }

    method ReadVarint() returns (r: Result<nat, WireError>)
      requires Valid()
      modifies this
      ensures Valid()
      ensures match Wire.ReadVarint(old(Rest()))
              case Parsed(v, rest) => r == Ok(v) && Rest() == rest
              case Failed(e) => r == Err(e)
    {
      ghost var s := Rest();
      var prefix := Read(1);
      if |prefix| == 0 { return Err(EndOfData); }
      var v := prefix[0];
      if v < 0xFD { return Ok(v as nat); }
      var bytes;
      if v == 0xFD {
        bytes := Read(2);
        if |bytes| != 2 { return Err(ShortVarint); }
      } else if v == 0xFE {
        bytes := Read(4);
        if |bytes| != 4 { return Err(ShortVarint); }
      } else {
        bytes := Read(8);
        if |bytes| != 8 { return Err(ShortVarint); }
      }
      assert bytes == s[1..1 + VarintWidth(v)] && Rest() == s[1 + VarintWidth(v)..];
      return Ok(FromLe(bytes));
    }

    method ReadVarBytes(cap: nat) returns (r: Result<Bytes, WireError>)
      requires Valid()
      modifies this
      ensures Valid()
      ensures match Wire.ReadVarBytes(old(Rest()), cap)
              case Parsed(v, rest) => r == Ok(v) && Rest() == rest
              case Failed(e) => r == Err(e)
    {
      var n := ReadVarint();
      if n.Err? { return Err(n.error); }
      if n.value > cap { return Err(AboveCap); }
      var bytes := Read(n.value);
      if |bytes| != n.value { return Err(ShortBytes); }
      return Ok(bytes);
    }

    method ReadInvVector() returns (r: Result<InvVector, WireError>)
      requires Valid()
      modifies this
      ensures Valid()
      ensures match DecodeInvVector(old(Rest()))
              case Parsed(v, rest) => r == Ok(v) && Rest() == rest
              case Failed(e) => r == Err(e)
    {
      var kind := Read(4);
      var hash := Read(32);
      if |hash| != 32 { return Err(ShortHash); }
      return Ok(InvVector(FromLe(kind), hash));
    }

    method ReadAddr() returns (r: Result<NetAddr, WireError>)
      requires Valid()
      modifies this
      ensures Valid()
      ensures match DecodeAddr(old(Rest()))
              case Parsed(v, rest) => r == Ok(v) && Rest() == rest
              case Failed(e) => r == Err(e)
    {
      var services := Read(8);
      var ip := Read(16);
      if |ip| != 16 { return Err(ShortAddress); }
      var port := Read(2);
      return Ok(NetAddr(FromLe(services), ip, FromBe(port)));
    }
  }

  /** The list parsed so far, put in front of what is still to come. */
  function Prepend<T>(xs: seq<T>, p: Parse<seq<T>>): Parse<seq<T>> {
    match p
    case Parsed(ys, rest) => Parsed(xs + ys, rest)
    case Failed(e) => Failed(e)
  }

  function AsResult<T>(p: Parse<T>): Result<T, WireError> {
    match p
    case Parsed(v, _) => Ok(v)
    case Failed(e) => Err(e)
  }

  lemma DecodeListStep<T>(decode: Decoder<T>, s: Bytes, n: nat, xs: seq<T>)
    requires n > 0
    ensures match decode(s)
            case Parsed(x, rest) =>
              Prepend(xs, DecodeList(decode, s, n)) == Prepend(xs + [x], DecodeList(decode, rest, n - 1))
            case Failed(e) => Prepend(xs, DecodeList(decode, s, n)) == Failed(e)
  {
    match decode(s)
    case Parsed(x, rest) =>
      var r := DecodeList(decode, rest, n - 1);
      if r.Parsed? { assert xs + ([x] + r.value) == (xs + [x]) + r.value; }
    case Failed(e) =>
  }

  lemma PrependNothing<T>(p: Parse<seq<T>>)
    ensures Prepend([], p) == p
  {
    if p.Parsed? { assert [] + p.value == p.value; }
  }

  lemma NothingToCome<T>(decode: Decoder<T>, xs: seq<T>, s: Bytes)
    ensures Prepend(xs, DecodeList(decode, s, 0)) == Parsed(xs, s)
  {
    assert xs + [] == xs;
  }

  method ReadInvVectors(buf: ByteReader, n: nat) returns (r: Result<seq<InvVector>, WireError>)
    requires buf.Valid()
    modifies buf
    ensures r == AsResult(DecodeList(DecodeInvVector, old(buf.Rest()), n))
  {
    hide DecodeInvVector, ByteReader.Rest;
    ghost var start := buf.Rest();
    var vectors: seq<InvVector> := [];
    PrependNothing(DecodeList(DecodeInvVector, start, n));
    for i := 0 to n
      invariant buf.Valid()
      invariant Prepend(vectors, DecodeList(DecodeInvVector, buf.Rest(), n - i))
                == DecodeList(DecodeInvVector, start, n)
    {
      DecodeListStep(DecodeInvVector, buf.Rest(), n - i, vectors);
      var v := buf.ReadInvVector();
      if v.Err? { return Err(v.error); }
      vectors := vectors + [v.value];
    }
    NothingToCome(DecodeInvVector, vectors, buf.Rest());
    return Ok(vectors);
  }

  method ParseInv(payload: Bytes) returns (r: Result<seq<InvVector>, WireError>)
    ensures r == AsResult(DecodeInv(payload))
  {
    hide ReadVarint, DecodeInvVector, DecodeList, ByteReader.Rest, FromLe, Take;
    var buf := new ByteReader(payload);
    var n := buf.ReadVarint();
    if n.Err? { return Err(n.error); }
    r := ReadInvVectors(buf, n.value);
  }

  method ReadHeader(buf: ByteReader) returns (r: Result<Bytes, WireError>)
    requires buf.Valid()
    modifies buf
    ensures buf.Valid()
    ensures match DecodeHeader(old(buf.Rest()))
            case Parsed(v, rest) => r == Ok(v) && buf.Rest() == rest
            case Failed(e) => r == Err(e)
  {
    hide ReadVarint, ByteReader.Rest;
    var h := buf.Read(80);
    if |h| != 80 { return Err(ShortHeader); }
    var count := buf.ReadVarint();
    if count.Err? { return Err(count.error); }
    return Ok(h);
  }

  method ReadHeaders(buf: ByteReader, n: nat) returns (r: Result<seq<Bytes>, WireError>)
    requires buf.Valid()
    modifies buf
    ensures r == AsResult(DecodeList(DecodeHeader, old(buf.Rest()), n))
  {
    hide DecodeHeader, ByteReader.Rest;
    ghost var start := buf.Rest();
    var headers: seq<Bytes> := [];
    PrependNothing(DecodeList(DecodeHeader, start, n));
    for i := 0 to n
      invariant buf.Valid()
      invariant Prepend(headers, DecodeList(DecodeHeader, buf.Rest(), n - i)) == DecodeList(DecodeHeader, start, n)
    {
      DecodeListStep(DecodeHeader, buf.Rest(), n - i, headers);
      var h := ReadHeader(buf);
      if h.Err? { return Err(h.error); }
      headers := headers + [h.value];
    }
    NothingToCome(DecodeHeader, headers, buf.Rest());
    return Ok(headers);
  }

  method ParseHeaders(payload: Bytes) returns (r: Result<seq<Bytes>, WireError>)
    ensures r == AsResult(DecodeHeaders(payload))
  {
    hide ReadVarint, DecodeHeader, DecodeList, ByteReader.Rest, FromLe, Take;
    var buf := new ByteReader(payload);
    var n := buf.ReadVarint();
    if n.Err? { return Err(n.error); }
    r := ReadHeaders(buf, n.value);
  }

  /** Pieces of 32 bytes, of which the last ones may be short. */
  function Pieces(s: Bytes, n: nat): (seq<Bytes>, Bytes)
    decreases n
  {
    if n == 0 then ([], s)
    else
      var (others, rest) := Pieces(Drop(s, 32), n - 1);
      ([Take(s, 32)] + others, rest)
  }

  /** Reading all pieces first and checking their lengths afterwards gives the same result as
      checking each one as it is read. */
  lemma {:induction false} CheckedAfterwards(s: Bytes, n: nat)
    ensures |Pieces(s, n).0| == n
    ensures DecodeList(DecodeHash, s, n)
         == if forall i :: 0 <= i < n ==> |Pieces(s, n).0[i]| == 32
            then Parsed(Pieces(s, n).0, Pieces(s, n).1)
            else Failed(ShortHash)
    decreases n
  {
    hide Take, Drop;
    if n > 0 {
      CheckedAfterwards(Drop(s, 32), n - 1);
      var ps, others := Pieces(s, n).0, Pieces(Drop(s, 32), n - 1).0;
      assert ps[0] == Take(s, 32) && forall i :: 0 <= i < n - 1 ==> ps[i + 1] == others[i];
    }
  }

  method ReadPieces(buf: ByteReader, n: nat) returns (pieces: seq<Bytes>)
    requires buf.Valid()
    modifies buf
    ensures buf.Valid() && (pieces, buf.Rest()) == Pieces(old(buf.Rest()), n)
  {
    hide Take, Drop, ByteReader.Rest;
    ghost var start := buf.Rest();
    pieces := [];
    for i := 0 to n
      invariant buf.Valid() && |pieces| == i
      invariant pieces + Pieces(buf.Rest(), n - i).0 == Pieces(start, n).0
      invariant Pieces(buf.Rest(), n - i).1 == Pieces(start, n).1
    {
      var h := buf.Read(32);
      pieces := pieces + [h];
    }
    assert pieces + [] == pieces;
  }

  method ParseGetHeaders(payload: Bytes) returns (r: Result<GetHeaders, WireError>)
    ensures r == AsResult(DecodeGetHeaders(payload))
  {
    hide ReadVarint, DecodeHash, DecodeList, Take, Drop, FromLe, Pieces, ByteReader.Rest;
    var buf := new ByteReader(payload);
    var version := buf.Read(4);
    var n := buf.ReadVarint();
    if n.Err? { return Err(n.error); }
    CheckedAfterwards(buf.Rest(), n.value);
    var locator := ReadPieces(buf, n.value);
    for i := 0 to |locator|
      invariant forall k :: 0 <= k < i ==> |locator[k]| == 32
    {
      if |locator[i]| != 32 { return Err(ShortHash); }
    }
    var hashStop := buf.Read(32);
    if |hashStop| != 32 { return Err(ShortHash); }
    return Ok(GetHeaders(FromLe(version), locator, hashStop));
  }

  method ParseVersion(payload: Bytes) returns (r: Result<Version, WireError>)
    ensures r == AsResult(DecodeVersion(payload))
  {
    hide ReadVarBytes, DecodeAddr, Take, Drop, FromLe, FromLeSigned, ByteReader.Rest;
    var buf := new ByteReader(payload);
    var version := buf.Read(4);
    var services := buf.Read(8);
    var timestamp := buf.Read(8);
    var receiver := buf.ReadAddr();
    if receiver.Err? { return Err(receiver.error); }
    var sender := buf.ReadAddr();
    if sender.Err? { return Err(sender.error); }
    var nonce := buf.Read(8);
    var userAgent := buf.ReadVarBytes(MAX_MESSAGE_SIZE);
    if userAgent.Err? { return Err(userAgent.error); }
    var startHeight := buf.Read(4);
    var flag := buf.Read(1);
    return Ok(Version(FromLeSigned(version), FromLe(services), FromLeSigned(timestamp), receiver.value, sender.value,
                      FromLe(nonce), userAgent.value, FromLeSigned(startHeight), |flag| > 0 && flag[0] != 0));
  }

  // ---------- writers ----------

  /** The bytes written so far, put in front of what is still to come. */
  function After(out: Bytes, r: Result<Bytes, WireError>): Result<Bytes, WireError> {
    match r
    case Ok(b) => Ok(out + b)
    case Err(e) => Err(e)
  }

  lemma EncodeListStep<T>(encode: Encoder<T>, xs: seq<T>, i: nat, out: Bytes)
    requires i < |xs|
    ensures After(out, EncodeList(encode, xs[i..]))
         == match encode(xs[i])
            case Ok(b) => After(out + b, EncodeList(encode, xs[i + 1..]))
            case Err(e) => Err(e)
  {
    assert xs[i..][1..] == xs[i + 1..];
    match encode(xs[i])
    case Ok(b) =>
      var others := EncodeList(encode, xs[i + 1..]);
      if others.Ok? { assert out + (b + others.value) == (out + b) + others.value; }
    case Err(e) =>
  }

  lemma EncodeListEnd<T>(encode: Encoder<T>, xs: seq<T>, out: Bytes)
    ensures After(out, EncodeList(encode, xs[|xs|..])) == Ok(out)
    ensures xs[0..] == xs
  {
    assert xs[|xs|..] == [] && out + [] == out;
  }

  method SerialiseInv(vectors: seq<InvVector>) returns (r: Result<Bytes, WireError>)
    ensures r == EncodeInv(vectors)
  {
    r := EncodeVarint(|vectors|);
    if r.Err? { return; }
    var out := r.value;
    EncodeListEnd(EncodeInvVector, vectors, out);
    ghost var whole := After(out, EncodeList(EncodeInvVector, vectors));
    for i := 0 to |vectors|
      invariant After(out, EncodeList(EncodeInvVector, vectors[i..])) == whole
    {
      EncodeListStep(EncodeInvVector, vectors, i, out);
      var v := EncodeInvVector(vectors[i]);
      if v.Err? { return v; }
      out := out + v.value;
    }
    EncodeListEnd(EncodeInvVector, vectors, out);
    return Ok(out);
  }

  method SerialiseHeaders(headers: seq<Bytes>) returns (r: Result<Bytes, WireError>)
    ensures r == EncodeHeaders(headers)
  {
    r := EncodeVarint(|headers|);
    if r.Err? { return; }
    var out := r.value;
    EncodeListEnd(EncodeHeader, headers, out);
    ghost var whole := After(out, EncodeList(EncodeHeader, headers));
    for i := 0 to |headers|
      invariant After(out, EncodeList(EncodeHeader, headers[i..])) == whole
    {
      EncodeListStep(EncodeHeader, headers, i, out);
      if |headers[i]| != 80 { return Err(BadHeaderLength); }
      out := out + (headers[i] + [0]);
    }
    EncodeListEnd(EncodeHeader, headers, out);
    return Ok(out);
  }

  method SerialiseGetHeaders(m: GetHeaders) returns (r: Result<Bytes, WireError>)
    ensures r == EncodeGetHeaders(m)
  {
    var version := Unsigned(m.version, 4);
    if version.Err? { return version; }
    var count := EncodeVarint(|m.locator|);
    if count.Err? { return count; }
    var out := count.value;
    EncodeListEnd(EncodeHash, m.locator, out);
    ghost var whole := After(out, EncodeList(EncodeHash, m.locator));
    for i := 0 to |m.locator|
      invariant After(out, EncodeList(EncodeHash, m.locator[i..])) == whole
    {
      EncodeListStep(EncodeHash, m.locator, i, out);
      if |m.locator[i]| != 32 { return Err(BadHashLength); }
      out := out + m.locator[i];
    }
    EncodeListEnd(EncodeHash, m.locator, out);
    if |m.hashStop| != 32 { return Err(BadHashLength); }
    return Ok(version.value + out + m.hashStop);
  }
}
