/** The wire format: integers of fixed width, variable-length integers, and message frames. */
module Wire {
  import opened Ledger
  import opened LittleEndian

  datatype WireError =
    | NegativeVarint
    | Overflow
    | EndOfData
    | ShortVarint
    | AboveCap
    | ShortBytes
    | NotAscii
    | CommandTooLong
    | IncompleteHeader
    | IncompletePayload
    | MagicMismatch
    | TooLarge
    | ChecksumMismatch
    | BadHashLength
    | ShortHash
    | ShortAddress
    | BadHeaderLength
    | ShortHeader
    | ShortPing

  const MAX_MESSAGE_SIZE: nat := 32 * 1024 * 1024
  const HEADER_SIZE: nat := 24

  // ---------- integers of fixed width ----------

  /** The lowest `k` bytes of a number, lowest first. */
  function Le(n: nat, k: nat): (s: Bytes)
    ensures |s| == k
    decreases k
  {
    if k == 0 then [] else [(n % 256) as byte] + Le(n / 256, k - 1)
  }

  /** Byte `i` of the little-endian form is the i-th base-256 digit. */
  lemma {:induction false} LeAt(n: nat, k: nat, i: nat)
    requires i < k
    ensures Le(n, k)[i] as nat == n / Pow256(i) % 256
    decreases k
  {
    if i > 0 {
      LeAt(n / 256, k - 1, i - 1);
      DivideTwice(n, 256, Pow256(i - 1));
      assert Le(n, k)[i] == Le(n / 256, k - 1)[i - 1];
    }
  }

  lemma LowestByte(b: nat, v: nat, p: nat)
    requires b < 256
    ensures (b + 256 * v) % 256 == b && (b + 256 * v) / 256 == v
    ensures v < p ==> b + 256 * v < 256 * p
  {
  }

  lemma {:induction false} FromLeLe(n: nat, k: nat)
    requires n < Pow256(k)
    ensures FromLe(Le(n, k)) == n
    decreases k
  {
    if k > 0 {
      assert n / 256 < Pow256(k - 1);
      FromLeLe(n / 256, k - 1);
      assert Le(n, k)[1..] == Le(n / 256, k - 1);
    }
  }

  lemma {:induction false} LeFromLe(s: Bytes)
    ensures FromLe(s) < Pow256(|s|) && Le(FromLe(s), |s|) == s
  {
    if s != [] {
      LeFromLe(s[1..]);
      LowestByte(s[0] as nat, FromLe(s[1..]), Pow256(|s| - 1));
      assert s == [s[0]] + s[1..];
    }
  }

  /** Two bytes, highest first. */
  function Be2(n: nat): (s: Bytes)
    requires n < 0x1_0000
    ensures |s| == 2
  {
    [(n / 256) as byte, (n % 256) as byte]
  }

  function FromBe(s: Bytes): nat {
    if s == [] then 0 else FromBe(s[..|s| - 1]) * 256 + s[|s| - 1] as nat
  }

  lemma FromBeBe2(n: nat)
    requires n < 0x1_0000
    ensures FromBe(Be2(n)) == n
  {
    var s := Be2(n);
    assert s[..1] == [s[0]] && [s[0]][..0] == [];
    assert FromBe([s[0]]) == s[0] as nat;
  }

  predicate FitsSigned(n: int, k: nat) {
    0 <= 2 * n + Pow256(k) < 2 * Pow256(k)
  }

  /** Two's complement in `k` bytes. */
  function LeSigned(n: int, k: nat): (s: Bytes)
    requires FitsSigned(n, k)
    ensures |s| == k
  {
    Le(if n < 0 then n + Pow256(k) else n, k)
  }

  function FromLeSigned(s: Bytes): int {
    var v := FromLe(s);
    if s != [] && s[|s| - 1] >= 128 then v - Pow256(|s|) else v
  }

  lemma {:induction false} TopByte(s: Bytes)
    requires s != []
    ensures s[|s| - 1] >= 128 <==> 2 * FromLe(s) >= Pow256(|s|)
  {
    if |s| > 1 {
      TopByte(s[1..]);
      EvenPower(|s| - 1);
      HalfStays(s[0] as nat, FromLe(s[1..]), Pow256(|s| - 1));
    } else {
      assert s[1..] == [];
    }
  }

  lemma EvenPower(k: nat)
    requires k >= 1
    ensures Pow256(k) % 2 == 0
  {
    assert Pow256(k) == 2 * (128 * Pow256(k - 1));
  }

  /** A lower byte does not move a number across half of an even power. */
  lemma HalfStays(b: nat, v: nat, p: nat)
    requires b < 256 && p % 2 == 0
    ensures 2 * v >= p <==> 2 * (b + 256 * v) >= 256 * p
  {
    var h := p / 2;
    assert p == 2 * h;
  }

  lemma SignedRoundTrip(n: int, k: nat)
    requires k >= 1 && FitsSigned(n, k)
    ensures FromLeSigned(LeSigned(n, k)) == n
  {
    FromLeLe(if n < 0 then n + Pow256(k) else n, k);
    TopByte(LeSigned(n, k));
  }

  /** Byte `i` in two's complement is the i-th base-256 digit, of `n + 256^k` if `n` is negative. */
  lemma LeSignedAt(n: int, k: nat, i: nat)
    requires FitsSigned(n, k) && i < k
    ensures LeSigned(n, k)[i] as int == (if n < 0 then n + Pow256(k) else n) / Pow256(i) % 256
  {
    LeAt(if n < 0 then n + Pow256(k) else n, k, i);
  }

  /** Two bytes with the higher first, written and read. */
  lemma Be2Is(n: nat, high: byte, low: byte)
    requires n < 0x1_0000
    ensures Be2(n)[0] as int * 256 + Be2(n)[1] as int == n
    ensures FromBe([high, low]) == high as int * 256 + low as int && FromBe([high]) == high as int && FromBe([]) == 0
  {
    assert [high, low][..1] == [high] && [high][..0] == [];
    assert FromBe([high]) == high as int;
  }

  // ---------- reading ----------

  /** A parsed value and the bytes after it. */
  datatype Parse<+T> = Parsed(value: T, rest: Bytes) | Failed(error: WireError) {
    predicate IsFailure() {
      Failed?
    }

    function PropagateFailure<U>(): Parse<U>
      requires Failed?
    {
      Failed(error)
    }

    function Extract(): (T, Bytes)
      requires Parsed?
    {
      (value, rest)
    }
  }

  /** Up to `n` bytes: fewer if the data ends before. */
  function Take(s: Bytes, n: nat): Bytes {
    if n <= |s| then s[..n] else s
  }

  function Drop(s: Bytes, n: nat): Bytes {
    if n <= |s| then s[n..] else []
  }

  lemma TakeAppend(a: Bytes, b: Bytes)
    ensures Take(a + b, |a|) == a && Drop(a + b, |a|) == b
  {
  }

  // ---------- variable-length integers ----------

  function EncodeVarint(n: int): Result<Bytes, WireError> {
    if n < 0 then Err(NegativeVarint)
    else if n < 0xFD then Ok([n as byte])
    else if n <= 0xFFFF then Ok([0xFD] + Le(n, 2))
    else if n <= 0xFFFFFFFF then Ok([0xFE] + Le(n, 4))
    else if n < 0x1_0000_0000_0000_0000 then Ok([0xFF] + Le(n, 8))
    else Err(Overflow)
  }

  /** The number of bytes after a prefix byte that is not itself the value. */
  function VarintWidth(prefix: byte): nat {
    if prefix < 0xFD then 0 else if prefix == 0xFD then 2 else if prefix == 0xFE then 4 else 8
  }

  function ReadVarint(s: Bytes): Parse<nat> {
    if s == [] then Failed(EndOfData)
    else if s[0] < 0xFD then Parsed(s[0] as nat, s[1..])
    else
      var w := VarintWidth(s[0]);
      if |s| - 1 < w then Failed(ShortVarint) else Parsed(FromLe(s[1..1 + w]), s[1 + w..])
  }

  /** Every number below 2^64, and no other, is encoded, and is read back whatever follows it. */
  lemma VarintRoundTrip(n: int, rest: Bytes)
    ensures EncodeVarint(n).Ok? <==> 0 <= n < 0x1_0000_0000_0000_0000
    ensures EncodeVarint(n).Ok? ==> ReadVarint(EncodeVarint(n).value + rest) == Parsed(n, rest)
  {
    if EncodeVarint(n).Ok? && n >= 0xFD {
      PowValues();
      var s := EncodeVarint(n).value;
      var w := VarintWidth(s[0]);
      FromLeLe(n, w);
      assert (s + rest)[1..1 + w] == s[1..] == Le(n, w);
      assert (s + rest)[1 + w..] == rest;
    }
  }

  /** The bytes of a number: itself below 0xFD; else the marker 0xFD, 0xFE or 0xFF for the first of
      two, four or eight bytes that it fits, and its base-256 digits, lowest first. */
  lemma VarintBytes(n: int, i: nat)
    requires 0 <= n < 0x1_0000_0000_0000_0000
    ensures EncodeVarint(n).Ok?
    ensures var s := EncodeVarint(n).value;
            var w := if n < 0xFD then 0 else if n < 0x1_0000 then 2 else if n < 0x1_0000_0000 then 4 else 8;
            && |s| == 1 + w
            && s[0] as int == (if w == 0 then n else if w == 2 then 0xFD else if w == 4 then 0xFE else 0xFF)
            && (i < w ==> s[1 + i] as int == n / Pow256(i) % 256)
  {
    var w := if n < 0xFD then 0 else if n < 0x1_0000 then 2 else if n < 0x1_0000_0000 then 4 else 8;
    if i < w { LeAt(n, w, i); }
  }

  /** What is refused: a negative number, one of more than eight bytes; on reading, no data, and
      fewer bytes than the marker asks for. */
  lemma VarintRefuses(n: int, s: Bytes)
    ensures EncodeVarint(n) == Err(NegativeVarint) <==> n < 0
    ensures EncodeVarint(n) == Err(Overflow) <==> n >= 0x1_0000_0000_0000_0000
    ensures ReadVarint(s) == Failed(EndOfData) <==> s == []
    ensures ReadVarint(s) == Failed(ShortVarint) <==>
              s != [] && |s| < if s[0] < 0xFD then 1 else if s[0] == 0xFD then 3 else if s[0] == 0xFE then 5 else 9
    ensures ReadVarint(s).Parsed? <==>
              s != [] && |s| >= if s[0] < 0xFD then 1 else if s[0] == 0xFD then 3 else if s[0] == 0xFE then 5 else 9
  {
  }

  /** The writer's form is the shortest that reads as its number; longer ones are read as well. */
  lemma VarintIsShortest(s: Bytes)
    requires ReadVarint(s).Parsed?
    ensures var r := ReadVarint(s);
            EncodeVarint(r.value).Ok? && |EncodeVarint(r.value).value| <= |s| - |r.rest|
  {
    if s[0] >= 0xFD {
      PowValues();
      LeFromLe(s[1..1 + VarintWidth(s[0])]);
    }
  }

  /** A strict prefix of an encoded number is never read as a number. */
  lemma VarintPrefixFails(n: int, k: nat)
    requires EncodeVarint(n).Ok? && k < |EncodeVarint(n).value|
    ensures ReadVarint(EncodeVarint(n).value[..k]).Failed?
  {
  }

  function EncodeVarBytes(b: Bytes): Result<Bytes, WireError> {
    var n := EncodeVarint(|b|);
    if n.Err? then n else Ok(n.value + b)
  }

  function ReadVarBytes(s: Bytes, cap: nat): Parse<Bytes> {
    var (n, rest) :- ReadVarint(s);
    if n > cap then Failed(AboveCap)
    else if |Take(rest, n)| != n then Failed(ShortBytes)
    else Parsed(Take(rest, n), Drop(rest, n))
  }

  /** What is written is read back exactly when it does not exceed the reader's cap. */
  lemma VarBytesRoundTrip(b: Bytes, cap: nat, rest: Bytes)
    requires EncodeVarBytes(b).Ok?
    ensures ReadVarBytes(EncodeVarBytes(b).value + rest, cap)
            == if |b| <= cap then Parsed(b, rest) else Failed(AboveCap)
  {
    var n := EncodeVarint(|b|).value;
    VarintRoundTrip(|b|, b + rest);
    assert (n + b) + rest == n + (b + rest);
    TakeAppend(b, rest);
  }

  /** What a reader of counted bytes refuses: a bad count, one above the cap, and too few bytes. */
  lemma VarBytesRefuses(s: Bytes, cap: nat)
    ensures ReadVarint(s).Failed? ==> ReadVarBytes(s, cap) == Failed(ReadVarint(s).error)
    ensures ReadVarint(s).Parsed? ==>
              var n, rest := ReadVarint(s).value, ReadVarint(s).rest;
              ReadVarBytes(s, cap) == if n > cap then Failed(AboveCap) else if n > |rest| then Failed(ShortBytes)
                else Parsed(rest[..n], rest[n..])
  {
  }

  // ---------- frames ----------

  datatype Frame = Frame(magic: Bytes, command: string, payload: Bytes)

  type Digest32 = d: Bytes | |d| == 32 witness seq(32, _ => 0)

  /** The double hash; only its first four bytes are used. */
  type Hash = Bytes -> Digest32

  predicate IsAscii(c: string) {
    forall i :: 0 <= i < |c| ==> c[i] as int < 128
  }

  function AsciiBytes(c: string): (s: Bytes)
    requires IsAscii(c)
    ensures |s| == |c| && forall i :: 0 <= i < |c| ==> s[i] as int == c[i] as int
  {
    seq(|c|, i requires 0 <= i < |c| => c[i] as int as byte)
  }

  /** Bytes beyond ASCII become the replacement character. */
  function FromAscii(s: Bytes): (c: string)
    ensures |c| == |s|
  {
    seq(|s|, i requires 0 <= i < |s| => if s[i] < 128 then s[i] as char else 0xFFFD as char)
  }

  function Zeros(n: nat): Bytes {
    seq(n, _ => 0)
  }

  function StripNul(s: Bytes): Bytes {
    if s != [] && s[|s| - 1] == 0 then StripNul(s[..|s| - 1]) else s
  }

  function Serialise(hash: Hash, f: Frame): Result<Bytes, WireError> {
    if !IsAscii(f.command) then Err(NotAscii)
    else if |f.command| > 12 then Err(CommandTooLong)
    else if |f.payload| >= 0x1_0000_0000 then Err(Overflow)
    else Ok(f.magic + AsciiBytes(f.command) + Zeros(12 - |f.command|) + Le(|f.payload|, 4)
            + hash(f.payload)[..4] + f.payload)
  }

  /** One frame from the front of the data, and how many bytes it takes. */
  function ParseFrame(hash: Hash, data: Bytes, expected: Option<Bytes>): Result<(Frame, nat), WireError> {
    if |data| < HEADER_SIZE then Err(IncompleteHeader)
    else if expected.Some? && data[..4] != expected.value then Err(MagicMismatch)
    else
      var length := FromLe(data[16..20]);
      if length > MAX_MESSAGE_SIZE then Err(TooLarge)
      else
        var end := HEADER_SIZE + length;
        if |data| < end then Err(IncompletePayload)
        else if hash(data[HEADER_SIZE..end])[..4] != data[20..24] then Err(ChecksumMismatch)
        else Ok((Frame(data[..4], FromAscii(StripNul(data[4..16])), data[HEADER_SIZE..end]), end))
  }

  /** A frame survives the wire: a four-byte magic, no command ending in NUL, a payload in bounds. */
  predicate Sound(f: Frame) {
    && |f.magic| == 4 && |f.payload| <= MAX_MESSAGE_SIZE
    && (f.command == [] || f.command[|f.command| - 1] != '\0')
  }

  /** The header fields of a serialised frame with a four-byte magic. */
  lemma Layout(hash: Hash, f: Frame, rest: Bytes)
    requires Serialise(hash, f).Ok? && |f.magic| == 4
    ensures var s := Serialise(hash, f).value;
            && |s| == HEADER_SIZE + |f.payload|
            && (s + rest)[..4] == f.magic
            && (s + rest)[4..16] == AsciiBytes(f.command) + Zeros(12 - |f.command|)
            && (s + rest)[16..20] == Le(|f.payload|, 4)
            && (s + rest)[20..24] == hash(f.payload)[..4]
            && (s + rest)[HEADER_SIZE..HEADER_SIZE + |f.payload|] == f.payload
  {
    var command := AsciiBytes(f.command) + Zeros(12 - |f.command|);
    Slices(f.magic, command, Le(|f.payload|, 4), hash(f.payload)[..4], f.payload, rest);
    var s := Serialise(hash, f).value;
    assert s == f.magic + command + Le(|f.payload|, 4) + hash(f.payload)[..4] + f.payload;
  }

  lemma Slices(a: Bytes, b: Bytes, c: Bytes, d: Bytes, e: Bytes, rest: Bytes)
    requires |a| == 4 && |b| == 12 && |c| == 4 && |d| == 4
    ensures var s := a + b + c + d + e + rest;
            s[..4] == a && s[4..16] == b && s[16..20] == c && s[20..24] == d && s[24..24 + |e|] == e
  {
  }

  /** Which frames are refused, and why, in this order: a command beyond ASCII, one of more than
      twelve characters, a payload of 2^32 bytes or more. */
  lemma SerialiseRefuses(hash: Hash, f: Frame)
    ensures var r, ascii := Serialise(hash, f), forall i :: 0 <= i < |f.command| ==> f.command[i] as int < 128;
            && (r == Err(NotAscii) <==> !ascii)
            && (r == Err(CommandTooLong) <==> ascii && |f.command| > 12)
            && (r == Err(Overflow) <==> ascii && |f.command| <= 12 && |f.payload| >= 0x1_0000_0000)
            && (r.Ok? <==> ascii && |f.command| <= 12 && |f.payload| < 0x1_0000_0000)
  {
  }

  /** The bytes of a frame: the magic, the command padded with zeros to twelve bytes, the length in
      four digits with the lowest first, four bytes of the payload's hash, the payload. */
  lemma FrameBytes(hash: Hash, f: Frame, i: nat)
    requires Serialise(hash, f).Ok? && i < 12
    ensures var s, m := Serialise(hash, f).value, |f.magic|;
            && |s| == m + 20 + |f.payload| && s[..m] == f.magic
            && s[m + i] as int == (if i < |f.command| then f.command[i] as int else 0)
            && (i < 4 ==> s[m + 12 + i] as int == |f.payload| / Pow256(i) % 256)
            && s[m + 16..m + 20] == hash(f.payload)[..4] && s[m + 20..] == f.payload
  {
    hide Le, Pow256;
    var command := AsciiBytes(f.command) + Zeros(12 - |f.command|);
    SerialisedParts(hash, f);
    PartsAt(f.magic, command, Le(|f.payload|, 4), hash(f.payload)[..4], f.payload, i);
    hide Serialise;
    if i < 4 { LeAt(|f.payload|, 4, i); }
  }

  lemma SerialisedParts(hash: Hash, f: Frame)
    requires Serialise(hash, f).Ok?
    ensures IsAscii(f.command) && |f.command| <= 12
    ensures Serialise(hash, f).value == f.magic + (AsciiBytes(f.command) + Zeros(12 - |f.command|))
                                        + Le(|f.payload|, 4) + hash(f.payload)[..4] + f.payload
  {
    var a, b, c := f.magic, AsciiBytes(f.command), Zeros(12 - |f.command|);
    assert a + b + c == a + (b + c);
  }

  lemma PartsAt(a: Bytes, b: Bytes, c: Bytes, d: Bytes, e: Bytes, i: nat)
    requires |b| == 12 && |c| == 4 && |d| == 4 && i < 12
    ensures var s, m := a + b + c + d + e, |a|;
            && s[..m] == a && s[m + i] == b[i] && (i < 4 ==> s[m + 12 + i] == c[i])
            && s[m + 16..m + 20] == d && s[m + 20..] == e
  {
  }

  /** Which data is refused, and why, in this order: fewer than 24 bytes, another magic than asked
      for, a length above 32 MiB, a payload that is not all there, another checksum. */
  lemma ParseRefuses(hash: Hash, data: Bytes, expected: Option<Bytes>)
    ensures ParseFrame(hash, data, expected) == Err(IncompleteHeader) <==> |data| < 24
    ensures |data| >= 24 ==>
              var r, length := ParseFrame(hash, data, expected), FromLe(data[16..20]);
              var known, whole := expected == None || expected == Some(data[..4]), |data| - 24 >= length;
              && (r == Err(MagicMismatch) <==> !known)
              && (r == Err(TooLarge) <==> known && length > 0x200_0000)
              && (r == Err(IncompletePayload) <==> known && length <= 0x200_0000 && !whole)
              && (r == Err(ChecksumMismatch) <==> known && length <= 0x200_0000 && whole
                                                  && hash(data[24..24 + length])[..4] != data[20..24])
              && (r.Ok? <==> known && length <= 0x200_0000 && whole
                             && hash(data[24..24 + length])[..4] == data[20..24])
  {
  }

  /** What is parsed: the magic, the command without the zeros at its end, the payload, and the
      number of bytes taken; a byte of the command beyond ASCII becomes the replacement character. */
  lemma ParsedFields(hash: Hash, data: Bytes, expected: Option<Bytes>)
    requires ParseFrame(hash, data, expected).Ok?
    ensures |data| >= 24
    ensures var (f, end) := ParseFrame(hash, data, expected).value;
            && end == 24 + FromLe(data[16..20]) <= |data|
            && f.magic == data[..4] && f.payload == data[24..end]
            && |f.command| <= 12 && (f.command != [] ==> data[4 + |f.command| - 1] != 0)
            && (forall i :: 4 + |f.command| <= i < 16 ==> data[i] == 0)
            && forall i :: 0 <= i < |f.command| ==>
                 f.command[i] == if data[4 + i] < 128 then data[4 + i] as char else 0xFFFD as char
  {
    hide FromLe;
    StripsZeros(data[4..16]);
    var command := StripNul(data[4..16]);
    assert forall i :: 0 <= i < 12 ==> data[4..16][i] == data[4 + i];
    assert forall i :: 0 <= i < |command| ==> command[i] == data[4..16][i];
    assert forall i :: 4 <= i < 16 ==> data[i] == data[4..16][i - 4];
  }

  /** Exactly the zeros at the end are stripped. */
  lemma {:induction false} StripsZeros(s: Bytes)
    ensures StripNul(s) <= s && (StripNul(s) != [] ==> StripNul(s)[|StripNul(s)| - 1] != 0)
    ensures forall i :: |StripNul(s)| <= i < |s| ==> s[i] == 0
  {
    if s != [] && s[|s| - 1] == 0 { StripsZeros(s[..|s| - 1]); }
  }

  lemma {:induction false} StripPadding(s: Bytes, n: nat)
    ensures StripNul(s + Zeros(n)) == StripNul(s)
  {
    if n == 0 {
      assert s + Zeros(0) == s;
    } else {
      assert (s + Zeros(n))[..|s| + n - 1] == s + Zeros(n - 1);
      StripPadding(s, n - 1);
    }
  }

  lemma {:induction false} StripIsPrefix(s: Bytes)
    ensures StripNul(s) <= s
    ensures StripNul(s) == s <==> s == [] || s[|s| - 1] != 0
  {
    if s != [] && s[|s| - 1] == 0 { StripIsPrefix(s[..|s| - 1]); }
  }

  lemma AsciiRoundTrip(c: string)
    requires IsAscii(c)
    ensures FromAscii(AsciiBytes(c)) == c
  {
  }

  lemma CommandRoundTrip(c: string, n: nat)
    requires IsAscii(c)
    ensures FromAscii(StripNul(AsciiBytes(c) + Zeros(n))) == c <==> c == [] || c[|c| - 1] != '\0'
  {
    var s := AsciiBytes(c);
    StripPadding(s, n);
    StripIsPrefix(s);
    AsciiRoundTrip(c);
    assert |c| > 0 ==> (s[|s| - 1] == 0 <==> c[|c| - 1] == '\0');
    if StripNul(s) != s { assert |FromAscii(StripNul(s))| < |c|; }
  }

  /** Exactly the sound frames come back from the wire as they were, whatever follows them and
      whether or not the reader insists on their magic. */
  lemma FrameRoundTrip(hash: Hash, f: Frame, rest: Bytes, insist: bool)
    requires Serialise(hash, f).Ok?
    ensures ParseFrame(hash, Serialise(hash, f).value + rest, if insist then Some(f.magic) else None)
              == Ok((f, |Serialise(hash, f).value|))
       <==> Sound(f)
  {
    hide Pow256, Le, FromLe;
    var s := Serialise(hash, f).value;
    if |f.magic| == 4 {
      Layout(hash, f, rest);
      PowValues();
      FromLeLe(|f.payload|, 4);
      CommandRoundTrip(f.command, 12 - |f.command|);
    } else {
      var r := ParseFrame(hash, s + rest, if insist then Some(f.magic) else None);
      assert r.Ok? ==> |r.value.0.magic| == 4;
    }
  }

  /** Every strict prefix of a sound frame is refused as incomplete, and never for another reason. */
  lemma PrefixIsIncomplete(hash: Hash, f: Frame, k: nat, insist: bool)
    requires Serialise(hash, f).Ok? && Sound(f) && k < |Serialise(hash, f).value|
    ensures ParseFrame(hash, Serialise(hash, f).value[..k], if insist then Some(f.magic) else None)
         == Err(if k < HEADER_SIZE then IncompleteHeader else IncompletePayload)
  {
    var s := Serialise(hash, f).value;
    if k >= HEADER_SIZE {
      Layout(hash, f, []);
      assert s + [] == s;
      PowValues();
      FromLeLe(|f.payload|, 4);
      assert s[..k][..4] == s[..4] && s[..k][16..20] == s[16..20];
    }
  }

  // ---------- a stream of frames ----------

  predicate AllSound(hash: Hash, fs: seq<Frame>) {
    forall i :: 0 <= i < |fs| ==> Serialise(hash, fs[i]).Ok? && Sound(fs[i])
  }

  function Stream(hash: Hash, fs: seq<Frame>): Bytes
    requires AllSound(hash, fs)
  {
    if fs == [] then [] else Serialise(hash, fs[0]).value + Stream(hash, fs[1..])
  }

  /** Frames off the front of the data until a frame cannot be parsed; the rest stays. */
  function ParseStream(hash: Hash, data: Bytes): (seq<Frame>, Bytes)
    decreases |data|
  {
    var r := ParseFrame(hash, data, None);
    if r.Err? then ([], data)
    else
      var (fs, rest) := ParseStream(hash, data[r.value.1..]);
      ([r.value.0] + fs, rest)
  }

  lemma StreamStep(hash: Hash, f: Frame, tail: Bytes)
    requires Serialise(hash, f).Ok? && Sound(f)
    ensures var (fs, rest) := ParseStream(hash, tail);
            ParseStream(hash, Serialise(hash, f).value + tail) == ([f] + fs, rest)
  {
    var s := Serialise(hash, f).value;
    FrameRoundTrip(hash, f, tail, false);
    hide Serialise, ParseFrame;
    assert (s + tail)[|s|..] == tail;
  }

  lemma StreamEnd(hash: Hash, f: Frame, k: nat)
    requires Serialise(hash, f).Ok? && Sound(f) && k < |Serialise(hash, f).value|
    ensures ParseStream(hash, Serialise(hash, f).value[..k]) == ([], Serialise(hash, f).value[..k])
  {
    PrefixIsIncomplete(hash, f, k, false);
    hide Serialise, ParseFrame;
  }

  /** A reader that has received any number of whole frames and part of another gets back exactly
      the whole frames, and keeps the part. */
  lemma {:induction false} StreamRoundTrip(hash: Hash, fs: seq<Frame>, next: Frame, k: nat)
    requires AllSound(hash, fs)
    requires Serialise(hash, next).Ok? && Sound(next) && k < |Serialise(hash, next).value|
    ensures ParseStream(hash, Stream(hash, fs) + Serialise(hash, next).value[..k])
            == (fs, Serialise(hash, next).value[..k])
    decreases fs
  {
    hide Serialise, ParseStream, Sound;
    var part := Serialise(hash, next).value[..k];
    if fs == [] {
      assert Stream(hash, fs) + part == part;
      StreamEnd(hash, next, k);
    } else {
      var tail := Stream(hash, fs[1..]) + part;
      assert Stream(hash, fs) + part == Serialise(hash, fs[0]).value + tail;
      StreamRoundTrip(hash, fs[1..], next, k);
      StreamStep(hash, fs[0], tail);
      assert fs == [fs[0]] + fs[1..];
    }
  }
}
