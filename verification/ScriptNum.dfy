/** Script numbers: the minimal little-endian sign-magnitude encoding used for counts pushed by
    scripts and, for heights, by coinbase transactions. */
module ScriptNum {
  import opened Ledger
  import opened LittleEndian
  import Wire

  /** The base-256 digits of a natural number, least significant first, none for zero. */
  function Digits(n: nat): Bytes {
    if n == 0 then [] else [(n % 256) as byte] + Digits(n / 256)
  }

  function Abs(n: int): nat {
    if n < 0 then -n else n
  }

  lemma {:induction false} DigitsLast(n: nat)
    ensures FromLe(Digits(n)) == n
    ensures n > 0 ==> Digits(n) != [] && Digits(n)[|Digits(n)| - 1] != 0
  {
    if n > 0 { DigitsLast(n / 256); }
  }

  /** Digits, then a sign in the top bit of the last byte; a byte is added if that bit is taken. */
  function Encode(n: int): Bytes {
    if n == 0 then []
    else
      var d := Digits(Abs(n));
      DigitsLast(Abs(n));
      var last := d[|d| - 1];
      if last >= 128 then d + [if n < 0 then 128 else 0]
      else if n < 0 then d[..|d| - 1] + [last + 128]
      else d
  }

  function Magnitude(b: Bytes): nat {
    if b == [] then 0
    else FromLe(b[..|b| - 1] + [b[|b| - 1] % 128])
  }

  /** Reads any byte string as a script number. */
  function Decode(b: Bytes): int {
    var m: int := Magnitude(b);
    if b != [] && b[|b| - 1] >= 128 then -m else m
  }

  lemma {:induction false} FromLeZero(b: Bytes)
    ensures FromLe(b + [0]) == FromLe(b)
  {
    if b != [] {
      assert (b + [0])[1..] == b[1..] + [0];
      FromLeZero(b[1..]);
    }
  }

  lemma MagnitudeOf(front: Bytes, last: byte)
    ensures Magnitude(front + [last]) == FromLe(front + [last % 128])
  {
    assert (front + [last])[..|front|] == front;
  }

  lemma SignBit(x: byte)
    requires x < 128
    ensures x % 128 == x && (x + 128) % 128 == x && x + 128 >= 128
  {
  }

  /** A magnitude with a free top bit, signed there, reads back as signed. */
  lemma DecodeSigned(front: Bytes, last: byte)
    requires last < 128
    ensures Decode(front + [last]) == FromLe(front + [last])
    ensures Decode(front + [last + 128]) == -(FromLe(front + [last]) as int)
  {
    SignBit(last);
    MagnitudeOf(front, last);
    MagnitudeOf(front, last + 128);
  }

  /** An encoding ends in a byte with a free top bit, which holds the sign. */
  lemma EncodeShape(n: int) returns (front: Bytes, last: byte)
    requires n != 0
    ensures last < 128 && FromLe(front + [last]) == Abs(n)
    ensures Encode(n) == if n < 0 then front + [last + 128] else front + [last]
  {
    hide Digits, FromLe;
    DigitsLast(Abs(n));
    var d := Digits(Abs(n));
    var k := |d| - 1;
    assert d[..k] + [d[k]] == d;
    FromLeZero(d);
    front, last := if d[k] >= 128 then d else d[..k], if d[k] >= 128 then 0 else d[k];
  }

  /** Decoding inverts encoding, so no two numbers share an encoding. */
  lemma DecodeEncode(n: int)
    ensures Decode(Encode(n)) == n
  {
    if n == 0 {
      assert Decode([]) == 0;
    } else {
      hide Decode, Encode, FromLe;
      var front, last := EncodeShape(n);
      DecodeSigned(front, last);
    }
  }

  lemma DigitAt(s: Bytes, i: nat)
    requires i < |s|
    ensures s[i] as int == FromLe(s) / Pow256(i) % 256
  {
    Wire.LeFromLe(s);
    Wire.LeAt(FromLe(s), |s|, i);
  }

  /** The bytes of an encoding: none for zero; else the base-256 digits of the magnitude, lowest
      first, with the top bit of the last byte set exactly for a negative number. */
  lemma EncodeBytes(n: int, i: nat)
    ensures Encode(n) == [] <==> n == 0
    ensures n != 0 ==> (Encode(n)[|Encode(n)| - 1] >= 128 <==> n < 0)
    ensures i < |Encode(n)| ==>
              (if i == |Encode(n)| - 1 then Encode(n)[i] % 128 else Encode(n)[i]) as int
                == Abs(n) / Pow256(i) % 256
  {
    if n != 0 {
      hide Encode, FromLe, Digits, Pow256;
      var front, last := EncodeShape(n);
      SignBit(last);
      if i <= |front| { DigitAt(front + [last], i); }
    }
  }

  lemma EncodeIsInjective(a: int, b: int)
    requires Encode(a) == Encode(b)
    ensures a == b
  {
    DecodeEncode(a);
    DecodeEncode(b);
  }

  lemma {:induction false} ValueBound(b: Bytes, top: nat)
    requires b != [] && b[|b| - 1] as nat < top
    ensures FromLe(b) < top * Pow256(|b| - 1)
  {
    if |b| == 1 {
      assert FromLe(b[1..]) == 0;
    } else {
      ValueBound(b[1..], top);
      assert FromLe(b[1..]) + 1 <= top * Pow256(|b| - 2);
    }
  }

  lemma {:induction false} DigitsBound(n: nat)
    requires n > 0
    ensures n >= Digits(n)[|Digits(n)| - 1] as nat * Pow256(|Digits(n)| - 1)
  {
    DigitsLast(n);
    if n >= 256 {
      var q := n / 256;
      DigitsLast(q);
      DigitsBound(q);
      ScaleUp(q, Digits(q)[|Digits(q)| - 1] as nat, Pow256(|Digits(q)| - 1));
    }
  }

  lemma ScaleUp(q: nat, top: nat, p: nat)
    requires q >= top * p
    ensures 256 * q >= top * (256 * p)
  {
  }

  lemma {:induction false} Pow256Grows(m: nat, n: nat)
    requires m <= n
    ensures 1 <= Pow256(m) <= Pow256(n)
  {
    if n > 0 && m < n { Pow256Grows(m, n - 1); }
    if m == n && n > 0 { Pow256Grows(m - 1, n - 1); }
  }

  /** No byte string shorter than the encoding reads as the same number. */
  lemma EncodeIsMinimal(n: int, b: Bytes)
    requires Decode(b) == n
    ensures |Encode(n)| <= |b|
  {
    if n != 0 {
      var d, m := Digits(Abs(n)), |b| - 1;
      DigitsLast(Abs(n));
      var c := b[..m] + [b[m] % 128];
      assert FromLe(c) == Abs(n);
      hide FromLe, Digits;
      ValueBound(c, 128);
      DigitsBound(Abs(n));
      var k := |d| - 1;
      if m < k {
        Pow256Grows(m + 1, k);
        assert Pow256(m + 1) == 256 * Pow256(m);
        Pow256Grows(0, m);
        TopDigit(d[k] as nat, Pow256(k));
      } else if m == k && d[k] >= 128 {
        Pow256Grows(0, k);
        TopScaled(d[k] as nat, 128, Pow256(k));
      }
    }
  }

  lemma TopDigit(x: nat, p: nat)
    requires x >= 1
    ensures x * p >= p
  {
    TopScaled(x, 1, p);
  }

  lemma TopScaled(x: nat, y: nat, p: nat)
    requires x >= y
    ensures x * p >= y * p
  {
    assert x * p == y * p + (x - y) * p;
  }

  lemma DigitsStep(out: Bytes, rest: nat)
    requires rest != 0
    ensures out + Digits(rest) == out + [(rest % 256) as byte] + Digits(rest / 256)
  {
  }

  /** The byte-buffer loop of the program. */
  method DigitsInPlace(n: nat) returns (out: Bytes)
    ensures out == Digits(n)
  {
    var rest := n;
    out := [];
    while rest != 0
      invariant rest >= 0 && out + Digits(rest) == Digits(n)
      decreases rest
    {
      DigitsStep(out, rest);
      out := out + [(rest % 256) as byte];
      rest := rest / 256;
    }
  }

  method EncodeInPlace(n: int) returns (out: Bytes)
    ensures out == Encode(n)
  {
    if n == 0 { return []; }
    out := DigitsInPlace(Abs(n));
    DigitsLast(Abs(n));
    var k := |out| - 1;
    if out[k] >= 128 {
      out := out + [if n < 0 then 128 else 0];
    } else if n < 0 {
      out := out[k := out[k] + 128];
    }
  }

  // ---------- counts in scripts ----------

  const OP_1: nat := 0x51

  /** The small-integer opcode for 0 to 16. */
  function OpN(n: int): Option<byte> {
    if n == 0 then Some(0)
    else if 1 <= n <= 16 then Some((OP_1 + n - 1) as byte)
    else None
  }

  /** A count is pushed as its opcode if it has one, else as a script number. */
  function PushCount(n: int): Item {
    match OpN(n)
    case Some(code) => Op(code)
    case None => Push(Encode(n))
  }

  /** The item for a count: opcode 0 for zero, the opcodes from 0x51 on for 1 to 16, and else a push of
      the fewest bytes that read as the count. */
  lemma PushCountIs(n: int, b: Bytes)
    ensures n == 0 ==> PushCount(n) == Op(0)
    ensures 1 <= n <= 16 ==> PushCount(n) == Op((0x50 + n) as byte)
    ensures n < 0 || n > 16 ==>
              && PushCount(n).Push? && Decode(PushCount(n).data) == n
              && (Decode(b) == n ==> |PushCount(n).data| <= |b|)
  {
    DecodeEncode(n);
    if Decode(b) == n { EncodeIsMinimal(n, b); }
  }

  lemma PushCountIsInjective(a: int, b: int)
    requires PushCount(a) == PushCount(b)
    ensures a == b
  {
    if OpN(a).None? && OpN(b).None? { EncodeIsInjective(a, b); }
  }
}
