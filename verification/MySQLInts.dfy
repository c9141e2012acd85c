/** The fixed-length and length-encoded integers of the MySQL protocol, in 64-bit Go arithmetic. */
module MySQLInts {
  import opened Bytes

  const TWO64: int := 0x1_0000_0000_0000_0000
  const TWO63: int := 0x8000_0000_0000_0000

  function Pow256(k: nat): (p: nat)
    ensures p > 0
  {
    if k == 0 then 1 else 256 * Pow256(k - 1)
  }

  /** byte(n >> 8k): the k-th byte of n in two's complement. */
  function ByteAt(n: int, k: nat): byte
  {
    n / Pow256(k) % 256
  }

  /** n in l bytes, least significant first. */
  function Little(n: int, l: nat): (r: bytes)
    ensures |r| == l
  {
    seq(l, k requires 0 <= k < l => ByteAt(n, k))
  }

  function FromLittle(b: bytes): nat
  {
    if b == [] then 0
    else FromLittle(b[..|b| - 1]) + b[|b| - 1] as int * Pow256(|b| - 1)
  }

  lemma MulMonotone(a: int, b: int, m: int)
    requires a <= b && m >= 0
    ensures a * m <= b * m
  {
  }

  lemma ModByParts(n: int, m: int, q: int, r: int)
    requires m > 0 && n == q * m + r && 0 <= r < m
    ensures n % m == r
  {
    var d, e := n / m, n % m;
    assert n == d * m + e;
    if q < d {
      MulMonotone(q + 1, d, m);
    } else if d < q {
      MulMonotone(d + 1, q, m);
    }
  }

  /** One more byte of modulus adds one more byte of the number. */
  lemma ModStep(n: int, m: int)
    requires m > 0
    ensures n % (256 * m) == n % m + m * (n / m % 256)
  {
    var q, r := n / m, n % m;
    var t, s := q / 256, q % 256;
    assert n == m * q + r && q == 256 * t + s;
    assert m * q == m * (256 * t) + m * s;
    assert m * (256 * t) == t * (256 * m);
    MulMonotone(0, s, m);
    MulMonotone(s, 255, m);
    ModByParts(n, 256 * m, t, m * s + r);
  }

  /** Writing n in l bytes and reading them back keeps n modulo 256^l. */
  lemma {:induction false} LittleReadsBack(n: int, l: nat)
    ensures FromLittle(Little(n, l)) == n % Pow256(l)
  {
    if l > 0 {
      LittleReadsBack(n, l - 1);
      assert Little(n, l)[..l - 1] == Little(n, l - 1);
      ModStep(n, Pow256(l - 1));
    }
  }

  lemma Pow256Values()
    ensures Pow256(1) == 0x100 && Pow256(2) == 0x1_0000 && Pow256(3) == 0x100_0000 && Pow256(4) == 0x1_0000_0000
    ensures Pow256(5) == 0x100_0000_0000 && Pow256(6) == 0x1_0000_0000_0000
    ensures Pow256(7) == 0x100_0000_0000_0000 && Pow256(8) == TWO64
  {
    assert Pow256(2) == 256 * Pow256(1);
    assert Pow256(4) == 256 * Pow256(3) == 256 * (256 * Pow256(2));
    assert Pow256(6) == 256 * Pow256(5) == 256 * (256 * Pow256(4));
    assert Pow256(8) == 256 * Pow256(7) == 256 * (256 * Pow256(6));
  }

  predicate IsInt64(n: int)
  {
    -TWO63 <= n < TWO63
  }

  /** int(n) of a uint64. */
  function Signed64(n: nat): (r: int)
    requires n < TWO64
    ensures IsInt64(r) && r % TWO64 == n
  {
    if n < TWO63 then n else n - TWO64
  }

  predicate FixedSize(l: nat)
  {
    l in {1, 2, 3, 4, 6, 8}
  }

  method WriteFixedLenInt(data: array<byte>, l: nat, n: int, pos: nat) returns (next: nat)
    requires FixedSize(l) && pos + l <= data.Length && IsInt64(n)
    modifies data
    ensures next == pos + l
    ensures data[..] == old(data[..pos]) + Little(n, l) + old(data[pos + l..])
  {
    if l == 8 {
      data[pos + 7] := ByteAt(n, 7);
      data[pos + 6] := ByteAt(n, 6);
    }
    if l >= 6 {
      data[pos + 5] := ByteAt(n, 5);
      data[pos + 4] := ByteAt(n, 4);
    }
    if l >= 4 {
      data[pos + 3] := ByteAt(n, 3);
    }
    if l >= 3 {
      data[pos + 2] := ByteAt(n, 2);
    }
    if l >= 2 {
      data[pos + 1] := ByteAt(n, 1);
    }
    data[pos] := ByteAt(n, 0);
    next := pos + l;
  }

  /** The value of l bytes as the Go int that ReadFixedLenInt returns. */
  function FixedValue(b: bytes): (n: int)
    requires FixedSize(|b|)
    ensures IsInt64(n)
  {
    FromLittleBound(b);
    Pow256Values();
    Signed64(FromLittle(b))
  }

  lemma {:induction false} FromLittleBound(b: bytes)
    ensures FromLittle(b) < Pow256(|b|)
  {
    if b != [] {
      FromLittleBound(b[..|b| - 1]);
      MulMonotone(b[|b| - 1], 255, Pow256(|b| - 1));
    }
  }

  /** Reads l bytes; or-ing bytes shifted to different places adds them up. */
  method ReadFixedLenInt(data: bytes, l: nat, pos: nat) returns (n: int, next: nat)
    requires FixedSize(l) && pos + l <= |data|
    ensures next == pos + l && n == FixedValue(data[pos..pos + l])
  {
    var u := 0;
    if l == 8 {
      u := u + data[pos + 7] as int * Pow256(7);
      u := u + data[pos + 6] as int * Pow256(6);
    }
    if l >= 6 {
      u := u + data[pos + 5] as int * Pow256(5);
      u := u + data[pos + 4] as int * Pow256(4);
    }
    if l >= 4 {
      u := u + data[pos + 3] as int * Pow256(3);
    }
    if l >= 3 {
      u := u + data[pos + 2] as int * Pow256(2);
    }
    if l >= 2 {
      u := u + data[pos + 1] as int * Pow256(1);
    }
    u := u + data[pos] as int;
    SumOfBytes(data[pos..pos + l]);
    FromLittleBound(data[pos..pos + l]);
    Pow256Values();
    n := Signed64(u);
    next := pos + l;
  }

  ghost function Term(b: bytes, k: nat): int
  {
    if k < |b| then b[k] as int * Pow256(k) else 0
  }

  lemma {:induction false} SumOfBytes(b: bytes)
    requires 1 <= |b| <= 8
    ensures FromLittle(b) == Term(b, 0) + Term(b, 1) + Term(b, 2) + Term(b, 3)
                             + Term(b, 4) + Term(b, 5) + Term(b, 6) + Term(b, 7)
  {
    var n := |b| - 1;
    if n == 0 {
      assert FromLittle(b[..0]) == 0;
    } else {
      SumOfBytes(b[..n]);
      assert forall k :: 0 <= k < n ==> Term(b[..n], k) == Term(b, k);
      assert FromLittle(b) == FromLittle(b[..n]) + Term(b, n);
    }
  }

  /** A fixed integer reads back modulo 256^l, so an 8-byte one reads back as itself. */
  lemma FixedReadsBack(n: int, l: nat)
    requires FixedSize(l) && IsInt64(n)
    ensures FixedValue(Little(n, l)) == if l == 8 then n else n % Pow256(l)
  {
    LittleReadsBack(n, l);
    Pow256Values();
    if l == 8 {
      ModByParts(n, TWO64, if n < 0 then -1 else 0, if n < 0 then n + TWO64 else n);
    }
  }

  /** calculateLenEnc: the width of a length-encoded integer. */
  function LenEncWidth(n: nat): (l: nat)
    ensures l in {1, 3, 4, 9}
  {
    if n < 251 then 1 else if n < 0x1_0000 then 3 else if n < 0x100_0000 then 4 else 9
  }

  function Prefix(l: nat): byte
  {
    if l == 3 then 0xfc else if l == 4 then 0xfd else 0xfe
  }

  /** The bytes of a length-encoded integer: a prefix that tells the width, then the number. */
  function LenEnc(n: nat): (r: bytes)
    requires n < TWO64
    ensures |r| == LenEncWidth(n)
  {
    var l := LenEncWidth(n);
    if l == 1 then Little(Signed64(n), 1)
    else [Prefix(l)] + Little(Signed64(n), l - 1)
  }

  method WriteLenEncInt(data: array<byte>, n: nat, pos: nat) returns (next: nat)
    requires n < TWO64 && pos + LenEncWidth(n) <= data.Length
    modifies data
    ensures next == pos + LenEncWidth(n)
    ensures data[..] == old(data[..pos]) + LenEnc(n) + old(data[pos + LenEncWidth(n)..])
  {
    var l := LenEncWidth(n);
    if l == 1 {
      next := WriteFixedLenInt(data, l, Signed64(n), pos);
    } else {
      data[pos] := Prefix(l);
      ghost var before, after := old(data[..pos]), old(data[pos + l..]);
      assert data[..pos + 1] == before + [Prefix(l)] && data[pos + 1 + (l - 1)..] == after;
      next := WriteFixedLenInt(data, l - 1, Signed64(n), pos + 1);
      assert before + [Prefix(l)] + Little(Signed64(n), l - 1) + after
          == before + ([Prefix(l)] + Little(Signed64(n), l - 1)) + after;
    }
  }

  /** The width a first byte announces; 0xfb and 0xff count as eight-byte integers. */
  function Announced(first: byte): (l: nat)
    ensures l in {1, 3, 4, 9}
  {
    if first < 0xfb then 1 else if first == 0xfc then 3 else if first == 0xfd then 4 else 9
  }

  function LenEncValue(b: bytes): (n: int)
    requires b != [] && |b| == Announced(b[0])
    ensures IsInt64(n)
  {
    if |b| == 1 then FixedValue(b) else FixedValue(b[1..])
  }

  method ReadLenEncInt(data: bytes, pos: nat) returns (n: int, next: nat)
    requires pos < |data| && pos + Announced(data[pos]) <= |data|
    ensures next == pos + Announced(data[pos])
    ensures n == LenEncValue(data[pos..pos + Announced(data[pos])])
  {
    var first := data[pos];
    ghost var b := data[pos..pos + Announced(first)];
    if first < 0xfb {
      n, next := ReadFixedLenInt(data, 1, pos);
      return;
    }
    assert b[1..] == data[pos + 1..pos + Announced(first)];
    match first {
      case 0xfc => n, next := ReadFixedLenInt(data, 2, pos + 1);
      case 0xfd => n, next := ReadFixedLenInt(data, 3, pos + 1);
      case _ => n, next := ReadFixedLenInt(data, 8, pos + 1);
    }
  }

  lemma LenEncAloneReadsBack(n: nat)
    requires n < TWO64
    ensures Announced(LenEnc(n)[0]) == LenEncWidth(n) && LenEncValue(LenEnc(n)) == Signed64(n)
  {
    var l := LenEncWidth(n);
    Pow256Values();
    FixedReadsBack(Signed64(n), if l == 1 then 1 else l - 1);
    if l == 1 {
      assert LenEnc(n)[0] == ByteAt(n, 0) == n;
    } else {
      assert LenEnc(n)[1..] == Little(Signed64(n), l - 1);
    }
  }

  /** Every 64-bit number, at any place in a buffer, reads back as the same bit pattern and width. */
  lemma LenEncReadsBack(n: nat, before: bytes, after: bytes)
    requires n < TWO64
    ensures var data := before + LenEnc(n) + after;
            var pos := |before|;
            && Announced(data[pos]) == LenEncWidth(n)
            && LenEncValue(data[pos..pos + LenEncWidth(n)]) == Signed64(n)
  {
    LenEncAloneReadsBack(n);
    var data := before + LenEnc(n) + after;
    assert data[|before|..|before| + LenEncWidth(n)] == LenEnc(n);
    assert data[|before|] == LenEnc(n)[0];
  }

  lemma LowBytes(n: int)
    ensures ByteAt(n, 0) == n % 256 && ByteAt(n, 1) == n / 256 % 256 && ByteAt(n, 2) == n / 0x1_0000 % 256
  {
    Pow256Values();
  }

  lemma TopByte(n: nat, m: nat)
    requires 0 < m && n < 256 * m
    ensures n / m % 256 == n / m
  {
    assert 0 <= n / m < 256;
  }

  /** The bytes on the wire: one byte below 251, else 252 with two or 253 with three bytes, low byte first, or 254 with eight. */
  lemma LenEncBytes(n: nat)
    requires n < TWO64
    ensures n < 251 ==> LenEnc(n) == [n]
    ensures 251 <= n < 0x1_0000 ==> LenEnc(n) == [252, n % 256, n / 256]
    ensures 0x1_0000 <= n < 0x100_0000 ==> LenEnc(n) == [253, n % 256, n / 256 % 256, n / 0x1_0000]
    ensures 0x100_0000 <= n ==> |LenEnc(n)| == 9 && LenEnc(n)[0] == 254
  {
    LowBytes(n);
    if n < 251 {
      assert Little(n, 1) == [ByteAt(n, 0)];
    } else if n < 0x1_0000 {
      TopByte(n, 256);
      assert Little(n, 2) == [ByteAt(n, 0), ByteAt(n, 1)];
    } else if n < 0x100_0000 {
      TopByte(n, 0x1_0000);
      assert Little(n, 3) == [ByteAt(n, 0), ByteAt(n, 1), ByteAt(n, 2)];
    }
  }
}
