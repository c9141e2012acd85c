/** Bytes, concatenation of byte strings, and the decimal notation of the wire formats. */
module Bytes {

  type byte = x: int | 0 <= x < 256

  type bytes = seq<byte>

  const ZERO: byte := 48
  const COLON: byte := 58
  const COMMA: byte := 44
  const SPACE: byte := 32

  function Concat(parts: seq<bytes>): bytes
  {
    if parts == [] then [] else parts[0] + Concat(parts[1..])
  }

  lemma {:induction false} ConcatAppend(a: seq<bytes>, b: seq<bytes>)
    ensures Concat(a + b) == Concat(a) + Concat(b)
  {
    if a == [] {
      assert a + b == b;
    } else {
      assert (a + b)[1..] == a[1..] + b;
      ConcatAppend(a[1..], b);
    }
  }

  lemma ConcatOne(p: bytes)
    ensures Concat([p]) == p
  {
    assert Concat([p]) == p + Concat([]);
  }

  lemma ConcatLast(parts: seq<bytes>)
    requires parts != []
    ensures Concat(parts) == Concat(parts[..|parts| - 1]) + parts[|parts| - 1]
  {
    var n := |parts| - 1;
    assert parts == parts[..n] + [parts[n]];
    ConcatAppend(parts[..n], [parts[n]]);
    ConcatOne(parts[n]);
  }

  predicate IsDigit(b: byte)
  {
    ZERO <= b <= ZERO + 9
  }

  /** The decimal notation of n, without leading zeros. */
  function Decimal(n: nat): (r: bytes)
    ensures r != []
    ensures forall i :: 0 <= i < |r| ==> IsDigit(r[i])
  {
    if n < 10 then [ZERO + n] else Decimal(n / 10) + [ZERO + n % 10]
  }

  /** Reading digits one by one on top of the value read so far. */
  function Accumulate(value: nat, digits: bytes): nat
    requires forall i :: 0 <= i < |digits| ==> IsDigit(digits[i])
    decreases digits
  {
    if digits == [] then value
    else
      assert IsDigit(digits[0]);
      Accumulate(value * 10 + (digits[0] - ZERO), digits[1..])
  }

  lemma {:induction false} AccumulateSnoc(value: nat, digits: bytes, d: byte)
    requires IsDigit(d) && forall i :: 0 <= i < |digits| ==> IsDigit(digits[i])
    ensures Accumulate(value, digits + [d]) == Accumulate(value, digits) * 10 + (d - ZERO)
    decreases digits
  {
    if digits == [] {
      assert digits + [d] == [d];
      assert [d][1..] == [];
    } else {
      assert (digits + [d])[1..] == digits[1..] + [d];
      AccumulateSnoc(value * 10 + (digits[0] - ZERO), digits[1..], d);
    }
  }

  /** Reading a number's own decimal notation gives the number back. */
  lemma {:induction false} DecimalReadsBack(n: nat)
    ensures Accumulate(0, Decimal(n)) == n
  {
    if n < 10 {
      assert Decimal(n)[1..] == [];
    } else {
      DecimalReadsBack(n / 10);
      AccumulateSnoc(0, Decimal(n / 10), ZERO + n % 10);
    }
  }
}

/** Reading from a socket, which delivers its bytes in pieces of any size. */
module Readers {
  import opened Bytes

  /** A byte source that hands out its data in arbitrary non-empty pieces. */
  class Reader {
    var data: bytes
    // Sizes of the next pieces, where the reader asks for that much.
    var pieces: seq<nat>

    constructor (data: bytes, pieces: seq<nat>)
      ensures this.data == data && this.pieces == pieces
    {
      this.data, this.pieces := data, pieces;
    }

    /** Up to max bytes; none only at the end of the data. */
    method Read(max: nat) returns (got: bytes)
      requires max > 0
      modifies this
      ensures |got| <= max && got + data == old(data)
      ensures got == [] <==> old(data) == []
    {
      var n := max;
      if pieces != [] {
        n := if pieces[0] == 0 then 1 else if pieces[0] < max then pieces[0] else max;
        pieces := pieces[1..];
      }
      n := if n < |data| then n else |data|;
      got, data := data[..n], data[n..];
    }
  }
}
