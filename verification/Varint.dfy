/** Bytes, and unsigned LEB128 integers (section 7.6 of DWARF Version 5), which the codec writes its lengths in. */
module Varint {
  import opened Frames

  newtype byte = x: int | 0 <= x < 256

  function Encode(n: nat): (r: seq<byte>)
    ensures 0 < |r|
  {
    if n < 128 then [n as byte] else [(n % 128 + 128) as byte] + Encode(n / 128)
  }

  function Length(n: nat): (r: nat)
    ensures r == |Encode(n)|
  {
    if n < 128 then 1 else 1 + Length(n / 128)
  }

  /** The number that these bytes are the digits of, the lowest seven bits first; the top bit is not part of it. */
  function Value(digits: seq<byte>): nat {
    if digits == [] then 0 else digits[0] as nat % 128 + 128 * Value(digits[1..])
  }

  /** Seven bits a byte, the lowest first; all but the last byte have the top bit set; no byte more than needed. */
  lemma {:induction false} EncodeDigits(n: nat)
    ensures var digits := Encode(n);
            && Value(digits) == n
            && (forall i | 0 <= i < |digits| :: 128 <= digits[i] <==> i < |digits| - 1)
            && (1 < |digits| ==> digits[|digits| - 1] != 0)
    decreases n
  {
    if 128 <= n {
      EncodeDigits(n / 128);
      assert Encode(n)[1..] == Encode(n / 128);
    }
  }

  /** The value at `offset` and the offset behind it; None when the buffer ends inside the integer. */
  function Decode(buf: seq<byte>, offset: nat): (r: Option<(nat, nat)>)
    ensures r.Some? ==> offset < r.value.1 <= |buf|
    decreases |buf| - offset
  {
    if |buf| <= offset then None
    else if buf[offset] < 128 then Some((buf[offset] as nat, offset + 1))
    else
      match Decode(buf, offset + 1)
      case None => None
      case Some((high, next)) => Some((buf[offset] as int - 128 + 128 * high, next))
  }

  /** Whatever surrounds it, an encoded integer is read back, and nothing beyond it is. */
  lemma {:induction false} RoundTrip(a: seq<byte>, n: nat, b: seq<byte>)
    ensures Decode(a + Encode(n) + b, |a|) == Some((n, |a| + Length(n)))
    decreases n
  {
    var buf := a + Encode(n) + b;
    assert buf[|a|] == Encode(n)[0];
    if 128 <= n {
      var a' := a + [Encode(n)[0]];
      assert a + Encode(n) == a' + Encode(n / 128);
      RoundTrip(a', n / 128, b);
    }
  }

  /** Reading depends only on the bytes read. */
  lemma {:induction false} DecodeLocal(x: seq<byte>, y: seq<byte>, shift: nat, offset: nat)
    requires Decode(x, offset).Some?
    requires shift + |x| <= |y| && forall i | 0 <= i < |x| :: x[i] == y[shift + i]
    ensures var (value, next) := Decode(x, offset).value;
            Decode(y, shift + offset) == Some((value, shift + next))
    decreases |x| - offset
  {
    assert x[offset] == y[shift + offset];
    if 128 <= x[offset] {
      DecodeLocal(x, y, shift, offset + 1);
    }
  }

  lemma {:induction false} LengthIsMonotone(a: nat, b: nat)
    requires a <= b
    ensures Length(a) <= Length(b)
    decreases b
  {
    if 128 <= a {
      LengthIsMonotone(a / 128, b / 128);
    }
  }

  /** The low two bits of a value never decide its length. */
  lemma LengthOfTag(n: nat, tag: nat)
    requires tag < 4
    ensures Length(4 * n + tag) == Length(4 * n)
  {
    var q, r := n / 32, n % 32;
    assert 4 * n == 128 * q + 4 * r && 4 * r + tag < 128;
    assert (4 * n + tag) / 128 == q && (4 * n) / 128 == q;
  }

  /** One byte up to 127, and from there on never more than a third of the value's excess. */
  lemma {:induction false} LengthIsSmall(n: nat)
    ensures n < 128 ==> Length(n) == 1
    ensures 128 <= n ==> 4 * Length(n) <= n
  {
    if 128 <= n {
      LengthIsSmall(n / 128);
    }
  }
}
