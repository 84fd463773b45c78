/** Lists of fixed-size values as the bytewise difference of each from the one before, run-length coded. */
module Compression {
  import opened Frames
  import opened Varint
  import Bitfield

  /** u16::MAX */
  const MAX_BUFFER_SIZE: nat := 65535

  /** A value as its bytes. */
  type Value = seq<byte>

  datatype Encoded = Bytes(bytes: seq<byte>) | EncodeTooBig(len: nat)

  datatype DecodeResult =
    | Values(values: seq<Value>)
    | InvalidRLE(offset: nat, len: nat)
    | DecodeTooBig(len: nat)
    | Truncated

  function XorBits(a: nat, b: nat): (r: nat) {
    if a == 0 && b == 0 then 0
    else 2 * XorBits(a / 2, b / 2) + (if a % 2 == b % 2 then 0 else 1)
  }

  lemma {:induction false} XorBound(a: nat, b: nat, bound: nat)
    requires a < bound && b < bound
    requires bound == 1 || bound == 2 || bound == 4 || bound == 8 || bound == 16 || bound == 32 || bound == 64
             || bound == 128 || bound == 256
    ensures XorBits(a, b) < bound
    decreases bound
  {
    if bound != 1 {
      XorBound(a / 2, b / 2, bound / 2);
    }
  }

  function Xor(a: byte, b: byte): byte {
    XorBound(a as nat, b as nat, 256);
    XorBits(a as nat, b as nat) as byte
  }

  function PowerOfTwo(k: nat): (r: nat)
    ensures 0 < r
  {
    if k == 0 then 1 else 2 * PowerOfTwo(k - 1)
  }

  /** A bit further up is a bit of the half. */
  lemma BitOfHalf(a: nat, k: nat)
    requires 0 < k
    ensures a / PowerOfTwo(k) == a / 2 / PowerOfTwo(k - 1)
  {
    var p := PowerOfTwo(k - 1);
    var (q, r) := (a / 2 / p, a / 2 % p);
    assert a / 2 == q * p + r;
    assert q * (2 * p) == 2 * (q * p);
    SameDivision(a / (2 * p), a % (2 * p), q, 2 * r + a % 2, 2 * p);
  }

  lemma {:induction false} XorBitsAt(a: nat, b: nat, k: nat)
    ensures XorBits(a, b) / PowerOfTwo(k) % 2 == 1 <==> a / PowerOfTwo(k) % 2 != b / PowerOfTwo(k) % 2
    decreases k
  {
    if 0 < k {
      BitOfHalf(a, k);
      BitOfHalf(b, k);
      BitOfHalf(XorBits(a, b), k);
      XorBitsAt(a / 2, b / 2, k - 1);
      assert XorBits(a, b) / 2 == XorBits(a / 2, b / 2);
    }
  }

  /** The difference of two bytes is their exclusive or: a bit of it is set exactly when that bit of them differs. */
  lemma {:induction false} XorIsExclusive(a: byte, b: byte, bit: nat)
    requires bit in {1, 2, 4, 8, 16, 32, 64, 128}
    ensures (Xor(a, b) as nat) / bit % 2 == 1 <==> (a as nat) / bit % 2 != (b as nat) / bit % 2
  {
    var k := if bit == 1 then 0 else if bit == 2 then 1 else if bit == 4 then 2 else if bit == 8 then 3
             else if bit == 16 then 4 else if bit == 32 then 5 else if bit == 64 then 6 else 7;
    assert PowerOfTwo(0) == 1 && PowerOfTwo(1) == 2 && PowerOfTwo(2) == 4 && PowerOfTwo(3) == 8;
    assert PowerOfTwo(4) == 16 && PowerOfTwo(5) == 32 && PowerOfTwo(6) == 64 && PowerOfTwo(7) == 128;
    XorBitsAt(a as nat, b as nat, k);
  }

  lemma {:induction false} XorBitsUndoes(a: nat, b: nat)
    ensures XorBits(a, XorBits(a, b)) == b
    decreases a + b
  {
    if a != 0 || b != 0 {
      XorBitsUndoes(a / 2, b / 2);
      assert XorBits(a, b) / 2 == XorBits(a / 2, b / 2);
    }
  }

  /** Applying the difference of two bytes to the first gives the second. */
  lemma XorUndoes(a: byte, b: byte)
    ensures Xor(a, Xor(a, b)) == b
  {
    XorBitsUndoes(a as nat, b as nat);
  }

  function XorValue(a: Value, b: Value): (r: Value)
    requires |a| == |b|
    ensures |r| == |a|
  {
    seq(|a|, i requires 0 <= i < |a| => Xor(a[i], b[i]))
  }

  lemma XorValueUndoes(a: Value, b: Value)
    requires |a| == |b|
    ensures XorValue(a, XorValue(a, b)) == b
  {
    forall i | 0 <= i < |a| ensures XorValue(a, XorValue(a, b))[i] == b[i] {
      XorUndoes(a[i], b[i]);
    }
  }

  predicate Sized(values: seq<Value>, stride: nat) {
    forall i | 0 <= i < |values| :: |values[i]| == stride
  }

  /** Every value's difference from its predecessor, the first one's from the base. */
  function Delta(base: Value, values: seq<Value>): (r: seq<byte>)
    requires Sized(values, |base|)
    ensures |r| == |values| * |base|
    decreases |values|
  {
    if values == [] then [] else XorValue(base, values[0]) + Delta(values[0], values[1..])
  }

  /** The values whose differences these are; a trailing fragment is dropped. */
  function Undelta(base: Value, delta: seq<byte>): (r: seq<Value>)
    requires base != []
    ensures Sized(r, |base|)
    decreases |delta|
  {
    if |delta| < |base| then []
    else
      var value := XorValue(base, delta[..|base|]);
      [value] + Undelta(value, delta[|base|..])
  }

  lemma {:induction false} DeltaRoundTrip(base: Value, values: seq<Value>)
    requires base != [] && Sized(values, |base|)
    ensures Undelta(base, Delta(base, values)) == values
    decreases |values|
  {
    if values != [] {
      var delta := Delta(base, values);
      assert |delta| >= |base|;
      assert delta[..|base|] == XorValue(base, values[0]) && delta[|base|..] == Delta(values[0], values[1..]);
      XorValueUndoes(base, values[0]);
      DeltaRoundTrip(values[0], values[1..]);
    }
  }

  lemma {:induction false} XorBitsSame(a: nat)
    ensures XorBits(a, a) == 0
  {
    if a != 0 {
      XorBitsSame(a / 2);
    }
  }

  lemma {:induction false} XorBitsZero(a: nat)
    ensures XorBits(0, a) == a
  {
    if a != 0 {
      XorBitsZero(a / 2);
    }
  }

  lemma RepeatGrows(n: nat, k: nat)
    ensures Repeat<byte>(k, 0) + Repeat<byte>(n * k, 0) == Repeat<byte>((n + 1) * k, 0)
  {
  }

  /** A value that does not change costs zeros only. */
  lemma {:induction false} SteadyDelta(v: Value, n: nat)
    ensures Sized(Repeat(n, v), |v|) && Delta(v, Repeat(n, v)) == Repeat(n * |v|, 0)
  {
    if 0 < n {
      forall i | 0 <= i < |v| ensures XorValue(v, v)[i] == 0 {
        XorBitsSame(v[i] as nat);
      }
      assert XorValue(v, v) == Repeat(|v|, 0) && Repeat(n, v)[1..] == Repeat(n - 1, v);
      SteadyDelta(v, n - 1);
      RepeatGrows(n - 1, |v|);
    }
  }

  /** The first of n equal values is sent as it is, the others as zeros. */
  lemma {:induction false} EqualValuesDelta(v: Value, n: nat)
    requires 0 < n
    ensures Sized(Repeat(n, v), |Repeat<byte>(|v|, 0)|)
    ensures Delta(Repeat(|v|, 0), Repeat(n, v)) == v + Repeat((n - 1) * |v|, 0)
  {
    forall i | 0 <= i < |v| ensures XorValue(Repeat(|v|, 0), v)[i] == v[i] {
      XorBitsZero(v[i] as nat);
    }
    assert XorValue(Repeat(|v|, 0), v) == v && Repeat(n, v)[1..] == Repeat(n - 1, v);
    SteadyDelta(v, n - 1);
  }

  /** How many of the values fit before the size limit is hit, none of them if that is never. */
  function Overflow(count: nat, stride: nat): Option<nat> {
    OverflowFrom(0, count, stride)
  }

  function OverflowFrom(size: nat, count: nat, stride: nat): (r: Option<nat>)
    ensures r.None? <==> count == 0 || size + count * stride < MAX_BUFFER_SIZE
    ensures r.Some? ==> MAX_BUFFER_SIZE <= r.value
    decreases count
  {
    if count == 0 then None
    else if size + stride >= MAX_BUFFER_SIZE then Some(size + stride)
    else OverflowFrom(size + stride, count - 1, stride)
  }

  /** It succeeds exactly when the differences stay below the limit. */
  function Encode(base: Value, values: seq<Value>): (r: Encoded)
    requires Sized(values, |base|)
    ensures r.Bytes? <==> values == [] || |values| * |base| < MAX_BUFFER_SIZE
  {
    match Overflow(|values|, |base|)
    case Some(len) => EncodeTooBig(len)
    case None => Bytes(Bitfield.Encode(Delta(base, values)))
  }

  function Decode(base: Value, bytes: seq<byte>): DecodeResult
    requires base != []
  {
    match Bitfield.DecodeLen(bytes, 0)
    case InvalidRLEBitfield(offset, len) => InvalidRLE(offset, len)
    case Truncated => Truncated
    case Ok(len) =>
      if len > MAX_BUFFER_SIZE then DecodeTooBig(len)
      else Values(Undelta(base, Bitfield.DecodeFrom(bytes, 0)))
  }

  /** A packet that the decoder goes on with holds a whole number of values; one that does not fails an assertion. */
  predicate WholeValues(bytes: seq<byte>, stride: nat)
    requires 0 < stride
  {
    var len := Bitfield.DecodeLen(bytes, 0);
    len.Ok? && len.value <= MAX_BUFFER_SIZE ==> len.value % stride == 0
  }

  /** Whatever could be encoded is whole. */
  lemma {:induction false} EncodedIsWhole(base: Value, values: seq<Value>)
    requires base != [] && Sized(values, |base|) && Encode(base, values).Bytes?
    ensures WholeValues(Encode(base, values).bytes, |base|)
  {
    var delta := Delta(base, values);
    Bitfield.RoundTrip(delta);
    assert |Bitfield.DecodeFrom(Bitfield.Encode(delta), 0)| == |values| * |base|;
    MultipleIsWhole(|values|, |base|);
  }

  lemma MultipleIsWhole(n: nat, stride: nat)
    requires 0 < stride
    ensures (n * stride) % stride == 0
  {
    SameDivision(n * stride / stride, n * stride % stride, n, 0, stride);
  }

  lemma Distributes(a: int, b: int, c: int)
    ensures (a - b) * c == a * c - b * c
  {
  }

  lemma AtLeast(a: int, c: nat)
    requires 0 < a
    ensures c <= a * c
  {
  }

  lemma SameDivision(q: int, r: nat, n: nat, s: nat, stride: nat)
    requires q * stride + r == n * stride + s && r < stride && s < stride
    ensures q == n && r == s
  {
    Distributes(n, q, stride);
    Distributes(q, n, stride);
    if q < n {
      AtLeast(n - q, stride);
    } else if n < q {
      AtLeast(q - n, stride);
    }
  }

  /**
   Whatever could be encoded decodes to the same values against the same base; in particular it is never too big to
   decode.
   */
  lemma {:induction false} RoundTrip(base: Value, values: seq<Value>)
    requires base != [] && Sized(values, |base|)
    ensures var e := Encode(base, values); e.Bytes? ==> Decode(base, e.bytes) == Values(values)
  {
    if Encode(base, values).Bytes? {
      Bitfield.RoundTrip(Delta(base, values));
      DeltaRoundTrip(base, values);
    }
  }

  /** One more value. */
  lemma DeltaMore(base: Value, values: seq<Value>, rest: seq<byte>, delta: seq<byte>)
    requires values != [] && Sized(values, |base|) && rest == Delta(values[0], values[1..])
    requires delta == XorValue(base, values[0]) + rest
    ensures Delta(base, values) == delta
  {
  }

  lemma ExclusiveOrs()
    ensures Xor(5, 6) == 3 && Xor(0x55, 0xAA) == 0xFF && Xor(0xAA, 0x0F) == 0xA5 && Xor(0, 5) == 5 && Xor(15, 15) == 0
  {
  }

  /** Inputs that differ, on the wire: literals and runs of their exclusive ors. */
  lemma {:induction false} UnequalValuesOnTheWire()
    ensures Encode([0], [[5], [6]]) == Bytes([4, 5, 3])
    ensures Encode([0x55], [[0xAA], [0x0F], [0x0F]]) == Bytes([7, 2, 0xA5, 5])
  {
    ExclusiveOrs();
    hide Xor, Delta, Bitfield.Encode;
    DeltaOfNone([6]);
    DeltaOfNone([0x0F]);
    assert [[6]][1..] == [] && [[5], [6]][1..] == [[6]] && [[0x0F]][1..] == [];
    assert [[0x0F], [0x0F]][1..] == [[0x0F]] && [[0xAA], [0x0F], [0x0F]][1..] == [[0x0F], [0x0F]];
    DeltaMore([5], [[6]], [], [3]);
    DeltaMore([0], [[5], [6]], [3], [5, 3]);
    DeltaMore([0x0F], [[0x0F]], [], [0]);
    DeltaMore([0xAA], [[0x0F], [0x0F]], [0], [0xA5, 0]);
    DeltaMore([0x55], [[0xAA], [0x0F], [0x0F]], [0xA5, 0], [0xFF, 0xA5, 0]);
    Bitfield.SmallWireFormat();
  }

  lemma DeltaOfNone(base: Value)
    ensures Delta(base, []) == []
  {
  }

  lemma UndeltaStep(base: Value, delta: seq<byte>)
    requires base != [] && |base| <= |delta|
    ensures var value := XorValue(base, delta[..|base|]);
            Undelta(base, delta) == [value] + Undelta(value, delta[|base|..])
  {
  }

  /** Of whole values nothing is dropped: the values given back are those whose differences these are. */
  lemma {:induction false} UndeltaLosesNothing(base: Value, delta: seq<byte>)
    requires base != [] && |delta| % |base| == 0
    ensures Delta(base, Undelta(base, delta)) == delta
    decreases |delta|
  {
    if |base| <= |delta| {
      var value := XorValue(base, delta[..|base|]);
      UndeltaStep(base, delta);
      SameDivision(|delta| / |base| - 1, 0, (|delta| - |base|) / |base|, (|delta| - |base|) % |base|, |base|);
      UndeltaLosesNothing(value, delta[|base|..]);
      XorValueUndoes(base, delta[..|base|]);
      hide Undelta, XorValue;
      assert ([value] + Undelta(value, delta[|base|..]))[1..] == Undelta(value, delta[|base|..]);
      assert delta == delta[..|base|] + delta[|base|..];
    } else {
      SameDivision(0, |delta|, |delta| / |base|, 0, |base|);
    }
  }

  /** What becomes of any packet of whole values, from what its run-length code announces. */
  lemma {:induction false} DecodeMeans(base: Value, bytes: seq<byte>)
    requires base != [] && WholeValues(bytes, |base|)
    ensures match Bitfield.DecodeLen(bytes, 0)
            case Ok(len) =>
              if 65535 < len then Decode(base, bytes) == DecodeTooBig(len)
              else
                && Decode(base, bytes).Values?
                && var values := Decode(base, bytes).values;
                   Sized(values, |base|) && Delta(base, values) == Bitfield.DecodeFrom(bytes, 0)
            case InvalidRLEBitfield(offset, len) => Decode(base, bytes) == InvalidRLE(offset, len)
            case Truncated => Decode(base, bytes) == Truncated
  {
    var len := Bitfield.DecodeLen(bytes, 0);
    if len.Ok? && len.value <= 65535 {
      UndeltaLosesNothing(base, Bitfield.DecodeFrom(bytes, 0));
    }
  }

  /** Too many values fail at the first one that reaches the limit, with the size they have then. */
  lemma {:induction false} TooBigAtFirst(base: Value, values: seq<Value>) returns (k: nat)
    requires Sized(values, |base|) && !Encode(base, values).Bytes?
    ensures 0 < k <= |values| && (k - 1) * |base| < 65535 <= k * |base|
    ensures Encode(base, values) == EncodeTooBig(k * |base|)
  {
    k := OverflowsAt(0, |values|, |base|);
  }

  lemma {:induction false} OverflowsAt(size: nat, count: nat, stride: nat) returns (k: nat)
    requires size < MAX_BUFFER_SIZE && OverflowFrom(size, count, stride).Some?
    ensures 0 < k <= count && size + (k - 1) * stride < MAX_BUFFER_SIZE <= size + k * stride
    ensures OverflowFrom(size, count, stride) == Some(size + k * stride)
    decreases count
  {
    if size + stride >= MAX_BUFFER_SIZE {
      k := 1;
    } else {
      var j := OverflowsAt(size + stride, count - 1, stride);
      k := j + 1;
      Distributes(j, -1, stride);
    }
  }

  // ---------------------------------------------------------------------------------------------
  // The loops
  // ---------------------------------------------------------------------------------------------

  /** Appends one value's difference to the output and makes the value the next base, byte by byte in place. */
  method DeltaOne(bits: array<byte>, value: Value, bytes: seq<byte>) returns (r: seq<byte>)
    requires |value| == bits.Length
    modifies bits
    ensures bits[..] == value
    ensures r == bytes + XorValue(old(bits[..]), value)
  {
    r := bytes;
    for i := 0 to bits.Length
      invariant bits[..i] == value[..i] && bits[i..] == old(bits[i..])
      invariant r == bytes + XorValue(old(bits[..]), value)[..i]
    {
      assert bits[i] == bits[i..][0] == old(bits[i..])[0] == old(bits[i]);
      r := r + [Xor(bits[i], value[i])];
      bits[i] := value[i];
      assert bits[i + 1..] == old(bits[i..])[1..];
      assert bits[..i + 1] == bits[..i] + [value[i]];
    }
  }

  lemma DeltaStep(last: Value, values: seq<Value>, k: nat)
    requires k < |values| && Sized(values, |last|)
    ensures Delta(last, values[k..]) == XorValue(last, values[k]) + Delta(values[k], values[k + 1..])
  {
    assert values[k..][1..] == values[k + 1..];
  }

  lemma DeltaEnd(last: Value, values: seq<Value>)
    ensures Sized(values[|values|..], |last|) && Delta(last, values[|values|..]) == []
  {
  }

  lemma SizedTail(values: seq<Value>, k: nat, stride: nat)
    requires k < |values| && Sized(values, stride)
    ensures Sized(values[k..], stride) && |values[k]| == stride && Sized(values[k + 1..], stride)
  {
  }

  method EncodeValues(base: Value, values: seq<Value>) returns (r: Encoded)
    requires Sized(values, |base|)
    ensures r == Encode(base, values)
  {
    var bits := new byte[|base|](i requires 0 <= i < |base| => base[i]);
    assert bits[..] == base;
    var bytes: seq<byte> := [];
    var k := 0;
    assert values[0..] == values;
    hide XorValue, Delta, Sized;
    ghost var last := base;
    while k < |values|
      invariant k <= |values| && Sized(values[k..], |base|)
      invariant bits.Length == |base| && fresh(bits) && bits[..] == last
      invariant bytes + Delta(last, values[k..]) == Delta(base, values)
      invariant OverflowFrom(|bytes|, |values| - k, |base|) == Overflow(|values|, |base|)
    {
      SizedTail(values, k, |base|);
      DeltaStep(last, values, k);
      AppendAssociates(bytes, XorValue(last, values[k]), Delta(values[k], values[k + 1..]));
      bytes := DeltaOne(bits, values[k], bytes);
      last := values[k];
      if |bytes| >= MAX_BUFFER_SIZE {
        return EncodeTooBig(|bytes|);
      }
      k := k + 1;
    }
    DeltaEnd(last, values);
    assert bytes + [] == bytes;
    var enc := Bitfield.EncodeBytes(bytes);
    return Bytes(enc);
  }

  /** Applies one difference to the running value, byte by byte in place. */
  method Apply(bits: array<byte>, delta: seq<byte>, from: nat)
    requires from + bits.Length <= |delta|
    modifies bits
    ensures bits[..] == XorValue(old(bits[..]), delta[from..from + bits.Length])
  {
    ghost var target := XorValue(bits[..], delta[from..from + bits.Length]);
    for i := 0 to bits.Length
      invariant bits[..i] == target[..i]
      invariant forall k | i <= k < bits.Length :: bits[k] == old(bits[k])
    {
      bits[i] := Xor(bits[i], delta[from + i]);
      assert bits[..i + 1] == bits[..i] + [bits[i]];
    }
  }

  /** The values packed in `bytes`, every integer of which must be complete. */
  method DecodeValues(base: Value, bytes: seq<byte>) returns (r: DecodeResult)
    requires base != [] && Bitfield.DecodeLen(bytes, 0) != Bitfield.Truncated && WholeValues(bytes, |base|)
    ensures r == Decode(base, bytes)
  {
    var length := Bitfield.DecodeLength(bytes);
    if length.InvalidRLEBitfield? {
      return InvalidRLE(length.offset, length.len);
    }
    if length.value > MAX_BUFFER_SIZE {
      return DecodeTooBig(length.value);
    }
    var decoded := Bitfield.DecodeBytes(bytes);
    assert |decoded.value| % |base| == 0;
    var values := UndeltaAll(base, decoded.value);
    return Values(values);
  }

  method UndeltaAll(base: Value, delta: seq<byte>) returns (output: seq<Value>)
    requires base != []
    ensures output == Undelta(base, delta)
  {
    var stride := |base|;
    var bits := new byte[stride](i requires 0 <= i < stride => base[i]);
    assert bits[..] == base;
    var size := |delta| / stride;
    output := [];
    assert delta[0..] == delta;
    var idx := 0;
    while idx < size
      invariant idx <= size && bits.Length == stride && fresh(bits)
      invariant idx * stride <= |delta|
      invariant output + Undelta(bits[..], delta[idx * stride..]) == Undelta(base, delta)
    {
      ghost var rest := delta[idx * stride..];
      Chunk(|delta|, stride, idx);
      Apply(bits, delta, idx * stride);
      assert rest[..stride] == delta[idx * stride..idx * stride + stride];
      assert rest[stride..] == delta[(idx + 1) * stride..];
      output := output + [bits[..]];
      idx := idx + 1;
    }
    LastChunk(|delta|, stride);
  }

  lemma Chunk(total: nat, stride: nat, idx: nat)
    requires 0 < stride && idx < total / stride
    ensures idx * stride + stride <= total && (idx + 1) * stride == idx * stride + stride
  {
    assert (idx + 1) * stride <= total / stride * stride <= total;
  }

  lemma LastChunk(total: nat, stride: nat)
    requires 0 < stride
    ensures 0 <= total - total / stride * stride < stride
  {
  }
}
