// Addresses as numbers and as bytes, and filling the host bits of a prefix byte by byte.
module AddressBits {

  datatype Family = V4 | V6

  function Width(f: Family): nat {
    match f
    case V4 => 32
    case V6 => 128
  }

  function Pow2(n: nat): (p: nat)
    ensures p > 0
  {
    if n == 0 then 1 else 2 * Pow2(n - 1)
  }

  lemma {:induction false} Pow2Add(a: nat, b: nat)
    ensures Pow2(a + b) == Pow2(a) * Pow2(b)
  {
    if a > 0 {
      Pow2Add(a - 1, b);
      assert Pow2(a + b) == 2 * Pow2(a - 1 + b);
    }
  }

  // ---- Bytes and bits -----------------------------------------------------------------------------------------

  predicate AllBytes(s: seq<nat>) {
    forall i | 0 <= i < |s| :: s[i] < 256
  }

  // The number that bytes stand for, the first byte being the highest.
  function Value(s: seq<nat>): nat {
    if s == [] then 0 else 256 * Value(s[..|s| - 1]) + s[|s| - 1]
  }

  function Shift(byte: nat, k: nat): nat {
    if k == 0 then byte else Shift(byte / 2, k - 1)
  }

  function BitOf(byte: nat, k: nat): (bit: nat)
    ensures bit < 2
  {
    Shift(byte, k) % 2
  }

  // Setting a bit that may be set already.
  function WithBit(byte: nat, k: nat): nat {
    if BitOf(byte, k) == 1 then byte else byte + Pow2(k)
  }

  lemma WithBitHalves(byte: nat, k: nat)
    requires k > 0
    ensures WithBit(byte, k) == 2 * WithBit(byte / 2, k - 1) + byte % 2
  {
    assert BitOf(byte, k) == BitOf(byte / 2, k - 1);
    assert byte == 2 * (byte / 2) + byte % 2;
  }

  lemma LowAndHigh(half: nat, bit: nat, j: nat)
    requires bit < 2
    ensures BitOf(2 * half + bit, j) == if j == 0 then bit else BitOf(half, j - 1)
  {
    assert (2 * half + bit) / 2 == half;
  }

  lemma {:induction false} WithBitSets(byte: nat, k: nat, j: nat, width: nat)
    requires byte < Pow2(width) && k < width
    ensures WithBit(byte, k) < Pow2(width)
    ensures BitOf(WithBit(byte, k), j) == if j == k then 1 else BitOf(byte, j)
  {
    var half, bit := byte / 2, byte % 2;
    assert byte == 2 * half + bit;
    if k > 0 {
      hide BitOf, WithBit;
      WithBitSets(half, k - 1, if j == 0 then 0 else j - 1, width - 1);
      WithBitHalves(byte, k);
      LowAndHigh(half, bit, j);
      LowAndHigh(WithBit(half, k - 1), bit, j);
    } else {
      assert WithBit(byte, 0) == 2 * half + 1;
      LowAndHigh(half, bit, j);
      LowAndHigh(half, 1, j);
    }
  }

  lemma {:induction false} ShiftHalves(byte: nat, k: nat)
    ensures Shift(byte, k) == 2 * Shift(byte, k + 1) + BitOf(byte, k)
  {
    if k > 0 { ShiftHalves(byte / 2, k - 1); }
  }

  lemma {:induction false} ShiftedOut(byte: nat, width: nat)
    requires byte < Pow2(width)
    ensures Shift(byte, width) == 0
  {
    if width > 0 { ShiftedOut(byte / 2, width - 1); }
  }

  // The i-th bit of the bytes, counted from the highest.
  function BitAt(s: seq<nat>, i: nat): nat
    requires i < 8 * |s|
  {
    BitOf(s[i / 8], 7 - i % 8)
  }

  // The number made of the bits from one position up to another.
  function Bits(s: seq<nat>, from: nat, to: nat): nat
    requires from <= to <= 8 * |s|
  {
    if to == from then 0 else 2 * Bits(s, from, to - 1) + BitAt(s, to - 1)
  }

  lemma Double(a: nat, p: nat)
    ensures 2 * (a * p) == a * (2 * p)
  {
  }

  lemma {:induction false} BitsSplit(s: seq<nat>, l: nat, to: nat)
    requires l <= to <= 8 * |s|
    ensures Bits(s, 0, to) == Bits(s, 0, l) * Pow2(to - l) + Bits(s, l, to)
    ensures Bits(s, l, to) < Pow2(to - l)
  {
    hide BitOf;
    if to > l {
      BitsSplit(s, l, to - 1);
      Double(Bits(s, 0, l), Pow2(to - 1 - l));
    }
  }

  lemma {:induction false} AllOnes(s: seq<nat>, l: nat, to: nat)
    requires l <= to <= 8 * |s| && forall i | l <= i < to :: BitAt(s, i) == 1
    ensures Bits(s, l, to) == Pow2(to - l) - 1
  {
    if to > l { AllOnes(s, l, to - 1); }
  }

  lemma {:induction false} SameBits(a: seq<nat>, b: seq<nat>, to: nat)
    requires |a| == |b| && to <= 8 * |a| && forall i | 0 <= i < to :: BitAt(a, i) == BitAt(b, i)
    ensures Bits(a, 0, to) == Bits(b, 0, to)
  {
    if to > 0 { SameBits(a, b, to - 1); }
  }

  lemma BitInByte(s: seq<nat>, k: nat, j: nat)
    requires k < |s| && j < 8
    ensures BitAt(s, 8 * k + j) == BitOf(s[k], 7 - j)
  {
    assert (8 * k + j) / 8 == k && (8 * k + j) % 8 == j;
  }

  // The first bits of a byte extend the number made by the bytes before it.
  lemma {:induction false} ByteBits(s: seq<nat>, k: nat, m: nat)
    requires AllBytes(s) && k < |s| && m <= 8
    ensures Bits(s, 0, 8 * k + m) == Pow2(m) * Bits(s, 0, 8 * k) + Shift(s[k], 8 - m)
  {
    hide BitOf, Shift, BitAt;
    if m == 0 {
      assert Pow2(8) == 256;
      ShiftedOut(s[k], 8);
    } else {
      ByteBits(s, k, m - 1);
      BitInByte(s, k, m - 1);
      ShiftHalves(s[k], 8 - m);
      Double(Bits(s, 0, 8 * k), Pow2(m - 1));
    }
  }

  lemma {:induction false} ValueIsBits(s: seq<nat>, k: nat)
    requires AllBytes(s) && k <= |s|
    ensures Value(s[..k]) == Bits(s, 0, 8 * k)
  {
    if k > 0 {
      ValueIsBits(s, k - 1);
      ByteBits(s, k - 1, 8);
      assert Pow2(8) == 256 && s[..k][..k - 1] == s[..k - 1];
    }
  }

  // ---- Filling the host bits ------------------------------------------------------------------------------------

  function ByteSeq(value: nat, n: nat): (s: seq<nat>)
    ensures |s| == n && AllBytes(s)
  {
    if n == 0 then [] else ByteSeq(value / 256, n - 1) + [value % 256]
  }

  lemma {:induction false} ByteSeqValue(value: nat, n: nat)
    requires value < Pow2(8 * n)
    ensures Value(ByteSeq(value, n)) == value
  {
    if n > 0 {
      Pow2Add(8, 8 * (n - 1));
      assert Pow2(8) == 256;
      ByteSeqValue(value / 256, n - 1);
      assert ByteSeq(value, n)[..n - 1] == ByteSeq(value / 256, n - 1);
    }
  }

  // The bits from a position on are set, the ones before it are kept.
  ghost predicate Filled(before: seq<nat>, after: seq<nat>, l: nat, to: nat) {
    && |after| == |before| && AllBytes(after) && to <= 8 * |after|
    && forall i | 0 <= i < 8 * |before| :: BitAt(after, i) == if l <= i < to then 1 else BitAt(before, i)
  }

  lemma SetOne(after: seq<nat>, bit: nat, i: nat)
    requires AllBytes(after) && bit < 8 * |after| && i < 8 * |after|
    ensures var next := after[bit / 8 := WithBit(after[bit / 8], 7 - bit % 8)];
            BitAt(next, i) == if i == bit then 1 else BitAt(after, i)
  {
    hide BitOf, WithBit;
    assert Pow2(8) == 256 && i == 8 * (i / 8) + i % 8 && bit == 8 * (bit / 8) + bit % 8;
    WithBitSets(after[bit / 8], 7 - bit % 8, 7 - i % 8, 8);
  }

  lemma FillOne(before: seq<nat>, after: seq<nat>, l: nat, bit: nat)
    requires AllBytes(before) && Filled(before, after, l, bit) && l <= bit < 8 * |before|
    ensures Filled(before, after[bit / 8 := WithBit(after[bit / 8], 7 - bit % 8)], l, bit + 1)
  {
    hide BitAt, WithBit;
    assert Pow2(8) == 256;
    WithBitSets(after[bit / 8], 7 - bit % 8, 0, 8);
    var next := after[bit / 8 := WithBit(after[bit / 8], 7 - bit % 8)];
    forall i | 0 <= i < 8 * |before| ensures BitAt(next, i) == if l <= i < bit + 1 then 1 else BitAt(before, i) {
      SetOne(after, bit, i);
    }
  }

  method FillBits(bytes: array<nat>, l: nat)
    requires AllBytes(bytes[..]) && l <= 8 * bytes.Length
    modifies bytes
    ensures Filled(old(bytes[..]), bytes[..], l, 8 * bytes.Length)
  {
    ghost var before := bytes[..];
    for bit := l to 8 * bytes.Length
      invariant Filled(before, bytes[..], l, bit)
    {
      FillOne(before, bytes[..], l, bit);
      ghost var now := bytes[..];
      bytes[bit / 8] := WithBit(bytes[bit / 8], 7 - bit % 8);
      assert bytes[..] == now[bit / 8 := WithBit(now[bit / 8], 7 - bit % 8)];
    }
  }

  lemma MultiplyStep(x: nat, y: nat, p: nat)
    requires x >= y + 1
    ensures x * p >= y * p + p
  {
    var d: nat := x - y - 1;
    assert x * p == (y + 1 + d) * p == y * p + p + d * p;
  }

  lemma NoRemainder(a: nat, p: nat, low: nat, v: nat)
    requires p > 0 && v == a * p + low && low < p && v % p == 0
    ensures low == 0
  {
    var q := v / p;
    assert v == q * p;
    if q > a { MultiplyStep(q, a, p); }
    if q < a { MultiplyStep(a, q, p); }
  }

  // Filling the host bits of a network address yields its last address.
  lemma FilledValue(before: seq<nat>, after: seq<nat>, l: nat)
    requires AllBytes(before) && l <= 8 * |before| && Filled(before, after, l, 8 * |before|)
    requires Value(before) % Pow2(8 * |before| - l) == 0
    ensures Value(after) == Value(before) + Pow2(8 * |before| - l) - 1
  {
    hide BitOf, Pow2;
    var n := 8 * |before|;
    ValueIsBits(before, |before|);
    ValueIsBits(after, |before|);
    assert before[..|before|] == before && after[..|before|] == after;
    BitsSplit(before, l, n);
    BitsSplit(after, l, n);
    SameBits(before, after, l);
    AllOnes(after, l, n);
    NoRemainder(Bits(before, 0, l), Pow2(n - l), Bits(before, l, n), Value(before));
  }

  // The last address of a network of the given prefix length.
  method LastAddress(f: Family, start: nat, length: nat) returns (last: nat)
    requires length <= Width(f) && start < Pow2(Width(f)) && start % Pow2(Width(f) - length) == 0
    ensures last == start + Pow2(Width(f) - length) - 1
  {
    hide Pow2, Value, ByteSeq;
    var n := Width(f) / 8;
    assert 8 * n == Width(f);
    var s := ByteSeq(start, n);
    ByteSeqValue(start, n);
    var bytes := new nat[n](i requires 0 <= i < n => s[i]);
    assert bytes[..] == s;
    FillBits(bytes, length);
    FilledValue(s, bytes[..], length);
    last := ValueOf(bytes);
  }

  method ValueOf(bytes: array<nat>) returns (value: nat)
    ensures value == Value(bytes[..])
  {
    value := 0;
    for i := 0 to bytes.Length
      invariant value == Value(bytes[..i])
    {
      assert bytes[..i + 1][..i] == bytes[..i];
      value := 256 * value + bytes[i];
    }
    assert bytes[..bytes.Length] == bytes[..];
  }
}
