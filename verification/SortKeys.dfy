// Sortable keys of stream event ids: two decimal numbers, padded so that string order is numeric order.
module SortKeys {
  import opened Options

  const UINT64_LIMIT: nat := 0x1_0000_0000_0000_0000
  const KEY_DIGITS: nat := 20

  predicate IsDigit(c: char) { '0' <= c <= '9' }

  function DigitValue(c: char): (v: nat)
    requires IsDigit(c)
    ensures v < 10
  {
    c as int - '0' as int
  }

  predicate AllDigits(s: string) {
    forall i | 0 <= i < |s| :: IsDigit(s[i])
  }

  function Value(s: string): nat
    requires AllDigits(s)
  {
    if s == [] then 0 else 10 * Value(s[..|s| - 1]) + DigitValue(s[|s| - 1])
  }

  // A decimal number that fits in 64 bits.
  function ParseUint(s: string): Option<nat> {
    if s == [] || !AllDigits(s) || Value(s) >= UINT64_LIMIT then None else Some(Value(s))
  }

  function DigitChar(d: nat): (c: char)
    requires d < 10
    ensures IsDigit(c) && DigitValue(c) == d
  {
    ('0' as int + d) as char
  }

  // The lowest digits of a number, zero-padded.
  function Pad(n: nat, width: nat): (s: string)
    ensures |s| == width && AllDigits(s)
  {
    if width == 0 then [] else Pad(n / 10, width - 1) + [DigitChar(n % 10)]
  }

  function Split(s: string): (parts: seq<string>)
    ensures |parts| >= 1
  {
    if s == [] then [[]]
    else
      var rest := Split(s[1..]);
      if s[0] == '-' then [[]] + rest else [[s[0]] + rest[0]] + rest[1..]
  }

  function Join(ms: string, seq_: string): string {
    ms + "-" + seq_
  }

  function SortKey(id: string): string {
    var parts := Split(id);
    if |parts| != 2 || ParseUint(parts[0]).None? || ParseUint(parts[1]).None? then ""
    else Join(Pad(ParseUint(parts[0]).value, KEY_DIGITS), Pad(ParseUint(parts[1]).value, KEY_DIGITS))
  }

  predicate ShortNumber(s: string) {
    1 <= |s| <= KEY_DIGITS && AllDigits(s)
  }

  function LeftPad(s: string): (r: string)
    requires |s| <= KEY_DIGITS
    ensures |r| == KEY_DIGITS
  {
    seq(KEY_DIGITS - |s|, _ => '0') + s
  }

  // What the database computes for rows stored without a key: it checks digits and length, not the range.
  function StoredKey(id: string): string {
    var parts := Split(id);
    if |parts| != 2 || !ShortNumber(parts[0]) || !ShortNumber(parts[1]) then ""
    else Join(LeftPad(parts[0]), LeftPad(parts[1]))
  }

  // ---- String order -------------------------------------------------------------------------------------------

  predicate Less(a: string, b: string) {
    if b == [] then false
    else if a == [] then true
    else a[0] < b[0] || (a[0] == b[0] && Less(a[1..], b[1..]))
  }

  lemma {:induction false} LessTotal(a: string, b: string)
    ensures Less(a, b) || Less(b, a) || a == b
    ensures !(Less(a, b) && Less(b, a)) && !Less(a, a)
  {
    if a != [] && b != [] {
      LessTotal(a[1..], b[1..]);
      LessTotal(a[1..], a[1..]);
      if a[0] == b[0] { assert a == [a[0]] + a[1..] && b == [b[0]] + b[1..]; }
    } else if a != [] {
      LessTotal(a[1..], a[1..]);
    }
  }

  lemma {:induction false} LessTransitive(a: string, b: string, c: string)
    requires Less(a, b) && Less(b, c)
    ensures Less(a, c)
  {
    if a != [] && a[0] == b[0] == c[0] { LessTransitive(a[1..], b[1..], c[1..]); }
  }

  // A common first part does not matter; of two first parts of one length, the smaller one decides.
  lemma {:induction false} LessPrefix(p: string, a: string, b: string)
    ensures Less(p + a, p + b) <==> Less(a, b)
  {
    if p == [] {
      assert p + a == a && p + b == b;
    } else {
      LessPrefix(p[1..], a, b);
      assert (p + a)[1..] == p[1..] + a && (p + b)[1..] == p[1..] + b;
    }
  }

  lemma {:induction false} LessDecides(p: string, q: string, a: string, b: string)
    requires |p| == |q| && Less(p, q)
    ensures Less(p + a, q + b)
  {
    assert (p + a)[1..] == p[1..] + a && (q + b)[1..] == q[1..] + b;
    if p[0] == q[0] { LessDecides(p[1..], q[1..], a, b); }
  }

  lemma LessEqualLengths(p: string, q: string, a: string, b: string)
    requires |p| == |q|
    ensures Less(p + a, q + b) <==> Less(p, q) || (p == q && Less(a, b))
  {
    LessTotal(p, q);
    if Less(p, q) {
      LessDecides(p, q, a, b);
    } else if Less(q, p) {
      LessDecides(q, p, b, a);
      LessTotal(p + a, q + b);
    } else {
      LessPrefix(p, a, b);
    }
  }

  function Pow10(n: nat): nat {
    if n == 0 then 1 else 10 * Pow10(n - 1)
  }

  lemma {:induction false} PadOrder(a: nat, b: nat, width: nat)
    requires a < Pow10(width) && b < Pow10(width)
    ensures Less(Pad(a, width), Pad(b, width)) <==> a < b
    ensures Pad(a, width) == Pad(b, width) <==> a == b
  {
    if width > 0 {
      PadOrder(a / 10, b / 10, width - 1);
      LessEqualLengths(Pad(a / 10, width - 1), Pad(b / 10, width - 1), [DigitChar(a % 10)], [DigitChar(b % 10)]);
      LastSame(Pad(a / 10, width - 1), Pad(b / 10, width - 1), DigitChar(a % 10), DigitChar(b % 10));
    }
  }

  lemma LastSame(p: string, q: string, c: char, d: char)
    requires |p| == |q|
    ensures p + [c] == q + [d] <==> p == q && c == d
  {
    if p + [c] == q + [d] {
      assert (p + [c])[..|p|] == p && (q + [d])[..|q|] == q;
      assert (p + [c])[|p|] == c && (q + [d])[|q|] == d;
    }
  }

  lemma {:induction false} ValueBound(s: string)
    requires AllDigits(s)
    ensures Value(s) < Pow10(|s|)
  {
    if s != [] { ValueBound(s[..|s| - 1]); }
  }

  lemma KeyRange()
    ensures UINT64_LIMIT < Pow10(KEY_DIGITS)
  {
    assert Pow10(4) == 10_000;
    assert Pow10(8) == 10 * (10 * (10 * (10 * Pow10(4))));
    assert Pow10(12) == 10 * (10 * (10 * (10 * Pow10(8))));
    assert Pow10(16) == 10 * (10 * (10 * (10 * Pow10(12))));
    assert Pow10(20) == 10 * (10 * (10 * (10 * Pow10(16))));
  }

  // Padding a digit string with zeros is padding its value.
  lemma {:induction false} PaddedValue(s: string, width: nat)
    requires AllDigits(s) && |s| <= width
    ensures Pad(Value(s), width) == seq(width - |s|, _ => '0') + s
  {
    if s == [] {
      ZeroPad(width);
    } else {
      var front, last := s[..|s| - 1], s[|s| - 1];
      PaddedValue(front, width - 1);
      assert Value(s) / 10 == Value(front) && Value(s) % 10 == DigitValue(last);
      assert DigitChar(DigitValue(last)) == last;
      assert s == front + [last];
      assert seq(width - |s|, _ => '0') == seq(width - 1 - |front|, _ => '0');
    }
  }

  lemma {:induction false} ZeroPad(width: nat)
    ensures Pad(0, width) == seq(width, _ => '0')
  {
    if width > 0 {
      ZeroPad(width - 1);
      assert seq(width, _ => '0') == seq(width - 1, _ => '0') + ['0'];
    }
  }

  // ---- What the keys promise ----------------------------------------------------------------------------------

  ghost predicate Numbers(id: string, ms: nat, n: nat) {
    var parts := Split(id);
    |parts| == 2 && ParseUint(parts[0]) == Some(ms) && ParseUint(parts[1]) == Some(n)
  }

  lemma ValidKey(id: string)
    ensures SortKey(id) != "" <==> exists ms, n :: Numbers(id, ms, n)
  {
    var parts := Split(id);
    if SortKey(id) != "" {
      assert Numbers(id, ParseUint(parts[0]).value, ParseUint(parts[1]).value);
    }
  }

  // Comparing keys as strings is comparing (ms, seq) as numbers.
  lemma KeyOrder(a: string, b: string, msA: nat, seqA: nat, msB: nat, seqB: nat)
    requires Numbers(a, msA, seqA) && Numbers(b, msB, seqB)
    ensures Less(SortKey(a), SortKey(b)) <==> msA < msB || (msA == msB && seqA < seqB)
    ensures SortKey(a) == SortKey(b) <==> msA == msB && seqA == seqB
  {
    KeyRange();
    JoinOrder(msA, seqA, msB, seqB);
  }

  lemma JoinStrings(ma: string, sa: string, mb: string, sb: string)
    requires |ma| == |mb| && |sa| == |sb|
    ensures Less(Join(ma, sa), Join(mb, sb)) <==> Less(ma, mb) || (ma == mb && Less(sa, sb))
    ensures Join(ma, sa) == Join(mb, sb) <==> ma == mb && sa == sb
  {
    assert Join(ma, sa) == ma + ("-" + sa) && Join(mb, sb) == mb + ("-" + sb);
    LessEqualLengths(ma, mb, "-" + sa, "-" + sb);
    LessPrefix("-", sa, sb);
    if Join(ma, sa) == Join(mb, sb) {
      assert ma == Join(ma, sa)[..|ma|] && mb == Join(mb, sb)[..|ma|];
      assert sa == Join(ma, sa)[|ma| + 1..] && sb == Join(mb, sb)[|ma| + 1..];
    }
  }

  lemma JoinOrder(msA: nat, seqA: nat, msB: nat, seqB: nat)
    requires msA < Pow10(KEY_DIGITS) && seqA < Pow10(KEY_DIGITS) && msB < Pow10(KEY_DIGITS) && seqB < Pow10(KEY_DIGITS)
    ensures var a, b := Join(Pad(msA, KEY_DIGITS), Pad(seqA, KEY_DIGITS)), Join(Pad(msB, KEY_DIGITS), Pad(seqB, KEY_DIGITS));
            && (Less(a, b) <==> msA < msB || (msA == msB && seqA < seqB))
            && (a == b <==> msA == msB && seqA == seqB)
  {
    hide Pad, Pow10, Less, Join;
    PadOrder(msA, msB, KEY_DIGITS);
    PadOrder(seqA, seqB, KEY_DIGITS);
    JoinStrings(Pad(msA, KEY_DIGITS), Pad(seqA, KEY_DIGITS), Pad(msB, KEY_DIGITS), Pad(seqB, KEY_DIGITS));
  }

  // The database's key of a stored row is the key of its id, whenever both exist.
  lemma StoredKeyAgrees(id: string)
    requires SortKey(id) != "" && StoredKey(id) != ""
    ensures StoredKey(id) == SortKey(id)
  {
    var parts := Split(id);
    PaddedValue(parts[0], KEY_DIGITS);
    PaddedValue(parts[1], KEY_DIGITS);
  }

  lemma {:induction false} PadValue(n: nat, width: nat)
    requires n < Pow10(width)
    ensures Value(Pad(n, width)) == n
  {
    if width > 0 {
      PadValue(n / 10, width - 1);
      var front := Pad(n / 10, width - 1);
      assert Pad(n, width)[..width - 1] == front;
    }
  }

  lemma {:induction false} SplitDigits(a: string)
    requires AllDigits(a)
    ensures Split(a) == [a]
  {
    if a != [] {
      SplitDigits(a[1..]);
      assert a == [a[0]] + a[1..];
    }
  }

  lemma {:induction false} SplitJoin(a: string, b: string)
    requires AllDigits(a) && AllDigits(b)
    ensures Split(Join(a, b)) == [a, b]
  {
    if a == [] {
      assert Join(a, b)[1..] == b;
      SplitDigits(b);
    } else {
      assert Join(a, b)[1..] == Join(a[1..], b) && Join(a, b)[0] == a[0];
      SplitJoin(a[1..], b);
      assert a == [a[0]] + a[1..];
    }
  }

  // The padded form of any two numbers is an id, and its own key.
  lemma KeyIsItsOwnId(ms: nat, n: nat)
    requires ms < UINT64_LIMIT && n < UINT64_LIMIT
    ensures var id := Join(Pad(ms, KEY_DIGITS), Pad(n, KEY_DIGITS)); Numbers(id, ms, n) && SortKey(id) == id
  {
    hide Pad, Pow10, Value;
    KeyRange();
    PadValue(ms, KEY_DIGITS);
    PadValue(n, KEY_DIGITS);
    SplitJoin(Pad(ms, KEY_DIGITS), Pad(n, KEY_DIGITS));
  }
}
