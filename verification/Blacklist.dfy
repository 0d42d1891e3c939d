// The blacklist's range index: sorted merged spans and a binary search, against a scan of the prefixes.
module Blacklist {
  import opened Options
  import opened AddressBits
  import Sorting

  // A zone-free address. Section 2.5.5.2 of RFC 4291 maps IPv4 into IPv6.
  datatype Address = Address(family: Family, value: nat)

  const MAPPED_START: nat := 0xffff_0000_0000
  const MAPPED_END: nat := 0x1_0000_0000_0000

  predicate Valid(a: Address) {
    a.value < Pow2(Width(a.family))
  }

  predicate Mapped(a: Address) {
    a.family == V6 && MAPPED_START <= a.value < MAPPED_END
  }

  function Unmapped(a: Address): Address {
    if Mapped(a) then Address(V4, a.value - MAPPED_START) else a
  }

  // Section 3.1 of RFC 4632 and section 2.3 of RFC 4291: an address and the number of its leading bits.
  datatype Prefix = Prefix(address: Address, length: nat)

  predicate ValidPrefix(p: Prefix) {
    Valid(p.address) && p.length <= Width(p.address.family)
  }

  function HostCount(p: Prefix): nat
    requires p.length <= Width(p.address.family)
  {
    Pow2(Width(p.address.family) - p.length)
  }

  // The linear form: an address is in a prefix if their leading bits agree.
  predicate Contains(p: Prefix, a: Address)
    requires p.length <= Width(p.address.family)
  {
    a.family == p.address.family && a.value / HostCount(p) == p.address.value / HostCount(p)
  }

  // The largest multiple of p up to v.
  function FloorTo(v: nat, p: nat): (r: nat)
    requires p > 0
  {
    if v < p then 0 else v - v % p
  }

  function Masked(p: Prefix): Prefix
    requires p.length <= Width(p.address.family)
  {
    p.(address := p.address.(value := FloorTo(p.address.value, HostCount(p))))
  }

  // What a stored entry parses to; nothing for text that is no prefix. Prefixes of mapped addresses are not used.
  datatype Entry = Unparsable | Parsed(prefix: Prefix)

  ghost predicate ValidEntry(e: Entry) {
    e.Parsed? ==> ValidPrefix(e.prefix)
  }

  predicate Usable(e: Entry) {
    e.Parsed? && !Mapped(e.prefix.address)
  }

  ghost predicate EntryContains(e: Entry, a: Address) {
    Usable(e) && e.prefix.length <= Width(e.prefix.address.family) && Contains(e.prefix, a)
  }

  ghost predicate InPrefixes(entries: seq<Entry>, a: Address) {
    exists e :: e in entries && EntryContains(e, a)
  }

  // ---- Bit by bit ---------------------------------------------------------------------------------------------

  // A bit of an address, counted from the highest.
  function LeadingBit(value: nat, width: nat, i: nat): nat {
    if i < width then BitOf(value, width - 1 - i) else 0
  }

  lemma QuotientIs(v: nat, p: nat, q: nat, r: nat)
    requires r < p && v == q * p + r
    ensures v / p == q
  {
    var d := v / p;
    assert v == d * p + v % p;
    if d > q { MultiplyStep(d, q, p); }
    if d < q { MultiplyStep(q, d, p); }
  }

  lemma HalfQuotient(v: nat, p: nat)
    requires p > 0
    ensures v / (2 * p) == v / 2 / p
  {
    var q, r := v / 2 / p, v / 2 % p;
    var m := q * p;
    assert v / 2 == m + r;
    assert v == 2 * m + (2 * r + v % 2);
    assert q * (2 * p) == 2 * m;
    QuotientIs(v, 2 * p, q, 2 * r + v % 2);
  }

  lemma {:induction false} ShiftIsQuotient(v: nat, k: nat)
    ensures Shift(v, k) == v / Pow2(k)
  {
    if k > 0 {
      ShiftIsQuotient(v / 2, k - 1);
      HalfQuotient(v, Pow2(k - 1));
    }
  }

  ghost predicate SameLeading(a: nat, b: nat, width: nat, length: nat) {
    forall i: nat | i < length :: LeadingBit(a, width, i) == LeadingBit(b, width, i)
  }

  lemma {:induction false} LeadingBits(a: nat, b: nat, width: nat, length: nat)
    requires a < Pow2(width) && b < Pow2(width) && length <= width
    ensures Shift(a, width - length) == Shift(b, width - length) <==> SameLeading(a, b, width, length)
  {
    hide Shift, Pow2, BitOf;
    if length == 0 {
      ShiftedOut(a, width);
      ShiftedOut(b, width);
    } else {
      LeadingBits(a, b, width, length - 1);
      var k := width - length;
      ShiftHalves(a, k);
      ShiftHalves(b, k);
      assert LeadingBit(a, width, length - 1) == BitOf(a, k) && LeadingBit(b, width, length - 1) == BitOf(b, k);
      assert SameLeading(a, b, width, length) <==> SameLeading(a, b, width, length - 1) && BitOf(a, k) == BitOf(b, k);
    }
  }

  // Sections 3.1 of RFC 4632 and 2.3 of RFC 4291, bit by bit: the leading bits of the two addresses agree.
  ghost predicate AgreesWith(p: Prefix, a: Address) {
    a.family == p.address.family && SameLeading(a.value, p.address.value, Width(a.family), p.length)
  }

  lemma ContainsBitwise(p: Prefix, a: Address)
    requires ValidPrefix(p) && Valid(a)
    ensures Contains(p, a) <==> AgreesWith(p, a)
  {
    hide Shift, Pow2, SameLeading;
    if a.family == p.address.family {
      var k := Width(a.family) - p.length;
      LeadingBits(a.value, p.address.value, Width(a.family), p.length);
      ShiftIsQuotient(a.value, k);
      ShiftIsQuotient(p.address.value, k);
    }
  }

  // Some entry is a prefix that is not one of mapped addresses, and agrees with the address.
  ghost predicate Listed(entries: seq<Entry>, a: Address) {
    exists e :: e in entries && e.Parsed? && AgreesWith(e.prefix, a) &&
      !(e.prefix.address.family == V6 && 0xffff_0000_0000 <= e.prefix.address.value < 0x1_0000_0000_0000)
  }

  lemma InPrefixesBitwise(entries: seq<Entry>, a: Address)
    requires Valid(a) && forall e | e in entries :: ValidEntry(e)
    ensures InPrefixes(entries, a) <==> Listed(entries, a)
  {
    hide Contains, AgreesWith, Valid;
    forall e | e in entries && e.Parsed?
      ensures e.prefix.length <= Width(e.prefix.address.family) && (Contains(e.prefix, a) <==> AgreesWith(e.prefix, a))
    {
      assert ValidEntry(e);
      ContainsBitwise(e.prefix, a);
    }
  }

  // ---- Spans --------------------------------------------------------------------------------------------------

  datatype Span = Span(family: Family, start: nat, end: nat)

  predicate Covers(s: Span, a: Address) {
    s.family == a.family && s.start <= a.value <= s.end
  }

  // IPv4 addresses sort before IPv6 ones, then by value.
  function Rank(f: Family): nat { Width(f) }

  const BY_START := (a: Span, b: Span) =>
    Rank(a.family) < Rank(b.family) || (a.family == b.family && (a.start < b.start || (a.start == b.start && a.end >= b.end)))

  ghost predicate InSpans(spans: seq<Span>, a: Address) {
    exists s :: s in spans && Covers(s, a)
  }

  lemma FloorIsMultiple(v: nat, p: nat)
    requires p > 0
    ensures FloorTo(v, p) == v / p * p
  {
    assert v == v / p * p + v % p;
    if v / p > 0 { MultiplyStep(v / p, 0, p); }
  }

  lemma DivisionRange(v: nat, n: nat, p: nat)
    requires p > 0
    ensures v / p == n / p <==> FloorTo(n, p) <= v <= FloorTo(n, p) + p - 1
  {
    FloorIsMultiple(n, p);
    var a, b := v / p, n / p;
    if a > b { MultiplyStep(a, b, p); }
    if a < b { MultiplyStep(b, a, p); }
  }

  lemma MaskedStart(n: nat, p: nat)
    requires p > 0
    ensures FloorTo(n, p) % p == 0 && FloorTo(n, p) <= n
  {
    FloorIsMultiple(n, p);
    MultipleMod(n / p, p);
  }

  lemma MultipleMod(q: nat, p: nat)
    requires p > 0
    ensures q * p % p == 0
  {
    var v := q * p;
    var d, r := v / p, v % p;
    if q > d { MultiplyStep(q, d, p); }
    if q < d { MultiplyStep(d, q, p); }
  }

  // The span of a prefix covers what the prefix contains.
  method SpanOf(p: Prefix) returns (s: Span)
    requires ValidPrefix(p)
    ensures s.start <= s.end && forall a :: Covers(s, a) <==> Contains(p, a)
    ensures s.family == p.address.family && s.start == Masked(p).address.value && s.end == s.start + HostCount(p) - 1
  {
    hide Pow2;
    var masked := Masked(p);
    MaskedStart(p.address.value, HostCount(p));
    var last := LastAddress(p.address.family, masked.address.value, p.length);
    s := Span(p.address.family, masked.address.value, last);
    forall a ensures Covers(s, a) <==> Contains(p, a) {
      DivisionRange(a.value, p.address.value, HostCount(p));
    }
  }

  // The usable prefixes of a list, masked, in its order.
  function UsablePrefixes(entries: seq<Entry>): seq<Prefix>
    requires forall e | e in entries :: ValidEntry(e)
  {
    if entries == [] then []
    else
      var n := |entries| - 1;
      assert ValidEntry(entries[n]);
      UsablePrefixes(entries[..n]) + (if Usable(entries[n]) then [Masked(entries[n].prefix)] else [])
  }

  // Also lists the usable prefixes in masked form, and counts the others.
  method CollectSpans(entries: seq<Entry>) returns (spans: seq<Span>, kept: seq<Prefix>, invalid: nat)
    requires forall e | e in entries :: ValidEntry(e)
    ensures forall s | s in spans :: s.start <= s.end
    ensures forall a :: InSpans(spans, a) <==> InPrefixes(entries, a)
    ensures kept == UsablePrefixes(entries) && |kept| + invalid == |entries|
  {
    hide EntryContains, Covers, InSpans, InPrefixes;
    spans, kept, invalid := [], [], 0;
    NothingCovered();
    for n := 0 to |entries|
      invariant forall s | s in spans :: s.start <= s.end
      invariant forall a :: InSpans(spans, a) <==> InPrefixes(entries[..n], a)
      invariant kept == UsablePrefixes(entries[..n]) && |kept| + invalid == n
    {
      var e := entries[n];
      assert entries[..n + 1][..n] == entries[..n];
      assert entries[..n + 1] == entries[..n] + [e] && e in entries;
      forall a ensures InPrefixes(entries[..n + 1], a) <==> InPrefixes(entries[..n], a) || EntryContains(e, a) {
        PrefixesOneMore(entries[..n], e, a);
      }
      if !Usable(e) {
        UnusableContainsNothing(e);
        invalid := invalid + 1;
        continue;
      }
      var s := SpanOf(e.prefix);
      forall a ensures InSpans(spans + [s], a) <==> InSpans(spans, a) || EntryContains(e, a) {
        SpansOneMore(spans, s, a);
        UsableContains(e, a);
      }
      kept := kept + [Masked(e.prefix)];
      spans := spans + [s];
    }
    assert entries[..|entries|] == entries;
  }

  lemma NothingCovered()
    ensures forall a :: !InSpans([], a) && !InPrefixes([], a)
  {
  }

  lemma UnusableContainsNothing(e: Entry)
    requires !Usable(e)
    ensures forall a :: !EntryContains(e, a)
  {
  }

  lemma UsableContains(e: Entry, a: Address)
    requires Usable(e) && ValidEntry(e)
    ensures EntryContains(e, a) <==> Contains(e.prefix, a)
  {
  }

  lemma PrefixesOneMore(entries: seq<Entry>, e: Entry, a: Address)
    ensures InPrefixes(entries + [e], a) <==> InPrefixes(entries, a) || EntryContains(e, a)
  {
    hide EntryContains;
    if InPrefixes(entries, a) {
      var x :| x in entries && EntryContains(x, a);
      assert x in entries + [e];
    }
    if EntryContains(e, a) { assert e in entries + [e]; }
  }

  lemma SpansOneMore(spans: seq<Span>, s: Span, a: Address)
    ensures InSpans(spans + [s], a) <==> InSpans(spans, a) || Covers(s, a)
  {
    if InSpans(spans, a) {
      var x :| x in spans && Covers(x, a);
      assert x in spans + [s];
    }
    if Covers(s, a) { assert s in spans + [s]; }
  }

  // ---- Merging ------------------------------------------------------------------------------------------------

  ghost predicate Before(a: Span, b: Span) {
    Rank(a.family) < Rank(b.family) || (a.family == b.family && a.end < b.start)
  }

  // Sorted, and no two spans meet.
  ghost predicate Disjoint(spans: seq<Span>) {
    && (forall s | s in spans :: s.start <= s.end)
    && (forall i, j | 0 <= i < j < |spans| :: Before(spans[i], spans[j]))
  }

  // The merged spans of a sorted prefix cover the same addresses and do not start after what follows.
  ghost predicate Merging(sorted: seq<Span>, n: nat, merged: seq<Span>)
    requires n <= |sorted|
  {
    && Disjoint(merged)
    && (forall a :: InSpans(merged, a) <==> InSpans(sorted[..n], a))
    && (merged == [] <==> n == 0)
    && (n > 0 ==> StartsNoLater(merged[|merged| - 1], sorted[n - 1]))
  }

  ghost predicate StartsNoLater(a: Span, b: Span) {
    a.family == b.family && a.start <= b.start && b.end <= a.end
  }

  lemma ExtendLast(merged: seq<Span>, span: Span, last: Span)
    requires merged != [] && Disjoint(merged) && last == merged[|merged| - 1]
    requires last.family == span.family && last.start <= span.start <= last.end && span.start <= span.end
    ensures var longer := last.(end := if span.end > last.end then span.end else last.end);
            && Disjoint(merged[|merged| - 1 := longer])
            && forall a :: InSpans(merged[|merged| - 1 := longer], a) <==> InSpans(merged, a) || Covers(span, a)
  {
    var n := |merged| - 1;
    var longer := last.(end := if span.end > last.end then span.end else last.end);
    var next := merged[n := longer];
    assert next == merged[..n] + [longer] && merged == merged[..n] + [last];
    forall a ensures InSpans(next, a) <==> InSpans(merged, a) || Covers(span, a) {
      SpansOneMore(merged[..n], longer, a);
      SpansOneMore(merged[..n], last, a);
    }
    forall s | s in next ensures s.start <= s.end {
      assert s in merged || s == longer;
      assert last in merged;
    }
  }

  lemma AppendSpan(merged: seq<Span>, span: Span)
    requires Disjoint(merged) && span.start <= span.end
    requires merged != [] ==> Before(merged[|merged| - 1], span)
    ensures Disjoint(merged + [span])
    ensures forall a :: InSpans(merged + [span], a) <==> InSpans(merged, a) || Covers(span, a)
  {
    forall a ensures InSpans(merged + [span], a) <==> InSpans(merged, a) || Covers(span, a) {
      SpansOneMore(merged, span, a);
    }
    var n := |merged|;
    forall i | 0 <= i < n ensures Before(merged[i], span) {
      if i < n - 1 {
        assert Before(merged[i], merged[n - 1]);
        assert merged[n - 1] in merged;
      }
    }
  }

  lemma SortedOneMore(sorted: seq<Span>, n: nat)
    requires n < |sorted|
    ensures forall a :: InSpans(sorted[..n + 1], a) <==> InSpans(sorted[..n], a) || Covers(sorted[n], a)
  {
    assert sorted[..n + 1] == sorted[..n] + [sorted[n]];
    forall a { SpansOneMore(sorted[..n], sorted[n], a); }
  }

  lemma MergingAppend(sorted: seq<Span>, n: nat, merged: seq<Span>)
    requires n < |sorted| && Merging(sorted, n, merged) && sorted[n].start <= sorted[n].end
    requires merged != [] ==> Before(merged[|merged| - 1], sorted[n])
    ensures Merging(sorted, n + 1, merged + [sorted[n]])
  {
    hide Disjoint, InSpans, Covers;
    SortedOneMore(sorted, n);
    AppendSpan(merged, sorted[n]);
  }

  lemma MergingExtend(sorted: seq<Span>, n: nat, merged: seq<Span>)
    requires n < |sorted| && Merging(sorted, n, merged) && sorted[n].start <= sorted[n].end && merged != []
    requires var last := merged[|merged| - 1];
             last.family == sorted[n].family && last.start <= sorted[n].start <= last.end
    ensures var last := merged[|merged| - 1];
            Merging(sorted, n + 1, merged[|merged| - 1 := last.(end := if sorted[n].end > last.end then sorted[n].end else last.end)])
  {
    hide Disjoint, InSpans, Covers;
    SortedOneMore(sorted, n);
    var last := merged[|merged| - 1];
    ExtendLast(merged, sorted[n], last);
    var longer := last.(end := if sorted[n].end > last.end then sorted[n].end else last.end);
    var next := merged[|merged| - 1 := longer];
    assert |next| == |merged| && next[|next| - 1] == longer;
    forall a ensures InSpans(next, a) <==> InSpans(sorted[..n + 1], a) {
      assert InSpans(next, a) <==> InSpans(merged, a) || Covers(sorted[n], a);
      assert InSpans(merged, a) <==> InSpans(sorted[..n], a);
    }
    assert StartsNoLater(longer, sorted[n]);
  }

  method MergeSpans(sorted: seq<Span>) returns (merged: seq<Span>)
    requires Sorting.Sorted(BY_START, sorted) && forall s | s in sorted :: s.start <= s.end
    ensures Disjoint(merged) && forall a :: InSpans(merged, a) <==> InSpans(sorted, a)
  {
    merged := [];
    assert sorted[..0] == [];
    for n := 0 to |sorted|
      invariant Merging(sorted, n, merged)
    {
      hide Disjoint, InSpans, Covers;
      var span := sorted[n];
      assert span in sorted;
      if |merged| == 0 {
        MergingAppend(sorted, n, merged);
        merged := merged + [span];
        continue;
      }
      var last := merged[|merged| - 1];
      assert BY_START(sorted[n - 1], span) && StartsNoLater(last, sorted[n - 1]);
      if last.family == span.family && span.start <= last.end {
        MergingExtend(sorted, n, merged);
        if span.end > last.end {
          merged := merged[|merged| - 1 := last.(end := span.end)];
        } else {
          assert merged[|merged| - 1 := last] == merged;
        }
        continue;
      }
      MergingAppend(sorted, n, merged);
      merged := merged + [span];
    }
    assert sorted[..|sorted|] == sorted;
  }

  // ---- The index ----------------------------------------------------------------------------------------------

  // Spans are compared with addresses by family first.
  predicate StartsAfter(s: Span, a: Address) {
    Rank(s.family) > Rank(a.family) || (s.family == a.family && s.start > a.value)
  }

  method BuildBlacklistRangeCache(entries: seq<Entry>) returns (spans: seq<Span>, kept: seq<Prefix>, invalid: nat)
    requires forall e | e in entries :: ValidEntry(e)
    ensures Disjoint(spans) && forall a :: InSpans(spans, a) <==> InPrefixes(entries, a)
    ensures kept == UsablePrefixes(entries) && |kept| + invalid == |entries|
  {
    hide Disjoint, InPrefixes;
    var collected;
    collected, kept, invalid := CollectSpans(entries);
    var sorted := Sorting.Sort(BY_START, collected);
    Sorting.SortSorts(BY_START, collected);
    assert forall a :: InSpans(sorted, a) <==> InSpans(collected, a);
    spans := MergeSpans(sorted);
  }

  // The binary search finds the only span that can cover the address.
  method InRange(address: Option<Address>, spans: seq<Span>) returns (found: bool)
    requires Disjoint(spans)
    ensures found <==> address.Some? && InSpans(spans, Unmapped(address.value))
  {
    if |spans| == 0 || address.None? { return false; }
    var a := Unmapped(address.value);
    var i, j := 0, |spans|;
    while i < j
      invariant 0 <= i <= j <= |spans|
      invariant forall k | 0 <= k < i :: !StartsAfter(spans[k], a)
      invariant forall k | j <= k < |spans| :: StartsAfter(spans[k], a)
    {
      var h := (i + j) / 2;
      if StartsAfter(spans[h], a) {
        j := h;
      } else {
        i := h + 1;
      }
    }
    OnlyCandidate(spans, i, a);
    if i == 0 { return false; }
    var span := spans[i - 1];
    found := span.family == a.family && a.value <= span.end;
  }

  // Spans after the cut start too late, and those before the last one that does not end too early.
  lemma OnlyCandidate(spans: seq<Span>, cut: nat, a: Address)
    requires Disjoint(spans) && cut <= |spans|
    requires (forall k | 0 <= k < cut :: !StartsAfter(spans[k], a)) && forall k | cut <= k < |spans| :: StartsAfter(spans[k], a)
    ensures InSpans(spans, a) <==> cut > 0 && Covers(spans[cut - 1], a)
  {
    if InSpans(spans, a) {
      var s :| s in spans && Covers(s, a);
      var k :| 0 <= k < |spans| && spans[k] == s;
      assert k < cut && !StartsAfter(spans[cut - 1], a);
      assert forall i | 0 <= i < cut - 1 :: Before(spans[i], spans[cut - 1]);
    }
  }

  // ---- Filtering ------------------------------------------------------------------------------------------------

  // A route and the address its text parses to, if any.
  datatype Proxy = Proxy(id: nat, address: Option<Address>)

  ghost predicate Blocked(p: Proxy, exact: set<Address>, entries: seq<Entry>) {
    p.address.Some? && (Unmapped(p.address.value) in exact || InPrefixes(entries, Unmapped(p.address.value)))
  }

  ghost function Only(proxies: seq<Proxy>, exact: set<Address>, entries: seq<Entry>, blocked: bool): seq<Proxy> {
    if proxies == [] then []
    else
      var n := |proxies| - 1;
      Only(proxies[..n], exact, entries, blocked) + (if Blocked(proxies[n], exact, entries) == blocked then [proxies[n]] else [])
  }

  lemma {:induction false} OnlyPartitions(proxies: seq<Proxy>, exact: set<Address>, entries: seq<Entry>)
    ensures multiset(Only(proxies, exact, entries, true)) + multiset(Only(proxies, exact, entries, false)) == multiset(proxies)
    ensures forall p | p in Only(proxies, exact, entries, true) :: Blocked(p, exact, entries)
    ensures forall p | p in Only(proxies, exact, entries, false) :: !Blocked(p, exact, entries)
  {
    if proxies != [] {
      var n := |proxies| - 1;
      OnlyPartitions(proxies[..n], exact, entries);
      assert proxies == proxies[..n] + [proxies[n]];
    }
  }

  // Section 2.5.5.2 of RFC 4291: an IPv6 address whose upper 96 bits are 0:0:0:0:0:ffff stands for an IPv4 address.
  ghost predicate StandsFor(a: Address, b: Address) {
    b == if a.family == V6 && 0xffff_0000_0000 <= a.value <= 0xffff_ffff_ffff then Address(V4, a.value - 0xffff_0000_0000) else a
  }

  lemma UnmappedIsValid(a: Address)
    requires Valid(a)
    ensures StandsFor(a, Unmapped(a)) && Valid(Unmapped(a))
  {
    assert Pow2(8) == 256;
    Pow2Add(8, 8);
    Pow2Add(16, 16);
    assert Pow2(32) == 0x1_0000_0000;
  }

  // A route is blocked exactly if the address it stands for is on the exact list, or agrees with the leading bits of
  // a prefix on the list.
  lemma BlockedBitwise(p: Proxy, exact: set<Address>, entries: seq<Entry>)
    requires (forall e | e in entries :: ValidEntry(e)) && (p.address.Some? ==> Valid(p.address.value))
    ensures Blocked(p, exact, entries) <==>
            p.address.Some? && exists a :: StandsFor(p.address.value, a) && (a in exact || Listed(entries, a))
  {
    hide InPrefixes, Listed, Valid, Unmapped;
    if p.address.Some? {
      UnmappedIsValid(p.address.value);
      InPrefixesBitwise(entries, Unmapped(p.address.value));
    }
  }

  // Both lists keep the order of the input, and a route is blocked exactly when the scan of the prefixes or the
  // exact set holds its address.
  method FilterProxies(proxies: seq<Proxy>, exact: set<Address>, spans: seq<Span>, ghost entries: seq<Entry>)
    returns (allowed: seq<Proxy>, blocked: seq<Proxy>)
    requires Disjoint(spans) && forall a :: InSpans(spans, a) <==> InPrefixes(entries, a)
    ensures allowed == Only(proxies, exact, entries, false) && blocked == Only(proxies, exact, entries, true)
  {
    hide Disjoint, InPrefixes, InSpans;
    allowed, blocked := [], [];
    for n := 0 to |proxies|
      invariant allowed == Only(proxies[..n], exact, entries, false) && blocked == Only(proxies[..n], exact, entries, true)
    {
      var proxy := proxies[n];
      assert proxies[..n + 1][..n] == proxies[..n];
      if proxy.address.None? {
        allowed := allowed + [proxy];
        continue;
      }
      if Unmapped(proxy.address.value) in exact {
        blocked := blocked + [proxy];
        continue;
      }
      var found := InRange(Some(Unmapped(proxy.address.value)), spans);
      if found {
        blocked := blocked + [proxy];
        continue;
      }
      allowed := allowed + [proxy];
    }
    assert proxies[..|proxies|] == proxies;
  }
}
