/**
 The IP filter loader of src/lt/ip_filter_loader.cc. An address is its bytes in network order, four
 or sixteen of them; a CIDR block is what its prefix says: the addresses that agree with its base
 in the leading bits.
*/
module IpFilter {
  import opened Sequences
  import opened Arith
  import opened Bits

  type Bytes = seq<Byte>
  type Raw4 = s: Bytes | |s| == 4 witness [0, 0, 0, 0]
  type Raw6 = s: Bytes | |s| == 16 witness [0, 0, 0, 0, 0, 0, 0, 0, 0, 0, 0, 0, 0, 0, 0, 0]
  type Host = n: nat | n < 0x1_0000_0000

  // ---------------------------------------------------------------- addresses as numbers

  function Number(s: Bytes): (n: nat)
    decreases |s|
  {
    if s == [] then 0 else Number(s[..|s| - 1]) * 0x100 + s[|s| - 1]
  }

  /** The k-th bit from the top. */
  predicate TopBit(s: Bytes, k: nat)
    requires k < 8 * |s|
  {
    Bit(s[k / 8], 7 - k % 8)
  }

  lemma {:induction false} NumberFits(s: Bytes)
    ensures Number(s) < Pow2(8 * |s|)
    decreases |s|
  {
    if s != [] {
      NumberFits(s[..|s| - 1]);
      EightMore(8 * (|s| - 1));
    }
  }

  lemma EightMore(n: nat)
    ensures Pow2(n + 8) == 0x100 * Pow2(n)
  {
    Pow2Words();
    Pow2Add(8, n);
  }

  lemma {:induction false} NumberBit(s: Bytes, k: nat)
    requires k < 8 * |s|
    ensures Bit(Number(s), 8 * |s| - 1 - k) == TopBit(s, k)
    decreases |s|
  {
    var front, last := s[..|s| - 1], s[|s| - 1];
    Pow2Words();
    BitSplit(Number(front), 8, last, 8 * |s| - 1 - k);
    if k < 8 * |front| {
      NumberBit(front, k);
    }
  }

  /** Big-endian bytes of a number. */
  function ToBytes(v: nat, n: nat): (s: Bytes)
    ensures |s| == n
  {
    if n == 0 then [] else ToBytes(v / 0x100, n - 1) + [v % 0x100]
  }

  lemma {:induction false} NumberOfBytes(v: nat, n: nat)
    requires v < Pow2(8 * n)
    ensures Number(ToBytes(v, n)) == v
    decreases n
  {
    if n > 0 {
      EightMore(8 * (n - 1));
      NumberOfBytes(v / 0x100, n - 1);
      var s := ToBytes(v, n);
      assert s[..n - 1] == ToBytes(v / 0x100, n - 1);
    }
  }

  /** memcmp on buffers of equal length. */
  function Memcmp(a: Bytes, b: Bytes): int
    requires |a| == |b|
  {
    if a == [] then 0
    else if a[0] > b[0] then 1 else if a[0] < b[0] then -1 else Memcmp(a[1..], b[1..])
  }

  lemma {:induction false} MemcmpLast(a: Bytes, b: Bytes, x: Byte, y: Byte)
    requires |a| == |b|
    ensures Memcmp(a + [x], b + [y]) == if Memcmp(a, b) != 0 then Memcmp(a, b) else Memcmp([x], [y])
    decreases |a|
  {
    if a == [] {
      assert a + [x] == [x] && b + [y] == [y];
    } else {
      assert (a + [x])[1..] == a[1..] + [x] && (b + [y])[1..] == b[1..] + [y];
      MemcmpLast(a[1..], b[1..], x, y);
    }
  }

  /** memcmp orders addresses by their numbers. */
  lemma {:induction false} MemcmpIsNumeric(a: Bytes, b: Bytes)
    requires |a| == |b|
    ensures Memcmp(a, b) > 0 <==> Number(a) > Number(b)
    ensures Memcmp(a, b) < 0 <==> Number(a) < Number(b)
    decreases |a|
  {
    if a != [] {
      var i := |a| - 1;
      MemcmpIsNumeric(a[..i], b[..i]);
      MemcmpLast(a[..i], b[..i], a[i], b[i]);
      assert a == a[..i] + [a[i]] && b == b[..i] + [b[i]];
      ByteOrder(a[i], b[i]);
    }
  }

  lemma ByteOrder(x: Byte, y: Byte)
    ensures Memcmp([x], [y]) > 0 <==> x > y
    ensures Memcmp([x], [y]) < 0 <==> x < y
  {
    assert [x][1..] == [] && [y][1..] == [];
  }

  // ---------------------------------------------------------------- blocks of addresses

  /** A leading bit is a bit of the number shifted right. */
  lemma LeadingBit(s: Bytes, prefix: nat, k: nat)
    requires k < prefix <= 8 * |s|
    ensures TopBit(s, k) == Bit(ShiftRight(Number(s), 8 * |s| - prefix), prefix - 1 - k)
  {
    NumberBit(s, k);
    BitOfShift(Number(s), 8 * |s| - prefix, prefix - 1 - k);
  }

  /** Being in the block means agreeing in the leading bits. */
  lemma SamePrefix(s: Bytes, a: Bytes, prefix: nat)
    requires |s| == |a| && prefix <= 8 * |s|
    ensures var m := 8 * |s| - prefix;
            ShiftRight(Number(a), m) == ShiftRight(Number(s), m) <==>
              forall k: nat :: k < prefix ==> TopBit(a, k) == TopBit(s, k)
  {
    var m := 8 * |s| - prefix;
    if ShiftRight(Number(a), m) == ShiftRight(Number(s), m) {
      forall k: nat | k < prefix ensures TopBit(a, k) == TopBit(s, k) {
        LeadingBit(a, prefix, k);
        LeadingBit(s, prefix, k);
      }
    } else if forall k: nat :: k < prefix ==> TopBit(a, k) == TopBit(s, k) {
      SamePrefixSameShift(s, a, prefix);
    }
  }

  lemma SamePrefixSameShift(s: Bytes, a: Bytes, prefix: nat)
    requires |s| == |a| && prefix <= 8 * |s| && forall k: nat :: k < prefix ==> TopBit(a, k) == TopBit(s, k)
    ensures ShiftRight(Number(a), 8 * |s| - prefix) == ShiftRight(Number(s), 8 * |s| - prefix)
  {
    var m := 8 * |s| - prefix;
    NumberFits(a);
    NumberFits(s);
    ShiftFits(Number(a), m, prefix);
    ShiftFits(Number(s), m, prefix);
    forall j: nat | j < prefix ensures Bit(ShiftRight(Number(a), m), j) == Bit(ShiftRight(Number(s), m), j) {
      assert TopBit(a, prefix - 1 - j) == TopBit(s, prefix - 1 - j);
      LeadingBit(a, prefix, prefix - 1 - j);
      LeadingBit(s, prefix, prefix - 1 - j);
    }
    SameBits(ShiftRight(Number(a), m), ShiftRight(Number(s), m), prefix);
  }

  // ---------------------------------------------------------------- rules

  datatype Range = Range(first: Bytes, last: Bytes)

  /** What a line says: a block, or everything between two addresses in either order. */
  datatype Rule = Cidr(ip: Bytes, prefix: nat) | Span(a: Bytes, b: Bytes)

  predicate Sane(r: Rule) {
    match r
    case Cidr(ip, prefix) => prefix <= 8 * |ip|
    case Span(a, b) => |a| == |b|
  }

  ghost predicate Covers(r: Rule, a: Bytes)
    requires Sane(r)
  {
    match r
    case Cidr(ip, prefix) => |a| == |ip| && forall k: nat :: k < prefix ==> TopBit(a, k) == TopBit(ip, k)
    case Span(x, y) => |a| == |x| && Min(Number(x), Number(y)) <= Number(a) <= Max(Number(x), Number(y))
  }

  /** What libtorrent::ip_filter blocks for one rule. */
  predicate InSpan(r: Range, a: Bytes) { |a| == |r.first| && Number(r.first) <= Number(a) <= Number(r.last) }

  /** `g` is the range of the block of `prefix` bits around `ip`. */
  ghost predicate IsBlock(g: Range, ip: Bytes, prefix: nat)
    requires prefix <= 8 * |ip|
  {
    var m := 8 * |ip| - prefix;
    && |g.first| == |g.last| == |ip|
    && Number(g.first) == ClearLow(Number(ip), m) && Number(g.last) == SetLow(Number(ip), m)
  }

  /** The range of a block contains exactly the addresses that share its leading bits. */
  lemma BlockCovers(g: Range, ip: Bytes, prefix: nat, a: Bytes)
    requires prefix <= 8 * |ip| && IsBlock(g, ip, prefix)
    ensures InSpan(g, a) <==> Covers(Cidr(ip, prefix), a)
  {
    if |a| == |ip| {
      InBlock(Number(ip), 8 * |ip| - prefix, Number(a));
      SamePrefix(ip, a, prefix);
    }
  }

  // ---------------------------------------------------------------- the IPv6 loop

  /** `s` is `ip` with the bits from `lo` up to `hi` set to `v`. */
  ghost predicate BitsPut(ip: Bytes, s: Bytes, lo: nat, hi: nat, v: bool) {
    |s| == |ip| && forall k: nat :: k < 8 * |ip| ==> TopBit(s, k) == if lo <= k < hi then v else TopBit(ip, k)
  }

  /** 1u << (7 - bo) */
  function MaskOf(k: nat): (m: Byte) {
    Pow2Words();
    Pow2Monotone(7 - k % 8, 7);
    Pow2(7 - k % 8)
  }

  function ByteAnd(x: Byte, y: Byte): Byte {
    AndShrinks(x, y);
    And(x, y)
  }

  function ByteOr(x: Byte, y: Byte): Byte {
    Pow2Words();
    OrStays(x, y, 8);
    Or(x, y)
  }

  lemma ClearsBit(b: Byte, k: nat, j: nat)
    requires j < 8
    ensures Bit(ByteAnd(b, 0xFF - MaskOf(k)), j) == (Bit(b, j) && j != 7 - k % 8)
  {
    Pow2Words();
    BitOfPow2(7 - k % 8, j);
    BitOfComplement(MaskOf(k), 8, j);
    BitOfAnd(b, 0xFF - MaskOf(k), j);
  }

  lemma SetsBit(b: Byte, k: nat, j: nat)
    requires j < 8
    ensures Bit(ByteOr(b, MaskOf(k)), j) == (Bit(b, j) || j == 7 - k % 8)
  {
    BitOfPow2(7 - k % 8, j);
    BitOfOr(b, MaskOf(k), j);
  }

  lemma BitsStep(ip: Bytes, s: Bytes, lo: nat, k: nat, v: bool, s': Bytes)
    requires BitsPut(ip, s, lo, k, v) && lo <= k < 8 * |ip|
    requires s' == s[k / 8 := if v then ByteOr(s[k / 8], MaskOf(k)) else ByteAnd(s[k / 8], 0xFF - MaskOf(k))]
    ensures BitsPut(ip, s', lo, k + 1, v)
  {
    forall i: nat | i < 8 * |ip| ensures TopBit(s', i) == if lo <= i < k + 1 then v else TopBit(ip, i) {
      assert TopBit(s, i) == if lo <= i < k then v else TopBit(ip, i);
      if i / 8 == k / 8 {
        if v { SetsBit(s[k / 8], k, 7 - i % 8); } else { ClearsBit(s[k / 8], k, 7 - i % 8); }
        assert i == k <==> i % 8 == k % 8;
      }
    }
  }

  /** The bits put below the prefix make the ends of the block. */
  lemma BitsMakeBlock(ip: Bytes, s: Bytes, prefix: nat, v: bool)
    requires prefix <= 8 * |ip| && BitsPut(ip, s, prefix, 8 * |ip|, v)
    ensures Number(s) == if v then SetLow(Number(ip), 8 * |ip| - prefix) else ClearLow(Number(ip), 8 * |ip| - prefix)
  {
    var w := 8 * |ip|;
    var m := w - prefix;
    NumberFits(ip);
    NumberFits(s);
    BlockFits(Number(ip), m, w);
    var end := if v then SetLow(Number(ip), m) else ClearLow(Number(ip), m);
    forall j: nat | j < w ensures Bit(Number(s), j) == Bit(end, j) {
      BlockBit(ip, s, prefix, v, w - 1 - j);
    }
    SameBits(Number(s), end, w);
  }

  lemma BlockBit(ip: Bytes, s: Bytes, prefix: nat, v: bool, k: nat)
    requires prefix <= 8 * |ip| && BitsPut(ip, s, prefix, 8 * |ip|, v) && k < 8 * |ip|
    ensures Bit(Number(s), 8 * |ip| - 1 - k)
         == Bit(if v then SetLow(Number(ip), 8 * |ip| - prefix) else ClearLow(Number(ip), 8 * |ip| - prefix),
                8 * |ip| - 1 - k)
  {
    assert TopBit(s, k) == if prefix <= k then v else TopBit(ip, k);
    NumberBit(s, k);
    NumberBit(ip, k);
    BitOfSet(Number(ip), 8 * |ip| - prefix, 8 * |ip| - 1 - k);
    BitOfClear(Number(ip), 8 * |ip| - prefix, 8 * |ip| - 1 - k);
  }

  lemma FilledBits(ip: Raw6, s: Bytes, v: bool)
    requires |s| == 16 && forall i :: 0 <= i < 16 ==> s[i] == if v then 0xFF else 0
    ensures BitsPut(ip, s, 0, 128, v)
  {
    forall k: nat | k < 128 ensures TopBit(s, k) == v {
      Pow2Words();
      ZeroHasNoBit(7 - k % 8);
      AllOnes(8, 7 - k % 8);
    }
  }

  /** ipv6ApplyPrefixRange writes the ends of the block; out of range prefixes mean 0 and 128. */
  method Ipv6ApplyPrefixRange(ip: Raw6, prefix: int, first: array<Byte>, last: array<Byte>)
    requires first.Length == last.Length == 16 && first != last
    modifies first, last
    ensures IsBlock(Range(first[..], last[..]), ip, Clamp(prefix, 0, 128))
  {
    for i := 0 to 16
      invariant forall j :: 0 <= j < i ==> first[j] == ip[j] && last[j] == ip[j]
    {
      first[i], last[i] := ip[i], ip[i];
    }
    assert first[..] == ip && last[..] == ip;
    if prefix <= 0 {
      Fill(first, 0);
      Fill(last, 0xFF);
      FilledBits(ip, first[..], false);
      FilledBits(ip, last[..], true);
      BitsMakeBlock(ip, first[..], 0, false);
      BitsMakeBlock(ip, last[..], 0, true);
      return;
    }
    if prefix >= 128 {
      return;
    }
    PutBits(ip, prefix, first, last);
    BitsMakeBlock(ip, first[..], prefix, false);
    BitsMakeBlock(ip, last[..], prefix, true);
  }

  method Fill(a: array<Byte>, b: Byte)
    modifies a
    ensures forall i :: 0 <= i < a.Length ==> a[i] == b
  {
    for i := 0 to a.Length
      invariant forall j :: 0 <= j < i ==> a[j] == b
    {
      a[i] := b;
    }
  }

  method PutBits(ip: Raw6, prefix: nat, first: array<Byte>, last: array<Byte>)
    requires first.Length == last.Length == 16 && first != last && prefix < 128 && first[..] == last[..] == ip
    modifies first, last
    ensures BitsPut(ip, first[..], prefix, 128, false) && BitsPut(ip, last[..], prefix, 128, true)
  {
    for k := prefix to 128
      invariant BitsPut(ip, first[..], prefix, k, false) && BitsPut(ip, last[..], prefix, k, true)
    {
      var bi := k / 8;
      var mask := MaskOf(k);
      ghost var f, l := first[..], last[..];
      first[bi] := ByteAnd(first[bi], 0xFF - mask);
      last[bi] := ByteOr(last[bi], mask);
      BitsStep(ip, f, prefix, k, false, first[..]);
      BitsStep(ip, l, prefix, k, true, last[..]);
    }
  }

  // ---------------------------------------------------------------- the IPv4 masks

  /** 0xFFFFFFFFu << n in 32 bits */
  function HighMask32(n: nat): nat
    requires n <= 32
  {
    0xFFFF_FFFF * Pow2(n) % 0x1_0000_0000
  }

  lemma HighMaskValue(n: nat)
    requires 0 < n <= 32
    ensures HighMask32(n) == Pow2(32) - Pow2(n)
  {
    Pow2Words();
    Pow2Monotone(n, 32);
    var p := Pow2(n);
    DivModUnique(0xFFFF_FFFF * p, 0x1_0000_0000, p - 1, 0x1_0000_0000 - p);
  }

  lemma NoMask()
    ensures HighMask32(0) == 0xFFFF_FFFF
  {
  }

  lemma MaskClears(ip: Host, n: nat)
    requires n <= 32
    ensures And(ip, HighMask32(n)) == ClearLow(ip, n)
  {
    Pow2Words();
    if n == 0 { NoMask(); } else { HighMaskValue(n); }
    AndHighMask(ip, 32, n);
    BlockIsArithmetic(ip, n);
  }

  lemma MaskSets(base: nat, n: nat)
    requires n <= 32
    ensures HighMask32(n) < 0x1_0000_0000 && Or(base, 0xFFFF_FFFF - HighMask32(n)) == SetLow(base, n)
  {
    Pow2Words();
    if n == 0 { NoMask(); } else { HighMaskValue(n); }
    OrLowMask(base, n);
    BlockIsArithmetic(base, n);
  }

  /** The mask form of the ends of an IPv4 block. */
  lemma MasksMakeBlock(ip: Host, n: nat)
    requires n <= 32
    ensures And(ip, HighMask32(n)) == ClearLow(ip, n)
    ensures Or(And(ip, HighMask32(n)), 0xFFFF_FFFF - HighMask32(n)) == SetLow(ip, n)
  {
    MaskClears(ip, n);
    MaskSets(ClearLow(ip, n), n);
    SetAfterClear(ip, n);
  }

  function ToAddress4(h: Host): Raw4 { ToBytes(h, 4) }

  lemma AddressNumber(h: Host)
    ensures Number(ToAddress4(h)) == h
  {
    Pow2Words();
    NumberOfBytes(h, 4);
  }

  /** The range appendCidrIpv4 adds. */
  method Block4(ip: Host, prefix: nat) returns (g: Range)
    requires prefix <= 32
    ensures IsBlock(g, ToAddress4(ip), prefix)
  {
    Pow2Words();
    AddressNumber(ip);
    if prefix == 0 {
      WholeBlock(ip, 32);
      AddressNumber(0);
      AddressNumber(0xFFFF_FFFF);
      return Range(ToAddress4(0), ToAddress4(0xFFFF_FFFF));
    }
    var mask := HighMask32(32 - prefix);
    MasksMakeBlock(ip, 32 - prefix);
    BlockFits(ip, 32 - prefix, 32);
    var firstHost := And(ip, mask);
    var lastHost := Or(firstHost, 0xFFFF_FFFF - mask);
    AddressNumber(firstHost);
    AddressNumber(lastHost);
    g := Range(ToAddress4(firstHost), ToAddress4(lastHost));
  }

  // ---------------------------------------------------------------- lines

  datatype HostKind = NotAnAddress | HostV4(h: Host) | HostV6

  /** QString::trimmed and toInt, QHostAddress and libtorrent::make_address, left uninterpreted. */
  datatype Parsers = Parsers(trim: string -> string, toInt: string -> Option<int>, host: string -> HostKind,
                             make6: string -> Option<Raw6>)

  function IndexOf(s: string, c: char): (i: int)
    ensures -1 <= i < |s| && (i >= 0 ==> s[i] == c)
    ensures forall j :: 0 <= j < (if i < 0 then |s| else i) ==> s[j] != c
  {
    if s == [] then -1 else if s[0] == c then 0
    else
      var i := IndexOf(s[1..], c);
      if i < 0 then -1 else i + 1
  }

  /** Where " - " is. */
  function IndexOfDash(s: string): (i: int)
    ensures -1 <= i && (i >= 0 ==> i + 3 <= |s|)
  {
    if |s| < 3 then -1 else if s[..3] == " - " then 0
    else
      var i := IndexOfDash(s[1..]);
      if i < 0 then -1 else i + 1
  }

  function StripBrackets(p: Parsers, s: string): string {
    var t := p.trim(s);
    if |t| >= 2 && t[0] == '[' && t[|t| - 1] == ']' then t[1..|t| - 1] else t
  }

  function AnyIp(p: Parsers, s: string): (r: Option<Bytes>)
    ensures r.Some? ==> |r.value| == 4 || |r.value| == 16
  {
    var token := StripBrackets(p, s);
    match p.host(token)
    case NotAnAddress => None
    case HostV4(h) => Some(ToAddress4(h))
    case HostV6 => var v := p.make6(token); if v.Some? then Some(v.value) else None
  }

  function DottedIp(p: Parsers, s: string): (r: Option<Bytes>)
    ensures r.Some? ==> |r.value| == 4
  {
    match p.host(p.trim(s))
    case HostV4(h) => Some(ToAddress4(h))
    case _ => None
  }

  function LooksLikeIpv6(t: string): bool { IndexOf(t, ':') >= 0 || (t != [] && t[0] == '[') }

  function SaneRule(r: Option<Rule>): bool { r.Some? ==> Sane(r.value) }

  function Cidr4Rule(p: Parsers, t: string): (r: Option<Rule>)
    ensures SaneRule(r)
  {
    var slash := IndexOf(t, '/');
    if slash <= 0 then None
    else
      var prefix, host := p.toInt(p.trim(t[slash + 1..])), p.host(p.trim(t[..slash]));
      if prefix.None? || prefix.value < 0 || prefix.value > 32 || !host.HostV4? then None
      else Some(Cidr(ToAddress4(host.h), prefix.value))
  }

  function Cidr6Rule(p: Parsers, t: string): (r: Option<Rule>)
    ensures SaneRule(r)
  {
    var slash := IndexOf(t, '/');
    if slash <= 0 then None
    else
      var prefix, ip := p.toInt(p.trim(t[slash + 1..])), p.make6(StripBrackets(p, p.trim(t[..slash])));
      if prefix.None? || prefix.value < 0 || prefix.value > 128 || ip.None? then None
      else Some(Cidr(ip.value, prefix.value))
  }

  function SpanRule(a: Option<Bytes>, b: Option<Bytes>, size: nat): (r: Option<Rule>)
    ensures SaneRule(r)
  {
    if a.None? || b.None? || |a.value| != size || |b.value| != size then None else Some(Span(a.value, b.value))
  }

  function Range4Rule(p: Parsers, t: string): (r: Option<Rule>)
    ensures SaneRule(r)
  {
    var s := p.trim(t);
    var pos := IndexOfDash(s);
    if pos < 0 then None else SpanRule(DottedIp(p, s[..pos]), DottedIp(p, s[pos + 3..]), 4)
  }

  function Range6Rule(p: Parsers, t: string): (r: Option<Rule>)
    ensures SaneRule(r)
  {
    var s := p.trim(t);
    var pos := IndexOfDash(s);
    if pos < 0 then None else SpanRule(AnyIp(p, s[..pos]), AnyIp(p, s[pos + 3..]), 16)
  }

  predicate Skipped(t: string) { t == [] || t[0] == '#' }

  /** The rule of a trimmed line that is not skipped. */
  function LineRule(p: Parsers, t: string): (r: Option<Rule>)
    ensures SaneRule(r)
  {
    var slash, dash := IndexOf(t, '/'), IndexOfDash(t);
    if slash >= 0 then
      if LooksLikeIpv6(t[..slash]) then Cidr6Rule(p, t)
      else if Cidr4Rule(p, t).Some? then Cidr4Rule(p, t) else Cidr6Rule(p, t)
    else if dash >= 0 then
      var left6, right6 := LooksLikeIpv6(p.trim(t[..dash])), LooksLikeIpv6(p.trim(t[dash + 3..]));
      if left6 && right6 then Range6Rule(p, t) else if left6 || right6 then None else Range4Rule(p, t)
    else
      var a := AnyIp(p, t);
      if a.None? then None else Some(Span(a.value, a.value))
  }

  /** What a line of the file says: nothing for blank lines and comments. */
  function Meaning(p: Parsers, raw: string): (r: Option<Rule>)
    ensures SaneRule(r)
  {
    var t := p.trim(raw);
    if Skipped(t) || Skipped(p.trim(t)) then None else LineRule(p, p.trim(t))
  }

  predicate Blocked(rules: seq<Range>, a: Bytes) { exists i :: 0 <= i < |rules| && InSpan(rules[i], a) }

  /** `after` is `before` with a range for the rule, if there is one. */
  ghost predicate Adds(before: seq<Range>, after: seq<Range>, r: Option<Rule>) {
    if r.None? || !Sane(r.value) then after == before
    else && |after| == |before| + 1 && after[..|before|] == before
         && forall a :: InSpan(after[|before|], a) <==> Covers(r.value, a)
  }

  // ---------------------------------------------------------------- the format of a line

  /** The separator stands at position `k`. */
  predicate At(t: string, sep: string, k: nat) { k + |sep| <= |t| && t[k..k + |sep|] == sep }

  /** `t` is `a` and `b` with the first `sep` between them. */
  ghost predicate Cut(t: string, a: string, sep: string, b: string) {
    t == a + sep + b && forall k: nat :: k < |a| ==> !At(t, sep, k)
  }

  ghost predicate Holds(t: string, sep: string) { exists k: nat :: At(t, sep, k) }

  /** Text of an IPv6 address, to judge by its looks. */
  predicate Colons(t: string) { (exists k :: 0 <= k < |t| && t[k] == ':') || (t != [] && t[0] == '[') }

  /** The text is one address, with brackets or without. */
  ghost predicate Address(p: Parsers, s: string, ip: Bytes) {
    var u := p.trim(s);
    var v := if |u| >= 2 && u[0] == '[' && u[|u| - 1] == ']' then u[1..|u| - 1] else u;
    || (p.host(v).HostV4? && ip == ToBytes(p.host(v).h, 4))
    || (p.host(v).HostV6? && p.make6(v) == Some(ip))
  }

  ghost predicate Dotted(p: Parsers, s: string, ip: Bytes) {
    p.host(p.trim(s)).HostV4? && ip == ToBytes(p.host(p.trim(s)).h, 4)
  }

  /** "address/prefix": a block of IPv4 if the address can be read so and the prefix fits, otherwise of
      IPv6. */
  ghost predicate IsCidr(p: Parsers, a: string, b: string, r: Rule) {
    var n := p.toInt(p.trim(b));
    var v4 := !Colons(a) && p.host(p.trim(a)).HostV4? && n.Some? && 0 <= n.value <= 32;
    && a != "" && n.Some?
    && if v4 then r == Cidr(ToBytes(p.host(p.trim(a)).h, 4), n.value)
       else && 0 <= n.value <= 128 && p.make6(StripBrackets(p, p.trim(a))).Some?
            && r == Cidr(p.make6(StripBrackets(p, p.trim(a))).value, n.value)
  }

  /** "address - address": both of the same kind, in either order. */
  ghost predicate IsSpan(p: Parsers, a: string, b: string, r: Rule) {
    var six := Colons(p.trim(a));
    && Colons(p.trim(b)) == six && r.Span?
    && if six then |r.a| == |r.b| == 16 && Address(p, a, r.a) && Address(p, b, r.b)
       else Dotted(p, a, r.a) && Dotted(p, b, r.b)
  }

  /** The three formats of a line. */
  ghost predicate Says(p: Parsers, t: string, r: Rule) {
    if Holds(t, "/") then exists a, b :: Cut(t, a, "/", b) && IsCidr(p, a, b, r)
    else if Holds(t, " - ") then exists a, b :: Cut(t, a, " - ", b) && IsSpan(p, a, b, r)
    else r.Span? && r.a == r.b && Address(p, t, r.a)
  }

  /** Position `i` is the first of the separator, or there is none. */
  ghost predicate First(t: string, sep: string, i: int) {
    && i >= -1 && (i >= 0 ==> At(t, sep, i))
    && forall k: nat :: k < (if i < 0 then |t| + 1 else i) ==> !At(t, sep, k)
  }

  lemma CutIsThere(t: string, sep: string, i: nat, a: string, b: string)
    requires First(t, sep, i)
    ensures Cut(t, a, sep, b) <==> a == t[..i] && b == t[i + |sep|..]
  {
    assert t == t[..i] + t[i..i + |sep|] + t[i + |sep|..];
    if Cut(t, a, sep, b) {
      assert t[|a|..|a| + |sep|] == sep;
      assert At(t, sep, |a|);
    }
  }

  lemma SlashIsFirst(t: string)
    ensures First(t, "/", IndexOf(t, '/'))
  {
    var i := IndexOf(t, '/');
    if i >= 0 { assert t[i..i + 1] == "/"; }
    forall k: nat | k < (if i < 0 then |t| + 1 else i) ensures !At(t, "/", k) {
      if k < |t| { assert t[k..k + 1][0] == t[k]; }
    }
  }

  lemma AtLater(t: string, sep: string, k: nat)
    requires t != []
    ensures At(t, sep, k + 1) <==> At(t[1..], sep, k)
  {
    if k + 1 + |sep| <= |t| { assert t[k + 1..k + 1 + |sep|] == t[1..][k..k + |sep|]; }
  }

  lemma {:induction false} DashIsFirst(t: string)
    ensures First(t, " - ", IndexOfDash(t))
    decreases |t|
  {
    if |t| >= 3 && t[..3] != " - " {
      var i, j := IndexOfDash(t), IndexOfDash(t[1..]);
      DashIsFirst(t[1..]);
      if j >= 0 { AtLater(t, " - ", j); }
      forall k: nat | k < (if i < 0 then |t| + 1 else i) ensures !At(t, " - ", k) {
        if k > 0 { AtLater(t, " - ", k - 1); }
      }
    }
  }

  lemma LooksIsColons(t: string)
    ensures LooksLikeIpv6(t) <==> Colons(t)
  {
  }

  lemma AddressIsAnyIp(p: Parsers, s: string, ip: Bytes)
    ensures Address(p, s, ip) <==> AnyIp(p, s) == Some(ip)
  {
  }

  lemma SlashMeans(p: Parsers, t: string, r: Rule)
    requires Holds(t, "/")
    ensures LineRule(p, t) == Some(r) <==> Says(p, t, r)
  {
    SlashIsFirst(t);
    var i := IndexOf(t, '/');
    assert i >= 0;
    var a, b := t[..i], t[i + 1..];
    LooksIsColons(a);
    CidrMeans(p, t, i, r);
    forall x, y ensures Cut(t, x, "/", y) <==> x == a && y == b { CutIsThere(t, "/", i, x, y); }
    assert Cut(t, a, "/", b);
  }

  lemma CidrMeans(p: Parsers, t: string, i: nat, r: Rule)
    requires i < |t| && IndexOf(t, '/') == i
    ensures LineRule(p, t) == Some(r) <==> IsCidr(p, t[..i], t[i + 1..], r)
  {
    LooksIsColons(t[..i]);
  }

  lemma DashMeans(p: Parsers, t: string, r: Rule)
    requires !Holds(t, "/") && Holds(t, " - ") && p.trim(t) == t
    ensures LineRule(p, t) == Some(r) <==> Says(p, t, r)
  {
    SlashIsFirst(t);
    DashIsFirst(t);
    var i := IndexOfDash(t);
    assert i >= 0;
    var a, b := t[..i], t[i + 3..];
    SpanMeans(p, t, i, r);
    forall x, y ensures Cut(t, x, " - ", y) <==> x == a && y == b { CutIsThere(t, " - ", i, x, y); }
    assert Cut(t, a, " - ", b);
  }

  lemma SpanRuleMeans(x: Option<Bytes>, y: Option<Bytes>, size: nat, r: Rule)
    ensures SpanRule(x, y, size) == Some(r) <==>
              r.Span? && x == Some(r.a) && y == Some(r.b) && |r.a| == |r.b| == size
  {
  }

  lemma SpanMeans(p: Parsers, t: string, i: nat, r: Rule)
    requires i + 3 <= |t| && IndexOf(t, '/') < 0 && IndexOfDash(t) == i && p.trim(t) == t
    ensures LineRule(p, t) == Some(r) <==> IsSpan(p, t[..i], t[i + 3..], r)
  {
    var a, b := t[..i], t[i + 3..];
    LooksIsColons(p.trim(a));
    LooksIsColons(p.trim(b));
    SpanCases(p, t, i);
    if Colons(p.trim(a)) == Colons(p.trim(b)) && r.Span? {
      SpanRuleMeans(DottedIp(p, a), DottedIp(p, b), 4, r);
      SpanRuleMeans(AnyIp(p, a), AnyIp(p, b), 16, r);
      SpanSides(p, a, b, r);
    }
  }

  lemma SpanCases(p: Parsers, t: string, i: nat)
    requires i + 3 <= |t| && IndexOf(t, '/') < 0 && IndexOfDash(t) == i && p.trim(t) == t
    ensures var a, b := t[..i], t[i + 3..];
            var six := LooksLikeIpv6(p.trim(a));
            && (LooksLikeIpv6(p.trim(b)) != six ==> LineRule(p, t) == None)
            && (LooksLikeIpv6(p.trim(b)) == six ==>
                  LineRule(p, t) == if six then SpanRule(AnyIp(p, a), AnyIp(p, b), 16)
                                    else SpanRule(DottedIp(p, a), DottedIp(p, b), 4))
  {
  }

  lemma SpanSides(p: Parsers, a: string, b: string, r: Rule)
    requires r.Span?
    ensures Address(p, a, r.a) <==> AnyIp(p, a) == Some(r.a)
    ensures Address(p, b, r.b) <==> AnyIp(p, b) == Some(r.b)
    ensures Dotted(p, a, r.a) <==> DottedIp(p, a) == Some(r.a)
    ensures Dotted(p, b, r.b) <==> DottedIp(p, b) == Some(r.b)
  {
    AddressIsAnyIp(p, a, r.a);
    AddressIsAnyIp(p, b, r.b);
    DottedIsDottedIp(p, a, r.a);
    DottedIsDottedIp(p, b, r.b);
  }

  lemma DottedIsDottedIp(p: Parsers, s: string, ip: Bytes)
    ensures Dotted(p, s, ip) <==> DottedIp(p, s) == Some(ip)
  {
  }

  /** Blank lines and comments mean nothing; any other line means what is left of it when trimmed. */
  lemma MeaningOutcome(p: Parsers, raw: string, r: Rule)
    requires p.trim(p.trim(raw)) == p.trim(raw)
    ensures Meaning(p, raw) == Some(r) <==>
              p.trim(raw) != "" && p.trim(raw)[0] != '#' && Says(p, p.trim(raw), r)
  {
    LineMeans(p, p.trim(raw), r);
  }

  /** A line has a rule exactly when it is in one of the three formats: a block, a span of two
      addresses of the same kind, or a single address. */
  lemma LineMeans(p: Parsers, t: string, r: Rule)
    requires p.trim(t) == t
    ensures LineRule(p, t) == Some(r) <==> Says(p, t, r)
  {
    if Holds(t, "/") {
      SlashMeans(p, t, r);
    } else if Holds(t, " - ") {
      DashMeans(p, t, r);
    } else {
      SlashIsFirst(t);
      DashIsFirst(t);
      if r.Span? { AddressIsAnyIp(p, t, r.a); }
    }
  }

  class Filter {
    const p: Parsers
    var rules: seq<Range>

    constructor (p: Parsers)
      ensures rules == [] && this.p == p
    {
      this.p := p;
      rules := [];
    }

    method AppendCidrIpv4(t: string) returns (ok: bool)
      modifies this
      ensures ok == Cidr4Rule(p, t).Some? && Adds(old(rules), rules, Cidr4Rule(p, t))
    {
      var slash := IndexOf(t, '/');
      if slash <= 0 {
        return false;
      }
      var prefix := p.toInt(p.trim(t[slash + 1..]));
      if prefix.None? || prefix.value < 0 || prefix.value > 32 {
        return false;
      }
      var host := p.host(p.trim(t[..slash]));
      if !host.HostV4? {
        return false;
      }
      var g := Block4(host.h, prefix.value);
      forall a ensures InSpan(g, a) <==> Covers(Cidr(ToAddress4(host.h), prefix.value), a) {
        BlockCovers(g, ToAddress4(host.h), prefix.value, a);
      }
      rules := rules + [g];
      return true;
    }

    method AppendCidrIpv6(t: string) returns (ok: bool)
      modifies this
      ensures ok == Cidr6Rule(p, t).Some? && Adds(old(rules), rules, Cidr6Rule(p, t))
    {
      var slash := IndexOf(t, '/');
      if slash <= 0 {
        return false;
      }
      var ipStr := StripBrackets(p, p.trim(t[..slash]));
      var prefix := p.toInt(p.trim(t[slash + 1..]));
      if prefix.None? || prefix.value < 0 || prefix.value > 128 {
        return false;
      }
      var base := p.make6(ipStr);
      if base.None? {
        return false;
      }
      var first, last := new Byte[16], new Byte[16];
      Ipv6ApplyPrefixRange(base.value, prefix.value, first, last);
      var g := Range(first[..], last[..]);
      forall a ensures InSpan(g, a) <==> Covers(Cidr(base.value, prefix.value), a) {
        BlockCovers(g, base.value, prefix.value, a);
      }
      rules := rules + [g];
      return true;
    }

    /** Both kinds of address range, swapped when they come in the wrong order. */
    method AppendRange(a: Option<Bytes>, b: Option<Bytes>, size: nat) returns (ok: bool)
      modifies this
      ensures ok == SpanRule(a, b, size).Some? && Adds(old(rules), rules, SpanRule(a, b, size))
    {
      if a.None? || |a.value| != size {
        return false;
      }
      if b.None? || |b.value| != size {
        return false;
      }
      var x, y := a.value, b.value;
      MemcmpIsNumeric(x, y);
      if Memcmp(x, y) > 0 {
        x, y := y, x;
      }
      rules := rules + [Range(x, y)];
      return true;
    }

    method AppendRangeIpv4(t: string) returns (ok: bool)
      modifies this
      ensures ok == Range4Rule(p, t).Some? && Adds(old(rules), rules, Range4Rule(p, t))
    {
      var s := p.trim(t);
      var pos := IndexOfDash(s);
      if pos < 0 {
        return false;
      }
      ok := AppendRange(DottedIp(p, s[..pos]), DottedIp(p, s[pos + 3..]), 4);
    }

    method AppendRangeIpv6(t: string) returns (ok: bool)
      modifies this
      ensures ok == Range6Rule(p, t).Some? && Adds(old(rules), rules, Range6Rule(p, t))
    {
      var s := p.trim(t);
      var pos := IndexOfDash(s);
      if pos < 0 {
        return false;
      }
      ok := AppendRange(AnyIp(p, s[..pos]), AnyIp(p, s[pos + 3..]), 16);
    }

    method AppendIpFilterLine(line: string) returns (ok: bool)
      modifies this
      ensures Skipped(p.trim(line)) ==> ok && rules == old(rules)
      ensures !Skipped(p.trim(line)) ==>
                ok == LineRule(p, p.trim(line)).Some? && Adds(old(rules), rules, LineRule(p, p.trim(line)))
    {
      var t := p.trim(line);
      if t == [] || t[0] == '#' {
        return true;
      }
      var slash := IndexOf(t, '/');
      if slash >= 0 {
        if LooksLikeIpv6(t[..slash]) {
          ok := AppendCidrIpv6(t);
          return;
        }
        ok := AppendCidrIpv4(t);
        if ok {
          return true;
        }
        ok := AppendCidrIpv6(t);
        return;
      }
      var pos := IndexOfDash(t);
      if pos >= 0 {
        var left6 := LooksLikeIpv6(p.trim(t[..pos]));
        var right6 := LooksLikeIpv6(p.trim(t[pos + 3..]));
        if left6 || right6 {
          if !left6 || !right6 {
            return false;
          }
          ok := AppendRangeIpv6(t);
          return;
        }
        ok := AppendRangeIpv4(t);
        return;
      }
      var a := AnyIp(p, t);
      if a.None? {
        return false;
      }
      rules := rules + [Range(a.value, a.value)];
      return true;
    }

    /** loadIpFilterFile for the lines of the file: afterwards exactly the addresses that some line
        means are blocked. A line that is skipped after a second trim counts as applied. */
    method LoadIpFilterFile(lines: seq<string>) returns (applied: nat)
      modifies this
      ensures forall a :: Blocked(rules, a) <==>
                exists i :: 0 <= i < |lines| && Meaning(p, lines[i]).Some? && Covers(Meaning(p, lines[i]).value, a)
      ensures |rules| <= applied <= |lines|
      ensures (forall s :: p.trim(p.trim(s)) == p.trim(s)) ==> applied == |rules|
    {
      rules := [];
      applied := 0;
      for n := 0 to |lines|
        invariant |rules| <= applied <= n
        invariant (forall s :: p.trim(p.trim(s)) == p.trim(s)) ==> applied == |rules|
        invariant forall a :: Blocked(rules, a) <==>
          exists i :: 0 <= i < n && Meaning(p, lines[i]).Some? && Covers(Meaning(p, lines[i]).value, a)
      {
        var trimmed := p.trim(lines[n]);
        if trimmed == [] || trimmed[0] == '#' {
          continue;
        }
        ghost var was := rules;
        var ok := AppendIpFilterLine(trimmed);
        if ok {
          applied := applied + 1;
        }
        forall a
          ensures Blocked(rules, a) <==>
                    Blocked(was, a) || (Meaning(p, lines[n]).Some? && Covers(Meaning(p, lines[n]).value, a))
        {
          BlockedGrows(was, rules, Meaning(p, lines[n]), a);
        }
      }
    }
  }

  lemma BlockedGrows(before: seq<Range>, after: seq<Range>, r: Option<Rule>, a: Bytes)
    requires SaneRule(r) && Adds(before, after, r)
    ensures Blocked(after, a) <==> Blocked(before, a) || (r.Some? && Covers(r.value, a))
  {
    if r.Some? {
      var n := |before|;
      assert forall i :: 0 <= i < n ==> after[i] == after[..n][i] == before[i];
      if i :| 0 <= i < n && InSpan(before[i], a) { assert InSpan(after[i], a); }
      if Covers(r.value, a) { assert InSpan(after[n], a); }
    }
  }
}
