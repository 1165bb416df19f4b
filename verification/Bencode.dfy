/**
 The encoders of src/core/bencode_minimal.cc against a parser for the bencoding of BEP 3 that
 belongs to no part of the program: it reads integers, strings and dictionaries, and refuses
 leading zeros and "-0".
*/
module Bencode {
  import opened Sequences
  import opened Bits

  type Bytes = seq<Byte>

  datatype Value = Number(n: int) | Text(s: Bytes) | Dict(entries: seq<(Bytes, Value)>)

  const LETTER_D: Byte := 0x64
  const LETTER_E: Byte := 0x65
  const LETTER_I: Byte := 0x69
  const COLON: Byte := 0x3A
  const MINUS: Byte := 0x2D
  const ZERO: Byte := 0x30

  // ---------------------------------------------------------------- numbers

  /** QByteArray::number for a value that is not negative. */
  function Digits(n: nat): (ds: Bytes)
    ensures ds != []
  {
    if n < 10 then [ZERO + n] else Digits(n / 10) + [ZERO + n % 10]
  }

  function Decimal(n: int): Bytes { if n < 0 then [MINUS] + Digits(-n) else Digits(n) }

  predicate IsDigit(b: Byte) { ZERO <= b <= 0x39 }
  predicate AllDigits(ds: Bytes) { forall i :: 0 <= i < |ds| ==> IsDigit(ds[i]) }

  function NatOf(ds: Bytes): nat
    requires AllDigits(ds)
  {
    if ds == [] then 0 else NatOf(ds[..|ds| - 1]) * 10 + (ds[|ds| - 1] - ZERO)
  }

  lemma {:induction false} DigitsAreRead(n: nat)
    ensures var ds := Digits(n);
            && AllDigits(ds) && NatOf(ds) == n
            && (ds[0] == ZERO ==> n == 0 && |ds| == 1)
    decreases n
  {
    if n < 10 {
      assert [ZERO + n][..0] == [];
      assert NatOf([ZERO + n]) == n;
    } else {
      DigitsAreRead(n / 10);
      var front := Digits(n / 10);
      assert (front + [ZERO + n % 10])[..|front|] == front;
    }
  }

  /** How many digits the bytes start with. */
  function DigitCount(s: Bytes): (k: nat)
    ensures k <= |s| && AllDigits(s[..k]) && (k < |s| ==> !IsDigit(s[k]))
  {
    if s == [] || !IsDigit(s[0]) then 0
    else
      var k := 1 + DigitCount(s[1..]);
      assert forall i :: 1 <= i < k ==> s[i] == s[1..][..k - 1][i - 1];
      k
  }

  lemma {:induction false} DigitCountStops(ds: Bytes, stop: Byte, rest: Bytes)
    requires AllDigits(ds) && !IsDigit(stop)
    ensures DigitCount(ds + [stop] + rest) == |ds|
    decreases |ds|
  {
    var s := ds + [stop] + rest;
    if ds != [] {
      DigitCountStops(ds[1..], stop, rest);
      assert s[1..] == ds[1..] + [stop] + rest;
    }
  }

  /** A number without leading zeros, the byte after it, and what follows. */
  function ParseNat(s: Bytes, stop: Byte): (r: Option<(nat, Bytes)>)
    ensures r.Some? ==> |r.value.1| < |s|
  {
    var k := DigitCount(s);
    if k == 0 || k == |s| || s[k] != stop || (k > 1 && s[0] == ZERO) then None
    else Some((NatOf(s[..k]), s[k + 1..]))
  }

  lemma Assoc(a: Bytes, b: Bytes, c: Bytes)
    ensures a + b + c == a + (b + c)
  {
  }

  lemma NatRoundTrip(n: nat, stop: Byte, rest: Bytes)
    requires !IsDigit(stop)
    ensures ParseNat(Digits(n) + [stop] + rest, stop) == Some((n, rest))
  {
    DigitsAreRead(n);
    DigitCountStops(Digits(n), stop, rest);
    var s := Digits(n) + [stop] + rest;
    assert s[..|Digits(n)|] == Digits(n) && s[|Digits(n)| + 1..] == rest && s[0] == Digits(n)[0];
  }

  function ParseInt(s: Bytes): (r: Option<(int, Bytes)>)
    ensures r.Some? ==> |r.value.1| < |s|
  {
    if s != [] && s[0] == MINUS then
      var r := ParseNat(s[1..], LETTER_E);
      if r.None? || r.value.0 == 0 then None else Some((0 - r.value.0, r.value.1))
    else
      var r := ParseNat(s, LETTER_E);
      if r.None? then None else Some((r.value.0, r.value.1))
  }

  lemma ParsesNegative(body: Bytes, n: nat, rest: Bytes)
    requires n > 0 && ParseNat(body, LETTER_E) == Some((n, rest))
    ensures ParseInt([MINUS] + body) == Some((0 - n, rest))
  {
    assert ([MINUS] + body)[1..] == body;
  }

  lemma IntRoundTrip(n: int, rest: Bytes)
    ensures ParseInt(Decimal(n) + [LETTER_E] + rest) == Some((n, rest))
  {
    if n < 0 {
      NatRoundTrip(-n, LETTER_E, rest);
      ParsesNegative(Digits(-n) + [LETTER_E] + rest, -n, rest);
      assert Decimal(n) + [LETTER_E] + rest == [MINUS] + (Digits(-n) + [LETTER_E] + rest);
    } else {
      NatRoundTrip(n, LETTER_E, rest);
      DigitsAreRead(n);
      assert (Decimal(n) + [LETTER_E] + rest)[0] == Digits(n)[0];
    }
  }

  // ---------------------------------------------------------------- the parser

  function ParseText(s: Bytes): (r: Option<(Bytes, Bytes)>)
    ensures r.Some? ==> |r.value.1| < |s|
  {
    var r := ParseNat(s, COLON);
    if r.None? || r.value.0 > |r.value.1| then None else Some((r.value.1[..r.value.0], r.value.1[r.value.0..]))
  }

  /** A value and what follows it. */
  function Parse(s: Bytes): (r: Option<(Value, Bytes)>)
    ensures r.Some? ==> |r.value.1| < |s|
    decreases |s|, 0
  {
    if s == [] then None
    else if s[0] == LETTER_I then
      var r := ParseInt(s[1..]);
      if r.None? then None else Some((Number(r.value.0), r.value.1))
    else if s[0] == LETTER_D then
      var r := ParseEntries(s[1..]);
      if r.None? then None else Some((Dict(r.value.0), r.value.1))
    else
      var r := ParseText(s);
      if r.None? then None else Some((Text(r.value.0), r.value.1))
  }

  function ParseEntries(s: Bytes): (r: Option<(seq<(Bytes, Value)>, Bytes)>)
    ensures r.Some? ==> |r.value.1| < |s|
    decreases |s|, 1
  {
    if s == [] then None
    else if s[0] == LETTER_E then Some(([], s[1..]))
    else
      var key := ParseText(s);
      if key.None? then None
      else
        var v := Parse(key.value.1);
        if v.None? then None
        else
          var more := ParseEntries(v.value.1);
          if more.None? then None else Some(([(key.value.0, v.value.0)] + more.value.0, more.value.1))
  }

  // ---------------------------------------------------------------- what the encoders write

  function Int(n: int): Bytes { [LETTER_I] + Decimal(n) + [LETTER_E] }

  function Str(s: Bytes): Bytes { Digits(|s|) + [COLON] + s }

  /** A value without dictionaries inside, which is all the program writes. */
  function Flat(v: Value): Bytes
    requires !v.Dict?
  {
    match v
    case Number(n) => Int(n)
    case Text(s) => Str(s)
  }

  function Pair(key: Bytes, v: Value): Bytes
    requires !v.Dict?
  {
    Str(key) + Flat(v)
  }

  predicate FlatEntries(es: seq<(Bytes, Value)>) { forall i :: 0 <= i < |es| ==> !es[i].1.Dict? }

  function Entries(es: seq<(Bytes, Value)>): Bytes
    requires FlatEntries(es)
  {
    if es == [] then [] else Pair(es[0].0, es[0].1) + Entries(es[1..])
  }

  lemma TextRoundTrip(s: Bytes, rest: Bytes)
    ensures ParseText(Str(s) + rest) == Some((s, rest))
    ensures IsDigit((Str(s) + rest)[0])
  {
    NatRoundTrip(|s|, COLON, s + rest);
    DigitsAreRead(|s|);
    assert Str(s) + rest == Digits(|s|) + [COLON] + (s + rest);
    assert (Str(s) + rest)[0] == Digits(|s|)[0];
  }

  lemma ParsesNumber(body: Bytes, n: int, rest: Bytes)
    requires ParseInt(body) == Some((n, rest))
    ensures Parse([LETTER_I] + body) == Some((Number(n), rest))
  {
    assert ([LETTER_I] + body)[1..] == body;
  }

  lemma NumberRoundTrip(n: int, rest: Bytes)
    ensures Parse(Int(n) + rest) == Some((Number(n), rest))
  {
    IntRoundTrip(n, rest);
    ParsesNumber(Decimal(n) + [LETTER_E] + rest, n, rest);
    Assoc(Decimal(n), [LETTER_E], rest);
    Assoc([LETTER_I], Decimal(n), [LETTER_E]);
    Assoc([LETTER_I], Decimal(n) + [LETTER_E], rest);
  }

  lemma ParsesText(s: Bytes, text: Bytes, rest: Bytes)
    requires s != [] && IsDigit(s[0]) && ParseText(s) == Some((text, rest))
    ensures Parse(s) == Some((Text(text), rest))
  {
  }

  lemma FlatRoundTrip(v: Value, rest: Bytes)
    requires !v.Dict?
    ensures Parse(Flat(v) + rest) == Some((v, rest))
  {
    if v.Number? {
      NumberRoundTrip(v.n, rest);
    } else {
      TextRoundTrip(v.s, rest);
      ParsesText(Str(v.s) + rest, v.s, rest);
    }
  }

  lemma ParsesEntry(s: Bytes, key: Bytes, mid: Bytes, v: Value, tail: Bytes, es: seq<(Bytes, Value)>, rest: Bytes)
    requires s != [] && s[0] != LETTER_E && ParseText(s) == Some((key, mid)) && Parse(mid) == Some((v, tail))
    requires ParseEntries(tail) == Some((es, rest))
    ensures ParseEntries(s) == Some(([(key, v)] + es, rest))
  {
  }

  lemma EntryParses(key: Bytes, v: Value, es: seq<(Bytes, Value)>, tail: Bytes, rest: Bytes)
    requires !v.Dict? && ParseEntries(tail) == Some((es, rest))
    ensures ParseEntries(Pair(key, v) + tail) == Some(([(key, v)] + es, rest))
  {
    var mid := Flat(v) + tail;
    TextRoundTrip(key, mid);
    FlatRoundTrip(v, tail);
    Assoc(Str(key), Flat(v), tail);
    ParsesEntry(Str(key) + mid, key, mid, v, tail, es, rest);
  }

  lemma NoEntries(rest: Bytes)
    ensures ParseEntries(Entries([]) + ([LETTER_E] + rest)) == Some(([], rest))
  {
    var end := [LETTER_E] + rest;
    assert end[1..] == rest;
    assert Entries([]) + end == end;
  }

  lemma ConsRoundTrip(es: seq<(Bytes, Value)>, end: Bytes, rest: Bytes)
    requires es != [] && FlatEntries(es) && ParseEntries(Entries(es[1..]) + end) == Some((es[1..], rest))
    ensures ParseEntries(Entries(es) + end) == Some((es, rest))
  {
    EntryParses(es[0].0, es[0].1, es[1..], Entries(es[1..]) + end, rest);
    Assoc(Pair(es[0].0, es[0].1), Entries(es[1..]), end);
    assert es == [(es[0].0, es[0].1)] + es[1..];
  }

  lemma {:induction false} EntriesRoundTrip(es: seq<(Bytes, Value)>, rest: Bytes)
    requires FlatEntries(es)
    ensures ParseEntries(Entries(es) + ([LETTER_E] + rest)) == Some((es, rest))
    decreases |es|
  {
    if es == [] {
      NoEntries(rest);
    } else {
      EntriesRoundTrip(es[1..], rest);
      ConsRoundTrip(es, [LETTER_E] + rest, rest);
    }
  }

  lemma ParsesDict(body: Bytes, es: seq<(Bytes, Value)>, rest: Bytes)
    requires ParseEntries(body) == Some((es, rest))
    ensures Parse([LETTER_D] + body) == Some((Dict(es), rest))
  {
    assert ([LETTER_D] + body)[1..] == body;
  }

  /** Every dictionary of integers and strings parses back to its entries, and exactly its own bytes
      are consumed. */
  lemma DictRoundTrip(es: seq<(Bytes, Value)>, rest: Bytes)
    requires FlatEntries(es)
    ensures Parse([LETTER_D] + Entries(es) + [LETTER_E] + rest) == Some((Dict(es), rest))
  {
    var end := [LETTER_E] + rest;
    EntriesRoundTrip(es, rest);
    ParsesDict(Entries(es) + end, es, rest);
    Assoc([LETTER_D], Entries(es), end);
    Assoc([LETTER_D] + Entries(es), [LETTER_E], rest);
  }

  // ---------------------------------------------------------------- the announce replies

  const FAILURE_REASON: Bytes := [0x66, 0x61, 0x69, 0x6C, 0x75, 0x72, 0x65, 0x20, 0x72, 0x65, 0x61, 0x73, 0x6F, 0x6E]
  const INTERVAL: Bytes := [0x69, 0x6E, 0x74, 0x65, 0x72, 0x76, 0x61, 0x6C]
  const MIN_INTERVAL: Bytes := [0x6D, 0x69, 0x6E, 0x20] + INTERVAL
  const COMPLETE: Bytes := [0x63, 0x6F, 0x6D, 0x70, 0x6C, 0x65, 0x74, 0x65]
  const INCOMPLETE: Bytes := [0x69, 0x6E] + COMPLETE
  const PEERS: Bytes := [0x70, 0x65, 0x65, 0x72, 0x73]

  /** Appending an entry to the buffer. */
  lemma {:induction false} EntriesAppend(es: seq<(Bytes, Value)>, key: Bytes, v: Value)
    requires FlatEntries(es) && !v.Dict?
    ensures FlatEntries(es + [(key, v)])
    ensures Entries(es + [(key, v)]) == Entries(es) + Pair(key, v)
    decreases |es|
  {
    var more := es + [(key, v)];
    if es == [] {
      assert more[1..] == [];
      assert Entries(more) == Pair(key, v) + [];
    } else {
      EntriesAppend(es[1..], key, v);
      assert more[1..] == es[1..] + [(key, v)];
      Assoc(Pair(es[0].0, es[0].1), Entries(es[1..]), Pair(key, v));
    }
  }

  lemma AppendsEntry(es: seq<(Bytes, Value)>, k: nat)
    requires FlatEntries(es) && k < |es|
    ensures [LETTER_D] + Entries(es[..k]) + Pair(es[k].0, es[k].1) == [LETTER_D] + Entries(es[..k + 1])
  {
    EntriesAppend(es[..k], es[k].0, es[k].1);
    Assoc([LETTER_D], Entries(es[..k]), Pair(es[k].0, es[k].1));
    assert es[..k] + [(es[k].0, es[k].1)] == es[..k + 1];
  }

  /** Appends the next of the entries. */
  method Add(d: Bytes, key: Bytes, v: Value, ghost es: seq<(Bytes, Value)>, ghost k: nat) returns (r: Bytes)
    requires FlatEntries(es) && k < |es| && es[k] == (key, v)
    requires d == [LETTER_D] + Entries(es[..k])
    ensures r == [LETTER_D] + Entries(es[..k + 1])
  {
    AppendsEntry(es, k);
    Assoc(d, Str(key), Flat(v));
    r := d + Str(key);
    r := r + Flat(v);
  }

  method Close(d: Bytes, ghost es: seq<(Bytes, Value)>) returns (r: Bytes)
    requires FlatEntries(es) && d == [LETTER_D] + Entries(es[..|es|])
    ensures Parse(r) == Some((Dict(es), []))
  {
    r := d + [LETTER_E];
    DictRoundTrip(es, []);
    assert es[..|es|] == es && r + [] == r;
  }

  /** The reply parses back to the one field with the reason, with nothing left over. */
  method EncodeAnnounceFailure(utf8: Bytes) returns (d: Bytes)
    ensures Parse(d) == Some((Dict([(FAILURE_REASON, Text(utf8))]), []))
    ensures Parse(d) == Some((Dict([(Ascii("failure reason"), Text(utf8))]), []))
  {
    FailureKey();
    ghost var es := [(FAILURE_REASON, Text(utf8))];
    d := [LETTER_D];
    d := Add(d, FAILURE_REASON, Text(utf8), es, 0);
    d := Close(d, es);
  }

  function OkEntries(interval: int, minInterval: int, complete: int, incomplete: int, peers: Bytes)
    : seq<(Bytes, Value)>
  {
    [(INTERVAL, Number(interval)), (MIN_INTERVAL, Number(minInterval)), (COMPLETE, Number(complete)),
     (INCOMPLETE, Number(incomplete)), (PEERS, Text(peers))]
  }

  lemma Signs()
    ensures [LETTER_D, LETTER_E, LETTER_I, COLON, MINUS, ZERO] == Ascii("dei:-0")
  {
  }

  lemma FailureKey()
    ensures FAILURE_REASON == Ascii("failure reason")
  {
  }

  lemma IntervalKeys()
    ensures INTERVAL == Ascii("interval") && MIN_INTERVAL == Ascii("min interval")
  {
  }

  lemma CountKeys()
    ensures COMPLETE == Ascii("complete") && INCOMPLETE == Ascii("incomplete") && PEERS == Ascii("peers")
  {
  }

  /** The fields of a reply, by their names. */
  lemma OkEntriesByName(interval: int, minInterval: int, complete: int, incomplete: int, peers: Bytes)
    ensures OkEntries(interval, minInterval, complete, incomplete, peers)
         == [(Ascii("interval"), Number(interval)), (Ascii("min interval"), Number(minInterval)),
             (Ascii("complete"), Number(complete)), (Ascii("incomplete"), Number(incomplete)),
             (Ascii("peers"), Text(peers))]
  {
    IntervalKeys();
    CountKeys();
  }

  /** The reply up to its counts. */
  method Intervals(interval: int, minInterval: int, ghost es: seq<(Bytes, Value)>) returns (d: Bytes)
    requires FlatEntries(es) && |es| >= 2
    requires es[0] == (INTERVAL, Number(interval)) && es[1] == (MIN_INTERVAL, Number(minInterval))
    ensures d == [LETTER_D] + Entries(es[..2])
  {
    d := [LETTER_D];
    d := Add(d, INTERVAL, Number(interval), es, 0);
    d := Add(d, MIN_INTERVAL, Number(minInterval), es, 1);
  }

  /** The reply parses back to its five fields, with nothing left over. */
  method EncodeAnnounceOk(interval: int, minInterval: int, complete: int, incomplete: int, peers: Bytes)
    returns (d: Bytes)
    ensures Parse(d) == Some((Dict(OkEntries(interval, minInterval, complete, incomplete, peers)), []))
  {
    ghost var es := OkEntries(interval, minInterval, complete, incomplete, peers);
    d := Intervals(interval, minInterval, es);
    d := Add(d, COMPLETE, Number(complete), es, 2);
    d := Add(d, INCOMPLETE, Number(incomplete), es, 3);
    d := Add(d, PEERS, Text(peers), es, 4);
    d := Close(d, es);
  }
}
