/**
 percentDecodeQueryValue and queryParamRaw of src/core/builtin_http_tracker.cc, on bytes.
 Percent-encoding is that of section 2.1 of RFC 3986, with '+' for a space.
*/
module QueryString {
  import opened Bits

  type Bytes = seq<Byte>

  const PERCENT: Byte := 0x25
  const PLUS: Byte := 0x2B
  const SPACE: Byte := 0x20
  const AMPERSAND: Byte := 0x26
  const EQUALS: Byte := 0x3D

  /** The value of a hex digit in either case, or -1. */
  function Hex(ch: Byte): (v: int)
    ensures -1 <= v < 16
  {
    if 0x30 <= ch <= 0x39 then ch - 0x30
    else if 0x41 <= ch <= 0x46 then ch - 0x41 + 10
    else if 0x61 <= ch <= 0x66 then ch - 0x61 + 10
    else -1
  }

  lemma Signs()
    ensures [PERCENT, PLUS, SPACE, AMPERSAND, EQUALS] == Ascii("%+ &=")
  {
  }

  /** The digits are 0 to 9 and a to f, in either case; nothing else is one. */
  lemma HexOutcome(ch: Byte, v: nat)
    requires v < 16
    ensures Hex(ch) == v <==> ch as char == "0123456789abcdef"[v] || ch as char == "0123456789ABCDEF"[v]
  {
  }

  lemma NotHex(ch: Byte)
    ensures Hex(ch) < 0 <==> ch as char !in "0123456789abcdefABCDEF"
  {
  }

  predicate StartsEscape(s: Bytes) { |s| > 2 && s[0] == PERCENT && Hex(s[1]) >= 0 && Hex(s[2]) >= 0 }

  function Decode(s: Bytes): Bytes
    decreases |s|
  {
    if s == [] then []
    else if StartsEscape(s) then [Hex(s[1]) * 16 + Hex(s[2])] + Decode(s[3..])
    else [if s[0] == PLUS then SPACE else s[0]] + Decode(s[1..])
  }

  /** A plus sign stands for a space, and any other byte that is no percent sign for itself. */
  lemma OtherBytesStay(s: Bytes)
    requires s != [] && s[0] != 0x25
    ensures Decode(s) == [if s[0] == 0x2B then 0x20 else s[0]] + Decode(s[1..])
  {
  }

  /** A percent sign that no two hex digits follow stands for itself. */
  lemma MalformedEscapeStays(s: Bytes)
    requires s != [] && s[0] == 0x25
    requires |s| < 3 || s[1] as char !in "0123456789abcdefABCDEF" || s[2] as char !in "0123456789abcdefABCDEF"
    ensures Decode(s) == [0x25] + Decode(s[1..])
  {
    if |s| >= 3 {
      NotHex(s[1]);
      NotHex(s[2]);
    }
  }

  /** `e` is a way to write the byte `b`: as an escape with hex digits of either case, as itself
      unless it is '%' or '+', and a space also as '+'. */
  predicate Writes(e: Bytes, b: Byte) {
    || (|e| == 3 && StartsEscape(e) && Hex(e[1]) * 16 + Hex(e[2]) == b)
    || (e == [b] && b != PERCENT && b != PLUS)
    || (e == [PLUS] && b == SPACE)
  }

  predicate WritesAll(es: seq<Bytes>, s: Bytes) {
    |es| == |s| && forall i :: 0 <= i < |s| ==> Writes(es[i], s[i])
  }

  function Concat(es: seq<Bytes>): Bytes { if es == [] then [] else es[0] + Concat(es[1..]) }

  /** Decoding inverts every percent-encoding of every byte string. */
  lemma {:induction false} DecodeInvertsEncoding(es: seq<Bytes>, s: Bytes)
    requires WritesAll(es, s)
    ensures Decode(Concat(es)) == s
    decreases |s|
  {
    if s != [] {
      var e, rest := es[0], Concat(es[1..]);
      DecodeInvertsEncoding(es[1..], s[1..]);
      assert Writes(e, s[0]);
      assert (e + rest)[|e|..] == rest;
      assert s == [s[0]] + s[1..];
    }
  }

  function HexDigit(v: nat): (ch: Byte)
    requires v < 16
    ensures Hex(ch) == v
  {
    if v < 10 then 0x30 + v else 0x41 + (v - 10)
  }

  /** Every byte can be written as an escape, so every byte string has an encoding. */
  function EscapeAll(s: Bytes): (es: seq<Bytes>)
    ensures WritesAll(es, s)
  {
    seq(|s|, i requires 0 <= i < |s| => [PERCENT, HexDigit(s[i] / 16), HexDigit(s[i] % 16)])
  }

  // ---------------------------------------------------------------- the code

  lemma ShiftedDigits(hi: nat, lo: nat)
    requires hi < 16 && lo < 16
    ensures Or(hi * 16, lo) == hi * 16 + lo
  {
    assert Pow2(4) == 16;
    OrDisjoint(hi, 4, lo);
  }

  lemma DecodeFrom(s: Bytes, i: nat)
    requires i < |s|
    ensures if i + 2 < |s| && s[i] == PERCENT && Hex(s[i + 1]) >= 0 && Hex(s[i + 2]) >= 0
            then Decode(s[i..]) == [Hex(s[i + 1]) * 16 + Hex(s[i + 2])] + Decode(s[i + 3..])
            else Decode(s[i..]) == [if s[i] == PLUS then SPACE else s[i]] + Decode(s[i + 1..])
  {
    var t := s[i..];
    assert t[1..] == s[i + 1..];
    if |t| > 2 { assert t[3..] == s[i + 3..] && t[1] == s[i + 1] && t[2] == s[i + 2]; }
  }

  /** What the loop appends at `i`, and how far it goes. */
  method DecodeOne(enc: Bytes, i: nat) returns (b: Byte, used: nat)
    requires i < |enc|
    ensures 1 <= used <= |enc| - i && Decode(enc[i..]) == [b] + Decode(enc[i + used..])
  {
    var c := enc[i];
    DecodeFrom(enc, i);
    if c == PERCENT && i + 2 < |enc| {
      var hi, lo := Hex(enc[i + 1]), Hex(enc[i + 2]);
      if hi >= 0 && lo >= 0 {
        ShiftedDigits(hi, lo);
        return Or(hi * 16, lo), 3;
      }
    }
    if c == PLUS {
      return SPACE, 1;
    }
    return c, 1;
  }

  method PercentDecodeQueryValue(enc: Bytes) returns (out: Bytes)
    ensures out == Decode(enc)
  {
    out := [];
    var i := 0;
    assert enc[0..] == enc;
    while i < |enc|
      invariant 0 <= i <= |enc| && out + Decode(enc[i..]) == Decode(enc)
    {
      var b, used := DecodeOne(enc, i);
      assert out + ([b] + Decode(enc[i + used..])) == out + [b] + Decode(enc[i + used..]);
      out := out + [b];
      i := i + used;
    }
    assert enc[i..] == [];
  }

  /** The pieces between the separators. */
  function Split(s: Bytes): (r: seq<Bytes>)
    ensures r != []
    decreases |s|
  {
    if s == [] then [[]]
    else
      var rest := Split(s[1..]);
      if s[0] == AMPERSAND then [[]] + rest else [[s[0]] + rest[0]] + rest[1..]
  }

  /** The decoded value of the first piece that starts with the needle. */
  function FirstValue(pieces: seq<Bytes>, needle: Bytes): Bytes {
    if pieces == [] then []
    else if needle <= pieces[0] then Decode(pieces[0][|needle|..])
    else FirstValue(pieces[1..], needle)
  }

  method IndexOf(s: Bytes, from: nat) returns (next: int)
    requires from <= |s|
    ensures next < 0 ==> AMPERSAND !in s[from..]
    ensures next >= 0 ==> from <= next < |s| && s[next] == AMPERSAND && AMPERSAND !in s[from..next]
  {
    next := from;
    while next < |s|
      invariant from <= next <= |s| && AMPERSAND !in s[from..next]
    {
      if s[next] == AMPERSAND {
        return;
      }
      next := next + 1;
    }
    assert s[from..next] == s[from..];
    next := -1;
  }

  lemma {:induction false} SplitFirst(head: Bytes, tail: Bytes)
    requires AMPERSAND !in head
    ensures Split(head) == [head]
    ensures Split(head + [AMPERSAND] + tail) == [head] + Split(tail)
    decreases |head|
  {
    var s := head + [AMPERSAND] + tail;
    if head == [] {
      assert s[1..] == tail;
    } else {
      SplitFirst(head[1..], tail);
      assert s[1..] == head[1..] + [AMPERSAND] + tail;
      assert [head[0]] + head[1..] == head;
    }
  }

  lemma FirstValueCons(slice: Bytes, rest: seq<Bytes>, needle: Bytes)
    ensures FirstValue([slice] + rest, needle)
         == if needle <= slice then Decode(slice[|needle|..]) else FirstValue(rest, needle)
  {
    assert ([slice] + rest)[1..] == rest;
  }

  lemma SplitAt(qs: Bytes, from: nat, next: nat)
    requires from <= next < |qs| && qs[next] == AMPERSAND && AMPERSAND !in qs[from..next]
    ensures Split(qs[from..]) == [qs[from..next]] + Split(qs[next + 1..])
  {
    SplitFirst(qs[from..next], qs[next + 1..]);
    assert qs[from..] == qs[from..next] + [AMPERSAND] + qs[next + 1..];
  }

  /** What the piece at `from` means for the search. */
  lemma SearchStep(qs: Bytes, from: nat, next: int, needle: Bytes)
    requires from < |qs| && (next < 0 ==> AMPERSAND !in qs[from..])
    requires next >= 0 ==> from <= next < |qs| && qs[next] == AMPERSAND && AMPERSAND !in qs[from..next]
    ensures var slice := if next < 0 then qs[from..] else qs[from..next];
            FirstValue(Split(qs[from..]), needle) ==
              if needle <= slice then Decode(slice[|needle|..])
              else if next < 0 then []
              else FirstValue(Split(qs[next + 1..]), needle)
  {
    if next < 0 {
      SplitFirst(qs[from..], []);
      assert [qs[from..]] + [] == [qs[from..]];
      FirstValueCons(qs[from..], [], needle);
    } else {
      SplitAt(qs, from, next);
      FirstValueCons(qs[from..next], Split(qs[next + 1..]), needle);
    }
  }

  method QueryParamRaw(qs: Bytes, key: Bytes) returns (value: Bytes)
    ensures value == FirstValue(Split(qs), key + [EQUALS])
  {
    var needle := key + [EQUALS];
    var from := 0;
    assert qs[0..] == qs;
    while from < |qs|
      invariant 0 <= from <= |qs|
      invariant FirstValue(Split(qs), needle) == FirstValue(Split(qs[from..]), needle)
      decreases |qs| - from
    {
      var next := IndexOf(qs, from);
      SearchStep(qs, from, next, needle);
      var slice := if next < 0 then qs[from..] else qs[from..next];
      if needle <= slice {
        value := PercentDecodeQueryValue(slice[|needle|..]);
        return;
      }
      if next < 0 {
        return [];
      }
      from := next + 1;
    }
    assert qs[from..] == [];
    return [];
  }

  // ---------------------------------------------------------------- round trips

  function Join(pieces: seq<Bytes>): Bytes
    requires pieces != []
  {
    if |pieces| == 1 then pieces[0] else pieces[0] + [AMPERSAND] + Join(pieces[1..])
  }

  /** Splitting a query string gives back the pieces it was joined from. */
  lemma {:induction false} SplitInvertsJoin(pieces: seq<Bytes>)
    requires pieces != [] && forall p <- pieces :: AMPERSAND !in p
    ensures Split(Join(pieces)) == pieces
    decreases |pieces|
  {
    assert pieces[0] in pieces;
    if |pieces| == 1 {
      SplitFirst(pieces[0], []);
    } else {
      SplitInvertsJoin(pieces[1..]);
      SplitFirst(pieces[0], Join(pieces[1..]));
    }
  }

  /** A parameter as a client sends it: the name, and the value with the way each byte is written. */
  datatype Param = Param(name: Bytes, value: Bytes, written: seq<Bytes>)

  predicate Sendable(p: Param) {
    && WritesAll(p.written, p.value) && AMPERSAND !in Concat(p.written)
    && EQUALS !in p.name && AMPERSAND !in p.name
  }

  function Piece(p: Param): Bytes { p.name + [EQUALS] + Concat(p.written) }

  function Pieces(ps: seq<Param>): seq<Bytes> { seq(|ps|, i requires 0 <= i < |ps| => Piece(ps[i])) }

  /** What a lookup should find. */
  function Lookup(ps: seq<Param>, key: Bytes): Bytes {
    if ps == [] then [] else if ps[0].name == key then ps[0].value else Lookup(ps[1..], key)
  }

  /** A piece starts with "key=" exactly when its name is the key. */
  lemma PieceMatches(p: Param, key: Bytes)
    requires Sendable(p) && EQUALS !in key
    ensures key + [EQUALS] <= Piece(p) <==> p.name == key
    ensures p.name == key ==> Decode(Piece(p)[|key| + 1..]) == p.value
  {
    var needle, piece := key + [EQUALS], Piece(p);
    if needle <= piece {
      assert piece[|key|] == needle[|key|] == EQUALS && piece[|p.name|] == EQUALS;
      assert forall i :: 0 <= i < |p.name| ==> piece[i] == p.name[i] && piece[i] in p.name;
      assert forall i :: 0 <= i < |key| ==> piece[i] == needle[i] == key[i] && piece[i] in key;
      assert |key| == |p.name|;
      assert piece[..|key|] == key && piece[..|p.name|] == p.name;
    }
    if p.name == key {
      assert piece[..|key| + 1] == needle;
      assert piece[|key| + 1..] == Concat(p.written);
      DecodeInvertsEncoding(p.written, p.value);
    }
  }

  lemma {:induction false} FirstValueIsLookup(ps: seq<Param>, key: Bytes)
    requires EQUALS !in key && forall p <- ps :: Sendable(p)
    ensures FirstValue(Pieces(ps), key + [EQUALS]) == Lookup(ps, key)
    decreases |ps|
  {
    if ps != [] {
      assert ps[0] in ps;
      PieceMatches(ps[0], key);
      FirstValueIsLookup(ps[1..], key);
      assert Pieces(ps)[1..] == Pieces(ps[1..]);
    }
  }

  /** Looking a key up in the query string of any parameters, however their bytes are written,
      gives the value of the first parameter of that name. */
  lemma QueryFindsFirst(ps: seq<Param>, key: Bytes)
    requires ps != [] && EQUALS !in key && forall p <- ps :: Sendable(p)
    ensures FirstValue(Split(Join(Pieces(ps))), key + [EQUALS]) == Lookup(ps, key)
  {
    forall p | p in Pieces(ps) ensures AMPERSAND !in p {
      var i :| 0 <= i < |ps| && p == Piece(ps[i]);
      assert Sendable(ps[i]);
    }
    SplitInvertsJoin(Pieces(ps));
    FirstValueIsLookup(ps, key);
  }
}
