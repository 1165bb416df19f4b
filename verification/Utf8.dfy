/**
 isValidUtf8 of src/base/text_encoding.cc against the table of section 4 of RFC 3629. The code has
 no check for 0xED, so it also accepts the surrogate code points U+D800 to U+DFFF.
*/
module Utf8 {
  import opened Sequences
  import opened Arith
  import opened Bits

  const MAX_CODE_POINT: nat := 0x10FFFF

  /** The shortest form of a code point. */
  function Encode(cp: nat): seq<Byte>
    requires cp <= MAX_CODE_POINT
  {
    if cp < 0x80 then [cp]
    else if cp < 0x800 then [0xC0 + cp / 0x40, 0x80 + cp % 0x40]
    else if cp < 0x1_0000 then [0xE0 + cp / 0x1000, 0x80 + cp / 0x40 % 0x40, 0x80 + cp % 0x40]
    else [0xF0 + cp / 0x4_0000, 0x80 + cp / 0x1000 % 0x40, 0x80 + cp / 0x40 % 0x40, 0x80 + cp % 0x40]
  }

  predicate CodePoints(cps: seq<nat>) { forall i :: 0 <= i < |cps| ==> cps[i] <= MAX_CODE_POINT }

  function EncodeAll(cps: seq<nat>): seq<Byte>
    requires CodePoints(cps)
  {
    if cps == [] then [] else Encode(cps[0]) + EncodeAll(cps[1..])
  }

  predicate Continues(b: Byte) { 0x80 <= b <= 0xBF }

  function Two(c: int, d: int): int { (c - 0xC0) * 0x40 + (d - 0x80) }
  function Three(c: int, d: int, e: int): int { (c - 0xE0) * 0x1000 + (d - 0x80) * 0x40 + (e - 0x80) }
  function Four(c: int, d: int, e: int, f: int): int {
    (c - 0xF0) * 0x4_0000 + (d - 0x80) * 0x1000 + (e - 0x80) * 0x40 + (f - 0x80)
  }

  predicate Heads2(c: int, d: int) { 0xC2 <= c <= 0xDF && 0x80 <= d <= 0xBF }

  predicate Heads3(c: int, d: int, e: int) {
    0xE0 <= c <= 0xEF && 0x80 <= d <= 0xBF && 0x80 <= e <= 0xBF && (c == 0xE0 ==> d >= 0xA0)
  }

  predicate Heads4(c: int, d: int, e: int, f: int) {
    && 0xF0 <= c <= 0xF4 && 0x80 <= d <= 0xBF && 0x80 <= e <= 0xBF && 0x80 <= f <= 0xBF
    && (c == 0xF0 ==> d >= 0x90) && (c == 0xF4 ==> d <= 0x8F)
  }

  lemma TwoBytes(c: int, d: int)
    requires Heads2(c, d)
    ensures var cp := Two(c, d);
            0x80 <= cp < 0x800 && c == 0xC0 + cp / 0x40 && d == 0x80 + cp % 0x40
  {
    DivModUnique(Two(c, d), 0x40, c - 0xC0, d - 0x80);
  }

  lemma ThreeBytes(c: int, d: int, e: int)
    requires Heads3(c, d, e)
    ensures var cp := Three(c, d, e);
            0x800 <= cp < 0x1_0000 && c == 0xE0 + cp / 0x1000 && d == 0x80 + cp / 0x40 % 0x40 && e == 0x80 + cp % 0x40
  {
    var cp := Three(c, d, e);
    DivModUnique(cp, 0x40, (c - 0xE0) * 0x40 + (d - 0x80), e - 0x80);
    DivModUnique(cp / 0x40, 0x40, c - 0xE0, d - 0x80);
    DivModUnique(cp, 0x1000, c - 0xE0, (d - 0x80) * 0x40 + (e - 0x80));
  }

  lemma FourBytes(c: int, d: int, e: int, f: int)
    requires Heads4(c, d, e, f)
    ensures var cp := Four(c, d, e, f);
            && 0x1_0000 <= cp <= MAX_CODE_POINT && c == 0xF0 + cp / 0x4_0000 && d == 0x80 + cp / 0x1000 % 0x40
            && e == 0x80 + cp / 0x40 % 0x40 && f == 0x80 + cp % 0x40
  {
    var cp := Four(c, d, e, f);
    DivModUnique(cp, 0x40, (c - 0xF0) * 0x1000 + (d - 0x80) * 0x40 + (e - 0x80), f - 0x80);
    DivModUnique(cp / 0x40, 0x40, (c - 0xF0) * 0x40 + (d - 0x80), e - 0x80);
    DivModUnique(cp, 0x1000, (c - 0xF0) * 0x40 + (d - 0x80), (e - 0x80) * 0x40 + (f - 0x80));
    DivModUnique(cp / 0x1000, 0x40, c - 0xF0, d - 0x80);
    DivModUnique(cp, 0x4_0000, c - 0xF0, (d - 0x80) * 0x1000 + (e - 0x80) * 0x40 + (f - 0x80));
  }

  lemma Split3(cp: nat)
    requires 0x800 <= cp < 0x1_0000
    ensures var c, d, e := 0xE0 + cp / 0x1000, 0x80 + cp / 0x40 % 0x40, 0x80 + cp % 0x40;
            Heads3(c, d, e) && Three(c, d, e) == cp
  {
    assert cp / 0x1000 == cp / 0x40 / 0x40;
  }

  lemma Split4(cp: nat)
    requires 0x1_0000 <= cp <= MAX_CODE_POINT
    ensures var c, d := 0xF0 + cp / 0x4_0000, 0x80 + cp / 0x1000 % 0x40;
            var e, f := 0x80 + cp / 0x40 % 0x40, 0x80 + cp % 0x40;
            Heads4(c, d, e, f) && Four(c, d, e, f) == cp
  {
    assert cp / 0x1000 == cp / 0x40 / 0x40;
    assert cp / 0x4_0000 == cp / 0x40 / 0x40 / 0x40;
  }

  /** The code point at the start of the bytes. */
  function Head(data: seq<Byte>): (cp: Option<int>)
    requires data != []
  {
    if data[0] <= 0x7F then Some(data[0])
    else if |data| >= 2 && Heads2(data[0], data[1]) then Some(Two(data[0], data[1]))
    else if |data| >= 3 && Heads3(data[0], data[1], data[2]) then Some(Three(data[0], data[1], data[2]))
    else if |data| >= 4 && Heads4(data[0], data[1], data[2], data[3])
      then Some(Four(data[0], data[1], data[2], data[3]))
    else None
  }

  lemma EncodesTwo(c: Byte, d: Byte)
    requires Heads2(c, d)
    ensures 0 <= Two(c, d) <= MAX_CODE_POINT && Encode(Two(c, d)) == [c, d]
  {
    TwoBytes(c, d);
  }

  lemma EncodesThree(c: Byte, d: Byte, e: Byte)
    requires Heads3(c, d, e)
    ensures 0 <= Three(c, d, e) <= MAX_CODE_POINT && Encode(Three(c, d, e)) == [c, d, e]
  {
    ThreeBytes(c, d, e);
  }

  lemma EncodesFour(c: Byte, d: Byte, e: Byte, f: Byte)
    requires Heads4(c, d, e, f)
    ensures 0 <= Four(c, d, e, f) <= MAX_CODE_POINT && Encode(Four(c, d, e, f)) == [c, d, e, f]
  {
    FourBytes(c, d, e, f);
  }

  lemma HeadIsEncoded(data: seq<Byte>)
    requires data != [] && Head(data).Some?
    ensures var cp := Head(data).value;
            0 <= cp <= MAX_CODE_POINT && Encode(cp) <= data
  {
    if data[0] <= 0x7F {
    } else if |data| >= 2 && Heads2(data[0], data[1]) {
      EncodesTwo(data[0], data[1]);
    } else if |data| >= 3 && Heads3(data[0], data[1], data[2]) {
      EncodesThree(data[0], data[1], data[2]);
    } else {
      EncodesFour(data[0], data[1], data[2], data[3]);
    }
  }

  lemma EncodedIsHead(data: seq<Byte>, cp: nat)
    requires cp <= MAX_CODE_POINT && Encode(cp) <= data
    ensures data != [] && Head(data) == Some(cp)
  {
    var e := Encode(cp);
    if cp < 0x80 {
      assert data[0] == e[0];
    } else if cp < 0x800 {
      assert data[0] == e[0] && data[1] == e[1];
      assert Heads2(data[0], data[1]);
    } else if cp < 0x1_0000 {
      Split3(cp);
      assert data[0] == e[0] && data[1] == e[1] && data[2] == e[2];
    } else {
      Split4(cp);
      assert data[0] == e[0] && data[1] == e[1] && data[2] == e[2] && data[3] == e[3];
    }
  }

  /** The decoder that belongs to EncodeAll. */
  function Decode(data: seq<Byte>): Option<seq<nat>>
    decreases |data|
  {
    if data == [] then Some([])
    else
      var cp := Head(data);
      if cp.None? then None
      else
        HeadIsEncoded(data);
        var rest := Decode(data[|Encode(cp.value)|..]);
        if rest.None? then None else Some([cp.value] + rest.value)
  }

  lemma ConsEncodes(cp: nat, cps: seq<nat>)
    requires cp <= MAX_CODE_POINT && CodePoints(cps)
    ensures CodePoints([cp] + cps) && EncodeAll([cp] + cps) == Encode(cp) + EncodeAll(cps)
  {
    assert ([cp] + cps)[1..] == cps;
  }

  lemma DecodeCons(data: seq<Byte>) returns (cp: nat, rest: seq<Byte>)
    requires data != [] && Decode(data).Some?
    ensures cp <= MAX_CODE_POINT && data == Encode(cp) + rest && |rest| < |data|
    ensures Decode(rest).Some? && Decode(data).value == [cp] + Decode(rest).value
  {
    HeadIsEncoded(data);
    cp := Head(data).value;
    rest := data[|Encode(cp)|..];
  }

  lemma {:induction false} DecodeInverts(data: seq<Byte>)
    requires Decode(data).Some?
    ensures CodePoints(Decode(data).value) && EncodeAll(Decode(data).value) == data
    decreases |data|
  {
    if data != [] {
      var cp, rest := DecodeCons(data);
      DecodeInverts(rest);
      ConsEncodes(cp, Decode(rest).value);
    }
  }

  lemma DecodeEncoded(cp: nat, rest: seq<Byte>)
    requires cp <= MAX_CODE_POINT && Decode(rest).Some?
    ensures Decode(Encode(cp) + rest) == Some([cp] + Decode(rest).value)
  {
    var data := Encode(cp) + rest;
    EncodedIsHead(data, cp);
    assert data[|Encode(cp)|..] == rest;
  }

  /** Decoding gives back what was encoded: the decomposition into code points is unique. */
  lemma {:induction false} RoundTrip(cps: seq<nat>)
    requires CodePoints(cps)
    ensures Decode(EncodeAll(cps)) == Some(cps)
    decreases |cps|
  {
    if cps != [] {
      RoundTrip(cps[1..]);
      DecodeEncoded(cps[0], EncodeAll(cps[1..]));
      assert cps == [cps[0]] + cps[1..];
    }
  }

  lemma UniqueDecomposition(a: seq<nat>, b: seq<nat>)
    requires CodePoints(a) && CodePoints(b) && EncodeAll(a) == EncodeAll(b)
    ensures a == b
  {
    RoundTrip(a);
    RoundTrip(b);
  }

  ghost predicate WellFormed(data: seq<Byte>) { exists cps :: CodePoints(cps) && EncodeAll(cps) == data }

  lemma WellFormedIsDecodable(data: seq<Byte>)
    ensures WellFormed(data) <==> Decode(data).Some?
  {
    if Decode(data).Some? {
      DecodeInverts(data);
    } else if cps :| CodePoints(cps) && EncodeAll(cps) == data {
      RoundTrip(cps);
    }
  }

  // ---------------------------------------------------------------- the code

  /** A byte masked down to its high bits is the start of its block. */
  lemma HighBits(c: Byte, n: nat, block: nat, mask: nat)
    requires n <= 8 && block == Pow2(n) && mask == 0x100 - block
    ensures And(c, mask) == c - c % block
  {
    Pow2Words();
    AndHighMask(c, 8, n);
  }

  /** The masks of the source select ranges of lead bytes. */
  lemma MaskC0(c: Byte)
    ensures And(c, 0xC0) == 0x80 <==> Continues(c)
  {
    assert Pow2(6) == 0x40;
    HighBits(c, 6, 0x40, 0xC0);
  }

  lemma MaskE0(c: Byte)
    ensures And(c, 0xE0) == 0xC0 <==> 0xC0 <= c <= 0xDF
  {
    assert Pow2(5) == 0x20;
    HighBits(c, 5, 0x20, 0xE0);
  }

  lemma MaskF0(c: Byte)
    ensures And(c, 0xF0) == 0xE0 <==> 0xE0 <= c <= 0xEF
  {
    assert Pow2(4) == 0x10;
    HighBits(c, 4, 0x10, 0xF0);
  }

  lemma MaskF8(c: Byte)
    ensures And(c, 0xF8) == 0xF0 <==> 0xF0 <= c <= 0xF7
  {
    assert Pow2(3) == 8;
    HighBits(c, 3, 8, 0xF8);
  }

  function IsContinuationByte(c: Byte): (r: bool)
    ensures r <==> Continues(c)
  {
    MaskC0(c);
    And(c, 0xC0) == 0x80
  }

  /** How many bytes should follow the lead byte; None for a byte that leads nothing. */
  method Need(c: Byte) returns (need: Option<nat>)
    ensures need ==
              if c <= 0x7F then Some(0)
              else if 0xC2 <= c <= 0xDF then Some(1)
              else if 0xE0 <= c <= 0xEF then Some(2)
              else if 0xF0 <= c <= 0xF4 then Some(3)
              else None
  {
    if c <= 0x7F {
      return Some(0);
    }
    MaskE0(c);
    MaskF0(c);
    MaskF8(c);
    if And(c, 0xE0) == 0xC0 {
      if c < 0xC2 {
        return None;
      }
      return Some(1);
    } else if And(c, 0xF0) == 0xE0 {
      return Some(2);
    } else if And(c, 0xF8) == 0xF0 {
      if c > 0xF4 {
        return None;
      }
      return Some(3);
    }
    return None;
  }

  /** One round of the loop: the bytes of the character at `i`, or nothing when it is malformed. */
  method CheckCharacter(data: seq<Byte>, i: nat) returns (len: nat)
    requires i < |data|
    ensures len == 0 <==> Head(data[i..]).None?
    ensures len > 0 ==>
              i + len <= |data| && 0 <= Head(data[i..]).value <= MAX_CODE_POINT
              && len == |Encode(Head(data[i..]).value)|
  {
    var c := data[i];
    ghost var rest := data[i..];
    assert forall j :: 0 <= j < |rest| ==> rest[j] == data[i + j];
    if Head(rest).Some? { HeadIsEncoded(rest); }
    var lead := Need(c);
    if lead.None? {
      return 0;
    }
    var need := lead.value;
    if i + need >= |data| {
      return 0;
    }
    for j := 1 to need + 1
      invariant forall k :: 1 <= k < j ==> Continues(rest[k])
    {
      if !IsContinuationByte(data[i + j]) {
        assert !Continues(rest[j]);
        return 0;
      }
    }
    assert need >= 1 ==> Continues(rest[1]);
    assert need >= 2 ==> Continues(rest[2]);
    assert need >= 3 ==> Continues(rest[3]);
    if need == 2 && c == 0xE0 && data[i + 1] < 0xA0 {
      return 0;
    }
    if need == 3 && c == 0xF0 && data[i + 1] < 0x90 {
      return 0;
    }
    if need == 3 && c == 0xF4 && data[i + 1] > 0x8F {
      return 0;
    }
    return need + 1;
  }

  lemma DecodeStep(data: seq<Byte>, i: nat)
    requires i < |data|
    ensures Head(data[i..]).None? ==> Decode(data[i..]).None?
    ensures Head(data[i..]).Some? ==>
              var cp := Head(data[i..]).value;
              && 0 <= cp <= MAX_CODE_POINT && i + |Encode(cp)| <= |data|
              && (Decode(data[i..]).Some? <==> Decode(data[i + |Encode(cp)|..]).Some?)
  {
    var rest := data[i..];
    if Head(rest).Some? {
      HeadIsEncoded(rest);
      var n := |Encode(Head(rest).value)|;
      assert rest[n..] == data[i + n..];
    }
  }

  /** Accepts exactly the concatenations of shortest-form encodings of code points up to U+10FFFF. */
  method IsValidUtf8(data: seq<Byte>) returns (ok: bool)
    ensures ok <==> exists cps :: CodePoints(cps) && EncodeAll(cps) == data
  {
    WellFormedIsDecodable(data);
    var i := 0;
    assert data[0..] == data;
    while i < |data|
      invariant 0 <= i <= |data|
      invariant Decode(data[i..]).Some? <==> Decode(data).Some?
    {
      DecodeStep(data, i);
      var len := CheckCharacter(data, i);
      if len == 0 {
        return false;
      }
      i := i + len;
    }
    assert data[i..] == [];
    return true;
  }

  // ---------------------------------------------------------------- against the RFC

  predicate Surrogate(cp: nat) { 0xD800 <= cp <= 0xDFFF }

  /** The strings RFC 3629 allows: no surrogates either. */
  ghost predicate StrictlyWellFormed(data: seq<Byte>) {
    exists cps :: CodePoints(cps) && EncodeAll(cps) == data && forall i :: 0 <= i < |cps| ==> !Surrogate(cps[i])
  }

  /** What the code accepts is allowed by the RFC exactly when no surrogate is decoded from it; the
      three bytes of each surrogate are accepted and not allowed. */
  lemma LaxExactlyOnSurrogates(data: seq<Byte>)
    ensures StrictlyWellFormed(data) <==>
              && WellFormed(data) && Decode(data).Some?
              && forall i :: 0 <= i < |Decode(data).value| ==> !Surrogate(Decode(data).value[i])
    ensures forall cp: nat :: Surrogate(cp) ==> WellFormed(Encode(cp)) && !StrictlyWellFormed(Encode(cp))
  {
    WellFormedIsDecodable(data);
    if StrictlyWellFormed(data) {
      var cps :| CodePoints(cps) && EncodeAll(cps) == data && forall i :: 0 <= i < |cps| ==> !Surrogate(cps[i]);
      RoundTrip(cps);
    } else if Decode(data).Some? {
      DecodeInverts(data);
    }
    forall cp: nat | Surrogate(cp) ensures WellFormed(Encode(cp)) && !StrictlyWellFormed(Encode(cp)) {
      SurrogateIsLax(cp);
    }
  }

  lemma SurrogateIsLax(cp: nat)
    requires Surrogate(cp)
    ensures WellFormed(Encode(cp)) && !StrictlyWellFormed(Encode(cp))
  {
    var one := [cp];
    assert one[1..] == [];
    assert EncodeAll(one) == Encode(cp) + [] == Encode(cp);
    forall cps | CodePoints(cps) && EncodeAll(cps) == Encode(cp) ensures cps == one {
      UniqueDecomposition(cps, one);
    }
  }
}
