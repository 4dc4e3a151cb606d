// UTF-8 by its definition (section 3 of RFC 3629): text is valid exactly when it is the
// encoding of Unicode scalar values.

module Utf8Scalars {
  import opened Basics
  import opened Utf8

  // Any code point but the surrogates.
  predicate IsScalar(cp: nat) {
    cp < 0xD800 || 0xE000 <= cp <= 0x10FFFF
  }

  // The bits of the code point, six to a tail byte.
  function Encoded(cp: nat): (b: seq<u8>)
    requires IsScalar(cp)
  {
    if cp < 0x80 then [cp]
    else if cp < 0x800 then [0xC0 + cp / 0x40, 0x80 + cp % 0x40]
    else if cp < 0x1_0000 then [0xE0 + cp / 0x1000, 0x80 + cp / 0x40 % 0x40, 0x80 + cp % 0x40]
    else [0xF0 + cp / 0x4_0000, 0x80 + cp / 0x1000 % 0x40, 0x80 + cp / 0x40 % 0x40, 0x80 + cp % 0x40]
  }

  predicate AreScalars(cps: seq<nat>) {
    forall i :: 0 <= i < |cps| ==> IsScalar(cps[i])
  }

  function EncodedAll(cps: seq<nat>): seq<u8>
    requires AreScalars(cps)
  {
    if cps == [] then [] else Encoded(cps[0]) + EncodedAll(cps[1..])
  }

  lemma ScalarIsRead(cp: nat, rest: seq<u8>)
    requires IsScalar(cp)
    ensures CharLength(Encoded(cp) + rest) == |Encoded(cp)| > 0
  {
    if cp < 0x80 {
      assert (Encoded(cp) + rest)[0] == cp;
    } else if cp < 0x800 {
      TwoAreRead(0xC0 + cp / 0x40, 0x80 + cp % 0x40, rest);
    } else if cp < 0x1_0000 {
      ThreeLead(cp);
      ThreeAreRead(0xE0 + cp / 0x1000, 0x80 + cp / 0x40 % 0x40, 0x80 + cp % 0x40, rest);
    } else {
      FourLead(cp);
      FourAreRead(0xF0 + cp / 0x4_0000, 0x80 + cp / 0x1000 % 0x40, 0x80 + cp / 0x40 % 0x40, 0x80 + cp % 0x40, rest);
    }
  }

  lemma TwoAreRead(a: u8, b: u8, rest: seq<u8>)
    requires 0xC2 <= a <= 0xDF && IsTail(b)
    ensures CharLength([a, b] + rest) == 2
  {
  }

  lemma ThreeAreRead(a: u8, b: u8, c: u8, rest: seq<u8>)
    requires ThreeByteLead(a, b) && IsTail(c)
    ensures CharLength([a, b, c] + rest) == 3
  {
  }

  lemma FourAreRead(a: u8, b: u8, c: u8, d: u8, rest: seq<u8>)
    requires FourByteLead(a, b) && IsTail(c) && IsTail(d)
    ensures CharLength([a, b, c, d] + rest) == 4
  {
  }

  lemma ThreeLead(cp: nat)
    requires IsScalar(cp) && 0x800 <= cp < 0x1_0000
    ensures ThreeByteLead(0xE0 + cp / 0x1000, 0x80 + cp / 0x40 % 0x40)
  {
    var q := cp / 0x40;
    assert cp / 0x1000 == q / 0x40 && q == 0x40 * (q / 0x40) + q % 0x40;
  }

  lemma FourLead(cp: nat)
    requires 0x1_0000 <= cp <= 0x10_FFFF
    ensures FourByteLead(0xF0 + cp / 0x4_0000, 0x80 + cp / 0x1000 % 0x40)
  {
    var q := cp / 0x1000;
    assert cp / 0x4_0000 == q / 0x40 && q == 0x40 * (q / 0x40) + q % 0x40;
  }

  // The code point whose encoding starts `s`.
  lemma FirstScalar(s: seq<u8>) returns (cp: nat)
    requires CharLength(s) > 0
    ensures IsScalar(cp) && s[..CharLength(s)] == Encoded(cp)
  {
    var n := CharLength(s);
    if n == 1 {
      cp := s[0];
    } else if n == 2 {
      cp := TwoBytes(s[0], s[1]);
    } else if n == 3 {
      cp := ThreeBytes(s[0], s[1], s[2]);
    } else {
      cp := FourBytes(s[0], s[1], s[2], s[3]);
    }
    assert forall k :: 0 <= k < n ==> s[..n][k] == s[k];
  }

  lemma TwoBytes(a: u8, b: u8) returns (cp: nat)
    requires 0xC2 <= a <= 0xDF && IsTail(b)
    ensures IsScalar(cp) && Encoded(cp) == [a, b]
  {
    cp := 0x40 * (a - 0xC0) + (b - 0x80);
  }

  lemma ThreeBytes(a: u8, b: u8, c: u8) returns (cp: nat)
    requires ThreeByteLead(a, b) && IsTail(c)
    ensures IsScalar(cp) && Encoded(cp) == [a, b, c]
  {
    cp := 0x1000 * (a - 0xE0) + 0x40 * (b - 0x80) + (c - 0x80);
    assert cp / 0x40 == 0x40 * (a - 0xE0) + (b - 0x80);
    assert cp / 0x1000 == a - 0xE0;
  }

  lemma FourBytes(a: u8, b: u8, c: u8, d: u8) returns (cp: nat)
    requires FourByteLead(a, b) && IsTail(c) && IsTail(d)
    ensures IsScalar(cp) && Encoded(cp) == [a, b, c, d]
  {
    cp := 0x4_0000 * (a - 0xF0) + 0x1000 * (b - 0x80) + 0x40 * (c - 0x80) + (d - 0x80);
    assert cp / 0x40 == 0x1000 * (a - 0xF0) + 0x40 * (b - 0x80) + (c - 0x80);
    assert cp / 0x1000 == 0x40 * (a - 0xF0) + (b - 0x80);
    assert cp / 0x4_0000 == a - 0xF0;
  }

  lemma {:induction false} EncodedIsValid(cps: seq<nat>)
    requires AreScalars(cps)
    ensures Valid(EncodedAll(cps))
    decreases |cps|
  {
    if cps != [] {
      var rest := EncodedAll(cps[1..]);
      EncodedIsValid(cps[1..]);
      ScalarIsRead(cps[0], rest);
      assert (Encoded(cps[0]) + rest)[|Encoded(cps[0])|..] == rest;
    }
  }

  lemma {:induction false} ValidIsEncoded(s: seq<u8>) returns (cps: seq<nat>)
    requires Valid(s)
    ensures AreScalars(cps) && EncodedAll(cps) == s
    decreases |s|
  {
    if s == [] {
      cps := [];
    } else {
      var n := CharLength(s);
      var cp := FirstScalar(s);
      var more := ValidIsEncoded(s[n..]);
      cps := [cp] + more;
      assert cps[1..] == more && s == s[..n] + s[n..];
    }
  }

  ghost predicate IsEncoding(s: seq<u8>) {
    exists cps :: AreScalars(cps) && EncodedAll(cps) == s
  }

  lemma ValidExactly(s: seq<u8>)
    ensures Valid(s) <==> IsEncoding(s)
  {
    if Valid(s) {
      var cps := ValidIsEncoded(s);
    }
    if cps :| AreScalars(cps) && EncodedAll(cps) == s {
      EncodedIsValid(cps);
    }
  }
}
