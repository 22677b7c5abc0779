/** Well-formed UTF-8, byte sequence by byte sequence, as in section 4 of RFC 3629. */
module Utf8 {
  import opened EtcdStore

  predicate Tail(b: Byte) {
    0x80 <= b <= 0xBF
  }

  /** The length of the character `s` starts with; 0 when there is none. */
  function CharLen(s: Bytes): (n: nat)
    requires s != []
    ensures n <= |s|
  {
    var b := s[0];
    if b <= 0x7F then 1
    else if 0xC2 <= b <= 0xDF && |s| >= 2 && Tail(s[1]) then 2
    else if 0xE0 <= b <= 0xEF && |s| >= 3 && Second(b, s[1]) && Tail(s[2]) then 3
    else if 0xF0 <= b <= 0xF4 && |s| >= 4 && Second(b, s[1]) && Tail(s[2]) && Tail(s[3]) then 4
    else 0
  }

  /** The second byte is narrower after E0, ED, F0 and F4. */
  predicate Second(first: Byte, b: Byte) {
    if first == 0xE0 then 0xA0 <= b <= 0xBF
    else if first == 0xED then 0x80 <= b <= 0x9F
    else if first == 0xF0 then 0x90 <= b <= 0xBF
    else if first == 0xF4 then 0x80 <= b <= 0x8F
    else Tail(b)
  }

  predicate Valid(s: Bytes) {
    s == [] || (CharLen(s) > 0 && Valid(s[CharLen(s)..]))
  }

  /** The byte FF never occurs, nor does anything above F4. */
  lemma {:induction false} NoHighBytes(s: Bytes)
    requires Valid(s)
    ensures forall i | 0 <= i < |s| :: s[i] <= 0xF4
  {
    if s != [] {
      var n := CharLen(s);
      NoHighBytes(s[n..]);
      forall i | 0 <= i < |s| ensures s[i] <= 0xF4 {
        if i >= n { assert s[i] == s[n..][i - n]; }
      }
    }
  }

  /** Raising the last byte keeps a text well-formed unless it ends in 7F or BF. */
  lemma {:induction false} RaiseLast(s: Bytes, t: Bytes)
    requires Valid(s) && s != [] && |t| == |s|
    requires forall i | 0 <= i < |s| - 1 :: t[i] == s[i]
    requires t[|s| - 1] as int == s[|s| - 1] as int + 1
    ensures Valid(t) <==> s[|s| - 1] != 0x7F && s[|s| - 1] != 0xBF
  {
    var n := CharLen(s);
    if n == |s| {
      LastOfOneChar(s, t);
    } else {
      assert CharLen(t) == n;
      RaiseLast(s[n..], t[n..]);
    }
  }

  lemma LastOfOneChar(s: Bytes, t: Bytes)
    requires s != [] && CharLen(s) == |s| == |t|
    requires forall i | 0 <= i < |s| - 1 :: t[i] == s[i]
    requires t[|s| - 1] as int == s[|s| - 1] as int + 1
    ensures Valid(t) <==> s[|s| - 1] != 0x7F && s[|s| - 1] != 0xBF
  {
    if |s| > 1 {
      var ok := Tail(t[|t| - 1]);
      assert CharLen(t) == if ok then |t| else 0;
    }
  }

  // ---- The texts are exactly the encodings of characters

  /** Unicode scalar values: the code points without the surrogates. */
  predicate IsScalar(c: nat) {
    c <= 0x10FFFF && !(0xD800 <= c <= 0xDFFF)
  }

  /** The bits of a character, six to a byte from the second byte on (section 3 of RFC 3629). */
  function Encode(c: nat): (s: Bytes)
    requires IsScalar(c)
    ensures 1 <= |s| <= 4
  {
    if c < 0x80 then [c]
    else if c < 0x800 then [0xC0 + c / 0x40, 0x80 + c % 0x40]
    else if c < 0x10000 then [0xE0 + c / 0x40 / 0x40, 0x80 + c / 0x40 % 0x40, 0x80 + c % 0x40]
    else [0xF0 + c / 0x40 / 0x40 / 0x40, 0x80 + c / 0x40 / 0x40 % 0x40, 0x80 + c / 0x40 % 0x40, 0x80 + c % 0x40]
  }

  function EncodeAll(cs: seq<nat>): Bytes
    requires forall c | c in cs :: IsScalar(c)
  {
    if cs == [] then []
    else
      assert cs[0] in cs && forall c | c in cs[1..] :: c in cs;
      Encode(cs[0]) + EncodeAll(cs[1..])
  }

  /** An encoded character is found whole at the beginning of whatever follows it. */
  lemma EncodedChar(c: nat, rest: Bytes)
    requires IsScalar(c)
    ensures CharLen(Encode(c) + rest) == |Encode(c)|
  {
    var s := Encode(c) + rest;
    assert forall i | 0 <= i < |Encode(c)| :: s[i] == Encode(c)[i];
  }

  /** What is found as a character is the encoding of one. */
  lemma DecodedChar(s: Bytes) returns (c: nat)
    requires s != [] && CharLen(s) > 0
    ensures IsScalar(c) && Encode(c) == s[..CharLen(s)]
  {
    var n := CharLen(s);
    c := if n == 1 then s[0] else if n == 2 then Two(s[0], s[1])
         else if n == 3 then Three(s[0], s[1], s[2]) else Four(s[0], s[1], s[2], s[3]);
    assert s[..n] == if n == 1 then [s[0]] else if n == 2 then [s[0], s[1]]
                     else if n == 3 then [s[0], s[1], s[2]] else [s[0], s[1], s[2], s[3]];
  }

  /** Six more bits behind `high`. */
  function Append(high: nat, b: Byte): (c: nat)
    requires Tail(b)
    ensures c / 0x40 == high && 0x80 + c % 0x40 == b
  {
    high * 0x40 + (b - 0x80)
  }

  function Two(a: Byte, b: Byte): (c: nat)
    requires 0xC2 <= a <= 0xDF && Tail(b)
    ensures IsScalar(c) && Encode(c) == [a, b]
  {
    Append(a - 0xC0, b)
  }

  function Three(a: Byte, b: Byte, d: Byte): (c: nat)
    requires 0xE0 <= a <= 0xEF && Second(a, b) && Tail(d)
    ensures IsScalar(c) && Encode(c) == [a, b, d]
  {
    Append(Append(a - 0xE0, b), d)
  }

  function Four(a: Byte, b: Byte, d: Byte, e: Byte): (c: nat)
    requires 0xF0 <= a <= 0xF4 && Second(a, b) && Tail(d) && Tail(e)
    ensures IsScalar(c) && Encode(c) == [a, b, d, e]
  {
    var high := Append(a - 0xF0, b);
    assert 0x10 <= high <= 0x10F;
    Append(Append(high, d), e)
  }

  lemma {:induction false} EncodedIsValid(cs: seq<nat>)
    requires forall c | c in cs :: IsScalar(c)
    ensures Valid(EncodeAll(cs))
  {
    if cs != [] {
      assert cs[0] in cs && forall c | c in cs[1..] :: c in cs;
      EncodedIsValid(cs[1..]);
      EncodedChar(cs[0], EncodeAll(cs[1..]));
      assert EncodeAll(cs)[|Encode(cs[0])|..] == EncodeAll(cs[1..]);
    }
  }

  lemma {:induction false} ValidIsEncoded(s: Bytes) returns (cs: seq<nat>)
    requires Valid(s)
    ensures (forall c | c in cs :: IsScalar(c)) && EncodeAll(cs) == s
  {
    if s == [] {
      cs := [];
    } else {
      var n := CharLen(s);
      var c := DecodedChar(s);
      var rest := ValidIsEncoded(s[n..]);
      cs := [c] + rest;
      assert cs[1..] == rest && s == s[..n] + s[n..];
    }
  }

  ghost predicate IsEncoding(s: Bytes, cs: seq<nat>) {
    (forall c | c in cs :: IsScalar(c)) && EncodeAll(cs) == s
  }

  /** Bytes are a text exactly when they are the encoding of some characters. */
  lemma ValidIff(s: Bytes)
    ensures Valid(s) <==> exists cs :: IsEncoding(s, cs)
  {
    if Valid(s) {
      var cs := ValidIsEncoded(s);
      assert IsEncoding(s, cs);
    } else if cs :| IsEncoding(s, cs) {
      EncodedIsValid(cs);
    }
  }
}
