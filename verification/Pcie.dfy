/** PCIe disk addresses and their canonical spelling. */
module Pcie {
  import opened Wrappers
  import Radix

  datatype Address = Address(domain: nat, bus: nat, device: nat, func: nat)

  /** The numbers an address may hold: a 16-bit domain and three 8-bit parts. */
  predicate InRange(a: Address) {
    a.domain <= 0xFFFF && a.bus <= 0xFF && a.device <= 0xFF && a.func <= 0xFF
  }

  const SCHEME: string := "pcie:///"

  // ---- Reading a number

  function DigitOf(c: char, base: nat): Option<nat> {
    var d :=
      if '0' <= c <= '9' then c as nat - '0' as nat
      else if 'a' <= c <= 'z' then c as nat - 'a' as nat + 10
      else if 'A' <= c <= 'Z' then c as nat - 'A' as nat + 10
      else base;
    if d < base then Some(d) else None
  }

  predicate AllDigits(s: string, base: nat) {
    forall i | 0 <= i < |s| :: DigitOf(s[i], base).Some?
  }

  function DigitsIn(s: string, base: nat): (ds: seq<nat>)
    requires AllDigits(s, base)
    ensures |ds| == |s|
  {
    seq(|s|, i requires 0 <= i < |s| => DigitOf(s[i], base).value)
  }

  /**
   An unsigned number in the given base: one plus sign is skipped, there must be
   a digit, either case will do, and a value over the type's greatest is refused.
   */
  function ParseNumber(s: string, base: nat, max: nat): Option<nat> {
    var ds := if |s| > 1 && s[0] == '+' then s[1..] else s;
    if ds == [] || !AllDigits(ds, base) then None
    else
      var n := Radix.ValueOf(DigitsIn(ds, base), base);
      if n <= max then Some(n) else None
  }

  // ---- Printing a number

  function CharOf(d: nat): char
    requires d < 16
  {
    "0123456789abcdef"[d]
  }

  function Chars(ds: seq<nat>): (s: string)
    requires forall d | d in ds :: d < 16
    ensures |s| == |ds|
  {
    seq(|ds|, i requires 0 <= i < |ds| => assert ds[i] in ds; CharOf(ds[i]))
  }

  /** Digits, padded with zeros to a width. */
  function Print(n: nat, base: nat, width: nat): string
    requires 2 <= base <= 16
  {
    var ds := Radix.PadLeft(Radix.Digits(n, base), width);
    assert forall d | d in ds :: d < 16;
    Chars(ds)
  }

  lemma CharRoundTrip(d: nat, base: nat)
    requires d < base <= 16
    ensures DigitOf(CharOf(d), base) == Some(d)
    ensures CharOf(d) != '+' && !IsSeparator(CharOf(d))
  {
  }

  /** Printed digits carry no sign and no separator, and read back as themselves. */
  lemma CharsReadBack(ds: seq<nat>, base: nat)
    requires base <= 16 && forall d | d in ds :: d < base
    ensures AllDigits(Chars(ds), base) && DigitsIn(Chars(ds), base) == ds
    ensures forall c | c in Chars(ds) :: c != '+' && !IsSeparator(c)
  {
    forall i | 0 <= i < |ds|
      ensures DigitOf(Chars(ds)[i], base) == Some(ds[i]) && Chars(ds)[i] != '+' && !IsSeparator(Chars(ds)[i])
    {
      assert ds[i] in ds;
      CharRoundTrip(ds[i], base);
    }
  }

  lemma PrintedDigits(n: nat, base: nat, width: nat)
    requires 2 <= base <= 16
    ensures Print(n, base, width) != [] && AllDigits(Print(n, base, width), base)
  {
    var ds := Radix.PadLeft(Radix.Digits(n, base), width);
    assert forall d | d in ds :: d < base;
    CharsReadBack(ds, base);
  }

  lemma PrintReadsBack(n: nat, base: nat, width: nat, max: nat)
    requires 2 <= base <= 16 && n <= max
    ensures ParseNumber(Print(n, base, width), base, max) == Some(n)
    ensures NoSeparator(Print(n, base, width))
  {
    var ds := Radix.PadLeft(Radix.Digits(n, base), width);
    assert forall d | d in ds :: d < base;
    CharsReadBack(ds, base);
    Radix.PadLeftValue(Radix.Digits(n, base), width, base);
    assert Chars(ds)[0] in Chars(ds);
  }

  // ---- Splitting

  predicate IsSeparator(c: char) {
    c == ':' || c == '.'
  }

  predicate NoSeparator(s: string) {
    forall c | c in s :: !IsSeparator(c)
  }

  /** The parts between separators, empty ones included. */
  function Split(s: string): (parts: seq<string>)
    ensures parts != []
  {
    if s == [] then [[]]
    else
      var rest := Split(s[1..]);
      if IsSeparator(s[0]) then [[]] + rest else [[s[0]] + rest[0]] + rest[1..]
  }

  lemma {:induction false} SplitLast(a: string)
    requires NoSeparator(a)
    ensures Split(a) == [a]
  {
    if a != [] {
      assert a[0] in a && forall c | c in a[1..] :: c in a;
      SplitLast(a[1..]);
      assert [a[0]] + a[1..] == a;
    }
  }

  lemma {:induction false} SplitPart(a: string, sep: char, rest: string)
    requires NoSeparator(a) && IsSeparator(sep)
    ensures Split(a + [sep] + rest) == [a] + Split(rest)
  {
    var s := a + [sep] + rest;
    if a == [] {
      assert s[1..] == rest;
    } else {
      assert a[0] in a && forall c | c in a[1..] :: c in a;
      assert s[1..] == a[1..] + [sep] + rest;
      SplitPart(a[1..], sep, rest);
      assert [a[0]] + a[1..] == a;
    }
  }

  // ---- Addresses

  function Parse(addr: string): (r: Option<Address>)
    ensures r.Some? ==> InRange(r.value)
  {
    if !(SCHEME <= addr) then None
    else
      var parts := Split(addr[|SCHEME|..]);
      if |parts| != 4 then None
      else
        var domain, bus := ParseNumber(parts[0], 16, 0xFFFF), ParseNumber(parts[1], 16, 0xFF);
        var device, func := ParseNumber(parts[2], 16, 0xFF), ParseNumber(parts[3], 10, 0xFF);
        if domain.None? || bus.None? || device.None? || func.None? then None
        else Some(Address(domain.value, bus.value, device.value, func.value))
  }

  function Format(a: Address): string {
    SCHEME + (Print(a.domain, 16, 4) + [':'] + (Print(a.bus, 16, 2) + [':'] +
      (Print(a.device, 16, 2) + ['.'] + Print(a.func, 10, 0))))
  }

  function Canonical(addr: string): Option<string> {
    var a := Parse(addr);
    if a.None? then None else Some(Format(a.value))
  }

  // ---- Other spellings

  function LowerChar(c: char): char {
    if 'A' <= c <= 'Z' then (c as int - 'A' as int + 'a' as int) as char else c
  }

  function Lower(s: string): (r: string)
    ensures |r| == |s| && forall i | 0 <= i < |s| :: r[i] == LowerChar(s[i])
  {
    seq(|s|, i requires 0 <= i < |s| => LowerChar(s[i]))
  }

  lemma LowerDigit(c: char, base: nat)
    ensures DigitOf(LowerChar(c), base) == DigitOf(c, base)
    ensures IsSeparator(LowerChar(c)) <==> IsSeparator(c)
    ensures LowerChar(c) == c || (IsSeparator(c) == false && c != '+' && LowerChar(c) != '+')
  {
  }

  lemma LowerDigits(s: string, base: nat)
    ensures AllDigits(Lower(s), base) <==> AllDigits(s, base)
    ensures AllDigits(s, base) ==> DigitsIn(Lower(s), base) == DigitsIn(s, base)
  {
    forall i | 0 <= i < |s| ensures DigitOf(Lower(s)[i], base) == DigitOf(s[i], base) {
      LowerDigit(s[i], base);
    }
    if !AllDigits(s, base) {
      var i :| 0 <= i < |s| && DigitOf(s[i], base).None?;
      assert DigitOf(Lower(s)[i], base).None?;
    }
  }

  /** Letters may be of either case. */
  lemma LowerNumber(s: string, base: nat, max: nat)
    ensures ParseNumber(Lower(s), base, max) == ParseNumber(s, base, max)
  {
    if |s| > 0 {
      LowerDigit(s[0], base);
    }
    if |s| > 1 && s[0] == '+' {
      assert Lower(s)[1..] == Lower(s[1..]);
      LowerDigits(s[1..], base);
    } else {
      LowerDigits(s, base);
    }
  }

  function LowerAll(parts: seq<string>): (r: seq<string>)
    ensures |r| == |parts| && forall i | 0 <= i < |parts| :: r[i] == Lower(parts[i])
  {
    seq(|parts|, i requires 0 <= i < |parts| => Lower(parts[i]))
  }

  lemma LowerBegin(rest: seq<string>)
    ensures LowerAll([[]] + rest) == [[]] + LowerAll(rest)
  {
    assert Lower([]) == [];
  }

  lemma LowerExtend(c: char, rest: seq<string>)
    requires rest != []
    ensures LowerAll([[c] + rest[0]] + rest[1..]) == [[LowerChar(c)] + LowerAll(rest)[0]] + LowerAll(rest)[1..]
  {
    assert Lower([c] + rest[0]) == [LowerChar(c)] + Lower(rest[0]);
  }

  lemma {:induction false} LowerSplit(s: string)
    ensures Split(Lower(s)) == LowerAll(Split(s))
  {
    if s == [] {
      assert Lower(s) == [] && Lower([]) == [];
    } else {
      assert Lower(s)[1..] == Lower(s[1..]) && Lower(s)[0] == LowerChar(s[0]);
      LowerSplit(s[1..]);
      LowerDigit(s[0], 16);
      LowerBegin(Split(s[1..]));
      LowerExtend(s[0], Split(s[1..]));
    }
  }

  /** An address is read the same in upper and in lower case. */
  lemma CaseDoesNotMatter(s: string)
    ensures Parse(SCHEME + Lower(s)) == Parse(SCHEME + s)
  {
    assert (SCHEME + s)[|SCHEME|..] == s && (SCHEME + Lower(s))[|SCHEME|..] == Lower(s);
    LowerSplit(s);
    var parts := Split(s);
    if |parts| == 4 {
      LowerNumber(parts[0], 16, 0xFFFF);
      LowerNumber(parts[1], 16, 0xFF);
      LowerNumber(parts[2], 16, 0xFF);
      LowerNumber(parts[3], 10, 0xFF);
    }
  }

  /** A plus sign in front of digits, and zeros in front of them, do not change the number. */
  lemma SignAndZeros(s: string, zeros: nat, base: nat, max: nat)
    requires 2 <= base <= 16 && s != [] && AllDigits(s, base)
    ensures var padded := seq(zeros, _ => '0') + s;
            && ParseNumber(padded, base, max) == ParseNumber(s, base, max)
            && ParseNumber(['+'] + padded, base, max) == ParseNumber(s, base, max)
  {
    var front: string, none: seq<nat> := seq(zeros, _ => '0'), seq(zeros, _ => 0);
    var padded := front + s;
    assert DigitOf('0', base) == Some(0) && DigitOf('+', base).None?;
    assert AllDigits(padded, base) && DigitsIn(padded, base) == none + DigitsIn(s, base);
    Radix.LeadingZeros(none, DigitsIn(s, base), base);
    assert (['+'] + padded)[1..] == padded;
    assert s[0] != '+' && padded[0] != '+';
  }

  /** `s` is the digits of `n`, in either case, behind any number of zeros and possibly a plus sign. */
  ghost predicate Spells(s: string, n: nat, base: nat, sign: bool, zeros: nat)
    requires 2 <= base <= 16
  {
    Lower(s) == (if sign then ['+'] else []) + (seq(zeros, _ => '0') + Print(n, base, 0))
  }

  lemma LowerDigitChar(c: char, base: nat)
    requires base <= 16 && DigitOf(c, base).Some?
    ensures LowerChar(c) == CharOf(DigitOf(c, base).value)
  {
  }

  lemma LowerIsChars(s: string, base: nat)
    requires base <= 16 && AllDigits(s, base)
    ensures forall d | d in DigitsIn(s, base) :: d < 16
    ensures Lower(s) == Chars(DigitsIn(s, base))
  {
    var ds := DigitsIn(s, base);
    forall i | 0 <= i < |s| ensures ds[i] < base && Lower(s)[i] == CharOf(ds[i]) {
      LowerDigitChar(s[i], base);
    }
  }

  lemma CharsPadded(zeros: nat, ds: seq<nat>)
    requires forall d | d in ds :: d < 16
    ensures Chars(Radix.Zeros(zeros) + ds) == seq(zeros, _ => '0') + Chars(ds)
  {
    assert CharOf(0) == '0';
  }

  /** Digits in lower case are zeros and the shortest digits of their value. */
  lemma DigitsSpell(s: string, base: nat) returns (zeros: nat)
    requires 2 <= base <= 16 && s != [] && AllDigits(s, base)
    ensures Lower(s) == seq(zeros, _ => '0') + Print(Radix.ValueOf(DigitsIn(s, base), base), base, 0)
  {
    LowerIsChars(s, base);
    var ds := DigitsIn(s, base);
    assert forall d | d in ds :: d < base;
    zeros := Radix.Unpadded(ds, base);
    var short := Radix.Digits(Radix.ValueOf(ds, base), base);
    CharsPadded(zeros, short);
    assert Radix.PadLeft(short, 0) == short;
  }

  lemma SpelledParses(s: string, n: nat, base: nat, max: nat, sign: bool, zeros: nat)
    requires 2 <= base <= 16 && n <= max && Spells(s, n, base, sign, zeros)
    ensures ParseNumber(s, base, max) == Some(n)
  {
    var digits := Print(n, base, 0);
    PrintReadsBack(n, base, 0, max);
    PrintedDigits(n, base, 0);
    SignAndZeros(digits, zeros, base, max);
    assert [] + (seq(zeros, _ => '0') + digits) == seq(zeros, _ => '0') + digits;
    LowerNumber(s, base, max);
  }

  lemma LowerSigned(s: string)
    requires |s| > 1 && s[0] == '+'
    ensures Lower(s) == ['+'] + Lower(s[1..])
  {
  }

  lemma ParsedSpells(s: string, base: nat, max: nat) returns (sign: bool, zeros: nat)
    requires 2 <= base <= 16 && ParseNumber(s, base, max).Some?
    ensures Spells(s, ParseNumber(s, base, max).value, base, sign, zeros)
  {
    sign := |s| > 1 && s[0] == '+';
    if sign {
      LowerSigned(s);
      zeros := DigitsSpell(s[1..], base);
    } else {
      zeros := DigitsSpell(s, base);
      assert [] + Lower(s) == Lower(s);
    }
  }

  /** A text is read as `n` exactly when `n` fits the type and the text spells it. */
  lemma ReadAsIff(s: string, n: nat, base: nat, max: nat)
    requires 2 <= base <= 16
    ensures ParseNumber(s, base, max) == Some(n) <==>
            n <= max && exists sign: bool, zeros: nat :: Spells(s, n, base, sign, zeros)
  {
    if ParseNumber(s, base, max) == Some(n) {
      var sign, zeros := ParsedSpells(s, base, max);
    } else if sign: bool, zeros: nat :| n <= max && Spells(s, n, base, sign, zeros) {
      SpelledParses(s, n, base, max, sign, zeros);
    }
  }

  lemma SplitFour(a: string, b: string, c: string, d: string)
    requires NoSeparator(a) && NoSeparator(b) && NoSeparator(c) && NoSeparator(d)
    ensures Split(a + [':'] + (b + [':'] + (c + ['.'] + d))) == [a, b, c, d]
  {
    SplitPart(a, ':', b + [':'] + (c + ['.'] + d));
    SplitPart(b, ':', c + ['.'] + d);
    SplitPart(c, '.', d);
    SplitLast(d);
  }

  /** Every address in range is spelled by its canonical form. */
  lemma FormatReadsBack(a: Address)
    requires InRange(a)
    ensures Parse(Format(a)) == Some(a)
  {
    PrintReadsBack(a.domain, 16, 4, 0xFFFF);
    PrintReadsBack(a.bus, 16, 2, 0xFF);
    PrintReadsBack(a.device, 16, 2, 0xFF);
    PrintReadsBack(a.func, 10, 0, 0xFF);
    var p, q, r, s := Print(a.domain, 16, 4), Print(a.bus, 16, 2), Print(a.device, 16, 2), Print(a.func, 10, 0);
    SplitFour(p, q, r, s);
    assert Format(a)[|SCHEME|..] == p + [':'] + (q + [':'] + (r + ['.'] + s));
  }

  lemma PrintWidth(n: nat, base: nat, width: nat)
    requires 2 <= base <= 16 && 1 <= width && n < Radix.Power(base, width)
    ensures |Print(n, base, width)| == width
  {
    Radix.DigitsFit(n, base, width);
  }

  /** A canonical address has a fixed layout: four, two and two digits and then one to three. */
  lemma CanonicalLayout(a: Address)
    requires InRange(a)
    ensures var s := Format(a);
            20 <= |s| <= 22 && s[..8] == SCHEME && s[12] == ':' && s[15] == ':' && s[18] == '.'
  {
    assert Radix.Power(16, 2) == 256 && Radix.Power(16, 4) == 65536;
    PrintWidth(a.domain, 16, 4);
    PrintWidth(a.bus, 16, 2);
    PrintWidth(a.device, 16, 2);
    assert Radix.Power(10, 3) == 1000;
    Radix.DigitsFit(a.func, 10, 3);
  }

  /** Canonicalising what was canonicalised changes nothing. */
  lemma CanonicalIsFixpoint(addr: string)
    requires Canonical(addr).Some?
    ensures Canonical(Canonical(addr).value) == Canonical(addr)
  {
    FormatReadsBack(Parse(addr).value);
  }

  /** Two accepted addresses have one canonical form exactly when they name the same four numbers. */
  lemma CanonicalIffSameNumbers(addr: string, other: string)
    requires Canonical(addr).Some? && Canonical(other).Some?
    ensures Canonical(addr) == Canonical(other) <==> Parse(addr) == Parse(other)
  {
    FormatReadsBack(Parse(addr).value);
    FormatReadsBack(Parse(other).value);
  }
}
