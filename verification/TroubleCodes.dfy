/**
 * Trouble codes: two bytes of a diagnostic response against a five-character code, and what the
 * knowledge base (src/domain/dtc-knowledge.ts) makes of a list of codes.
 */
module TroubleCodes {
  import opened Prelude

  type Byte = b: nat | b < 256

  // ---------------------------------------------------------------------------------------------
  // Hexadecimal

  function HexChar(n: nat): char
    requires n < 16
  {
    "0123456789ABCDEF"[n]
  }

  predicate IsHex(c: char) { '0' <= c <= '9' || 'A' <= c <= 'F' }

  function HexVal(c: char): (n: nat)
    requires IsHex(c)
    ensures n < 16
  {
    if c <= '9' then c as int - '0' as int else c as int - 'A' as int + 10
  }

  lemma HexInverse(n: nat)
    requires n < 16
    ensures IsHex(HexChar(n)) && HexVal(HexChar(n)) == n
  {
  }

  lemma HexInverseBack(c: char)
    requires IsHex(c)
    ensures HexChar(HexVal(c)) == c
  {
  }

  function Hex2(b: Byte): (s: string)
    ensures |s| == 2
  {
    [HexChar(b / 16), HexChar(b % 16)]
  }

  // ---------------------------------------------------------------------------------------------
  // Codes

  const LETTERS := "PCBU"

  /** The code that a pair of bytes stands for. */
  function CodeOf(a: Byte, b: Byte): string {
    [LETTERS[a / 64], HexChar(a / 16 % 4), HexChar(a % 16), HexChar(b / 16), HexChar(b % 16)]
  }

  predicate IsLetter(c: char) { c == 'P' || c == 'C' || c == 'B' || c == 'U' }

  /** A well-formed code: system letter, digit 0 to 3, three upper-case hexadecimal digits. */
  predicate IsCode(s: string) {
    |s| == 5 && IsLetter(s[0]) && '0' <= s[1] <= '3' && IsHex(s[2]) && IsHex(s[3]) && IsHex(s[4])
  }

  function LetterVal(c: char): (n: nat)
    requires IsLetter(c)
    ensures n < 4 && LETTERS[n] == c
  {
    if c == 'P' then 0 else if c == 'C' then 1 else if c == 'B' then 2 else 3
  }

  /** The pair of bytes that a code stands for. */
  function BytesOf(s: string): (Byte, Byte)
    requires IsCode(s)
  {
    (LetterVal(s[0]) * 64 + HexVal(s[1]) * 16 + HexVal(s[2]), HexVal(s[3]) * 16 + HexVal(s[4]))
  }

  /** Byte pairs and well-formed codes are in bijection. */
  lemma PairToCodeToPair(a: Byte, b: Byte)
    ensures IsCode(CodeOf(a, b)) && BytesOf(CodeOf(a, b)) == (a, b)
  {
    HexInverse(a / 16 % 4);
    HexInverse(a % 16);
    HexInverse(b / 16);
    HexInverse(b % 16);
    assert a == a / 64 * 64 + a / 16 % 4 * 16 + a % 16;
  }

  lemma CodeToPairToCode(s: string)
    requires IsCode(s)
    ensures CodeOf(BytesOf(s).0, BytesOf(s).1) == s
  {
    hide HexChar, HexVal, LetterVal;
    LowDigit(s[1]);
    var l, d, h, x, y := LetterVal(s[0]), HexVal(s[1]), HexVal(s[2]), HexVal(s[3]), HexVal(s[4]);
    Digits(l, d, h);
    Nibbles(x, y);
    HexInverseBack(s[1]);
    HexInverseBack(s[2]);
    HexInverseBack(s[3]);
    HexInverseBack(s[4]);
    assert CodeOf(l * 64 + d * 16 + h, x * 16 + y) == [LETTERS[l], HexChar(d), HexChar(h), HexChar(x), HexChar(y)];
    assert s == [s[0], s[1], s[2], s[3], s[4]];
  }

  lemma LowDigit(c: char)
    requires '0' <= c <= '3'
    ensures HexVal(c) < 4
  {
  }

  lemma Nibbles(x: nat, y: nat)
    requires x < 16 && y < 16
    ensures (x * 16 + y) / 16 == x && (x * 16 + y) % 16 == y
  {
  }

  lemma Digits(letter: nat, digit: nat, nibble: nat)
    requires letter < 4 && digit < 4 && nibble < 16
    ensures (letter * 64 + digit * 16 + nibble) / 64 == letter
    ensures (letter * 64 + digit * 16 + nibble) / 16 % 4 == digit
    ensures (letter * 64 + digit * 16 + nibble) % 16 == nibble
  {
    assert (letter * 64 + digit * 16 + nibble) / 16 == letter * 4 + digit;
  }

  // ---------------------------------------------------------------------------------------------
  // Text

  /** The white space that JavaScript trims and matches. */
  predicate IsSpace(c: char) {
    var u := c as int;
    9 <= u <= 13 || u == 0x20 || u == 0xA0 || u == 0x1680 || 0x2000 <= u <= 0x200A
    || u == 0x2028 || u == 0x2029 || u == 0x202F || u == 0x205F || u == 0x3000 || u == 0xFEFF
  }

  function TrimLeft(s: string): string {
    if s != [] && IsSpace(s[0]) then TrimLeft(s[1..]) else s
  }

  function TrimRight(s: string): string {
    if s != [] && IsSpace(s[|s| - 1]) then TrimRight(s[..|s| - 1]) else s
  }

  function Trim(s: string): string { TrimRight(TrimLeft(s)) }

  function UpperChar(c: char): char {
    if 'a' <= c <= 'z' then (c as int - 32) as char else c
  }

  function Upper(s: string): (r: string)
    ensures |r| == |s| && forall i :: 0 <= i < |s| ==> r[i] == UpperChar(s[i])
  {
    seq(|s|, i requires 0 <= i < |s| => UpperChar(s[i]))
  }

  // ---------------------------------------------------------------------------------------------
  // The knowledge base

  datatype Domain = Powertrain | Body | Chassis | Network

  datatype Finding = Finding(code: string, domain: Domain, manufacturerSpecific: bool)

  function DomainOf(letter: char): Domain {
    if letter == 'P' then Powertrain else if letter == 'B' then Body else if letter == 'C' then Chassis else Network
  }

  /** Classifies one code; None for anything that is not a well-formed code. */
  function ParseDtc(raw: string): Option<Finding> {
    var code := Upper(Trim(raw));
    if !IsCode(code) then None
    else
      Some(Finding(code, DomainOf(code[0]),
      if code[0] == 'P' then code[1] == '1' || code[1] == '3' else code[1] == '1' || code[1] == '2'))
  }

  lemma ParseAcceptsCodes(code: string)
    requires IsCode(code)
    ensures ParseDtc(code).Some? && ParseDtc(code).value.code == code
  {
    assert !IsSpace(code[0]) && !IsSpace(code[4]);
    assert Trim(code) == code;
    assert Upper(code) == code;
  }

  datatype Synthesis = Synthesis(findings: seq<Finding>, invalid: seq<string>)

  function Codes(findings: seq<Finding>): (codes: seq<string>)
    ensures |codes| == |findings| && forall i :: 0 <= i < |findings| ==> codes[i] == findings[i].code
  {
    seq(|findings|, i requires 0 <= i < |findings| => findings[i].code)
  }

  /** What the synthesis loop has after the given raw codes. */
  function Synthesize(raw: seq<string>): Synthesis {
    if raw == [] then Synthesis([], [])
    else
      var before := Synthesize(raw[..|raw| - 1]);
      var last := raw[|raw| - 1];
      match ParseDtc(last)
      case None => before.(invalid := before.invalid + [last[..Min(|last|, 32)]])
      case Some(f) => if f.code in Codes(before.findings) then before else before.(findings := before.findings + [f])
  }

  const MAX_CODES := 100

  /** The loop of the source: at most a hundred codes, each reported once. */
  method SynthesizeObdEvidence(raw: seq<string>) returns (r: Synthesis)
    ensures r == Synthesize(raw[..Min(|raw|, MAX_CODES)])
  {
    var slice := raw[..Min(|raw|, MAX_CODES)];
    var findings: seq<Finding>, invalid: seq<string>, seen: set<string> := [], [], {};
    for i := 0 to |slice|
      invariant Synthesis(findings, invalid) == Synthesize(slice[..i])
      invariant forall c :: c in seen <==> c in Codes(findings)
    {
      assert slice[..i + 1][..i] == slice[..i];
      var f := ParseDtc(slice[i]);
      if f.None? {
        invalid := invalid + [slice[i][..Min(|slice[i]|, 32)]];
      } else if f.value.code !in seen {
        seen := seen + {f.value.code};
        ghost var before := findings;
        findings := findings + [f.value];
        assert Codes(findings) == Codes(before) + [f.value.code];
      }
    }
    assert slice[..|slice|] == slice;
    r := Synthesis(findings, invalid);
  }

  ghost predicate Distinct(codes: seq<string>) {
    forall i, j :: 0 <= i < j < |codes| ==> codes[i] != codes[j]
  }

  /** No finding is reported twice, and every finding carries a well-formed code. */
  lemma {:induction false} FindingsDistinct(raw: seq<string>)
    ensures Distinct(Codes(Synthesize(raw).findings))
    ensures forall c :: c in Codes(Synthesize(raw).findings) ==> IsCode(c)
  {
    if raw != [] {
      FindingsDistinct(raw[..|raw| - 1]);
      var before := Synthesize(raw[..|raw| - 1]).findings;
      var f := ParseDtc(raw[|raw| - 1]);
      if f.Some? { assert Codes(before + [f.value]) == Codes(before) + [f.value.code]; }
    }
  }

  lemma NewFinding(raw: seq<string>, f: Finding)
    requires raw != [] && ParseDtc(raw[|raw| - 1]) == Some(f)
    requires f.code !in Codes(Synthesize(raw[..|raw| - 1]).findings)
    ensures var before := Synthesize(raw[..|raw| - 1]); Synthesize(raw) == Synthesis(before.findings + [f], before.invalid)
  {
    hide ParseDtc;
  }

  lemma CodesPush(before: seq<Finding>, f: Finding)
    ensures Codes(before + [f]) == Codes(before) + [f.code]
  {
  }

  /** Distinct well-formed codes come back as findings in the same order, and none is invalid. */
  lemma {:induction false} CleanCodesSynthesize(codes: seq<string>)
    requires Distinct(codes) && forall i :: 0 <= i < |codes| ==> IsCode(codes[i])
    ensures Codes(Synthesize(codes).findings) == codes && Synthesize(codes).invalid == []
  {
    if codes != [] {
      var n := |codes| - 1;
      ParseAcceptsCodes(codes[n]);
      hide ParseDtc, IsCode;
      CleanCodesSynthesize(codes[..n]);
      hide Synthesize, Codes;
      var f := ParseDtc(codes[n]).value;
      assert codes[n] !in codes[..n];
      NewFinding(codes, f);
      CodesPush(Synthesize(codes[..n]).findings, f);
      assert codes == codes[..n] + [codes[n]];
    }
  }
}
