/**
 * The canonical JSON printer of src/services/idempotency.ts. Text is a sequence of UTF-16 code
 * units, as in JavaScript; a number is identified with the text JavaScript prints for it.
 */
module StableJson {

  type Text = seq<nat>

  datatype Field = Field(key: Text, value: Json)

  datatype Json =
    | Null
    | Bool(b: bool)
    | Num(digits: Text)
    | Str(s: Text)
    | Arr(items: seq<Json>)
    | Obj(fields: seq<Field>)

  const QUOTE := 0x22
  const COMMA := 0x2C
  const COLON := 0x3A
  const LBRACKET := 0x5B
  const BACKSLASH := 0x5C
  const RBRACKET := 0x5D
  const LBRACE := 0x7B
  const RBRACE := 0x7D
  const NULL: Text := [0x6E, 0x75, 0x6C, 0x6C]
  const TRUE: Text := [0x74, 0x72, 0x75, 0x65]
  const FALSE: Text := [0x66, 0x61, 0x6C, 0x73, 0x65]

  // ---------------------------------------------------------------------------------------------
  // Well-formed values

  predicate Digit(u: nat) { 0x30 <= u <= 0x39 }

  /** The characters of a printed finite number: digits, sign, point, exponent. */
  predicate NumChar(u: nat) { Digit(u) || u == 0x2D || u == 0x2B || u == 0x2E || u == 0x65 }

  predicate NumText(t: Text) {
    t != [] && (Digit(t[0]) || t[0] == 0x2D) && forall i :: 0 <= i < |t| ==> NumChar(t[i])
  }

  predicate DistinctKeys(fields: seq<Field>) {
    forall i, j :: 0 <= i < j < |fields| ==> fields[i].key != fields[j].key
  }

  /** Finite numbers only, and the keys of an object are distinct, as JavaScript objects have it. */
  predicate Valid(v: Json) {
    match v
    case Num(t) => NumText(t)
    case Arr(items) => forall i :: 0 <= i < |items| ==> Valid(items[i])
    case Obj(fields) => DistinctKeys(fields) && forall i :: 0 <= i < |fields| ==> Valid(fields[i].value)
    case _ => true
  }

  function KeySet(fields: seq<Field>): set<Text> { set f | f in fields :: f.key }

  function Position(fields: seq<Field>, key: Text): (i: nat)
    requires key in KeySet(fields)
    ensures i < |fields| && fields[i].key == key
  {
    if fields[0].key == key then 0
    else
      assert key in KeySet(fields[1..]) by {
        var f :| f in fields && f.key == key;
        assert f in fields[1..];
      }
      1 + Position(fields[1..], key)
  }

  /** The member `record[key]`. */
  function Member(fields: seq<Field>, key: Text): Json
    requires key in KeySet(fields)
  {
    fields[Position(fields, key)].value
  }

  /** Equal up to the order of object keys. */
  ghost predicate Same(a: Json, b: Json)
    decreases a
  {
    match (a, b)
    case (Arr(xs), Arr(ys)) => |xs| == |ys| && forall i :: 0 <= i < |xs| ==> Same(xs[i], ys[i])
    case (Obj(fs), Obj(gs)) =>
      KeySet(fs) == KeySet(gs)
      && forall i :: 0 <= i < |fs| ==> fs[i].key in KeySet(gs) && Same(fs[i].value, Member(gs, fs[i].key))
    case _ => a == b
  }

  // ---------------------------------------------------------------------------------------------
  // Printing text

  predicate High(u: nat) { 0xD800 <= u <= 0xDBFF }

  predicate Low(u: nat) { 0xDC00 <= u <= 0xDFFF }

  function HexDigit(n: nat): nat
    requires n < 16
  {
    if n < 10 then 0x30 + n else 0x57 + n
  }

  /** `\uXXXX` in lower case. */
  function HexEscape(u: nat): Text
    requires u < 0x10000
  {
    [BACKSLASH, 0x75, HexDigit(u / 16 / 16 / 16), HexDigit(u / 16 / 16 % 16), HexDigit(u / 16 % 16), HexDigit(u % 16)]
  }

  function EscapeUnit(u: nat): (r: Text)
    ensures r != [] && r[0] != QUOTE
  {
    if u == QUOTE || u == BACKSLASH then [BACKSLASH, u]
    else if u == 8 then [BACKSLASH, 0x62]
    else if u == 9 then [BACKSLASH, 0x74]
    else if u == 10 then [BACKSLASH, 0x6E]
    else if u == 12 then [BACKSLASH, 0x66]
    else if u == 13 then [BACKSLASH, 0x72]
    else if u < 0x20 || High(u) || Low(u) then HexEscape(u)
    else [u]
  }

  predicate StartsWithPair(s: Text) { |s| >= 2 && High(s[0]) && Low(s[1]) }

  function Escape(s: Text): Text {
    if s == [] then []
    else if StartsWithPair(s) then [s[0], s[1]] + Escape(s[2..])
    else EscapeUnit(s[0]) + Escape(s[1..])
  }

  function Quote(s: Text): Text { [QUOTE] + Escape(s) + [QUOTE] }

  // ---------------------------------------------------------------------------------------------
  // Sorting keys

  /** JavaScript's default string order: by code units. */
  predicate Less(a: Text, b: Text) {
    b != [] && (a == [] || a[0] < b[0] || (a[0] == b[0] && Less(a[1..], b[1..])))
  }

  function Insert(key: Text, keys: seq<Text>): seq<Text> {
    if keys == [] || Less(key, keys[0]) then [key] + keys else [keys[0]] + Insert(key, keys[1..])
  }

  function Sorted(keys: seq<Text>): seq<Text> {
    if keys == [] then [] else Insert(keys[0], Sorted(keys[1..]))
  }

  function KeysOf(fields: seq<Field>): (keys: seq<Text>)
    ensures |keys| == |fields|
    ensures forall i :: 0 <= i < |fields| ==> keys[i] == fields[i].key
  {
    seq(|fields|, i requires 0 <= i < |fields| => fields[i].key)
  }

  // ---------------------------------------------------------------------------------------------
  // Printing values

  function Print(v: Json): Text
    decreases v, 1
  {
    match v
    case Null => NULL
    case Bool(b) => if b then TRUE else FALSE
    case Num(t) => t
    case Str(s) => Quote(s)
    case Arr(items) => [LBRACKET] + PrintItems(items) + [RBRACKET]
    case Obj(fields) => [LBRACE] + PrintMembers(fields, Sorted(KeysOf(fields))) + [RBRACE]
  }

  function PrintItems(items: seq<Json>): Text
    decreases items, 0
  {
    if items == [] then []
    else Print(items[0]) + if |items| == 1 then [] else [COMMA] + PrintItems(items[1..])
  }

  function PrintMembers(fields: seq<Field>, keys: seq<Text>): Text
    decreases fields, 0, |keys|
  {
    if keys == [] || keys[0] !in KeySet(fields) then []
    else
      Quote(keys[0]) + [COLON] + Print(fields[Position(fields, keys[0])].value)
      + if |keys| == 1 then [] else [COMMA] + PrintMembers(fields, keys[1..])
  }
}
