/** When a call runs at all, which calls share a key row, and what the canonical text looks like. */
module IdempotencyScopes {
  import opened Prelude
  import opened StableJson
  import StableJsonProofs
  import opened Idempotency

  // ---------------------------------------------------------------------------------------------
  // Running

  /** A day after the last run under a key, or with a key never used, the business function runs. */
  lemma FreshKeyRuns(actions: seq<Action>, c: Call)
    requires Calls(actions, true) && Valid(c.body) && c.work.joins
    requires Protected(c) && |c.key.value| <= 200
    requires
      var s := Run(Empty, actions);
      forall i :: 0 <= i < |s.effects| && Keyed(s.effects[i], ScopedKey(c)) ==> s.effects[i].at + 86400 <= s.now
    ensures
      var s := Run(Empty, actions);
      && (c.work.ending == Commits ==>
        && Step(s, c).1 == Done(c.work.reply, true) && Step(s, c).0.effects == s.effects + [Effect(c, s.now)])
      && (c.work.ending != Commits ==> Step(s, c) == (s, Failed))
  {
    RunKeepsInv(Empty, actions);
    var s := Run(Empty, actions);
    var key := ScopedKey(c);
    if key in s.rows {
      assert RowOk(s, key);
      var i :| 0 <= i < |s.effects| && Keyed(s.effects[i], key) && RowOf(s.effects[i]) == s.rows[key];
      assert s.rows[key].expiresAt == s.effects[i].at + DAY;
    }
  }

  /** A key of more than two hundred characters is refused before anything else, and no other key is. */
  lemma LongKeysRefused(s: State, c: Call)
    ensures Step(s, c).1 == KeyTooLong <==> c.key.Some? && |c.key.value| > 200
    ensures Step(s, c).1 == KeyTooLong || Step(s, c).1 == KeyReused ==> Step(s, c).0 == s
  {
  }

  /** Without a key the function has no transaction to join: whatever it did before failing late stays done. */
  lemma UnprotectedFailure(s: State, c: Call)
    requires !Protected(c) && c.work.ending != Commits
    ensures Step(s, c).1 == Failed && Step(s, c).0.rows == s.rows
    ensures |Step(s, c).0.effects| == |s.effects| + if c.work.ending == FailsLate then 1 else 0
  {
  }

  /** A call with a key keeps the rows of all other keys. */
  lemma OtherKeysStay(s: State, c: Call, key: Text)
    requires Protected(c) ==> key != ScopedKey(c)
    ensures key in Step(s, c).0.rows <==> key in s.rows
    ensures key in s.rows ==> Step(s, c).0.rows[key] == s.rows[key]
    ensures Step(s, c).0.now == s.now
  {
  }

  // ---------------------------------------------------------------------------------------------
  // Scopes

  predicate NoBar(t: Text) { forall i :: 0 <= i < |t| ==> t[i] != 0x7C }

  /** Text up to its first bar, and the rest, are determined. */
  lemma {:induction false} FirstBar(a: Text, x: Text, b: Text, y: Text)
    requires NoBar(a) && NoBar(b) && a + BAR + x == b + BAR + y
    ensures a == b && x == y
  {
    var s, t := a + BAR + x, b + BAR + y;
    assert s[0] == if a == [] then 0x7C else a[0];
    assert t[0] == if b == [] then 0x7C else b[0];
    if a == [] {
      assert s[1..] == x && t[1..] == y;
    } else {
      assert s[1..] == a[1..] + BAR + x && t[1..] == b[1..] + BAR + y;
      FirstBar(a[1..], x, b[1..], y);
      assert a == [a[0]] + a[1..] && b == [b[0]] + b[1..];
    }
  }

  /** The actor part of a scope. */
  function ActorPart(c: Call): Text { if c.principal.actor.Some? then c.principal.actor.value else ANONYMOUS }

  /**
   * Calls share a key row exactly when role, actor, operation and client key agree, as long as roles,
   * actors and operations have no bar in them; the client key may have any characters.
   */
  lemma ScopesApart(c: Call, d: Call)
    requires Protected(c) && Protected(d)
    requires NoBar(c.principal.role) && NoBar(ActorPart(c)) && NoBar(c.operation)
    requires NoBar(d.principal.role) && NoBar(ActorPart(d)) && NoBar(d.operation)
    ensures ScopedKey(c) == ScopedKey(d)
       <==> && c.principal.role == d.principal.role && ActorPart(c) == ActorPart(d)
            && c.operation == d.operation && c.key == d.key
  {
    if ScopedKey(c) == ScopedKey(d) {
      KeyParts(c);
      KeyParts(d);
      FirstBar(c.principal.role, AfterRole(c), d.principal.role, AfterRole(d));
      FirstBar(ActorPart(c), AfterActor(c), ActorPart(d), AfterActor(d));
      FirstBar(c.operation, c.key.value, d.operation, d.key.value);
    }
  }

  function AfterActor(c: Call): Text
    requires Protected(c)
  {
    c.operation + BAR + c.key.value
  }

  function AfterRole(c: Call): Text
    requires Protected(c)
  {
    ActorPart(c) + BAR + AfterActor(c)
  }

  lemma KeyParts(c: Call)
    requires Protected(c)
    ensures ScopedKey(c) == c.principal.role + BAR + AfterRole(c)
  {
    var a := ActorPart(c);
    assert c.principal.role + BAR + a + BAR + c.operation + BAR + c.key.value
        == c.principal.role + BAR + (a + BAR + (c.operation + BAR + c.key.value));
  }

  // ---------------------------------------------------------------------------------------------
  // The canonical text

  /** Characters that stand for themselves in a string. */
  predicate Plain(s: Text) {
    forall i :: 0 <= i < |s| ==> 0x20 <= s[i] && s[i] != 0x22 && s[i] != 0x5C && !(0xD800 <= s[i] <= 0xDFFF)
  }

  lemma {:induction false} PlainText(s: Text)
    requires Plain(s)
    ensures Escape(s) == s
  {
    if s != [] {
      PlainText(s[1..]);
      assert s == [s[0]] + s[1..];
    }
  }

  /** Literals and strings: plain text between quotes, two-character escapes, and \u escapes in lower case. */
  lemma PrintedText(s: Text)
    ensures Print(Null) == [110, 117, 108, 108]
    ensures Print(Bool(true)) == [116, 114, 117, 101] && Print(Bool(false)) == [102, 97, 108, 115, 101]
    ensures Plain(s) ==> Print(Str(s)) == [34] + s + [34]
    ensures EscapeUnit(34) == [92, 34] && EscapeUnit(92) == [92, 92]
    ensures EscapeUnit(8) == [92, 98] && EscapeUnit(9) == [92, 116] && EscapeUnit(10) == [92, 110]
    ensures EscapeUnit(12) == [92, 102] && EscapeUnit(13) == [92, 114]
    ensures forall u :: u < 0x20 || 0xD800 <= u < 0xE000 ==> EscapeUnit(u)[0] == 92 && |EscapeUnit(u)| in {2, 6}
    ensures EscapeUnit(0x1F) == [92, 117, 48, 48, 49, 102]
    ensures EscapeUnit(0xD8AB) == [92, 117, 100, 56, 97, 98]
  {
    if Plain(s) { PlainText(s); }
  }

  /** Digits, after a minus sign or not, are numbers; so are a point and an exponent inside. */
  lemma NumberTexts(u: nat, v: nat)
    requires 48 <= u <= 57 && 48 <= v <= 57
    ensures Valid(Num([u])) && Valid(Num([45, u])) && Valid(Num([u, 46, v])) && Valid(Num([u, 101, 43, v])) && Valid(Num([u, 101, 45, v]))
    ensures !Valid(Num([])) && forall w :: w < 43 || w > 101 ==> !Valid(Num([w]))
  {
  }

  /** Escaping goes character by character; only a high and a low surrogate together stay as they are. */
  lemma EscapedStepwise(u: nat, s: Text)
    ensures
      var pair := 0xD800 <= u < 0xDC00 && s != [] && 0xDC00 <= s[0] < 0xE000;
      Escape([u] + s) == if pair then [u, s[0]] + Escape(s[1..]) else EscapeUnit(u) + Escape(s)
  {
    hide EscapeUnit;
    assert ([u] + s)[1..] == s;
    if s != [] { assert ([u] + s)[2..] == s[1..]; }
  }

  /** Arrays: items in order with commas between them. */
  lemma PrintedArrays(a: Json, b: Json)
    ensures Print(Arr([])) == [91, 93] && Print(Arr([a])) == [91] + Print(a) + [93]
    ensures Print(Arr([a, b])) == [91] + Print(a) + [44] + Print(b) + [93]
  {
    assert [a, b][1..] == [b];
    assert PrintItems([b]) == Print(b);
    assert PrintItems([a, b]) == Print(a) + ([44] + Print(b));
    assert [91] + (Print(a) + ([44] + Print(b))) + [93] == [91] + Print(a) + [44] + Print(b) + [93];
  }

  /** Objects: members by ascending key, whichever order they are written in. */
  lemma PrintedObjects(k: Text, a: Json, l: Text, b: Json)
    requires Less(k, l)
    ensures Print(Obj([])) == [123, 125]
    ensures Print(Obj([Field(k, a), Field(l, b)]))
         == [123] + Quote(k) + [58] + Print(a) + [44] + Quote(l) + [58] + Print(b) + [125]
         == Print(Obj([Field(l, b), Field(k, a)]))
  {
    hide Print, Quote;
    TwoMembers(k, a, l, b, [Field(k, a), Field(l, b)]);
    TwoMembers(k, a, l, b, [Field(l, b), Field(k, a)]);
    EmptyObject();
  }

  lemma EmptyObject()
    ensures Print(Obj([])) == [123, 125]
  {
  }

  lemma TwoKeysSorted(k: Text, l: Text)
    requires Less(k, l)
    ensures Sorted([k, l]) == [k, l] == Sorted([l, k])
  {
    StableJsonProofs.LessTotal(k, l);
    assert [k, l][1..] == [l] && [l, k][1..] == [k] && [l][1..] == [] && [k][1..] == [];
    assert Sorted([]) == [] && Sorted([l]) == [l] && Sorted([k]) == [k];
  }

  lemma OneMember(fields: seq<Field>, k: Text)
    requires k in KeySet(fields)
    ensures PrintMembers(fields, [k]) == Quote(k) + [58] + Print(Member(fields, k))
  {
  }

  lemma FirstMember(fields: seq<Field>, k: Text, l: Text)
    requires k in KeySet(fields)
    ensures PrintMembers(fields, [k, l]) == Quote(k) + [58] + Print(Member(fields, k)) + ([44] + PrintMembers(fields, [l]))
  {
    assert [k, l][1..] == [l];
  }

  lemma MembersOfTwo(k: Text, a: Json, l: Text, b: Json, fields: seq<Field>)
    requires k != l && (fields == [Field(k, a), Field(l, b)] || fields == [Field(l, b), Field(k, a)])
    ensures k in KeySet(fields) && l in KeySet(fields) && Member(fields, k) == a && Member(fields, l) == b
  {
    assert Field(k, a) in fields && Field(l, b) in fields;
  }

  lemma ObjectText(fields: seq<Field>)
    ensures Print(Obj(fields)) == [123] + PrintMembers(fields, Sorted(KeysOf(fields))) + [125]
  {
  }

  lemma Joined(q: Text, a: Text, r: Text, b: Text)
    ensures [123] + (q + [58] + a + ([44] + (r + [58] + b))) + [125] == [123] + q + [58] + a + [44] + r + [58] + b + [125]
  {
  }

  lemma TwoMembers(k: Text, a: Json, l: Text, b: Json, fields: seq<Field>)
    requires Less(k, l)
    requires fields == [Field(k, a), Field(l, b)] || fields == [Field(l, b), Field(k, a)]
    ensures Print(Obj(fields)) == [123] + Quote(k) + [58] + Print(a) + [44] + Quote(l) + [58] + Print(b) + [125]
  {
    hide Quote, PrintMembers, Sorted, Print, Member, KeySet, Less;
    StableJsonProofs.LessTotal(k, l);
    TwoKeysSorted(k, l);
    MembersOfTwo(k, a, l, b, fields);
    assert KeysOf(fields) == [k, l] || KeysOf(fields) == [l, k];
    ObjectText(fields);
    FirstMember(fields, k, l);
    OneMember(fields, l);
    Joined(Quote(k), Print(a), Quote(l), Print(b));
  }

  /** Keys are compared by code units, a prefix before what it begins. */
  lemma KeyOrder(common: Text, u: nat, v: nat, x: Text, y: Text)
    requires u < v
    ensures Less(common + [u] + x, common + [v] + y) && !Less(common + [v] + y, common + [u] + x)
    ensures Less(common, common + [u] + x)
  {
    if common != [] {
      KeyOrder(common[1..], u, v, x, y);
      assert (common + [u] + x)[1..] == common[1..] + [u] + x && (common + [v] + y)[1..] == common[1..] + [v] + y;
    }
  }
}
