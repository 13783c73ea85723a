/** The printer is canonical and uniquely readable. */
module StableJsonProofs {
  import opened StableJson

  // ---------------------------------------------------------------------------------------------
  // Reading text back

  /** What may follow a printed value: nothing, or a character no number contains. */
  predicate Ends(rest: Text) { rest == [] || !NumChar(rest[0]) }

  lemma Strip(a: Text, b: Text, x: Text, y: Text)
    requires a + x == b + y && |a| == |b|
    ensures a == b && x == y
  {
    assert (a + x)[..|a|] == a && (b + y)[..|b|] == b;
    assert (a + x)[|a|..] == x && (b + y)[|b|..] == y;
  }

  lemma HexInjective(u: nat, v: nat)
    requires u < 0x10000 && v < 0x10000 && HexEscape(u) == HexEscape(v)
    ensures u == v
  {
    assert HexEscape(u)[2] == HexEscape(v)[2] && HexEscape(u)[3] == HexEscape(v)[3];
    assert HexEscape(u)[4] == HexEscape(v)[4] && HexEscape(u)[5] == HexEscape(v)[5];
  }

  lemma Assoc(a: Text, b: Text, c: Text)
    ensures (a + b) + c == a + (b + c)
  {
  }

  /** An escaped unit cannot be the start of another one. */
  lemma UnitUnique(u: nat, v: nat, x: Text, y: Text)
    requires EscapeUnit(u) + x == EscapeUnit(v) + y
    ensures u == v && x == y
  {
    var a, b := EscapeUnit(u), EscapeUnit(v);
    assert a[0] == (a + x)[0] == (b + y)[0] == b[0];
    if |a| > 1 && |b| > 1 {
      assert a[1] == (a + x)[1] == (b + y)[1] == b[1];
    }
    assert |a| == |b|;
    Strip(a, b, x, y);
    if |a| == 6 { HexInjective(u, v); }
  }

  /** What follows the first `n` units of an escaped string, up to and past its closing quote. */
  function After(s: Text, n: nat, x: Text): Text
    requires n <= |s|
  {
    Escape(s[n..]) + [QUOTE] + x
  }

  /** The escaped form of a string up to and past its closing quote, one chunk at a time. */
  lemma EscapeSplit(s: Text, x: Text)
    ensures s == [] ==> Escape(s) + [QUOTE] + x == [QUOTE] + x
    ensures s != [] && StartsWithPair(s) ==> Escape(s) + [QUOTE] + x == [s[0], s[1]] + After(s, 2, x)
    ensures s != [] && !StartsWithPair(s) ==> Escape(s) + [QUOTE] + x == EscapeUnit(s[0]) + After(s, 1, x)
  {
    if s == [] {
      assert Escape(s) + [QUOTE] == [QUOTE];
    } else if StartsWithPair(s) {
      Assoc3([s[0], s[1]], Escape(s[2..]), [QUOTE], x);
    } else {
      Assoc3(EscapeUnit(s[0]), Escape(s[1..]), [QUOTE], x);
    }
  }

  lemma Assoc3(a: Text, b: Text, c: Text, d: Text)
    ensures (a + b) + c + d == a + (b + c + d)
  {
  }

  /** A string's closing quote is the first one that is not part of an escape. */
  lemma {:induction false} EscapeUnique(s: Text, t: Text, x: Text, y: Text)
    requires Escape(s) + [QUOTE] + x == Escape(t) + [QUOTE] + y
    ensures s == t && x == y
    decreases |s| + |t|
  {
    EscapeSplit(s, x);
    EscapeSplit(t, y);
    assert (Escape(s) + [QUOTE] + x)[0] == (Escape(t) + [QUOTE] + y)[0];
    if s == [] || t == [] {
      Strip([QUOTE], [QUOTE], x, y);
    } else if StartsWithPair(s) || StartsWithPair(t) {
      PairUnique(s, t, x, y);
    } else {
      UnitUnique(s[0], t[0], After(s, 1, x), After(t, 1, y));
      EscapeUnique(s[1..], t[1..], x, y);
      assert s == [s[0]] + s[1..] && t == [t[0]] + t[1..];
    }
  }

  lemma {:induction false} PairUnique(s: Text, t: Text, x: Text, y: Text)
    requires s != [] && t != [] && (StartsWithPair(s) || StartsWithPair(t))
    requires Escape(s) + [QUOTE] + x == Escape(t) + [QUOTE] + y
    ensures s == t && x == y
    decreases |s| + |t|, 0
  {
    EscapeSplit(s, x);
    EscapeSplit(t, y);
    assert (Escape(s) + [QUOTE] + x)[0] == (Escape(t) + [QUOTE] + y)[0];
    Strip([s[0], s[1]], [t[0], t[1]], After(s, 2, x), After(t, 2, y));
    EscapeUnique(s[2..], t[2..], x, y);
    assert s == [s[0], s[1]] + s[2..] && t == [t[0], t[1]] + t[2..];
  }

  lemma QuoteUnique(s: Text, t: Text, x: Text, y: Text)
    requires Quote(s) + x == Quote(t) + y
    ensures s == t && x == y
  {
    Assoc3([QUOTE], Escape(s), [QUOTE], x);
    Assoc3([QUOTE], Escape(t), [QUOTE], y);
    Strip([QUOTE], [QUOTE], Escape(s) + [QUOTE] + x, Escape(t) + [QUOTE] + y);
    EscapeUnique(s, t, x, y);
  }

  lemma NumUnique(s: Text, t: Text, x: Text, y: Text)
    requires NumText(s) && NumText(t) && Ends(x) && Ends(y) && s + x == t + y
    ensures s == t && x == y
  {
    NoLonger(s, t, x, y);
    NoLonger(t, s, y, x);
    Strip(s, t, x, y);
  }

  /** A number cannot go on where what follows the other one ended it. */
  lemma NoLonger(s: Text, t: Text, x: Text, y: Text)
    requires NumText(t) && Ends(x) && s + x == t + y
    ensures |s| >= |t|
  {
    assert forall i :: 0 <= i < |t| ==> (s + x)[i] == (t + y)[i] == t[i];
    assert x != [] ==> (s + x)[|s|] == x[0];
  }

  // ---------------------------------------------------------------------------------------------
  // Sorted key lists

  ghost predicate Ascending(keys: seq<Text>) {
    forall i, j :: 0 <= i < j < |keys| ==> Less(keys[i], keys[j])
  }

  lemma {:induction false} LessTotal(a: Text, b: Text)
    ensures a == b || Less(a, b) || Less(b, a)
    ensures !(Less(a, b) && Less(b, a)) && !Less(a, a)
  {
    if a != [] { if b != [] { LessTotal(a[1..], b[1..]); assert a == [a[0]] + a[1..] && b == [b[0]] + b[1..]; } LessTotal(a[1..], a[1..]); }
  }

  lemma {:induction false} LessTransitive(a: Text, b: Text, c: Text)
    requires Less(a, b) && Less(b, c)
    ensures Less(a, c)
  {
    if a != [] && a[0] == b[0] == c[0] { LessTransitive(a[1..], b[1..], c[1..]); }
  }

  lemma {:induction false} InsertAscending(key: Text, keys: seq<Text>)
    requires Ascending(keys) && key !in keys
    ensures Ascending(Insert(key, keys))
    ensures forall k :: k in Insert(key, keys) <==> k == key || k in keys
  {
    if keys == [] {
    } else if Less(key, keys[0]) {
      forall j | 0 < j < |keys| ensures Less(key, keys[j]) { LessTransitive(key, keys[0], keys[j]); }
    } else {
      InsertAscending(key, keys[1..]);
      LessTotal(key, keys[0]);
      var rest := Insert(key, keys[1..]);
      forall j | 0 <= j < |rest| ensures Less(keys[0], rest[j]) {
        assert rest[j] in rest;
        if rest[j] != key {
          var i :| 0 <= i < |keys[1..]| && keys[1..][i] == rest[j];
          assert keys[i + 1] == rest[j];
        }
      }
      assert keys == [keys[0]] + keys[1..];
      assert forall k :: k in keys <==> k == keys[0] || k in keys[1..];
    }
  }

  lemma {:induction false} SortedAscending(keys: seq<Text>)
    requires forall i, j :: 0 <= i < j < |keys| ==> keys[i] != keys[j]
    ensures Ascending(Sorted(keys))
    ensures forall k :: k in Sorted(keys) <==> k in keys
  {
    if keys != [] {
      SortedAscending(keys[1..]);
      assert keys[0] !in keys[1..];
      InsertAscending(keys[0], Sorted(keys[1..]));
      assert keys == [keys[0]] + keys[1..];
      assert forall k :: k in keys <==> k == keys[0] || k in keys[1..];
    }
  }

  /** An ascending list is determined by the set of its keys. */
  lemma {:induction false} AscendingUnique(a: seq<Text>, b: seq<Text>)
    requires Ascending(a) && Ascending(b) && forall k :: k in a <==> k in b
    ensures a == b
  {
    if b != [] { assert b[0] in a; }
    if a != [] {
      assert a[0] in a && b != [];
      assert b[0] in b;
      FirstIsLeast(a, b[0]);
      FirstIsLeast(b, a[0]);
      LessTotal(a[0], b[0]);
      assert a == [a[0]] + a[1..] && b == [b[0]] + b[1..];
      forall k ensures k in a[1..] <==> k in b[1..] {
        TailMembers(a, k);
        TailMembers(b, k);
      }
      AscendingUnique(a[1..], b[1..]);
    }
  }

  lemma FirstIsLeast(a: seq<Text>, k: Text)
    requires Ascending(a) && k in a
    ensures a[0] == k || Less(a[0], k)
  {
  }

  lemma TailMembers(a: seq<Text>, k: Text)
    requires Ascending(a) && a != []
    ensures k in a[1..] <==> k in a && k != a[0]
  {
    LessTotal(a[0], a[0]);
    if k in a[1..] {
      var i :| 0 <= i < |a[1..]| && a[1..][i] == k;
      assert Less(a[0], a[i + 1]);
    }
    assert a == [a[0]] + a[1..];
  }

  /** The keys of a valid object in printing order. */
  lemma ObjectKeys(fields: seq<Field>)
    requires DistinctKeys(fields)
    ensures Ascending(Sorted(KeysOf(fields)))
    ensures forall k :: k in Sorted(KeysOf(fields)) <==> k in KeySet(fields)
  {
    SortedAscending(KeysOf(fields));
    forall k ensures k in KeysOf(fields) <==> k in KeySet(fields) {
      if k in KeysOf(fields) {
        var i :| 0 <= i < |fields| && KeysOf(fields)[i] == k;
        assert fields[i] in fields && fields[i].key == k;
      }
      if k in KeySet(fields) {
        var f :| f in fields && f.key == k;
        var i :| 0 <= i < |fields| && fields[i] == f;
        assert KeysOf(fields)[i] == k;
      }
    }
  }

  // ---------------------------------------------------------------------------------------------
  // Unique readability

  datatype Kind = KNull | KBool | KNum | KStr | KArr | KObj

  function KindOf(v: Json): Kind {
    match v
    case Null => KNull
    case Bool(_) => KBool
    case Num(_) => KNum
    case Str(_) => KStr
    case Arr(_) => KArr
    case Obj(_) => KObj
  }

  /** A printed value starts with a character that tells its kind, and never with a closing bracket. */
  lemma FirstChar(v: Json)
    requires Valid(v)
    ensures Print(v) != []
    ensures
      var c := Print(v)[0];
      match v
      case Null => c == 0x6E
      case Bool(b) => c == if b then 0x74 else 0x66
      case Num(_) => Digit(c) || c == 0x2D
      case Str(_) => c == QUOTE
      case Arr(_) => c == LBRACKET
      case Obj(_) => c == LBRACE
  {
  }

  /** If two printed values, each followed by something that ends it, read the same, they are the same. */
  lemma {:induction false} ReadUnique(a: Json, b: Json, x: Text, y: Text)
    requires Valid(a) && Valid(b) && Ends(x) && Ends(y)
    requires Print(a) + x == Print(b) + y
    ensures Same(a, b) && x == y
    decreases a, 1
  {
    FirstChar(a);
    FirstChar(b);
    assert Print(a)[0] == (Print(a) + x)[0] == (Print(b) + y)[0] == Print(b)[0];
    assert KindOf(a) == KindOf(b);
    match a
    case Null => Strip(NULL, NULL, x, y);
    case Bool(p) => Strip(Print(a), Print(b), x, y);
    case Num(t) => NumUnique(t, b.digits, x, y);
    case Str(s) => QuoteUnique(s, b.s, x, y);
    case Arr(items) =>
      Unwrap(LBRACKET, PrintItems(items), PrintItems(b.items), RBRACKET, x, y);
      ItemsUnique(items, b.items, x, y);
    case Obj(fields) =>
      var ks, ls := Sorted(KeysOf(fields)), Sorted(KeysOf(b.fields));
      Unwrap(LBRACE, PrintMembers(fields, ks), PrintMembers(b.fields, ls), RBRACE, x, y);
      ObjectKeys(fields);
      ObjectKeys(b.fields);
      MembersUnique(fields, b.fields, ks, ls, x, y);
      SameObjects(fields, b.fields, ks);
  }

  lemma Unwrap(open: nat, a: Text, b: Text, close: nat, x: Text, y: Text)
    requires [open] + a + [close] + x == [open] + b + [close] + y
    ensures a + ([close] + x) == b + ([close] + y)
  {
    assert [open] + a + [close] + x == [open] + (a + ([close] + x));
    assert [open] + b + [close] + y == [open] + (b + ([close] + y));
    Strip([open], [open], a + ([close] + x), b + ([close] + y));
  }

  /** What follows the first item of a printed array, up to and past its closing bracket. */
  function ItemsTail(xs: seq<Json>, x: Text): Text
    requires xs != []
  {
    if |xs| == 1 then [RBRACKET] + x else [COMMA] + ItemsText(xs[1..], x)
  }

  function ItemsText(xs: seq<Json>, x: Text): Text { PrintItems(xs) + ([RBRACKET] + x) }

  lemma ItemsSplit(xs: seq<Json>, x: Text)
    requires xs != [] && Valid(xs[0])
    ensures ItemsText(xs, x) == Print(xs[0]) + ItemsTail(xs, x)
    ensures Print(xs[0]) != [] && Print(xs[0])[0] != RBRACKET
    ensures Ends(ItemsTail(xs, x))
  {
    FirstChar(xs[0]);
    var first, tail, close := Print(xs[0]), ItemsRest(xs), [RBRACKET] + x;
    ItemsRestEnds(xs, close);
    Assoc(first, tail, close);
  }

  /** The printed array after its first item. */
  function ItemsRest(xs: seq<Json>): Text
    requires xs != []
  {
    if |xs| == 1 then [] else [COMMA] + PrintItems(xs[1..])
  }

  lemma ItemsRestEnds(xs: seq<Json>, close: Text)
    requires xs != []
    ensures ItemsRest(xs) + close == if |xs| == 1 then close else [COMMA] + (PrintItems(xs[1..]) + close)
  {
    if |xs| > 1 { Assoc([COMMA], PrintItems(xs[1..]), close); }
  }

  lemma {:induction false} ItemsUnique(xs: seq<Json>, ys: seq<Json>, x: Text, y: Text)
    requires forall i :: 0 <= i < |xs| ==> Valid(xs[i])
    requires forall i :: 0 <= i < |ys| ==> Valid(ys[i])
    requires ItemsText(xs, x) == ItemsText(ys, y)
    ensures |xs| == |ys| && (forall i :: 0 <= i < |xs| ==> Same(xs[i], ys[i])) && x == y
    decreases xs, 0
  {
    if xs != [] { ItemsSplit(xs, x); }
    if ys != [] { ItemsSplit(ys, y); }
    assert ItemsText(xs, x)[0] == ItemsText(ys, y)[0];
    if xs == [] || ys == [] {
      assert ItemsText([], x) == [RBRACKET] + x && ItemsText([], y) == [RBRACKET] + y;
      Strip([RBRACKET], [RBRACKET], x, y);
    } else {
      ReadUnique(xs[0], ys[0], ItemsTail(xs, x), ItemsTail(ys, y));
      assert ItemsTail(xs, x)[0] == ItemsTail(ys, y)[0];
      if |xs| == 1 {
        Strip([RBRACKET], [RBRACKET], x, y);
      } else {
        Strip([COMMA], [COMMA], ItemsText(xs[1..], x), ItemsText(ys[1..], y));
        ItemsUnique(xs[1..], ys[1..], x, y);
        assert forall i :: 0 < i < |xs| ==> xs[i] == xs[1..][i - 1] && ys[i] == ys[1..][i - 1];
      }
    }
  }

  /** What follows the first key of a printed object, up to and past its closing brace. */
  function MembersTail(fs: seq<Field>, ks: seq<Text>, x: Text): Text
    requires ks != []
  {
    if |ks| == 1 then [RBRACE] + x else [COMMA] + MembersText(fs, ks[1..], x)
  }

  function MembersText(fs: seq<Field>, ks: seq<Text>, x: Text): Text { PrintMembers(fs, ks) + ([RBRACE] + x) }

  /** The printed object after its first member. */
  function MembersRest(fs: seq<Field>, ks: seq<Text>): Text
    requires ks != []
  {
    if |ks| == 1 then [] else [COMMA] + PrintMembers(fs, ks[1..])
  }

  lemma MembersRestEnds(fs: seq<Field>, ks: seq<Text>, close: Text)
    requires ks != []
    ensures MembersRest(fs, ks) + close == if |ks| == 1 then close else [COMMA] + (PrintMembers(fs, ks[1..]) + close)
  {
    if |ks| > 1 { Assoc([COMMA], PrintMembers(fs, ks[1..]), close); }
  }

  lemma Assoc4(a: Text, b: Text, c: Text, d: Text, e: Text)
    ensures (a + b + c + d) + e == a + (b + (c + (d + e)))
  {
  }

  lemma MembersSplit(fs: seq<Field>, ks: seq<Text>, x: Text)
    requires ks != [] && ks[0] in KeySet(fs)
    ensures MembersText(fs, ks, x) == Quote(ks[0]) + ([COLON] + (Print(Member(fs, ks[0])) + MembersTail(fs, ks, x)))
    ensures Quote(ks[0])[0] == QUOTE
    ensures Ends(MembersTail(fs, ks, x))
  {
    var name, value, rest, close := Quote(ks[0]), Print(Member(fs, ks[0])), MembersRest(fs, ks), [RBRACE] + x;
    MembersRestEnds(fs, ks, close);
    Assoc4(name, [COLON], value, rest, close);
  }

  lemma {:induction false} MembersUnique(fs: seq<Field>, gs: seq<Field>, ks: seq<Text>, ls: seq<Text>, x: Text, y: Text)
    requires (forall i :: 0 <= i < |fs| ==> Valid(fs[i].value)) && (forall i :: 0 <= i < |gs| ==> Valid(gs[i].value))
    requires (forall k :: k in ks ==> k in KeySet(fs)) && (forall k :: k in ls ==> k in KeySet(gs))
    requires MembersText(fs, ks, x) == MembersText(gs, ls, y)
    ensures ks == ls && (forall k :: k in ks ==> Same(Member(fs, k), Member(gs, k))) && x == y
    decreases fs, 0, |ks|
  {
    hide MembersText, Same, Valid, KeySet, Member;
    if ks == [] || ls == [] {
      MembersEmpty(fs, gs, ks, ls, x, y);
    } else {
      FirstMemberUnique(fs, gs, ks, ls, x, y);
      if |ks| == 1 {
        Strip([RBRACE], [RBRACE], x, y);
        assert ks == ls == [ks[0]];
      } else {
        Strip([COMMA], [COMMA], MembersText(fs, ks[1..], x), MembersText(gs, ls[1..], y));
        MembersUnique(fs, gs, ks[1..], ls[1..], x, y);
        assert ks == [ks[0]] + ks[1..] && ls == [ls[0]] + ls[1..];
      }
    }
  }

  lemma MembersEmpty(fs: seq<Field>, gs: seq<Field>, ks: seq<Text>, ls: seq<Text>, x: Text, y: Text)
    requires (forall k :: k in ks ==> k in KeySet(fs)) && (forall k :: k in ls ==> k in KeySet(gs))
    requires MembersText(fs, ks, x) == MembersText(gs, ls, y)
    requires ks == [] || ls == []
    ensures ks == ls && x == y
  {
    if ks != [] { MembersSplit(fs, ks, x); }
    if ls != [] { MembersSplit(gs, ls, y); }
    assert MembersText(fs, ks, x)[0] == MembersText(gs, ls, y)[0];
    assert MembersText(fs, [], x) == [RBRACE] + x && MembersText(gs, [], y) == [RBRACE] + y;
    Strip([RBRACE], [RBRACE], x, y);
  }

  lemma {:induction false} FirstMemberUnique(fs: seq<Field>, gs: seq<Field>, ks: seq<Text>, ls: seq<Text>, x: Text, y: Text)
    requires (forall i :: 0 <= i < |fs| ==> Valid(fs[i].value)) && (forall i :: 0 <= i < |gs| ==> Valid(gs[i].value))
    requires ks != [] && ls != [] && ks[0] in KeySet(fs) && ls[0] in KeySet(gs)
    requires MembersText(fs, ks, x) == MembersText(gs, ls, y)
    ensures ks[0] == ls[0] && Same(Member(fs, ks[0]), Member(gs, ls[0]))
    ensures MembersTail(fs, ks, x) == MembersTail(gs, ls, y) && (|ks| == 1 <==> |ls| == 1)
    decreases fs, 0, 0
  {
    MembersSplit(fs, ks, x);
    MembersSplit(gs, ls, y);
    var i, j := Position(fs, ks[0]), Position(gs, ls[0]);
    MemberUnique(ks[0], ls[0], fs[i].value, gs[j].value, MembersTail(fs, ks, x), MembersTail(gs, ls, y));
    assert MembersTail(fs, ks, x)[0] == MembersTail(gs, ls, y)[0];
  }

  lemma {:induction false} MemberUnique(k: Text, l: Text, v: Json, w: Json, x: Text, y: Text)
    requires Valid(v) && Valid(w) && Ends(x) && Ends(y)
    requires Quote(k) + ([COLON] + (Print(v) + x)) == Quote(l) + ([COLON] + (Print(w) + y))
    ensures k == l && Same(v, w) && x == y
    decreases v, 2
  {
    QuoteUnique(k, l, [COLON] + (Print(v) + x), [COLON] + (Print(w) + y));
    Strip([COLON], [COLON], Print(v) + x, Print(w) + y);
    ReadUnique(v, w, x, y);
  }

  /** Objects with the same keys and the same members are the same. */
  lemma SameObjects(fs: seq<Field>, gs: seq<Field>, ks: seq<Text>)
    requires DistinctKeys(fs)
    requires forall k :: k in ks <==> k in KeySet(fs)
    requires forall k :: k in ks <==> k in KeySet(gs)
    requires forall k :: k in ks ==> Same(Member(fs, k), Member(gs, k))
    ensures Same(Obj(fs), Obj(gs))
  {
    forall i | 0 <= i < |fs| ensures fs[i].key in KeySet(gs) && Same(fs[i].value, Member(gs, fs[i].key)) {
      assert fs[i].key in KeySet(fs);
      assert Position(fs, fs[i].key) == i;
    }
  }

  // ---------------------------------------------------------------------------------------------
  // Canonicity

  lemma {:induction false} SamePrints(a: Json, b: Json)
    requires Valid(a) && Valid(b) && Same(a, b)
    ensures Print(a) == Print(b)
    decreases a, 1
  {
    match (a, b)
    case (Arr(xs), Arr(ys)) => SameItemsPrint(xs, ys);
    case (Obj(fs), Obj(gs)) =>
      ObjectKeys(fs);
      ObjectKeys(gs);
      AscendingUnique(Sorted(KeysOf(fs)), Sorted(KeysOf(gs)));
      SameMembersPrint(fs, gs, Sorted(KeysOf(fs)));
    case _ =>
  }

  lemma {:induction false} SameItemsPrint(xs: seq<Json>, ys: seq<Json>)
    requires |xs| == |ys|
    requires forall i :: 0 <= i < |xs| ==> Valid(xs[i]) && Valid(ys[i]) && Same(xs[i], ys[i])
    ensures PrintItems(xs) == PrintItems(ys)
    decreases xs, 0
  {
    if xs != [] {
      SamePrints(xs[0], ys[0]);
      SameItemsPrint(xs[1..], ys[1..]);
    }
  }

  lemma {:induction false} SameMembersPrint(fs: seq<Field>, gs: seq<Field>, ks: seq<Text>)
    requires Valid(Obj(fs)) && Valid(Obj(gs)) && Same(Obj(fs), Obj(gs))
    ensures PrintMembers(fs, ks) == PrintMembers(gs, ks)
    decreases fs, 0, |ks|
  {
    if ks != [] && ks[0] in KeySet(fs) {
      var i := Position(fs, ks[0]);
      SamePrints(fs[i].value, Member(gs, ks[0]));
      SameMembersPrint(fs, gs, ks[1..]);
    }
  }

  /**
   * Two JSON values print the same text exactly when they are equal up to object key order: the
   * comparison of printed requests accepts exactly the same request.
   */
  lemma PrintsSameIffSame(a: Json, b: Json)
    requires Valid(a) && Valid(b)
    ensures Print(a) == Print(b) <==> Same(a, b)
  {
    if Print(a) == Print(b) { ReadUnique(a, b, [], []); }
    if Same(a, b) { SamePrints(a, b); }
  }

  lemma {:induction false} SameReflexive(a: Json)
    requires Valid(a)
    ensures Same(a, a)
  {
    ReadUnique(a, a, [], []);
  }

  /** Reordering the fields of an object, however deep its values, gives the same request. */
  lemma ReorderedIsSame(fs: seq<Field>, gs: seq<Field>)
    requires Valid(Obj(fs)) && multiset(fs) == multiset(gs)
    ensures Same(Obj(fs), Obj(gs))
  {
    assert forall f :: f in fs <==> f in multiset(fs);
    assert forall f :: f in gs <==> f in multiset(gs);
    assert KeySet(fs) == KeySet(gs);
    forall i | 0 <= i < |fs| ensures fs[i].key in KeySet(gs) && Same(fs[i].value, Member(gs, fs[i].key)) {
      assert fs[i].key in KeySet(fs);
      var g := gs[Position(gs, fs[i].key)];
      assert g in gs && g in fs;
      var j :| 0 <= j < |fs| && fs[j] == g;
      assert i == j;
      SameReflexive(fs[i].value);
    }
  }
}
