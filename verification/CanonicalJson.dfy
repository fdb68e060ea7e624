/**
 * The request fingerprint of the intent API: `JSON.stringify(canonicalize(value))`.
 *
 * Strings are sequences of UTF-16 code units, as in JavaScript. A number is represented by the
 * decimal text the runtime prints for it. An object is its members in creation order.
 */
module CanonicalJson {
  import opened Prelude
  import opened Sorting
  import opened Characters

  type Unit = c: int | 0 <= c < 0x1_0000
  type Text = seq<Unit>

  datatype Value =
    | Null
    | Bool(b: bool)
    | Number(lexeme: Text)
    | Str(s: Text)
    | Arr(items: seq<Value>)
    | Obj(members: seq<Member>)

  datatype Member = Member(key: Text, val: Value)

  const QUOTE: Unit := 34
  const COMMA: Unit := 44
  const COLON: Unit := 58
  const LBRACKET: Unit := 91
  const BACKSLASH: Unit := 92
  const RBRACKET: Unit := 93
  const LBRACE: Unit := 123
  const RBRACE: Unit := 125

  predicate IsDigit(c: Unit) { 48 <= c <= 57 }

  /** Digits, sign, point and exponent marker; starts with a digit or a minus sign. */
  predicate IsNumeral(t: Text) {
    && t != [] && (IsDigit(t[0]) || t[0] == 45)
    && forall i :: 0 <= i < |t| ==> IsDigit(t[i]) || t[i] in {43, 45, 46, 101}
  }

  function Keys(ms: seq<Member>): (ks: seq<Text>)
    ensures |ks| == |ms| && forall i :: 0 <= i < |ms| ==> ks[i] == ms[i].key
  {
    seq(|ms|, i requires 0 <= i < |ms| => ms[i].key)
  }

  /** What `JSON.parse` produces: numerals, and objects whose keys are distinct. */
  ghost predicate WellFormed(v: Value) {
    match v
    case Number(t) => IsNumeral(t)
    case Arr(xs) => forall i :: 0 <= i < |xs| ==> WellFormed(xs[i])
    case Obj(ms) => Distinct(Keys(ms)) && forall i :: 0 <= i < |ms| ==> WellFormed(ms[i].val)
    case _ => true
  }

  function IndexOf(ms: seq<Member>, k: Text): (i: nat)
    requires k in Keys(ms)
    ensures i < |ms| && ms[i].key == k
  {
    if ms[0].key == k then 0 else
      assert Keys(ms)[1..] == Keys(ms[1..]);
      1 + IndexOf(ms[1..], k)
  }

  // ---------------------------------------------------------------- meaning

  /**
   * A JSON value with objects as unordered collections of name/value pairs
   * (section 4 of RFC 8259): equal meanings are equality up to member order at every depth.
   */
  datatype Meaning =
    | MNull
    | MBool(b: bool)
    | MNumber(lexeme: Text)
    | MStr(s: Text)
    | MArr(items: seq<Meaning>)
    | MObj(fields: map<Text, Meaning>)

  function MeaningOf(v: Value): Meaning {
    match v
    case Null => MNull
    case Bool(b) => MBool(b)
    case Number(t) => MNumber(t)
    case Str(s) => MStr(s)
    case Arr(xs) => MArr(seq(|xs|, i requires 0 <= i < |xs| => MeaningOf(xs[i])))
    case Obj(ms) => MObj(map k | k in Keys(ms) :: MeaningOf(ms[IndexOf(ms, k)].val))
  }

  // ---------------------------------------------------------------- canonicalize

  /** `CodeUnits` is `Object.keys(record).sort()`; `OwnKeys` is the order the runtime enumerates
      the properties of an object in. */
  datatype Order = CodeUnits | OwnKeys

  predicate TextLe(a: Text, b: Text) { LexLe(a, b) }

  const MAX_ARRAY_INDEX := 0xFFFF_FFFE

  predicate IsArrayIndex(k: Text) {
    && k != [] && (forall i :: 0 <= i < |k| ==> IsDigit(k[i]))
    && (k[0] == 48 ==> |k| == 1)
    && DecimalValue(k) <= MAX_ARRAY_INDEX
  }

  predicate NotArrayIndex(k: Text) { !IsArrayIndex(k) }

  predicate IndexLe(a: Text, b: Text) { DecimalValue(a) <= DecimalValue(b) }

  lemma {:induction false} PartitionMultiset(ks: seq<Text>)
    ensures multiset(Filter(ks, IsArrayIndex)) + multiset(Filter(ks, NotArrayIndex)) == multiset(ks)
  {
    if ks != [] {
      var front, last := ks[..|ks| - 1], ks[|ks| - 1];
      assert ks == front + [last];
      PartitionMultiset(front);
      FilterAppend(front, last, IsArrayIndex);
      FilterAppend(front, last, NotArrayIndex);
    }
  }

  /** Array indices come first, in numeric order; the other keys keep their order. */
  function OwnOrder(ks: seq<Text>): (r: seq<Text>)
    ensures multiset(r) == multiset(ks) && |r| == |ks|
  {
    PartitionMultiset(ks);
    var r := Sort(Filter(ks, IsArrayIndex), IndexLe) + Filter(ks, NotArrayIndex);
    assert |r| == |multiset(r)| == |multiset(ks)| == |ks|;
    r
  }

  function Ordered(o: Order, ks: seq<Text>): (r: seq<Text>)
    ensures multiset(r) == multiset(ks) && |r| == |ks|
  {
    match o
    case CodeUnits => Sort(ks, TextLe)
    case OwnKeys => OwnOrder(ks)
  }

  function Reorder(o: Order, v: Value): Value {
    match v
    case Arr(xs) => Arr(seq(|xs|, i requires 0 <= i < |xs| => Reorder(o, xs[i])))
    case Obj(ms) =>
      var ks := Ordered(o, Keys(ms));
      assert forall i :: 0 <= i < |ks| ==> ks[i] in multiset(Keys(ms));
      Obj(seq(|ks|, i requires 0 <= i < |ks| => Member(ks[i], Reorder(o, ms[IndexOf(ms, ks[i])].val))))
    case _ => v
  }

  function Canonicalize(v: Value): Value { Reorder(CodeUnits, v) }

  lemma OrderedKnown(o: Order, ks: seq<Text>, i: nat)
    requires i < |Ordered(o, ks)|
    ensures Ordered(o, ks)[i] in ks
  {
    assert Ordered(o, ks)[i] in multiset(Ordered(o, ks));
  }

  lemma ReorderObj(o: Order, ms: seq<Member>)
    ensures Reorder(o, Obj(ms)).Obj? && Keys(Reorder(o, Obj(ms)).members) == Ordered(o, Keys(ms))
    ensures var ns := Reorder(o, Obj(ms)).members;
            forall i :: 0 <= i < |ns| ==>
              ns[i].key in Keys(ms) && ns[i].val == Reorder(o, ms[IndexOf(ms, ns[i].key)].val)
  {
    var ns := Reorder(o, Obj(ms)).members;
    forall i | 0 <= i < |ns| ensures ns[i].key in Keys(ms) {
      OrderedKnown(o, Keys(ms), i);
    }
  }

  /** Reordering members, by either order, keeps well-formedness and meaning. */
  lemma {:induction false} ReorderMeaning(o: Order, v: Value)
    requires WellFormed(v)
    ensures WellFormed(Reorder(o, v)) && MeaningOf(Reorder(o, v)) == MeaningOf(v)
  {
    match v
    case Arr(xs) =>
      forall i | 0 <= i < |xs| { ReorderMeaning(o, xs[i]); }
      assert MeaningOf(Reorder(o, v)).items == MeaningOf(v).items;
    case Obj(ms) =>
      forall i | 0 <= i < |ms|
        ensures WellFormed(Reorder(o, ms[i].val)) && MeaningOf(Reorder(o, ms[i].val)) == MeaningOf(ms[i].val)
      {
        ReorderMeaning(o, ms[i].val);
      }
      ReorderObj(o, ms);
      SameFields(o, ms, Reorder(o, v).members);
    case _ =>
  }

  lemma SameFields(o: Order, ms: seq<Member>, ns: seq<Member>)
    requires Distinct(Keys(ms)) && multiset(Keys(ns)) == multiset(Keys(ms))
    requires forall i :: 0 <= i < |ns| ==>
      ns[i].key in Keys(ms) && MeaningOf(ns[i].val) == MeaningOf(ms[IndexOf(ms, ns[i].key)].val)
    ensures Distinct(Keys(ns)) && MeaningOf(Obj(ns)) == MeaningOf(Obj(ms))
  {
    DistinctRearranged(Keys(ms), Keys(ns));
    assert MeaningOf(Obj(ns)).fields == MeaningOf(Obj(ms)).fields;
  }

  /** Values of equal meaning have the same canonical form. */
  lemma {:induction false} MeaningFixesCanonical(a: Value, b: Value)
    requires WellFormed(a) && WellFormed(b) && MeaningOf(a) == MeaningOf(b)
    ensures Canonicalize(a) == Canonicalize(b)
  {
    match a
    case Arr(xs) =>
      var ys := b.items;
      forall i | 0 <= i < |xs| ensures Canonicalize(xs[i]) == Canonicalize(ys[i]) {
        assert MeaningOf(a).items[i] == MeaningOf(b).items[i];
        MeaningFixesCanonical(xs[i], ys[i]);
      }
      assert Canonicalize(a).items == Canonicalize(b).items;
    case Obj(ms) =>
      var ns := b.members;
      SameKeys(ms, ns);
      forall k | k in Keys(ms)
        ensures Canonicalize(ms[IndexOf(ms, k)].val) == Canonicalize(ns[IndexOf(ns, k)].val)
      {
        assert MeaningOf(a).fields[k] == MeaningOf(b).fields[k];
        MeaningFixesCanonical(ms[IndexOf(ms, k)].val, ns[IndexOf(ns, k)].val);
      }
      CanonicalMembers(ms, ns);
    case _ =>
  }

  lemma CanonicalMembers(ms: seq<Member>, ns: seq<Member>)
    requires forall k :: k in Keys(ms) <==> k in Keys(ns)
    requires Ordered(CodeUnits, Keys(ms)) == Ordered(CodeUnits, Keys(ns))
    requires forall k :: k in Keys(ms) ==>
      Canonicalize(ms[IndexOf(ms, k)].val) == Canonicalize(ns[IndexOf(ns, k)].val)
    ensures Canonicalize(Obj(ms)) == Canonicalize(Obj(ns))
  {
    ReorderObj(CodeUnits, ms);
    ReorderObj(CodeUnits, ns);
    var xs, ys := Canonicalize(Obj(ms)).members, Canonicalize(Obj(ns)).members;
    assert |xs| == |Keys(xs)| == |Keys(ys)| == |ys|;
    forall i | 0 <= i < |xs| ensures xs[i] == ys[i] {
      assert xs[i].key == Keys(xs)[i] == Keys(ys)[i] == ys[i].key;
    }
  }

  lemma TextOrder()
    ensures TotalPreorder(TextLe) && Antisymmetric(TextLe)
  {
    forall x: Text, y: Text ensures TextLe(x, y) || TextLe(y, x) { LexTotal(x, y); }
    forall x: Text, y: Text, z: Text | TextLe(x, y) && TextLe(y, z) ensures TextLe(x, z) { LexTransitive(x, y, z); }
    forall x: Text, y: Text | TextLe(x, y) && TextLe(y, x) ensures x == y { LexAntisymmetric(x, y); }
  }

  lemma SameElementsSameMultiset(ks: seq<Text>, ls: seq<Text>)
    requires Distinct(ks) && Distinct(ls) && forall k :: k in ks <==> k in ls
    ensures multiset(ks) == multiset(ls)
  {
    DistinctMultiplicity(ks);
    DistinctMultiplicity(ls);
    forall k: Text ensures multiset(ks)[k] == multiset(ls)[k] {
      assert k in ks <==> k in multiset(ks);
      assert k in ls <==> k in multiset(ls);
    }
  }

  lemma SameKeys(ms: seq<Member>, ns: seq<Member>)
    requires Distinct(Keys(ms)) && Distinct(Keys(ns))
    requires MeaningOf(Obj(ms)) == MeaningOf(Obj(ns))
    ensures forall k :: k in Keys(ms) <==> k in Keys(ns)
    ensures Ordered(CodeUnits, Keys(ms)) == Ordered(CodeUnits, Keys(ns))
  {
    forall k: Text ensures k in Keys(ms) <==> k in Keys(ns) {
      assert k in MeaningOf(Obj(ms)).fields <==> k in Keys(ms);
      assert k in MeaningOf(Obj(ns)).fields <==> k in Keys(ns);
    }
    SameElementsSameMultiset(Keys(ms), Keys(ns));
    TextOrder();
    SortCanonical(Keys(ms), Keys(ns), TextLe);
  }

  /** The members of a canonical object are in the order of their names' code units. */
  lemma CanonicalKeysSorted(ms: seq<Member>)
    ensures Canonicalize(Obj(ms)).Obj? && Sorted(Keys(Canonicalize(Obj(ms)).members), TextLe)
    ensures multiset(Keys(Canonicalize(Obj(ms)).members)) == multiset(Keys(ms))
  {
    ReorderObj(CodeUnits, ms);
    TextOrder();
    SortSorted(Keys(ms), TextLe);
  }

  // ---------------------------------------------------------------- JSON.stringify

  predicate IsLead(c: Unit) { 0xD800 <= c < 0xDC00 }
  predicate IsTrail(c: Unit) { 0xDC00 <= c < 0xE000 }

  function HexDigit(n: int): Unit
    requires 0 <= n < 16
  {
    if n < 10 then 48 + n else 87 + n
  }

  function Unicode(c: Unit): Text {
    [BACKSLASH, 117, HexDigit(c / 16 / 16 / 16), HexDigit(c / 16 / 16 % 16), HexDigit(c / 16 % 16), HexDigit(c % 16)]
  }

  /** How one code unit outside a surrogate pair is written inside quotes. */
  function EscapeUnit(c: Unit): Text {
    if c == QUOTE || c == BACKSLASH then [BACKSLASH, c]
    else if c == 8 then [BACKSLASH, 98]
    else if c == 9 then [BACKSLASH, 116]
    else if c == 10 then [BACKSLASH, 110]
    else if c == 12 then [BACKSLASH, 102]
    else if c == 13 then [BACKSLASH, 114]
    else if c < 32 || IsLead(c) || IsTrail(c) then Unicode(c)
    else [c]
  }

  predicate StartsPair(s: Text) { |s| >= 2 && IsLead(s[0]) && IsTrail(s[1]) }

  /** Surrogate pairs are written as they are, lone surrogates as escapes. */
  function Escape(s: Text): Text {
    if s == [] then []
    else if StartsPair(s) then s[..2] + Escape(s[2..])
    else EscapeUnit(s[0]) + Escape(s[1..])
  }

  function Quote(s: Text): Text { [QUOTE] + Escape(s) + [QUOTE] }

  /** Prints objects in the member order given. */
  function Show(v: Value): Text
    decreases v
  {
    match v
    case Null => [110, 117, 108, 108]
    case Bool(b) => if b then [116, 114, 117, 101] else [102, 97, 108, 115, 101]
    case Number(t) => t
    case Str(s) => Quote(s)
    case Arr(xs) =>
      if xs == [] then [LBRACKET, RBRACKET]
      else [LBRACKET] + Show(xs[0]) + ShowItems(xs[1..])
    case Obj(ms) =>
      if ms == [] then [LBRACE, RBRACE]
      else [LBRACE] + ShowMember(ms[0]) + ShowMembers(ms[1..])
  }

  /** The items after the first, each behind its comma, and the closing bracket. */
  function ShowItems(xs: seq<Value>): Text
    decreases xs
  {
    if xs == [] then [RBRACKET] else [COMMA] + Show(xs[0]) + ShowItems(xs[1..])
  }

  function ShowMembers(ms: seq<Member>): Text
    decreases ms
  {
    if ms == [] then [RBRACE]
    else [COMMA] + ShowMember(ms[0]) + ShowMembers(ms[1..])
  }

  function ShowMember(m: Member): Text
    decreases m
  {
    Quote(m.key) + [COLON] + Show(m.val)
  }

  /** `JSON.stringify`: members are printed in the order the runtime enumerates them. */
  function Stringify(v: Value): Text { Show(Reorder(OwnKeys, v)) }

  /** The text the fingerprint hash is taken of. */
  function FingerprintText(v: Value): Text { Stringify(Canonicalize(v)) }

  // ---------------------------------------------------------------- unique readability

  /** A value's text is followed by nothing or by a separator or closer. */
  predicate Ends(r: Text) { r == [] || r[0] in {COMMA, RBRACKET, RBRACE} }

  lemma Assoc(x: Text, y: Text, z: Text)
    ensures x + y + z == x + (y + z)
  {
  }

  lemma Cancel(x: Text, y: Text, r: Text, q: Text)
    requires |x| == |y| && x + r == y + q
    ensures x == y && r == q
  {
    assert x == (x + r)[..|x|] && y == (y + q)[..|y|];
    assert r == (x + r)[|x|..] && q == (y + q)[|y|..];
  }

  lemma Overlap(x: Text, y: Text, r: Text, q: Text)
    requires |x| < |y| && x + r == y + q
    ensures r != [] && r[0] == y[|x|]
  {
    assert |x + r| == |y + q|;
    assert (x + r)[|x|] == (y + q)[|x|];
  }

  lemma UnicodeInjective(c: Unit, d: Unit)
    requires Unicode(c) == Unicode(d)
    ensures c == d
  {
    var x, y := Unicode(c), Unicode(d);
    assert x[2] == y[2] && x[3] == y[3] && x[4] == y[4] && x[5] == y[5];
    assert c / 16 / 16 == d / 16 / 16;
    assert c / 16 == d / 16;
  }

  lemma EscapeUnitInjective(c: Unit, d: Unit)
    requires EscapeUnit(c) == EscapeUnit(d)
    ensures c == d
  {
    var x, y := EscapeUnit(c), EscapeUnit(d);
    if |x| == 6 {
      UnicodeInjective(c, d);
    } else {
      assert x[|x| - 1] == y[|y| - 1];
    }
  }

  lemma EscapeUnitReadable(c: Unit, d: Unit, r: Text, q: Text)
    requires EscapeUnit(c) + r == EscapeUnit(d) + q
    ensures c == d && r == q
  {
    var x, y := EscapeUnit(c), EscapeUnit(d);
    assert (x + r)[0] == x[0] && (y + q)[0] == y[0];
    if |x| > 1 && |y| > 1 {
      assert (x + r)[1] == x[1] && (y + q)[1] == y[1];
    }
    Cancel(x, y, r, q);
    EscapeUnitInjective(c, d);
  }

  lemma EscapeFirst(s: Text)
    requires s != []
    ensures Escape(s) != [] && Escape(s)[0] != QUOTE
    ensures StartsPair(s) <==> IsLead(Escape(s)[0])
  {
  }

  lemma PairReadable(s: Text, t: Text, r: Text, q: Text)
    requires s != [] && t != [] && Escape(s) + r == Escape(t) + q && StartsPair(s)
    ensures StartsPair(t) && s[..2] == t[..2] && Escape(s[2..]) + r == Escape(t[2..]) + q
  {
    EscapeFirst(s);
    EscapeFirst(t);
    assert StartsPair(t) by { assert (Escape(s) + r)[0] == (Escape(t) + q)[0]; }
    Assoc(s[..2], Escape(s[2..]), r);
    Assoc(t[..2], Escape(t[2..]), q);
    Cancel(s[..2], t[..2], Escape(s[2..]) + r, Escape(t[2..]) + q);
  }

  lemma UnitReadable(s: Text, t: Text, r: Text, q: Text)
    requires s != [] && t != [] && Escape(s) + r == Escape(t) + q && !StartsPair(s)
    ensures !StartsPair(t) && s[0] == t[0] && Escape(s[1..]) + r == Escape(t[1..]) + q
  {
    EscapeFirst(s);
    EscapeFirst(t);
    assert !StartsPair(t) by { assert (Escape(s) + r)[0] == (Escape(t) + q)[0]; }
    Assoc(EscapeUnit(s[0]), Escape(s[1..]), r);
    Assoc(EscapeUnit(t[0]), Escape(t[1..]), q);
    EscapeUnitReadable(s[0], t[0], Escape(s[1..]) + r, Escape(t[1..]) + q);
  }

  lemma {:induction false} EscapeReadable(s: Text, t: Text, r: Text, q: Text)
    requires Escape(s) + ([QUOTE] + r) == Escape(t) + ([QUOTE] + q)
    ensures s == t && r == q
  {
    var x, y := Escape(s) + ([QUOTE] + r), Escape(t) + ([QUOTE] + q);
    if s == [] || t == [] {
      assert x[0] == y[0];
      if s != [] { EscapeFirst(s); }
      if t != [] { EscapeFirst(t); }
      assert r == x[1..] && q == y[1..];
    } else if StartsPair(s) {
      PairReadable(s, t, [QUOTE] + r, [QUOTE] + q);
      EscapeReadable(s[2..], t[2..], r, q);
      assert s == s[..2] + s[2..] && t == t[..2] + t[2..];
    } else {
      UnitReadable(s, t, [QUOTE] + r, [QUOTE] + q);
      EscapeReadable(s[1..], t[1..], r, q);
      assert s == [s[0]] + s[1..] && t == [t[0]] + t[1..];
    }
  }

  lemma QuoteReadable(s: Text, t: Text, r: Text, q: Text)
    requires Quote(s) + r == Quote(t) + q
    ensures s == t && r == q
  {
    var x, y := Quote(s) + r, Quote(t) + q;
    assert x[1..] == Escape(s) + ([QUOTE] + r) && y[1..] == Escape(t) + ([QUOTE] + q);
    EscapeReadable(s, t, r, q);
  }

  lemma NumeralReadable(s: Text, t: Text, r: Text, q: Text)
    requires IsNumeral(s) && IsNumeral(t) && Ends(r) && Ends(q) && s + r == t + q
    ensures s == t && r == q
  {
    if |s| < |t| {
      Overlap(s, t, r, q);
      assert false;
    } else if |t| < |s| {
      Overlap(t, s, q, r);
      assert false;
    }
    Cancel(s, t, r, q);
  }

  /** The first code unit of a value's text tells its kind. */
  lemma FirstUnit(v: Value)
    requires WellFormed(v)
    ensures Show(v) != []
    ensures match v
            case Null => Show(v)[0] == 110
            case Bool(b) => Show(v)[0] == if b then 116 else 102
            case Number(_) => IsDigit(Show(v)[0]) || Show(v)[0] == 45
            case Str(_) => Show(v)[0] == QUOTE
            case Arr(_) => Show(v)[0] == LBRACKET
            case Obj(_) => Show(v)[0] == LBRACE
  {
  }

  /** No value's text continues into another's: reading is unambiguous. */
  lemma {:induction false} ShowReadable(a: Value, b: Value, r: Text, q: Text)
    requires WellFormed(a) && WellFormed(b) && Ends(r) && Ends(q)
    requires Show(a) + r == Show(b) + q
    ensures a == b && r == q
    decreases a
  {
    FirstUnit(a);
    FirstUnit(b);
    var x, y := Show(a) + r, Show(b) + q;
    assert x[0] == y[0];
    match a
    case Null => assert r == x[4..] && q == y[4..];
    case Bool(v) => assert r == x[if v then 4 else 5..] && q == y[if v then 4 else 5..];
    case Number(t) => NumeralReadable(t, b.lexeme, r, q);
    case Str(s) => QuoteReadable(s, b.s, r, q);
    case Arr(xs) => ArrReadable(xs, b.items, r, q);
    case Obj(ms) => ObjReadable(ms, b.members, r, q);
  }

  lemma {:induction false} ArrReadable(xs: seq<Value>, ys: seq<Value>, r: Text, q: Text)
    requires WellFormed(Arr(xs)) && WellFormed(Arr(ys))
    requires Show(Arr(xs)) + r == Show(Arr(ys)) + q
    ensures xs == ys && r == q
    decreases xs, 1
  {
    var x, y := Show(Arr(xs)) + r, Show(Arr(ys)) + q;
    assert x[1] == y[1];
    if xs != [] { FirstUnit(xs[0]); }
    if ys != [] { FirstUnit(ys[0]); }
    if xs == [] {
      assert ys == [];
      assert r == x[2..] && q == y[2..];
    } else {
      assert ys != [];
      AfterOpener(LBRACKET, Show(xs[0]), ShowItems(xs[1..]), r);
      AfterOpener(LBRACKET, Show(ys[0]), ShowItems(ys[1..]), q);
      ItemsAgree(xs, ys, r, q);
    }
  }

  lemma {:induction false} ItemsReadable(xs: seq<Value>, ys: seq<Value>, r: Text, q: Text)
    requires WellFormed(Arr(xs)) && WellFormed(Arr(ys))
    requires ShowItems(xs) + r == ShowItems(ys) + q
    ensures xs == ys && r == q
    decreases xs, 1
  {
    var x, y := ShowItems(xs) + r, ShowItems(ys) + q;
    assert x[0] == y[0];
    if xs == [] {
      assert r == x[1..] && q == y[1..];
    } else {
      assert ys != [];
      AfterOpener(COMMA, Show(xs[0]), ShowItems(xs[1..]), r);
      AfterOpener(COMMA, Show(ys[0]), ShowItems(ys[1..]), q);
      ItemsAgree(xs, ys, r, q);
    }
  }

  lemma {:induction false} ItemsAgree(xs: seq<Value>, ys: seq<Value>, r: Text, q: Text)
    requires xs != [] && ys != [] && WellFormed(Arr(xs)) && WellFormed(Arr(ys))
    requires Show(xs[0]) + (ShowItems(xs[1..]) + r) == Show(ys[0]) + (ShowItems(ys[1..]) + q)
    ensures xs == ys && r == q
    decreases xs, 0
  {
    ShowReadable(xs[0], ys[0], ShowItems(xs[1..]) + r, ShowItems(ys[1..]) + q);
    ItemsReadable(xs[1..], ys[1..], r, q);
    assert xs == [xs[0]] + xs[1..] && ys == [ys[0]] + ys[1..];
  }

  lemma {:induction false} MemberReadable(m: Member, n: Member, r: Text, q: Text)
    requires WellFormed(m.val) && WellFormed(n.val) && Ends(r) && Ends(q)
    requires ShowMember(m) + r == ShowMember(n) + q
    ensures m == n && r == q
    decreases m
  {
    MemberKeyReadable(m, n, r, q);
    ShowReadable(m.val, n.val, r, q);
  }

  lemma MemberKeyReadable(m: Member, n: Member, r: Text, q: Text)
    requires ShowMember(m) + r == ShowMember(n) + q
    ensures m.key == n.key && Show(m.val) + r == Show(n.val) + q
  {
    KeyReadable(m.key, n.key, Show(m.val), Show(n.val), r, q);
  }

  lemma KeyReadable(k: Text, l: Text, v: Text, w: Text, r: Text, q: Text)
    requires Quote(k) + [COLON] + v + r == Quote(l) + [COLON] + w + q
    ensures k == l && v + r == w + q
  {
    var r1, q1 := [COLON] + (v + r), [COLON] + (w + q);
    assert Quote(k) + r1 == Quote(k) + [COLON] + v + r;
    assert Quote(l) + q1 == Quote(l) + [COLON] + w + q;
    QuoteReadable(k, l, r1, q1);
    Cancel([COLON], [COLON], v + r, w + q);
  }

  lemma {:induction false} ObjReadable(ms: seq<Member>, ns: seq<Member>, r: Text, q: Text)
    requires forall i :: 0 <= i < |ms| ==> WellFormed(ms[i].val)
    requires forall i :: 0 <= i < |ns| ==> WellFormed(ns[i].val)
    requires Show(Obj(ms)) + r == Show(Obj(ns)) + q
    ensures ms == ns && r == q
    decreases ms, 1
  {
    var x, y := Show(Obj(ms)) + r, Show(Obj(ns)) + q;
    assert x[1] == y[1];
    if ms == [] {
      assert ns == [];
      assert r == x[2..] && q == y[2..];
    } else {
      assert ns != [];
      AfterOpener(LBRACE, ShowMember(ms[0]), ShowMembers(ms[1..]), r);
      AfterOpener(LBRACE, ShowMember(ns[0]), ShowMembers(ns[1..]), q);
      MembersAgree(ms, ns, r, q);
    }
  }

  lemma {:induction false} MembersReadable(ms: seq<Member>, ns: seq<Member>, r: Text, q: Text)
    requires forall i :: 0 <= i < |ms| ==> WellFormed(ms[i].val)
    requires forall i :: 0 <= i < |ns| ==> WellFormed(ns[i].val)
    requires ShowMembers(ms) + r == ShowMembers(ns) + q
    ensures ms == ns && r == q
    decreases ms, 1
  {
    var x, y := ShowMembers(ms) + r, ShowMembers(ns) + q;
    assert x[0] == y[0];
    if ms == [] {
      assert r == x[1..] && q == y[1..];
    } else {
      assert ns != [];
      AfterOpener(COMMA, ShowMember(ms[0]), ShowMembers(ms[1..]), r);
      AfterOpener(COMMA, ShowMember(ns[0]), ShowMembers(ns[1..]), q);
      MembersAgree(ms, ns, r, q);
    }
  }

  lemma AfterOpener(opener: Unit, first: Text, rest: Text, r: Text)
    ensures ([opener] + first + rest + r)[1..] == first + (rest + r)
  {
  }

  lemma {:induction false} MembersAgree(ms: seq<Member>, ns: seq<Member>, r: Text, q: Text)
    requires ms != [] && ns != []
    requires forall i :: 0 <= i < |ms| ==> WellFormed(ms[i].val)
    requires forall i :: 0 <= i < |ns| ==> WellFormed(ns[i].val)
    requires ShowMember(ms[0]) + (ShowMembers(ms[1..]) + r) == ShowMember(ns[0]) + (ShowMembers(ns[1..]) + q)
    ensures ms == ns && r == q
    decreases ms, 0
  {
    MemberReadable(ms[0], ns[0], ShowMembers(ms[1..]) + r, ShowMembers(ns[1..]) + q);
    MembersReadable(ms[1..], ns[1..], r, q);
    assert ms == [ms[0]] + ms[1..] && ns == [ns[0]] + ns[1..];
  }

  // ---------------------------------------------------------------- main results

  /** Two requests have the same fingerprint text exactly when they differ in member order only. */
  lemma {:induction false} FingerprintCharacterization(a: Value, b: Value)
    requires WellFormed(a) && WellFormed(b)
    ensures FingerprintText(a) == FingerprintText(b) <==> MeaningOf(a) == MeaningOf(b)
  {
    ReorderMeaning(CodeUnits, a);
    ReorderMeaning(CodeUnits, b);
    if FingerprintText(a) == FingerprintText(b) {
      var ca, cb := Canonicalize(a), Canonicalize(b);
      ReorderMeaning(OwnKeys, ca);
      ReorderMeaning(OwnKeys, cb);
      var x, y := Reorder(OwnKeys, ca), Reorder(OwnKeys, cb);
      assert Show(x) + [] == Show(x) && Show(y) + [] == Show(y);
      ShowReadable(x, y, [], []);
    }
    if MeaningOf(a) == MeaningOf(b) {
      MeaningFixesCanonical(a, b);
    }
  }

  lemma CanonicalizeIdempotent(v: Value)
    requires WellFormed(v)
    ensures Canonicalize(Canonicalize(v)) == Canonicalize(v)
  {
    ReorderMeaning(CodeUnits, v);
    MeaningFixesCanonical(Canonicalize(v), v);
  }
}
