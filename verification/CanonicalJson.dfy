/**
 `canonicalJson` of `src/canonical-json.ts`: one text for every way of writing
 down the same data.  The text grammar is that of RFC 8259 (sections 4 to 7).
 */
module CanonicalJson {
  import opened Wrappers
  import Sequences

  /** JavaScript values built from data; a number is given by its shortest decimal text. */
  datatype Value = Undefined | Null | Bool(b: bool) | Num(text: string) | Str(s: string) | Arr(items: seq<Value>)
    | Obj(members: seq<Member>)

  /** Own properties, in property order. */
  datatype Member = Member(key: string, value: Value)

  predicate DistinctKeys(ms: seq<Member>) {
    forall i, j | 0 <= i < j < |ms| :: ms[i].key != ms[j].key
  }

  /** Finite numbers, and objects with one property per key. */
  predicate IsData(v: Value) {
    match v
    case Num(text) => IsNumberText(text)
    case Arr(items) => forall i | 0 <= i < |items| :: IsData(items[i])
    case Obj(members) => DistinctKeys(members) && forall i | 0 <= i < |members| :: IsData(members[i].value)
    case _ => true
  }

  predicate IsNumberChar(c: char) {
    '0' <= c <= '9' || c in "+-.e"
  }

  predicate IsNumberText(text: string) {
    text != "" && ('0' <= text[0] <= '9' || text[0] == '-') && forall i | 0 <= i < |text| :: IsNumberChar(text[i])
  }

  // ----- `canonicalValue`

  /**
   The order of the keys: any total preorder, in which keys may tie; the property order of the
   engine is part of it.
   */
  type Order = (string, string) -> bool

  function Defined(ms: seq<Member>): seq<Member> {
    if ms == [] then [] else (if ms[0].value.Undefined? then [] else [ms[0]]) + Defined(ms[1..])
  }

  lemma {:induction false} DefinedKeeps(ms: seq<Member>)
    ensures forall x :: x in Defined(ms) <==> x in ms && !x.value.Undefined?
  {
    if ms != [] {
      DefinedKeeps(ms[1..]);
    }
  }

  function ByKey(le: Order): Sequences.Order<Member> {
    (a: Member, b: Member) => le(a.key, b.key)
  }

  function Ordered(ms: seq<Member>, le: Order): (sorted: seq<Member>)
    ensures forall x :: x in sorted <==> x in ms && !x.value.Undefined?
  {
    DefinedKeeps(ms);
    Sequences.SameMembers(Defined(ms), ByKey(le));
    Sequences.Sort(Defined(ms), ByKey(le))
  }

  /** `canonicalValue` */
  function Canonical(v: Value, le: Order): Value {
    match v
    case Arr(items) => Arr(seq(|items|, i requires 0 <= i < |items| => Canonical(items[i], le)))
    case Obj(members) =>
      var sorted := Ordered(members, le);
      Obj(seq(|sorted|, i requires 0 <= i < |sorted| =>
        assert sorted[i] in members;
        Member(sorted[i].key, Canonical(sorted[i].value, le))))
    case _ => v
  }

  // ----- `JSON.stringify`

  /** JSON data with members in order. */
  datatype Json = JNull | JBool(b: bool) | JNum(text: string) | JStr(s: string) | JArr(items: seq<Json>)
    | JObj(members: seq<JMember>)
  datatype JMember = JMember(key: string, value: Json)

  /** What is printed: undefined elements as null, undefined members not at all. */
  function Plain(v: Value): Json {
    match v
    case Undefined => JNull
    case Null => JNull
    case Bool(b) => JBool(b)
    case Num(text) => JNum(text)
    case Str(s) => JStr(s)
    case Arr(items) => JArr(seq(|items|, i requires 0 <= i < |items| => Plain(items[i])))
    case Obj(members) =>
      DefinedKeeps(members);
      var defined := Defined(members);
      JObj(seq(|defined|, i requires 0 <= i < |defined| =>
        assert defined[i] in members;
        JMember(defined[i].key, Plain(defined[i].value))))
  }

  function Hex(d: int): char
    requires 0 <= d < 16
  {
    "0123456789abcdef"[d]
  }

  function EscapeChar(c: char): string {
    if c == '"' then "\\\""
    else if c == '\\' then "\\\\"
    else if c == '\n' then "\\n"
    else if c == '\r' then "\\r"
    else if c == '\t' then "\\t"
    else if c as int == 8 then "\\b"
    else if c as int == 12 then "\\f"
    else if (c as int) < 32 then "\\u00" + [Hex(c as int / 16), Hex(c as int % 16)]
    else [c]
  }

  /** The escaped text up to and including the closing quote. */
  function QuoteRest(s: string): string {
    if s == "" then "\"" else EscapeChar(s[0]) + QuoteRest(s[1..])
  }

  function Print(j: Json): string {
    match j
    case JNull => "null"
    case JBool(b) => if b then "true" else "false"
    case JNum(text) => text
    case JStr(s) => "\"" + QuoteRest(s)
    case JArr(items) => "[" + PrintItems(items)
    case JObj(members) => "{" + PrintMembers(members)
  }

  /** Elements up to and including the closing bracket. */
  function PrintItems(items: seq<Json>): string {
    if items == [] then "]"
    else Print(items[0]) + if |items| == 1 then "]" else "," + PrintItems(items[1..])
  }

  function PrintMembers(members: seq<JMember>): string {
    if members == [] then "}"
    else PrintMember(members[0]) + if |members| == 1 then "}" else "," + PrintMembers(members[1..])
  }

  function PrintMember(m: JMember): string {
    "\"" + QuoteRest(m.key) + ":" + Print(m.value)
  }

  /** `canonicalJson`; the text of undefined is undefined. */
  function Text(v: Value, le: Order): Option<string> {
    if v.Undefined? then None else Some(Print(Plain(Canonical(v, le))))
  }

  // ----- The data behind a value

  /** Data with unordered members. */
  datatype Data = DNull | DBool(b: bool) | DNum(text: string) | DStr(s: string) | DArr(items: seq<Data>)
    | DObj(members: map<string, Data>)

  ghost function Meaning(v: Value): Data {
    match v
    case Undefined => DNull
    case Null => DNull
    case Bool(b) => DBool(b)
    case Num(text) => DNum(text)
    case Str(s) => DStr(s)
    case Arr(items) => DArr(seq(|items|, i requires 0 <= i < |items| => Meaning(items[i])))
    case Obj(members) => DObj(MembersMeaning(members))
  }

  ghost function MembersMeaning(ms: seq<Member>): map<string, Data> {
    if ms == [] then map[]
    else
      var rest := MembersMeaning(ms[1..]);
      if ms[0].value.Undefined? then rest else rest[ms[0].key := Meaning(ms[0].value)]
  }

  // ----- The printed text determines the data

  predicate Printable(j: Json) {
    match j
    case JNum(text) => IsNumberText(text)
    case JArr(items) => forall i | 0 <= i < |items| :: Printable(items[i])
    case JObj(members) => forall i | 0 <= i < |members| :: Printable(members[i].value)
    case _ => true
  }

  /** What may follow a value: nothing that could continue a number. */
  predicate Delimited(rest: string) {
    rest == "" || !IsNumberChar(rest[0])
  }

  lemma {:induction false} EscapeIsPrefixFree(c: char, d: char, r: string, q: string)
    requires EscapeChar(c) + r == EscapeChar(d) + q
    ensures c == d && r == q
  {
    var a, b := EscapeChar(c), EscapeChar(d);
    assert (a + r)[0] == a[0] && (b + q)[0] == b[0];
    if |a| > 1 && |b| > 1 {
      assert (a + r)[1] == a[1] && (b + q)[1] == b[1];
      if |a| == 6 && |b| == 6 {
        assert (a + r)[4] == a[4] && (b + q)[4] == b[4];
        assert (a + r)[5] == a[5] && (b + q)[5] == b[5];
        HexIsInjective(c as int / 16, d as int / 16);
        HexIsInjective(c as int % 16, d as int % 16);
        assert c as int == d as int;
      }
    }
    assert |a| == |b|;
    assert r == (a + r)[|a|..] && q == (b + q)[|b|..];
  }

  lemma HexIsInjective(d: int, e: int)
    requires 0 <= d < 16 && 0 <= e < 16 && Hex(d) == Hex(e)
    ensures d == e
  {
    var digits := "0123456789abcdef";
    assert forall i | 0 <= i < 16 :: digits[i] as int == if i < 10 then '0' as int + i else 'a' as int + i - 10;
  }

  lemma EscapeNeverQuotes(c: char)
    ensures EscapeChar(c) != "" && EscapeChar(c)[0] != '"'
  {
  }

  lemma {:induction false} QuoteIsPrefixFree(s: string, t: string, r: string, q: string)
    requires QuoteRest(s) + r == QuoteRest(t) + q
    ensures s == t && r == q
  {
    hide EscapeChar;
    if s != "" { EscapeNeverQuotes(s[0]); }
    if t != "" { EscapeNeverQuotes(t[0]); }
    assert (QuoteRest(s) + r)[0] == QuoteRest(s)[0] && (QuoteRest(t) + q)[0] == QuoteRest(t)[0];
    if s == "" || t == "" {
      assert r == (QuoteRest(s) + r)[1..] && q == (QuoteRest(t) + q)[1..];
    } else {
      var sr, tq := QuoteRest(s[1..]) + r, QuoteRest(t[1..]) + q;
      assert QuoteRest(s) + r == EscapeChar(s[0]) + sr && QuoteRest(t) + q == EscapeChar(t[0]) + tq;
      EscapeIsPrefixFree(s[0], t[0], sr, tq);
      QuoteIsPrefixFree(s[1..], t[1..], r, q);
      assert s == [s[0]] + s[1..] && t == [t[0]] + t[1..];
    }
  }

  function NumberSpan(t: string): nat {
    if t == "" || !IsNumberChar(t[0]) then 0 else 1 + NumberSpan(t[1..])
  }

  lemma {:induction false} SpanOfNumber(a: string, r: string)
    requires Delimited(r) && forall i | 0 <= i < |a| :: IsNumberChar(a[i])
    ensures NumberSpan(a + r) == |a|
  {
    if a == "" {
      assert a + r == r;
    } else {
      assert (a + r)[1..] == a[1..] + r;
      SpanOfNumber(a[1..], r);
    }
  }

  lemma {:induction false} NumbersEndAtDelimiters(a: string, b: string, r: string, q: string)
    requires IsNumberText(a) && IsNumberText(b) && Delimited(r) && Delimited(q) && a + r == b + q
    ensures a == b && r == q
  {
    SpanOfNumber(a, r);
    SpanOfNumber(b, q);
    assert a == (a + r)[..|a|] && b == (b + q)[..|b|];
    assert r == (a + r)[|a|..] && q == (b + q)[|b|..];
  }

  /** The first character tells the kinds of values apart. */
  function Kind(j: Json): char {
    match j
    case JNull => 'n'
    case JBool(b) => if b then 't' else 'f'
    case JNum(_) => '0'
    case JStr(_) => '"'
    case JArr(_) => '['
    case JObj(_) => '{'
  }

  lemma FirstCharacter(j: Json)
    requires Printable(j)
    ensures Print(j) != "" && Print(j)[0] !in "],}"
    ensures Kind(j) == if '0' <= Print(j)[0] <= '9' || Print(j)[0] == '-' then '0' else Print(j)[0]
  {
  }

  lemma {:induction false} Drop(a: string, r: string, b: string, q: string)
    requires |a| == |b| && a + r == b + q
    ensures r == q
  {
    assert r == (a + r)[|a|..] && q == (b + q)[|b|..];
  }

  lemma {:induction false} PrintIsPrefixFree(a: Json, b: Json, r: string, q: string)
    requires Printable(a) && Printable(b) && Delimited(r) && Delimited(q)
    requires Print(a) + r == Print(b) + q
    ensures a == b && r == q
    decreases a, 1
  {
    hide QuoteRest, PrintItems, PrintMembers, IsNumberText, IsNumberChar;
    FirstCharacter(a);
    FirstCharacter(b);
    assert (Print(a) + r)[0] == Print(a)[0] && (Print(b) + q)[0] == Print(b)[0];
    match a
    case JNum(text) => NumbersEndAtDelimiters(text, b.text, r, q);
    case JStr(s) =>
      assert Print(a) + r == "\"" + (QuoteRest(s) + r) && Print(b) + q == "\"" + (QuoteRest(b.s) + q);
      Drop("\"", QuoteRest(s) + r, "\"", QuoteRest(b.s) + q);
      QuoteIsPrefixFree(s, b.s, r, q);
    case JArr(items) =>
      assert Print(a) + r == "[" + (PrintItems(items) + r) && Print(b) + q == "[" + (PrintItems(b.items) + q);
      Drop("[", PrintItems(items) + r, "[", PrintItems(b.items) + q);
      ItemsArePrefixFree(items, b.items, r, q);
    case JObj(members) =>
      assert Print(a) + r == "{" + (PrintMembers(members) + r) && Print(b) + q == "{" + (PrintMembers(b.members) + q);
      Drop("{", PrintMembers(members) + r, "{", PrintMembers(b.members) + q);
      MembersArePrefixFree(members, b.members, r, q);
    case _ => Drop(Print(a), r, Print(b), q);
  }

  /** What follows the first element of a list. */
  function Tail(n: nat, rest: string, close: char): string {
    if n == 1 then [close] else "," + rest
  }

  lemma BracketsDelimit()
    ensures !IsNumberChar(']') && !IsNumberChar('}')
  {
  }

  lemma TailIsDelimited(n: nat, x: string, close: char, r: string)
    requires !IsNumberChar(close)
    ensures Delimited(Tail(n, x, close) + r)
  {
  }

  lemma {:induction false} TailsAgree(n: nat, m: nat, x: string, y: string, close: char, r: string, q: string)
    requires close != ','
    requires Tail(n, x, close) + r == Tail(m, y, close) + q
    ensures n == 1 <==> m == 1
    ensures if n == 1 then r == q else x + r == y + q
  {
    var t, u := Tail(n, x, close), Tail(m, y, close);
    assert (t + r)[0] == t[0] && (u + q)[0] == u[0];
    if n == 1 {
      Drop(t, r, u, q);
    } else {
      assert t + r == "," + (x + r) && u + q == "," + (y + q);
      Drop(",", x + r, ",", y + q);
    }
  }

  lemma ItemsUnfold(xs: seq<Json>, r: string)
    requires xs != []
    ensures PrintItems(xs) + r == Print(xs[0]) + (Tail(|xs|, PrintItems(xs[1..]), ']') + r)
  {
    hide Print;
  }

  lemma {:induction false} ItemsArePrefixFree(xs: seq<Json>, ys: seq<Json>, r: string, q: string)
    requires (forall i | 0 <= i < |xs| :: Printable(xs[i])) && (forall i | 0 <= i < |ys| :: Printable(ys[i]))
    requires PrintItems(xs) + r == PrintItems(ys) + q
    ensures xs == ys && r == q
    decreases xs, 0
  {
    hide Print, IsNumberText, Kind, Printable, IsNumberChar, Delimited, Tail;
    if xs != [] { FirstCharacter(xs[0]); }
    if ys != [] { FirstCharacter(ys[0]); }
    assert (PrintItems(xs) + r)[0] == PrintItems(xs)[0] && (PrintItems(ys) + q)[0] == PrintItems(ys)[0];
    if xs == [] || ys == [] {
      Drop("]", r, "]", q);
    } else {
      var x, y := PrintItems(xs[1..]), PrintItems(ys[1..]);
      var tx, ty := Tail(|xs|, x, ']'), Tail(|ys|, y, ']');
      assert PrintItems(xs) + r == Print(xs[0]) + (tx + r) by { ItemsUnfold(xs, r); }
      assert PrintItems(ys) + q == Print(ys[0]) + (ty + q) by { ItemsUnfold(ys, q); }
      assert Delimited(tx + r) && Delimited(ty + q) by {
        BracketsDelimit();
        TailIsDelimited(|xs|, x, ']', r);
        TailIsDelimited(|ys|, y, ']', q);
      }
      PrintIsPrefixFree(xs[0], ys[0], tx + r, ty + q);
      TailsAgree(|xs|, |ys|, x, y, ']', r, q);
      if |xs| > 1 { ItemsArePrefixFree(xs[1..], ys[1..], r, q); }
      assert xs == [xs[0]] + xs[1..] && ys == [ys[0]] + ys[1..];
    }
  }

  lemma {:induction false} MemberIsPrefixFree(m: JMember, n: JMember, r: string, q: string)
    requires Printable(m.value) && Printable(n.value) && Delimited(r) && Delimited(q)
    requires PrintMember(m) + r == PrintMember(n) + q
    ensures m == n && r == q
    decreases m, 2
  {
    hide Print, QuoteRest, IsNumberText;
    var mr, nq := ":" + Print(m.value) + r, ":" + Print(n.value) + q;
    assert PrintMember(m) + r == "\"" + (QuoteRest(m.key) + mr) && PrintMember(n) + q == "\"" + (QuoteRest(n.key) + nq);
    Drop("\"", QuoteRest(m.key) + mr, "\"", QuoteRest(n.key) + nq);
    QuoteIsPrefixFree(m.key, n.key, mr, nq);
    assert mr == ":" + (Print(m.value) + r) && nq == ":" + (Print(n.value) + q);
    Drop(":", Print(m.value) + r, ":", Print(n.value) + q);
    PrintIsPrefixFree(m.value, n.value, r, q);
  }

  lemma MembersUnfold(xs: seq<JMember>, r: string)
    requires xs != []
    ensures PrintMembers(xs) + r == PrintMember(xs[0]) + (Tail(|xs|, PrintMembers(xs[1..]), '}') + r)
  {
    hide PrintMember;
  }

  lemma MemberStartsQuoted(m: JMember)
    ensures PrintMember(m) != "" && PrintMember(m)[0] == '"'
  {
  }

  lemma {:induction false} MembersArePrefixFree(xs: seq<JMember>, ys: seq<JMember>, r: string, q: string)
    requires (forall i | 0 <= i < |xs| :: Printable(xs[i].value))
             && (forall i | 0 <= i < |ys| :: Printable(ys[i].value))
    requires PrintMembers(xs) + r == PrintMembers(ys) + q
    ensures xs == ys && r == q
    decreases xs, 0
  {
    hide Print, PrintMember, IsNumberText, Printable, IsNumberChar, Delimited, Tail;
    if xs != [] { MemberStartsQuoted(xs[0]); }
    if ys != [] { MemberStartsQuoted(ys[0]); }
    assert (PrintMembers(xs) + r)[0] == PrintMembers(xs)[0] && (PrintMembers(ys) + q)[0] == PrintMembers(ys)[0];
    if xs == [] || ys == [] {
      Drop("}", r, "}", q);
    } else {
      var x, y := PrintMembers(xs[1..]), PrintMembers(ys[1..]);
      var tx, ty := Tail(|xs|, x, '}'), Tail(|ys|, y, '}');
      assert PrintMembers(xs) + r == PrintMember(xs[0]) + (tx + r) by { MembersUnfold(xs, r); }
      assert PrintMembers(ys) + q == PrintMember(ys[0]) + (ty + q) by { MembersUnfold(ys, q); }
      assert Delimited(tx + r) && Delimited(ty + q) by {
        BracketsDelimit();
        TailIsDelimited(|xs|, x, '}', r);
        TailIsDelimited(|ys|, y, '}', q);
      }
      MemberIsPrefixFree(xs[0], ys[0], tx + r, ty + q);
      TailsAgree(|xs|, |ys|, x, y, '}', r, q);
      if |xs| > 1 { MembersArePrefixFree(xs[1..], ys[1..], r, q); }
      assert xs == [xs[0]] + xs[1..] && ys == [ys[0]] + ys[1..];
    }
  }

  // ----- The canonical value is determined by the data

  ghost function DataOf(j: Json): Data {
    match j
    case JNull => DNull
    case JBool(b) => DBool(b)
    case JNum(text) => DNum(text)
    case JStr(s) => DStr(s)
    case JArr(items) => DArr(seq(|items|, i requires 0 <= i < |items| => DataOf(items[i])))
    case JObj(members) => DObj(MembersData(members))
  }

  ghost function MembersData(ms: seq<JMember>): map<string, Data> {
    if ms == [] then map[] else MembersData(ms[1..])[ms[0].key := DataOf(ms[0].value)]
  }

  /** `d` has exactly the defined members of `ms`. */
  ghost predicate Describes(d: map<string, Data>, ms: seq<Member>) {
    && (forall m | m in ms && !m.value.Undefined? :: m.key in d && d[m.key] == Meaning(m.value))
    && (forall k | k in d :: exists m | m in ms :: !m.value.Undefined? && m.key == k)
  }

  lemma {:induction false} MembersAreDescribed(ms: seq<Member>)
    requires DistinctKeys(ms)
    ensures Describes(MembersMeaning(ms), ms)
  {
    hide Meaning;
    if ms != [] {
      var rest := ms[1..];
      MembersAreDescribed(rest);
      forall m | m in ms && !m.value.Undefined?
        ensures m.key in MembersMeaning(ms) && MembersMeaning(ms)[m.key] == Meaning(m.value)
      {
        if m in rest {
          var i :| 0 <= i < |rest| && rest[i] == m;
          assert ms[i + 1] == m;
        }
      }
      forall k | k in MembersMeaning(ms) ensures exists m | m in ms :: !m.value.Undefined? && m.key == k {
        if k in MembersMeaning(rest) {
          var m :| m in rest && !m.value.Undefined? && m.key == k;
          assert m in ms;
        }
      }
    }
  }

  ghost predicate Ascending(ms: seq<Member>, le: Order) {
    forall i, j | 0 <= i < j < |ms| :: le(ms[i].key, ms[j].key) && ms[i].key != ms[j].key
  }

  lemma {:induction false} SortAscends(ms: seq<Member>, le: Order)
    requires Sequences.TotalPreorder(le) && DistinctKeys(ms)
    ensures Ascending(Sequences.Sort(ms, ByKey(le)), le)
  {
    var sorted := Sequences.Sort(ms, ByKey(le));
    ByKeyIsPreorder(le);
    Sequences.SortSorts(ms, ByKey(le));
    Sequences.SortKeepsDistinct(ms, ByKey(le));
    Sequences.SameMembers(ms, ByKey(le));
    forall i, j | 0 <= i < j < |sorted| ensures le(sorted[i].key, sorted[j].key) && sorted[i].key != sorted[j].key {
      assert ByKey(le)(sorted[i], sorted[j]) && sorted[i] != sorted[j];
      assert sorted[i] in ms && sorted[j] in ms;
    }
  }

  lemma {:induction false} ByKeyIsPreorder(le: Order)
    requires Sequences.TotalPreorder(le)
    ensures Sequences.TotalPreorder(ByKey(le))
  {
    forall a: Member, b: Member ensures ByKey(le)(a, b) || ByKey(le)(b, a) {
      assert le(a.key, b.key) || le(b.key, a.key);
    }
    forall a: Member, b: Member, c: Member | ByKey(le)(a, b) && ByKey(le)(b, c) ensures ByKey(le)(a, c) {
      assert le(a.key, b.key) && le(b.key, c.key);
    }
  }

  lemma {:induction false} DefinedIsDistinct(ms: seq<Member>)
    requires DistinctKeys(ms)
    ensures DistinctKeys(Defined(ms))
  {
    if ms != [] {
      DefinedIsDistinct(ms[1..]);
      DefinedKeeps(ms[1..]);
    }
  }

  lemma {:induction false} OrderedAscends(ms: seq<Member>, le: Order)
    requires Sequences.TotalPreorder(le) && DistinctKeys(ms)
    ensures Ascending(Ordered(ms, le), le)
  {
    DefinedIsDistinct(ms);
    SortAscends(Defined(ms), le);
  }

  function Keys(ms: seq<Member>): seq<string> {
    seq(|ms|, i requires 0 <= i < |ms| => ms[i].key)
  }

  ghost predicate Rising(keys: seq<string>, le: Order) {
    forall i, j | 0 <= i < j < |keys| :: le(keys[i], keys[j]) && keys[i] != keys[j]
  }

  /** Two rising lists of the same keys are one list. */
  lemma {:induction false} RisingIsUnique(a: seq<string>, b: seq<string>, le: Order)
    requires Rising(a, le) && Rising(b, le) && forall j, k | j in a && k in a && le(j, k) && le(k, j) :: j == k
    requires forall k :: k in a <==> k in b
    ensures a == b
  {
    if a != [] { assert a[0] in b; }
    if b != [] {
      assert b[0] in a;
      assert a[0] == b[0];
      forall k ensures k in a[1..] <==> k in b[1..] {
        assert k in a <==> k == a[0] || k in a[1..];
        assert k in b <==> k == b[0] || k in b[1..];
        HeadIsNotInRest(a, le);
        HeadIsNotInRest(b, le);
      }
      RisingIsUnique(a[1..], b[1..], le);
    }
  }

  lemma HeadIsNotInRest(a: seq<string>, le: Order)
    requires a != [] && Rising(a, le)
    ensures a[0] !in a[1..]
  {
  }

  /** The keys of the canonical object are the keys of the data. */
  lemma {:induction false} OrderedKeys(ms: seq<Member>, le: Order)
    requires DistinctKeys(ms)
    ensures forall k :: k in Keys(Ordered(ms, le)) <==> k in MembersMeaning(ms)
  {
    hide MembersMeaning, Meaning;
    var sorted := Ordered(ms, le);
    MembersAreDescribed(ms);
    forall k | k in Keys(sorted) ensures k in MembersMeaning(ms) {
      var i :| 0 <= i < |sorted| && sorted[i].key == k;
      assert sorted[i] in sorted;
    }
    forall k | k in MembersMeaning(ms) ensures k in Keys(sorted) {
      var m :| m in ms && !m.value.Undefined? && m.key == k;
      var i :| 0 <= i < |sorted| && sorted[i] == m;
      assert Keys(sorted)[i] == k;
    }
  }

  lemma {:induction false} AllDefined(ms: seq<Member>)
    requires forall i | 0 <= i < |ms| :: !ms[i].value.Undefined?
    ensures Defined(ms) == ms
  {
    if ms != [] {
      AllDefined(ms[1..]);
      assert [ms[0]] + ms[1..] == ms;
    }
  }

  /** The printed form of a canonical member. */
  function PlainMember(m: Member, le: Order): JMember {
    JMember(m.key, Plain(Canonical(m.value, le)))
  }

  lemma {:induction false} PlainObject(members: seq<Member>, le: Order)
    ensures var sorted := Ordered(members, le);
            Plain(Canonical(Obj(members), le))
              == JObj(seq(|sorted|, i requires 0 <= i < |sorted| => PlainMember(sorted[i], le)))
  {
    var sorted := Ordered(members, le);
    var canonical := Canonical(Obj(members), le).members;
    assert |canonical| == |sorted|;
    forall i | 0 <= i < |sorted|
      ensures canonical[i] == Member(sorted[i].key, Canonical(sorted[i].value, le)) && !canonical[i].value.Undefined?
    {
      assert sorted[i] in sorted;
    }
    AllDefined(canonical);
    assert Plain(Obj(canonical)).members == seq(|sorted|, i requires 0 <= i < |sorted| => PlainMember(sorted[i], le));
  }

  /** No two defined keys of one object tie. */
  ghost predicate Untied(v: Value, le: Order) {
    match v
    case Arr(items) => forall i | 0 <= i < |items| :: Untied(items[i], le)
    case Obj(members) => KeysUntied(members, le) && forall i | 0 <= i < |members| :: Untied(members[i].value, le)
    case _ => true
  }

  ghost predicate Tie(m: Member, n: Member, le: Order) {
    !m.value.Undefined? && !n.value.Undefined? && m.key != n.key && le(m.key, n.key) && le(n.key, m.key)
  }

  ghost predicate KeysUntied(ms: seq<Member>, le: Order) {
    forall m, n | m in ms && n in ms :: !Tie(m, n, le)
  }

  /** Same data without ties, same canonical value. */
  lemma {:induction false} CanonicalIsDetermined(v: Value, w: Value, le: Order)
    requires Sequences.TotalPreorder(le) && IsData(v) && IsData(w) && Untied(v, le) && Meaning(v) == Meaning(w)
    ensures Plain(Canonical(v, le)) == Plain(Canonical(w, le))
    decreases v
  {
    match v {
      case Arr(items) =>
        var a, b := Plain(Canonical(v, le)).items, Plain(Canonical(w, le)).items;
        assert |a| == |items| == |Meaning(v).items| == |Meaning(w).items| == |b|;
        forall i | 0 <= i < |items| ensures a[i] == b[i] {
          assert Meaning(items[i]) == Meaning(v).items[i] == Meaning(w).items[i] == Meaning(w.items[i]);
          CanonicalIsDetermined(items[i], w.items[i], le);
        }
      case Obj(members) =>
        var xs, ys := Ordered(members, le), Ordered(w.members, le);
        ObjectKeysAgree(members, w.members, le);
        PlainObject(members, le);
        PlainObject(w.members, le);
        forall i | 0 <= i < |xs| ensures PlainMember(xs[i], le) == PlainMember(ys[i], le) {
          assert xs[i] in xs && ys[i] in ys;
          MemberMeaningsAgree(members, w.members, xs[i], ys[i]);
          CanonicalIsDetermined(xs[i].value, ys[i].value, le);
        }
      case _ =>
    }
  }

  lemma {:induction false} UntiedKeys(ms: seq<Member>, le: Order)
    requires KeysUntied(ms, le)
    ensures forall j, k | j in Keys(Ordered(ms, le)) && k in Keys(Ordered(ms, le)) && le(j, k) && le(k, j) :: j == k
  {
    var sorted := Ordered(ms, le);
    forall j, k | j in Keys(sorted) && k in Keys(sorted) && le(j, k) && le(k, j) ensures j == k {
      var x :| 0 <= x < |sorted| && sorted[x].key == j;
      var y :| 0 <= y < |sorted| && sorted[y].key == k;
      assert sorted[x] in sorted && sorted[y] in sorted;
      assert !Tie(sorted[x], sorted[y], le);
    }
  }

  lemma {:induction false} ObjectKeysAgree(ms: seq<Member>, ns: seq<Member>, le: Order)
    requires Sequences.TotalPreorder(le) && KeysUntied(ms, le)
    requires DistinctKeys(ms) && DistinctKeys(ns) && MembersMeaning(ms) == MembersMeaning(ns)
    ensures var xs, ys := Ordered(ms, le), Ordered(ns, le);
            |xs| == |ys| && forall i | 0 <= i < |xs| :: xs[i].key == ys[i].key
  {
    hide MembersMeaning, Sequences.TotalPreorder;
    OrderedKeys(ms, le);
    OrderedKeys(ns, le);
    OrderedAscends(ms, le);
    OrderedAscends(ns, le);
    var a, b := Keys(Ordered(ms, le)), Keys(Ordered(ns, le));
    UntiedKeys(ms, le);
    RisingIsUnique(a, b, le);
    forall i | 0 <= i < |a| ensures Ordered(ms, le)[i].key == Ordered(ns, le)[i].key {
      assert a[i] == b[i];
    }
  }

  lemma {:induction false} MemberMeaningsAgree(ms: seq<Member>, ns: seq<Member>, m: Member, n: Member)
    requires DistinctKeys(ms) && DistinctKeys(ns) && MembersMeaning(ms) == MembersMeaning(ns)
    requires m in ms && n in ns && !m.value.Undefined? && !n.value.Undefined? && m.key == n.key
    ensures Meaning(m.value) == Meaning(n.value)
  {
    MembersAreDescribed(ms);
    MembersAreDescribed(ns);
  }

  // ----- The canonical value keeps the data

  lemma {:induction false} MembersDataLookup(js: seq<JMember>)
    requires forall i, j | 0 <= i < j < |js| :: js[i].key != js[j].key
    ensures forall i | 0 <= i < |js| ::
              js[i].key in MembersData(js) && MembersData(js)[js[i].key] == DataOf(js[i].value)
    ensures forall k | k in MembersData(js) :: exists i | 0 <= i < |js| :: js[i].key == k
  {
    if js != [] {
      var rest := js[1..];
      MembersDataLookup(rest);
      forall i | 0 <= i < |js|
        ensures js[i].key in MembersData(js) && MembersData(js)[js[i].key] == DataOf(js[i].value)
      {
        if i > 0 { assert rest[i - 1] == js[i]; }
      }
      forall k | k in MembersData(js) ensures exists i | 0 <= i < |js| :: js[i].key == k {
        if k != js[0].key {
          var i :| 0 <= i < |rest| && rest[i].key == k;
          assert js[i + 1].key == k;
        }
      }
    }
  }

  lemma {:induction false} CanonicalKeepsData(v: Value, le: Order)
    requires Sequences.TotalPreorder(le) && IsData(v)
    ensures DataOf(Plain(Canonical(v, le))) == Meaning(v)
    ensures Printable(Plain(Canonical(v, le)))
    decreases v
  {
    match v {
      case Arr(items) =>
        var a := Plain(Canonical(v, le)).items;
        forall i | 0 <= i < |items| ensures DataOf(a[i]) == Meaning(items[i]) && Printable(a[i]) {
          CanonicalKeepsData(items[i], le);
        }
        assert DataOf(JArr(a)).items == Meaning(v).items;
      case Obj(members) =>
        forall m | m in members
          ensures DataOf(Plain(Canonical(m.value, le))) == Meaning(m.value) && Printable(Plain(Canonical(m.value, le)))
        {
          CanonicalKeepsData(m.value, le);
        }
        ObjectKeepsData(members, le);
      case _ =>
    }
  }

  lemma {:induction false} ObjectKeepsData(members: seq<Member>, le: Order)
    requires Sequences.TotalPreorder(le) && DistinctKeys(members)
    requires forall m | m in members ::
               DataOf(PlainMember(m, le).value) == Meaning(m.value) && Printable(PlainMember(m, le).value)
    ensures DataOf(Plain(Canonical(Obj(members), le))) == DObj(MembersMeaning(members))
    ensures Printable(Plain(Canonical(Obj(members), le)))
  {
    hide Canonical, Meaning;
    var sorted := Ordered(members, le);
    var js := seq(|sorted|, i requires 0 <= i < |sorted| => PlainMember(sorted[i], le));
    PlainObject(members, le);
    OrderedAscends(members, le);
    MembersDataLookup(js);
    MembersAreDescribed(members);
    forall i | 0 <= i < |sorted| ensures DataOf(js[i].value) == Meaning(sorted[i].value) && Printable(js[i].value) {
      assert sorted[i] in sorted;
    }
    SameMembers(MembersMeaning(members), members, sorted, js);
  }

  lemma {:induction false} SameMembers(d: map<string, Data>, ms: seq<Member>, sorted: seq<Member>, js: seq<JMember>)
    requires Describes(d, ms) && forall x :: x in sorted <==> x in ms && !x.value.Undefined?
    requires |js| == |sorted| && forall i | 0 <= i < |js| ::
               js[i].key == sorted[i].key && DataOf(js[i].value) == Meaning(sorted[i].value)
    requires forall i | 0 <= i < |js| ::
               js[i].key in MembersData(js) && MembersData(js)[js[i].key] == DataOf(js[i].value)
    requires forall k | k in MembersData(js) :: exists i | 0 <= i < |js| :: js[i].key == k
    ensures MembersData(js) == d
  {
    forall k | k in d ensures k in MembersData(js) && MembersData(js)[k] == d[k] {
      var m :| m in ms && !m.value.Undefined? && m.key == k;
      assert m in sorted;
      var i :| 0 <= i < |sorted| && sorted[i] == m;
      assert js[i].key == k;
    }
    forall k | k in MembersData(js) ensures k in d {
      var i :| 0 <= i < |js| && js[i].key == k;
      assert sorted[i] in sorted;
    }
  }

  /** Different data has different texts, whatever keys tie. */
  lemma {:induction false} TextDeterminesData(v: Value, w: Value, le: Order)
    requires Sequences.TotalPreorder(le) && IsData(v) && IsData(w) && Text(v, le) == Text(w, le)
    ensures v.Undefined? == w.Undefined? && Meaning(v) == Meaning(w)
  {
    if !v.Undefined? && !w.Undefined? {
      CanonicalKeepsData(v, le);
      CanonicalKeepsData(w, le);
      TextDecides(v, w, le);
    }
  }

  /**
   One text for every way of writing down the same data, where no keys tie, and different texts for
   different data.
   */
  lemma {:induction false} TextIsCanonical(v: Value, w: Value, le: Order)
    requires Sequences.TotalPreorder(le) && IsData(v) && IsData(w) && Untied(v, le)
    ensures Text(v, le) == Text(w, le) <==> v.Undefined? == w.Undefined? && Meaning(v) == Meaning(w)
  {
    if Text(v, le) == Text(w, le) { TextDeterminesData(v, w, le); }
    if v.Undefined? == w.Undefined? && Meaning(v) == Meaning(w) { CanonicalIsDetermined(v, w, le); }
  }

  // ----- Ties show

  /** The printed members of a canonical object are those of its defined members. */
  lemma {:induction false} PrintedMembers(ms: seq<Member>, le: Order)
    ensures forall m | m in ms && !m.value.Undefined? :: PlainMember(m, le) in Plain(Canonical(Obj(ms), le)).members
    ensures forall j | j in Plain(Canonical(Obj(ms), le)).members ::
              exists m | m in ms :: !m.value.Undefined? && PlainMember(m, le) == j
  {
    hide Canonical, Plain;
    var sorted := Ordered(ms, le);
    PlainObject(ms, le);
    var js := Plain(Canonical(Obj(ms), le)).members;
    forall m | m in ms && !m.value.Undefined? ensures PlainMember(m, le) in js {
      var i :| 0 <= i < |sorted| && sorted[i] == m;
      assert js[i] == PlainMember(m, le);
    }
    forall j | j in js ensures exists m | m in ms :: !m.value.Undefined? && PlainMember(m, le) == j {
      var i :| 0 <= i < |js| && js[i] == j;
      assert sorted[i] in sorted;
    }
  }

  lemma {:induction false} SameMeanings(ms: seq<Member>, ns: seq<Member>)
    requires |ms| == |ns| && forall i | 0 <= i < |ms| ::
               ms[i].key == ns[i].key && ms[i].value.Undefined? == ns[i].value.Undefined?
                 && Meaning(ms[i].value) == Meaning(ns[i].value)
    ensures MembersMeaning(ms) == MembersMeaning(ns)
  {
    if ms != [] { SameMeanings(ms[1..], ns[1..]); }
  }

  lemma {:induction false} ReorderedMeaning(ms: seq<Member>, ns: seq<Member>)
    requires DistinctKeys(ms) && DistinctKeys(ns) && forall m :: m in ms <==> m in ns
    ensures MembersMeaning(ms) == MembersMeaning(ns)
  {
    MembersAreDescribed(ms);
    MembersAreDescribed(ns);
    var d, e := MembersMeaning(ms), MembersMeaning(ns);
    forall k | k in d ensures k in e && d[k] == e[k] {
      var m :| m in ms && !m.value.Undefined? && m.key == k;
      assert m in ns;
    }
    forall k | k in e ensures k in d {
      var m :| m in ns && !m.value.Undefined? && m.key == k;
      assert m in ms;
    }
  }

  lemma {:induction false} DefinedPair(a: Member, b: Member, rest: seq<Member>)
    requires !a.value.Undefined? && !b.value.Undefined?
    ensures Defined([a, b] + rest) == [a, b] + Defined(rest)
  {
    assert ([a, b] + rest)[1..] == [b] + rest && ([b] + rest)[1..] == rest;
    assert [a] + ([b] + Defined(rest)) == [a, b] + Defined(rest);
  }

  ghost function OneOf(pair: set<Member>): Member -> bool {
    (m: Member) => m in pair
  }

  lemma {:induction false} NoneOfPair(rest: seq<Member>, pair: set<Member>)
    requires forall m | m in rest :: m !in pair
    ensures Sequences.Filter(rest, OneOf(pair)) == []
  {
    if rest != [] {
      assert rest[|rest| - 1] in rest;
      NoneOfPair(rest[..|rest| - 1], pair);
    }
  }

  lemma {:induction false} BothOfPair(a: Member, b: Member)
    ensures Sequences.Filter([a, b], OneOf({a, b})) == [a, b]
  {
    hide Sequences.Filter;
    var none: seq<Member> := [];
    NoneOfPair(none, {a, b});
    assert none + [a] == [a] && [a] + [b] == [a, b];
    Sequences.FilterOfOneMore(none, a, OneOf({a, b}));
    Sequences.FilterOfOneMore([a], b, OneOf({a, b}));
  }

  /** Two members whose keys tie keep the order they are given in. */
  lemma {:induction false} TiedPairStays(a: Member, b: Member, rest: seq<Member>, le: Order)
    requires Sequences.TotalPreorder(le) && Tie(a, b, le) && a !in rest && b !in rest
    ensures Sequences.Filter(Ordered([a, b] + rest, le), OneOf({a, b})) == [a, b]
  {
    hide Sequences.Filter, Sequences.Sort, Sequences.TotalPreorder, OneOf, Defined;
    var p := OneOf({a, b});
    ByKeyIsPreorder(le);
    DefinedPair(a, b, rest);
    DefinedKeeps(rest);
    NoneOfPair(Defined(rest), {a, b});
    BothOfPair(a, b);
    Sequences.FilterOfSort([a, b] + Defined(rest), ByKey(le), p);
    Sequences.FilterOfConcat([a, b], Defined(rest), p);
    Sequences.SortedIsFixed([a, b], ByKey(le));
    assert [a, b] + [] == [a, b];
  }

  /** Two orders of the same members print alike only if they are sorted alike. */
  lemma {:induction false} SamePrintSameOrder(ms: seq<Member>, ns: seq<Member>, le: Order)
    requires DistinctKeys(ms) && forall m :: m in ms <==> m in ns
    requires Plain(Canonical(Obj(ms), le)) == Plain(Canonical(Obj(ns), le))
    ensures Ordered(ms, le) == Ordered(ns, le)
  {
    hide Canonical, Plain;
    var s, t := Ordered(ms, le), Ordered(ns, le);
    PlainObject(ms, le);
    PlainObject(ns, le);
    var js := Plain(Canonical(Obj(ms), le)).members;
    assert |s| == |js| == |t|;
    forall i | 0 <= i < |s| ensures s[i] == t[i] {
      assert js[i].key == s[i].key == t[i].key;
      assert s[i] in s && t[i] in t;
      SameKeySameMember(ms, s[i], t[i]);
    }
  }

  /** So the order in which they are given can be read off the text. */
  lemma {:induction false} TiedPairShows(a: Member, b: Member, rest: seq<Member>, le: Order)
    requires Sequences.TotalPreorder(le) && Tie(a, b, le) && DistinctKeys([a, b] + rest)
    ensures Plain(Canonical(Obj([a, b] + rest), le)) != Plain(Canonical(Obj([b, a] + rest), le))
  {
    hide Canonical, Plain, DistinctKeys;
    NotAgain(a, b, rest);
    TiedPairStays(a, b, rest, le);
    TiedPairStays(b, a, rest, le);
    assert {a, b} == {b, a};
    assert forall m :: m in [a, b] + rest <==> m in [b, a] + rest;
    if Plain(Canonical(Obj([a, b] + rest), le)) == Plain(Canonical(Obj([b, a] + rest), le)) {
      SamePrintSameOrder([a, b] + rest, [b, a] + rest, le);
    }
  }

  lemma {:induction false} NotAgain(a: Member, b: Member, rest: seq<Member>)
    requires DistinctKeys([a, b] + rest)
    ensures a !in rest && b !in rest
  {
    var all := [a, b] + rest;
    forall i | 0 <= i < |rest| ensures rest[i] != a && rest[i] != b {
      assert all[i + 2] == rest[i] && all[0].key != all[i + 2].key && all[1].key != all[i + 2].key;
    }
  }

  lemma {:induction false} SameKeySameMember(ms: seq<Member>, m: Member, n: Member)
    requires DistinctKeys(ms) && m in ms && n in ms && m.key == n.key
    ensures m == n
  {
  }

  /** The members of an object with two of them in front. */
  lemma {:induction false} BringToFront(ms: seq<Member>, a: Member, b: Member) returns (rest: seq<Member>)
    requires DistinctKeys(ms) && a in ms && b in ms && a.key != b.key
    ensures DistinctKeys([a, b] + rest) && DistinctKeys([b, a] + rest)
    ensures forall m :: m in [a, b] + rest <==> m in ms
  {
    var keep := (m: Member) => m.key != a.key && m.key != b.key;
    rest := Sequences.Filter(ms, keep);
    Sequences.FilterMembers(ms, keep);
    FilterIsDistinct(ms, keep);
    PairIsDistinct(a, b, rest);
    PairIsDistinct(b, a, rest);
    forall m ensures m in [a, b] + rest <==> m in ms {
      if m in ms && m.key == a.key { SameKeySameMember(ms, m, a); }
      if m in ms && m.key == b.key { SameKeySameMember(ms, m, b); }
    }
  }

  lemma {:induction false} PairIsDistinct(a: Member, b: Member, rest: seq<Member>)
    requires DistinctKeys(rest) && a.key != b.key && forall m | m in rest :: m.key != a.key && m.key != b.key
    ensures DistinctKeys([a, b] + rest)
  {
    var all := [a, b] + rest;
    forall i, j | 0 <= i < j < |all| ensures all[i].key != all[j].key {
      if j >= 2 { assert all[j] in rest; }
    }
  }

  lemma {:induction false} FilterIsDistinct(ms: seq<Member>, keep: Member -> bool)
    requires DistinctKeys(ms)
    ensures DistinctKeys(Sequences.Filter(ms, keep))
  {
    if ms != [] {
      var rest, last := ms[..|ms| - 1], ms[|ms| - 1];
      FilterIsDistinct(rest, keep);
      Sequences.FilterMembers(rest, keep);
      var kept := Sequences.Filter(rest, keep);
      forall i | 0 <= i < |kept| ensures kept[i].key != last.key {
        assert kept[i] in rest;
      }
    }
  }

  /** `w` holds the data of `v`, and reads differently. */
  ghost predicate Rewritten(v: Value, w: Value, le: Order) {
    IsData(w) && v.Undefined? == w.Undefined? && Meaning(v) == Meaning(w)
      && Plain(Canonical(v, le)) != Plain(Canonical(w, le))
  }

  lemma {:induction false} TiedKeysShow(members: seq<Member>, le: Order) returns (w: Value)
    requires Sequences.TotalPreorder(le) && IsData(Obj(members)) && !KeysUntied(members, le)
    ensures Rewritten(Obj(members), w, le)
  {
    var a, b :| a in members && b in members && Tie(a, b, le);
    var rest := BringToFront(members, a, b);
    assert forall m :: m in [b, a] + rest <==> m in [a, b] + rest;
    ReorderedMeaning(members, [a, b] + rest);
    ReorderedMeaning(members, [b, a] + rest);
    TiedPairShows(a, b, rest, le);
    ReorderedIsData(members, [a, b] + rest);
    ReorderedIsData(members, [b, a] + rest);
    w := if Plain(Canonical(Obj(members), le)) == Plain(Canonical(Obj([a, b] + rest), le)) then Obj([b, a] + rest)
      else Obj([a, b] + rest);
  }

  lemma {:induction false} ReorderedIsData(ms: seq<Member>, ns: seq<Member>)
    requires IsData(Obj(ms)) && DistinctKeys(ns) && forall m | m in ns :: m in ms
    ensures IsData(Obj(ns))
  {
    forall i | 0 <= i < |ns| ensures IsData(ns[i].value) {
      assert ns[i] in ms;
    }
  }

  lemma {:induction false} RewrittenItem(items: seq<Value>, i: nat, x: Value, le: Order)
    requires i < |items| && IsData(Arr(items)) && Rewritten(items[i], x, le)
    ensures Rewritten(Arr(items), Arr(items[i := x]), le)
  {
    var v, w := Arr(items), Arr(items[i := x]);
    assert Plain(Canonical(v, le)).items[i] == Plain(Canonical(items[i], le));
    assert Plain(Canonical(w, le)).items[i] == Plain(Canonical(x, le));
    assert Meaning(v).items == Meaning(w).items;
  }

  lemma {:induction false} RewrittenMember(ms: seq<Member>, i: nat, x: Value, le: Order)
    requires i < |ms| && IsData(Obj(ms)) && !ms[i].value.Undefined? && Rewritten(ms[i].value, x, le)
    ensures Rewritten(Obj(ms), Obj(ms[i := Member(ms[i].key, x)]), le)
  {
    hide Canonical, Plain, Meaning;
    var m := Member(ms[i].key, x);
    var ns := ms[i := m];
    SameMeanings(ms, ns);
    MeaningOfObject(ms);
    MeaningOfObject(ns);
    assert ns[i] == m;
    PrintedMembers(ms, le);
    PrintedMembers(ns, le);
  }

  lemma {:induction false} MeaningOfObject(ms: seq<Member>)
    ensures Meaning(Obj(ms)) == DObj(MembersMeaning(ms))
  {
  }

  /** Where keys tie, at any depth, some rewriting of the same data reads differently. */
  lemma {:induction false} TiesShow(v: Value, le: Order) returns (w: Value)
    requires Sequences.TotalPreorder(le) && IsData(v) && !Untied(v, le)
    ensures Rewritten(v, w, le)
    decreases v
  {
    hide Rewritten;
    match v
    case Arr(items) =>
      var i :| 0 <= i < |items| && !Untied(items[i], le);
      var x := TiesShow(items[i], le);
      RewrittenItem(items, i, x, le);
      w := Arr(items[i := x]);
    case Obj(members) =>
      if !KeysUntied(members, le) {
        w := TiedKeysShow(members, le);
      } else {
        var i :| 0 <= i < |members| && !Untied(members[i].value, le);
        var x := TiesShow(members[i].value, le);
        RewrittenMember(members, i, x, le);
        w := Obj(members[i := Member(members[i].key, x)]);
      }
  }

  /** Every way of writing down the data of `v` has its text, exactly if no two keys of one object of `v` tie. */
  lemma {:induction false} CanonicalUnlessTied(v: Value, le: Order)
    requires Sequences.TotalPreorder(le) && IsData(v)
    ensures (forall w | IsData(w) && w.Undefined? == v.Undefined? && Meaning(w) == Meaning(v) ::
             Text(w, le) == Text(v, le)) <==>
            Untied(v, le)
  {
    if Untied(v, le) {
      forall w | IsData(w) && w.Undefined? == v.Undefined? && Meaning(w) == Meaning(v)
        ensures Text(w, le) == Text(v, le)
      {
        TextIsCanonical(v, w, le);
      }
    } else {
      var w := TiesShow(v, le);
      TextDecides(v, w, le);
    }
  }

  /** Different plain values have different texts. */
  lemma {:induction false} TextDecides(v: Value, w: Value, le: Order)
    requires Sequences.TotalPreorder(le) && IsData(v) && IsData(w) && !v.Undefined? && !w.Undefined?
    ensures Text(v, le) == Text(w, le) <==> Plain(Canonical(v, le)) == Plain(Canonical(w, le))
  {
    CanonicalKeepsData(v, le);
    CanonicalKeepsData(w, le);
    if Text(v, le) == Text(w, le) {
      var a, b := Plain(Canonical(v, le)), Plain(Canonical(w, le));
      assert Print(a) + "" == Print(b) + "";
      PrintIsPrefixFree(a, b, "", "");
    }
  }

  /** One letter with its accent, written as one character and as two; a locale's comparison must call them equal. */
  const COMPOSED := "\U{e9}"
  const DECOMPOSED := "e\U{301}"

  lemma EquivalentKeysReadDifferently(le: Order)
    requires Sequences.TotalPreorder(le) && le(COMPOSED, DECOMPOSED) && le(DECOMPOSED, COMPOSED)
    ensures var a, b := Member(COMPOSED, Null), Member(DECOMPOSED, Null);
            Meaning(Obj([a, b])) == Meaning(Obj([b, a])) && Text(Obj([a, b]), le) != Text(Obj([b, a]), le)
  {
    var a, b := Member(COMPOSED, Null), Member(DECOMPOSED, Null);
    assert |COMPOSED| == 1 && |DECOMPOSED| == 2;
    assert [a, b] + [] == [a, b] && [b, a] + [] == [b, a];
    TiedPairShows(a, b, [], le);
    ReorderedMeaning([a, b], [b, a]);
    TextDecides(Obj([a, b]), Obj([b, a]), le);
  }

  /** Inside an array, undefined and null are one value. */
  lemma UndefinedElementReadsAsNull(le: Order)
    requires Sequences.TotalPreorder(le)
    ensures Arr([Undefined]) != Arr([Null]) && Text(Arr([Undefined]), le) == Text(Arr([Null]), le)
  {
    assert Arr([Undefined]).items[0] != Arr([Null]).items[0];
    assert Meaning(Arr([Undefined])).items == Meaning(Arr([Null])).items;
    TextIsCanonical(Arr([Undefined]), Arr([Null]), le);
  }
}
