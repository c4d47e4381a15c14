/**
 `conditionWhenEnvMissing` and `skipsWhenMissing` of `spec/purity.ts`: which way
 does a condition go when an environment key is missing?  The answer is compared
 with evaluation as in ECMA-262 (sections 7.1 and 7.2), over primitive values.
 */
module MissingEnv {
  import opened Wrappers
  import opened EnvAliases

  datatype Value =
    | Undefined | Null | Boolean(b: bool) | Number(n: int) | Text(s: string)
    | Object(id: nat) | Function(id: nat) | Symbol(id: nat) | BigInt(n: int)

  const TYPE_NAMES := {"undefined", "object", "boolean", "number", "string", "function", "symbol", "bigint"}

  datatype Op = LooseEq | StrictEq | LooseNe | StrictNe

  datatype Expr =
    | Grouped(inner: Expr)
    | Not(inner: Expr)
    | BooleanCall(args: seq<Expr>)
    | Compare(op: Op, left: Expr, right: Expr)
    | EnvRead(key: Key, dotted: bool)
    | ComputedEnvRead(index: nat)
    | Variable(name: Name)
    | TypeOf(inner: Expr)
    | Constant(value: Value)
    | Void(inner: Expr)
    | Other(id: nat, children: seq<Expr>)

  // ----- Evaluation

  /** The program's surroundings: the environment, and what the analysis cannot see. */
  datatype World =
    World(env: map<Key, string>, scope: Name -> Value, computed: nat -> Key, other: nat -> Value,
          number: string -> Option<int>)

  /** `undefined` is what it says, and no type name denotes a number. */
  ghost predicate IsWorld(w: World) {
    w.scope("undefined") == Undefined && forall t | t in TYPE_NAMES :: w.number(t) == None
  }

  function Read(w: World, key: Key): Value {
    if key in w.env then Text(w.env[key]) else Undefined
  }

  predicate Truthy(v: Value) {
    match v
    case Undefined => false
    case Null => false
    case Boolean(b) => b
    case Number(n) => n != 0
    case Text(s) => s != ""
    case BigInt(n) => n != 0
    case _ => true
  }

  function TypeName(v: Value): string {
    match v
    case Undefined => "undefined"
    case Null => "object"
    case Boolean(_) => "boolean"
    case Number(_) => "number"
    case Text(_) => "string"
    case Object(_) => "object"
    case Function(_) => "function"
    case Symbol(_) => "symbol"
    case BigInt(_) => "bigint"
  }

  predicate IsNullish(v: Value) {
    v.Undefined? || v.Null?
  }

  function NumberOf(w: World, v: Value): Option<int> {
    match v
    case Boolean(b) => Some(if b then 1 else 0)
    case Number(n) => Some(n)
    case Text(s) => w.number(s)
    case BigInt(n) => Some(n)
    case _ => None
  }

  predicate LooselyEqual(w: World, a: Value, b: Value) {
    if IsNullish(a) || IsNullish(b) then IsNullish(a) && IsNullish(b)
    else if (a.Text? && b.Text?) || a.Object? || a.Function? || a.Symbol? then a == b
    else NumberOf(w, a).Some? && NumberOf(w, a) == NumberOf(w, b)
  }

  predicate Holds(w: World, op: Op, a: Value, b: Value) {
    match op
    case LooseEq => LooselyEqual(w, a, b)
    case StrictEq => a == b
    case LooseNe => !LooselyEqual(w, a, b)
    case StrictNe => a != b
  }

  function Eval(w: World, e: Expr): Value {
    match e
    case Grouped(inner) => Eval(w, inner)
    case Not(inner) => Boolean(!Truthy(Eval(w, inner)))
    case BooleanCall(args) => Boolean(args != [] && Truthy(Eval(w, args[0])))
    case Compare(op, left, right) => Boolean(Holds(w, op, Eval(w, left), Eval(w, right)))
    case EnvRead(key, _) => Read(w, key)
    case ComputedEnvRead(index) => Read(w, w.computed(index))
    case Variable(name) => w.scope(name)
    case TypeOf(inner) => Text(TypeName(Eval(w, inner)))
    case Constant(value) => value
    case Void(_) => Undefined
    case Other(id, _) => w.other(id)
  }

  // ----- The analysis

  const DYNAMIC: Key := "<dynamic>"

  datatype Missing = Missing(keys: set<Key>, whenMissing: bool)
  datatype Operand = Operand(keys: set<Key>, missingValue: Value)

  function Unwrap(e: Expr): Expr {
    if e.Grouped? then Unwrap(e.inner) else e
  }

  function EnvKey(e: Expr): Option<Key> {
    match e
    case EnvRead(key, _) => Some(key)
    case ComputedEnvRead(_) => Some(DYNAMIC)
    case _ => None
  }

  /** Every key read below `e`, directly or through a mentioned name; the words of `process.env.KEY` are names too. */
  function KeysBelow(e: Expr, aliases: Aliases): set<Key> {
    match e
    case Grouped(inner) => KeysBelow(inner, aliases)
    case Not(inner) => KeysBelow(inner, aliases)
    case BooleanCall(args) => KeysOf(aliases, "Boolean") + set i, k | 0 <= i < |args|
      && k in KeysBelow(args[i], aliases) :: k
    case Compare(_, left, right) => KeysBelow(left, aliases) + KeysBelow(right, aliases)
    case EnvRead(key, dotted) =>
      {key} + KeysOf(aliases, "process") + KeysOf(aliases, "env") + if dotted then KeysOf(aliases, key) else {}
    case ComputedEnvRead(_) => {DYNAMIC} + KeysOf(aliases, "process") + KeysOf(aliases, "env")
    case Variable(name) => KeysOf(aliases, name)
    case TypeOf(inner) => KeysBelow(inner, aliases)
    case Constant(_) => {}
    case Void(inner) => KeysBelow(inner, aliases)
    case Other(_, children) => set i, k | 0 <= i < |children| && k in KeysBelow(children[i], aliases) :: k
  }

  /** `conditionOperand` */
  function OperandOf(node: Expr, aliases: Aliases): Option<Operand> {
    var e := Unwrap(node);
    if e.TypeOf? then
      var keys := KeysBelow(e.inner, aliases);
      if keys != {} then Some(Operand(keys, Text("undefined"))) else None
    else if EnvKey(e).Some? then Some(Operand({EnvKey(e).value}, Undefined))
    else if e.Variable? && KeysOf(aliases, e.name) != {} then Some(Operand(KeysOf(aliases, e.name), Undefined))
    else None
  }

  /** `staticComparisonValue` */
  function StaticValue(node: Expr): Option<Value> {
    match Unwrap(node)
    case Variable(name) => if name == "undefined" then Some(Undefined) else None
    case Void(_) => Some(Undefined)
    case Constant(value) => if IsLiteral(value) then Some(value) else None
    case _ => None
  }

  predicate IsLiteral(v: Value) {
    v.Undefined? || v.Null? || v.Boolean? || v.Number? || v.Text?
  }

  /** `equalityWhenMissing` */
  function EqualityWhenMissing(operand: Operand, other: Expr, op: Op): Option<bool> {
    match StaticValue(other)
    case None => None
    case Some(compared) =>
      var equal := operand.missingValue == compared
        || ((op == LooseEq || op == LooseNe) && IsNullish(operand.missingValue) && IsNullish(compared));
      Some(if op == LooseEq || op == StrictEq then equal else !equal)
  }

  /** `conditionWhenEnvMissing` */
  function WhenMissing(node: Expr, aliases: Aliases): Option<Missing> {
    match node
    case Grouped(inner) => WhenMissing(inner, aliases)
    case Not(inner) =>
      var nested := WhenMissing(inner, aliases);
      if nested.Some? then Some(Missing(nested.value.keys, !nested.value.whenMissing)) else None
    case BooleanCall(args) => if |args| == 1 then WhenMissing(args[0], aliases) else None
    case Compare(op, left, right) =>
      var l, r := OperandOf(left, aliases), OperandOf(right, aliases);
      if l.Some? && r.None? then Answer(l.value, right, op)
      else if r.Some? && l.None? then Answer(r.value, left, op)
      else None
    case EnvRead(key, _) => Some(Missing({key}, false))
    case ComputedEnvRead(_) => Some(Missing({DYNAMIC}, false))
    case Variable(name) => if KeysOf(aliases, name) != {} then Some(Missing(KeysOf(aliases, name), false)) else None
    case _ => None
  }

  function Answer(operand: Operand, other: Expr, op: Op): Option<Missing> {
    var whenMissing := EqualityWhenMissing(operand, other, op);
    if whenMissing.Some? then Some(Missing(operand.keys, whenMissing.value)) else None
  }

  datatype Modifier = SkipIf | RunIf

  /** `skipsWhenMissing` */
  function SkipsWhenMissing(modifier: Modifier, condition: Expr, aliases: Aliases): Option<Missing> {
    var missing := WhenMissing(condition, aliases);
    if missing.None? then None
    else if (if modifier == SkipIf then missing.value.whenMissing else !missing.value.whenMissing) then missing
    else None
  }

  // ----- Which reads the analysis understands

  /** Every alias holds what one of its keys holds. */
  ghost predicate Transparent(aliases: Aliases, w: World) {
    forall name | KeysOf(aliases, name) != {} :: exists k | k in aliases[name] :: w.scope(name) == Read(w, k)
  }

  /** A read whose key is known: named in the source, or that of an alias. */
  predicate KnownRead(e: Expr, aliases: Aliases) {
    e.EnvRead? || (e.Variable? && KeysOf(aliases, e.name) != {})
  }

  /** The types `e` may have where the keys read below it are missing. */
  function PossibleTypes(e: Expr, aliases: Aliases): set<string> {
    match e
    case Grouped(inner) => PossibleTypes(inner, aliases)
    case Not(_) => {"boolean"}
    case BooleanCall(_) => {"boolean"}
    case Compare(_, _, _) => {"boolean"}
    case EnvRead(_, _) => {"undefined"}
    case ComputedEnvRead(_) => {"undefined", "string"}
    case Variable(name) => if name == "undefined" || KeysOf(aliases, name) != {} then {"undefined"} else TYPE_NAMES
    case TypeOf(_) => {"string"}
    case Constant(value) => {TypeName(value)}
    case Void(_) => {"undefined"}
    case Other(_, _) => TYPE_NAMES
  }

  /** Can a present value change the outcome of the comparison? */
  predicate Distinguishes(op: Op, compared: Value) {
    compared.Undefined? || compared.Text? || op == LooseEq || op == LooseNe
  }

  /** A type compares otherwise than the one of a missing value. */
  predicate TypeTells(t: string, compared: Value) {
    (compared == Text(t)) != (compared == Text("undefined"))
  }

  predicate UncertainOperand(op: Op, node: Expr, other: Expr, aliases: Aliases) {
    var e := Unwrap(node);
    StaticValue(other).Some? &&
    if e.TypeOf? then exists t | t in PossibleTypes(e.inner, aliases) :: TypeTells(t, StaticValue(other).value)
    else e.ComputedEnvRead? && Distinguishes(op, StaticValue(other).value)
  }

  /**
   The outcome hangs on more than the missing keys: on a read whose key is computed, or on a type
   that need not be undefined.
   */
  predicate Uncertain(node: Expr, aliases: Aliases) {
    match node
    case Grouped(inner) => Uncertain(inner, aliases)
    case Not(inner) => Uncertain(inner, aliases)
    case BooleanCall(args) => |args| == 1 && Uncertain(args[0], aliases)
    case Compare(op, left, right) =>
      if OperandOf(left, aliases).Some? then UncertainOperand(op, left, right, aliases)
           else UncertainOperand(op, right, left, aliases)
    case ComputedEnvRead(_) => true
    case _ => false
  }

  ghost predicate Lacks(w: World, keys: set<Key>) {
    forall k | k in keys :: k !in w.env
  }

  lemma {:induction false} EvalUnwrap(w: World, e: Expr)
    ensures Eval(w, Unwrap(e)) == Eval(w, e)
  {
    if e.Grouped? { EvalUnwrap(w, e.inner); }
  }

  lemma {:induction false} KnownReadIsMissing(w: World, e: Expr, aliases: Aliases)
    requires IsWorld(w) && Transparent(aliases, w) && KnownRead(e, aliases)
    requires Lacks(w, KeysBelow(e, aliases))
    ensures Eval(w, e) == Undefined
  {
    if e.Variable? {
      var k :| k in aliases[e.name] && w.scope(e.name) == Read(w, k);
    }
  }

  lemma {:induction false} StaticValueIsValue(w: World, node: Expr)
    requires IsWorld(w) && StaticValue(node).Some?
    ensures Eval(w, node) == StaticValue(node).value
  {
    EvalUnwrap(w, node);
  }

  lemma {:induction false} TypeIsPossible(w: World, e: Expr, aliases: Aliases)
    requires IsWorld(w) && Transparent(aliases, w) && Lacks(w, KeysBelow(e, aliases))
    ensures TypeName(Eval(w, e)) in PossibleTypes(e, aliases)
  {
    match e
    case Grouped(inner) => TypeIsPossible(w, inner, aliases);
    case Variable(name) => if KeysOf(aliases, name) != {} { KnownReadIsMissing(w, e, aliases); }
    case _ =>
  }

  /** Comparing a type with a literal asks whether it is that text. */
  lemma {:induction false} TypeComparison(w: World, op: Op, t: string, compared: Value)
    requires IsWorld(w) && t in TYPE_NAMES && IsLiteral(compared)
    ensures Holds(w, op, Text(t), compared) == Holds(w, op, compared, Text(t))
              == ((op == LooseEq || op == StrictEq) == (compared == Text(t)))
  {
  }

  lemma {:induction false} AnswerIsRight(w: World, op: Op, node: Expr, other: Expr, aliases: Aliases)
    requires IsWorld(w) && Transparent(aliases, w) && OperandOf(node, aliases).Some?
    requires !UncertainOperand(op, node, other, aliases)
    requires Answer(OperandOf(node, aliases).value, other, op).Some?
    requires Lacks(w, OperandOf(node, aliases).value.keys)
    ensures Holds(w, op, Eval(w, node), Eval(w, other))
              == Answer(OperandOf(node, aliases).value, other, op).value.whenMissing
    ensures Holds(w, op, Eval(w, other), Eval(w, node))
              == Answer(OperandOf(node, aliases).value, other, op).value.whenMissing
  {
    StaticValueIsValue(w, other);
    EvalUnwrap(w, node);
    var e := Unwrap(node);
    if e.TypeOf? {
      var t := TypeName(Eval(w, e.inner));
      TypeIsPossible(w, e.inner, aliases);
      assert !TypeTells(t, StaticValue(other).value);
      TypeComparison(w, op, t, StaticValue(other).value);
    } else if KnownRead(e, aliases) && e.Variable? {
      KnownReadIsMissing(w, e, aliases);
    }
  }

  /** Whenever the analysis answers, and nothing but the missing keys decides, it answers with the truth value. */
  lemma {:induction false} WhenMissingIsSound(w: World, node: Expr, aliases: Aliases)
    requires IsWorld(w) && Transparent(aliases, w) && !Uncertain(node, aliases)
    requires WhenMissing(node, aliases).Some? && Lacks(w, WhenMissing(node, aliases).value.keys)
    ensures Truthy(Eval(w, node)) == WhenMissing(node, aliases).value.whenMissing
  {
    match node
    case Grouped(inner) => WhenMissingIsSound(w, inner, aliases);
    case Not(inner) => WhenMissingIsSound(w, inner, aliases);
    case BooleanCall(args) => WhenMissingIsSound(w, args[0], aliases);
    case Compare(op, left, right) =>
      if OperandOf(left, aliases).Some? {
        AnswerIsRight(w, op, left, right, aliases);
      } else {
        AnswerIsRight(w, op, right, left, aliases);
      }
    case Variable(name) => KnownReadIsMissing(w, node, aliases);
    case _ =>
  }

  // ----- Exactness

  ghost function AliasKeys(aliases: Aliases): set<Key> {
    set n, k | n in aliases && k in aliases[n] :: k
  }

  lemma {:induction false} LongerThanAll(keys: set<Key>) returns (unused: Key)
    ensures forall k | k in keys :: |k| < |unused|
  {
    if keys == {} {
      unused := "k";
    } else {
      var k :| k in keys;
      var rest := LongerThanAll(keys - {k});
      unused := if |k| < |rest| then rest else k + "k";
    }
  }

  /**
   One key is set to `text`, every computed read finds it, and nothing has a value but `name` and
   what is not understood.
   */
  function WorldOf(env: map<Key, string>, key: Key, name: Name, v: Value, number: int): World {
    World(env, n => if n == name && n != "undefined" then v else Undefined, _ => key, _ => v,
          t => if t in TYPE_NAMES then None else Some(number))
  }

  /** A present value that makes the comparison come out differently. */
  function Telling(compared: Value): (string, int) {
    match compared
    case Text(t) => (t, 1)
    case Number(n) => ("1", n)
    case Boolean(b) => ("1", if b then 1 else 0)
    case _ => ("1", 1)
  }

  lemma {:induction false} WorldOfIsTransparent(env: map<Key, string>, key: Key, name: Name, v: Value, number: int,
                                                aliases: Aliases)
    requires key !in AliasKeys(aliases) && env.Keys <= {key} && KeysOf(aliases, name) == {}
    ensures IsWorld(WorldOf(env, key, name, v, number)) && Transparent(aliases, WorldOf(env, key, name, v, number))
  {
    var w := WorldOf(env, key, name, v, number);
    forall n | KeysOf(aliases, n) != {} ensures exists k | k in aliases[n] :: w.scope(n) == Read(w, k) {
      var k :| k in aliases[n];
      assert k in AliasKeys(aliases);
      assert w.scope(n) == Read(w, k);
    }
  }

  /** Some value of each type. */
  function SomeOf(t: string): Value {
    if t == "undefined" then Undefined
    else if t == "object" then Null
    else if t == "boolean" then Boolean(true)
    else if t == "number" then Number(1)
    else if t == "string" then Text("1")
    else if t == "function" then Function(0)
    else if t == "symbol" then Symbol(0)
    else BigInt(1)
  }

  /** Every possible type is the type in some world. */
  lemma {:induction false} TypeOccurs(e: Expr, aliases: Aliases, key: Key, t: string) returns (w: World)
    requires t in PossibleTypes(e, aliases) && key !in AliasKeys(aliases) + KeysBelow(e, aliases)
    ensures IsWorld(w) && Transparent(aliases, w) && Lacks(w, KeysBelow(e, aliases)) && TypeName(Eval(w, e)) == t
  {
    if e.Grouped? {
      w := TypeOccurs(e.inner, aliases, key, t);
    } else {
      var env := if t == "string" then map[key := "1"] else map[];
      w := WorldOf(env, key, NameIn(e, aliases), SomeOf(t), 1);
      WorldOfIsTransparent(env, key, NameIn(e, aliases), SomeOf(t), 1, aliases);
      if KnownRead(e, aliases) { KnownReadIsMissing(w, e, aliases); }
    }
  }

  /** The variable `e` is, where the analysis knows nothing of it. */
  ghost function NameIn(e: Expr, aliases: Aliases): (name: Name)
    ensures KeysOf(aliases, name) == {}
  {
    match e
    case Variable(name) => if KeysOf(aliases, name) == {} then name else FreeName(aliases)
    case _ => FreeName(aliases)
  }

  ghost function FreeName(aliases: Aliases): (name: Name)
    ensures KeysOf(aliases, name) == {}
  {
    UnusedName(aliases);
    var name :| KeysOf(aliases, name) == {};
    name
  }

  lemma {:induction false} UnusedName(aliases: Aliases)
    ensures exists name :: KeysOf(aliases, name) == {}
  {
    var name := LongerThanAll(aliases.Keys);
    assert KeysOf(aliases, name) == {};
  }

  /** A present value tells, where a missing one is compared differently. */
  lemma {:induction false} PresentTells(w: World, op: Op, compared: Value)
    requires IsLiteral(compared) && Distinguishes(op, compared) && w.number("1") == Some(Telling(compared).1)
    ensures var present := Text(Telling(compared).0);
            Holds(w, op, present, compared) == Holds(w, op, compared, present) != Holds(w, op, Undefined, compared)
  {
  }

  lemma {:induction false} ComputedOperandMisleads(op: Op, node: Expr, other: Expr, aliases: Aliases, key: Key)
    returns (w: World)
    requires Unwrap(node).ComputedEnvRead? && UncertainOperand(op, node, other, aliases)
    requires key !in AliasKeys(aliases) + {DYNAMIC}
    ensures Misleads(w, op, node, other, aliases)
  {
    var compared := StaticValue(other).value;
    var (text, number) := Telling(compared);
    w := WorldOf(map[key := text], key, FreeName(aliases), Undefined, number);
    WorldOfIsTransparent(map[key := text], key, FreeName(aliases), Undefined, number, aliases);
    assert "1" !in TYPE_NAMES by { assert forall t | t in TYPE_NAMES :: |t| > 1; }
    PresentTells(w, op, compared);
    StaticValueIsValue(w, other);
    EvalUnwrap(w, node);
    assert Answer(OperandOf(node, aliases).value, other, op).value.whenMissing == Holds(w, op, Undefined, compared);
    hide Holds, StaticValue, Distinguishes, Telling;
  }

  lemma {:induction false} TypeMisleads(op: Op, node: Expr, other: Expr, aliases: Aliases, key: Key) returns (w: World)
    requires Unwrap(node).TypeOf? && OperandOf(node, aliases).Some? && UncertainOperand(op, node, other, aliases)
    requires key !in AliasKeys(aliases) + OperandOf(node, aliases).value.keys
    ensures Misleads(w, op, node, other, aliases)
  {
    var e, compared := Unwrap(node), StaticValue(other).value;
    var t :| t in PossibleTypes(e.inner, aliases) && TypeTells(t, compared);
    w := TypeOccurs(e.inner, aliases, key, t);
    StaticValueIsValue(w, other);
    EvalUnwrap(w, node);
    TypeComparison(w, op, t, compared);
  }

  /** In `w`, the answer for a comparison is wrong. */
  ghost predicate Misleads(w: World, op: Op, node: Expr, other: Expr, aliases: Aliases)
    requires OperandOf(node, aliases).Some?
  {
    var answer := Answer(OperandOf(node, aliases).value, other, op);
    && IsWorld(w) && Transparent(aliases, w)
    && answer.Some? && Lacks(w, answer.value.keys)
    && Holds(w, op, Eval(w, node), Eval(w, other)) != answer.value.whenMissing
    && Holds(w, op, Eval(w, other), Eval(w, node)) != answer.value.whenMissing
  }

  lemma {:induction false} UncertaintyMisleads(node: Expr, aliases: Aliases, key: Key) returns (w: World)
    requires WhenMissing(node, aliases).Some? && Uncertain(node, aliases)
    requires key !in AliasKeys(aliases) + {DYNAMIC} + WhenMissing(node, aliases).value.keys
    ensures IsWorld(w) && Transparent(aliases, w) && Lacks(w, WhenMissing(node, aliases).value.keys)
    ensures Truthy(Eval(w, node)) != WhenMissing(node, aliases).value.whenMissing
  {
    match node
    case Grouped(inner) => w := UncertaintyMisleads(inner, aliases, key);
    case Not(inner) => w := UncertaintyMisleads(inner, aliases, key);
    case BooleanCall(args) => w := UncertaintyMisleads(args[0], aliases, key);
    case Compare(op, left, right) =>
      var (operand, other) := if OperandOf(left, aliases).Some? then (left, right) else (right, left);
      if Unwrap(operand).TypeOf? {
        w := TypeMisleads(op, operand, other, aliases, key);
      } else {
        w := ComputedOperandMisleads(op, operand, other, aliases, key);
      }
    case ComputedEnvRead(_) =>
      w := WorldOf(map[key := "1"], key, FreeName(aliases), Undefined, 1);
      WorldOfIsTransparent(map[key := "1"], key, FreeName(aliases), Undefined, 1, aliases);
  }

  /** An answer is right in every world that lacks its keys, exactly when nothing but the missing keys decides. */
  lemma {:induction false} WhenMissingIsExact(node: Expr, aliases: Aliases)
    requires WhenMissing(node, aliases).Some?
    ensures (forall w | IsWorld(w) && Transparent(aliases, w) && Lacks(w, WhenMissing(node, aliases).value.keys) ::
               Truthy(Eval(w, node)) == WhenMissing(node, aliases).value.whenMissing) <==>
            !Uncertain(node, aliases)
  {
    if Uncertain(node, aliases) {
      var key := LongerThanAll(AliasKeys(aliases) + {DYNAMIC} + WhenMissing(node, aliases).value.keys);
      var w := UncertaintyMisleads(node, aliases, key);
    } else {
      forall w | IsWorld(w) && Transparent(aliases, w) && Lacks(w, WhenMissing(node, aliases).value.keys)
        ensures Truthy(Eval(w, node)) == WhenMissing(node, aliases).value.whenMissing
      {
        WhenMissingIsSound(w, node, aliases);
      }
    }
  }

  /** Does vitest skip the test, once the condition was evaluated? */
  predicate IsSkipped(modifier: Modifier, truth: bool) {
    if modifier == SkipIf then truth else !truth
  }

  /** An answer means the test is skipped; no answer from a decided condition means that it runs. */
  lemma {:induction false} SkipIsExact(w: World, modifier: Modifier, condition: Expr, aliases: Aliases)
    requires IsWorld(w) && Transparent(aliases, w) && !Uncertain(condition, aliases)
    requires WhenMissing(condition, aliases).Some? && Lacks(w, WhenMissing(condition, aliases).value.keys)
    ensures SkipsWhenMissing(modifier, condition, aliases).Some? <==> IsSkipped(modifier, Truthy(Eval(w, condition)))
  {
    WhenMissingIsSound(w, condition, aliases);
  }

  /** The type of a larger expression is taken for the type of the read inside it. */
  lemma TypeofLargerExpressionMisleads(w: World)
    requires IsWorld(w) && w.env == map[]
    ensures var node := Compare(StrictEq, TypeOf(Not(EnvRead("KEY", true))), Constant(Text("undefined")));
            && Uncertain(node, map[])
            && WhenMissing(node, map[]) == Some(Missing({"KEY"}, true)) && !Truthy(Eval(w, node))
  {
    var e := EnvRead("KEY", true);
    assert KeysBelow(Not(e), map[]) == KeysBelow(e, map[]) == {"KEY"};
    assert OperandOf(TypeOf(Not(e)), map[]) == Some(Operand({"KEY"}, Text("undefined")));
    assert Eval(w, Not(e)) == Boolean(true);
    assert Eval(w, TypeOf(Not(e))) == Text("boolean");
    assert "boolean" != "undefined";
    assert "boolean" in PossibleTypes(Not(e), map[]) && TypeTells("boolean", Text("undefined"));
  }

  /** Two patterns with one local name: only the last key is remembered, whichever variable is meant. */
  lemma ReusedNamesMislead(w: World)
    requires IsWorld(w) && w.env == map["A" := "1"] && w.scope("x") == Read(w, "A")
    ensures var aliases := Initial([Destructured("x", "A"), Destructured("x", "B")]);
            && WhenMissing(Variable("x"), aliases) == Some(Missing({"B"}, false)) && Lacks(w, {"B"})
            && Truthy(Eval(w, Variable("x"))) && !Transparent(aliases, w)
  {
    var patterns := [Destructured("x", "A"), Destructured("x", "B")];
    assert Initial(patterns)["x"] == {"B"};
    assert "B" != "A";
    assert KeysOf(Initial(patterns), "x") != {};
  }
}
