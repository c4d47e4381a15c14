/**
 `staticPathEvaluator` of `spec/purity.ts`: folding path expressions to constants
 through declarations, with a memo and a set that breaks cycles.

 The specification has neither: a program's bindings are equations, and their
 meaning is the least solution.
 */
module StaticPaths {
  import opened Wrappers

  type Id = nat

  datatype Value = Text(text: string) | Texts(texts: seq<string>)

  /** Parsed expressions; an identifier is already resolved to its declaration, if it has one. */
  datatype Expr =
    | Wrapped(inner: Expr)
    | Literal(text: string)
    | Identifier(declaration: Option<Id>)
    | Template(head: string, spans: seq<Span>)
    | ArrayLiteral(elements: seq<Element>)
    | Plus(left: Expr, right: Expr)
    | MethodJoin(receiver: Expr, args: seq<Expr>)
    | Call(callee: string, args: seq<Expr>)
    | Opaque

  datatype Span = Span(expr: Expr, text: string)
  datatype Element = Item(expr: Expr) | Spread

  /** The two functions of the path library, on already normalised slashes. */
  datatype PathLibrary = PathLibrary(join: seq<string> -> string, resolve: seq<string> -> string)

  /** Declarations and their initializers; an unknown parameter has none. */
  type Program = map<Id, Option<Expr>>

  type Assignment = map<Id, Value>

  // ----- Combining values

  function Lookup(known: Assignment, b: Id): Option<Value> {
    if b in known then Some(known[b]) else None
  }

  function AllTexts(values: seq<Option<Value>>): Option<seq<string>> {
    if values == [] then Some([])
    else if values[0].Some? && values[0].value.Text? then
      match AllTexts(values[1..])
      case None => None
      case Some(rest) => Some([values[0].value.text] + rest)
    else None
  }

  function Fill(head: string, texts: seq<string>, spans: seq<Span>): string
    requires |texts| == |spans|
    decreases |spans|
  {
    if spans == [] then head else Fill(head + texts[0] + spans[0].text, texts[1..], spans[1..])
  }

  function JoinTexts(texts: seq<string>, separator: string): string {
    if texts == [] then "" else if |texts| == 1 then texts[0]
         else texts[0] + separator + JoinTexts(texts[1..], separator)
  }

  function Slashes(text: string): string {
    seq(|text|, i requires 0 <= i < |text| => if text[i] == '\\' then '/' else text[i])
  }

  function AllSlashes(texts: seq<string>): seq<string> {
    seq(|texts|, i requires 0 <= i < |texts| => Slashes(texts[i]))
  }

  /** The parts from the first absolute one on. */
  function FromAbsolute(texts: seq<string>): Option<seq<string>> {
    if texts == [] then None
    else if "/" <= texts[0] then Some(texts)
    else FromAbsolute(texts[1..])
  }

  function CallResult(callee: string, parts: Option<seq<string>>, paths: PathLibrary): Option<Value> {
    if parts.None? then None
    else if callee == "join" then Some(Text(paths.join(AllSlashes(parts.value))))
    else match FromAbsolute(parts.value)
      case None => None
      case Some(absolute) => Some(Text(paths.resolve(AllSlashes(absolute))))
  }

  function MethodJoinResult(receiver: Option<Value>, separator: Option<Value>): Option<Value> {
    if receiver.Some? && receiver.value.Texts? && separator.Some? && separator.value.Text?
    then Some(Text(JoinTexts(receiver.value.texts, separator.value.text))) else None
  }

  function PlusResult(left: Option<Value>, right: Option<Value>): Option<Value> {
    if left.Some? && left.value.Text? && right.Some? && right.value.Text?
    then Some(Text(left.value.text + right.value.text)) else None
  }

  lemma {:induction false} AllTextsNeedsAll(values: seq<Option<Value>>)
    ensures AllTexts(values).Some? <==> forall i | 0 <= i < |values| :: values[i].Some? && values[i].value.Text?
    ensures AllTexts(values).Some? ==> |AllTexts(values).value| == |values|
  {
    if values != [] {
      AllTextsNeedsAll(values[1..]);
    }
  }

  lemma {:induction false} AllTextsAre(values: seq<Option<Value>>, texts: seq<string>)
    requires |values| == |texts| && forall i | 0 <= i < |values| :: values[i] == Some(Text(texts[i]))
    ensures AllTexts(values) == Some(texts)
  {
    if values != [] {
      AllTextsAre(values[1..], texts[1..]);
      assert [texts[0]] + texts[1..] == texts;
    }
  }

  lemma {:induction false} FillOneMore(head: string, texts: seq<string>, spans: seq<Span>, i: nat)
    requires |texts| == |spans| && i < |spans|
    ensures Fill(head, texts[..i + 1], spans[..i + 1]) == Fill(head, texts[..i], spans[..i]) + texts[i] + spans[i].text
    decreases i
  {
    if i > 0 {
      FillOneMore(head + texts[0] + spans[0].text, texts[1..], spans[1..], i - 1);
      assert texts[..i + 1][1..] == texts[1..][..i] && texts[..i][1..] == texts[1..][..i - 1];
      assert spans[..i + 1][1..] == spans[1..][..i] && spans[..i][1..] == spans[1..][..i - 1];
    }
  }

  lemma FillNothing(head: string)
    ensures Fill(head, [], []) == head
  {
  }

  // ----- Meaning

  /** The value of an expression, given the values of the declarations. */
  function EvalIn(known: Assignment, e: Expr, paths: PathLibrary): Option<Value> {
    match e
    case Wrapped(inner) => EvalIn(known, inner, paths)
    case Literal(text) => Some(Text(text))
    case Identifier(declaration) => if declaration.Some? then Lookup(known, declaration.value) else None
    case Template(head, spans) =>
      var values := seq(|spans|, i requires 0 <= i < |spans| => EvalIn(known, spans[i].expr, paths));
      AllTextsNeedsAll(values);
      var texts := AllTexts(values);
      if texts.Some? then Some(Text(Fill(head, texts.value, spans))) else None
    case ArrayLiteral(elements) =>
      var texts := AllTexts(seq(|elements|, i requires 0 <= i < |elements| => EvalElement(known, elements[i], paths)));
      if texts.Some? then Some(Texts(texts.value)) else None
    case Plus(left, right) => PlusResult(EvalIn(known, left, paths), EvalIn(known, right, paths))
    case MethodJoin(receiver, args) =>
      MethodJoinResult(EvalIn(known, receiver, paths), if args == [] then Some(Text(","))
                       else EvalIn(known, args[0], paths))
    case Call(callee, args) =>
      if callee != "join" && callee != "resolve" then None
      else CallResult(callee, AllTexts(seq(|args|, i requires 0 <= i < |args| => EvalIn(known, args[i], paths))), paths)
    case Opaque => None
  }

  function EvalElement(known: Assignment, e: Element, paths: PathLibrary): Option<Value> {
    match e case Item(expr) => EvalIn(known, expr, paths) case Spread => None
  }

  /** One round of the equations. */
  function Round(p: Program, known: Assignment, paths: PathLibrary): Assignment {
    map b | b in p && p[b].Some? && EvalIn(known, p[b].value, paths).Some? :: EvalIn(known, p[b].value, paths).value
  }

  /** What is known after `n` rounds, from nothing. */
  function Known(p: Program, n: nat, paths: PathLibrary): Assignment {
    if n == 0 then map[] else Round(p, Known(p, n - 1, paths), paths)
  }

  /** The least solution: no more rounds than declarations are needed. */
  function Solution(p: Program, paths: PathLibrary): Assignment {
    Known(p, |p|, paths)
  }

  ghost predicate Within(a: Assignment, b: Assignment) {
    forall x | x in a :: x in b && b[x] == a[x]
  }

  lemma {:induction false} EvalMonotone(a: Assignment, b: Assignment, e: Expr, paths: PathLibrary)
    requires Within(a, b) && EvalIn(a, e, paths).Some?
    ensures EvalIn(b, e, paths) == EvalIn(a, e, paths)
  {
    match e
    case Wrapped(inner) => EvalMonotone(a, b, inner, paths);
    case Template(head, spans) =>
      var va := seq(|spans|, i requires 0 <= i < |spans| => EvalIn(a, spans[i].expr, paths));
      var vb := seq(|spans|, i requires 0 <= i < |spans| => EvalIn(b, spans[i].expr, paths));
      AllTextsNeedsAll(va);
      forall i | 0 <= i < |spans| ensures va[i] == vb[i] {
        assert va[i].Some?;
        EvalMonotone(a, b, spans[i].expr, paths);
      }
      assert va == vb;
    case ArrayLiteral(elements) =>
      var va := seq(|elements|, i requires 0 <= i < |elements| => EvalElement(a, elements[i], paths));
      var vb := seq(|elements|, i requires 0 <= i < |elements| => EvalElement(b, elements[i], paths));
      AllTextsNeedsAll(va);
      forall i | 0 <= i < |elements| ensures va[i] == vb[i] {
        assert va[i].Some?;
        EvalMonotone(a, b, elements[i].expr, paths);
      }
      assert va == vb;
    case Plus(left, right) => EvalMonotone(a, b, left, paths); EvalMonotone(a, b, right, paths);
    case MethodJoin(receiver, args) =>
      EvalMonotone(a, b, receiver, paths);
      if args != [] { EvalMonotone(a, b, args[0], paths); }
    case Call(callee, args) =>
      var va := seq(|args|, i requires 0 <= i < |args| => EvalIn(a, args[i], paths));
      var vb := seq(|args|, i requires 0 <= i < |args| => EvalIn(b, args[i], paths));
      AllTextsNeedsAll(va);
      forall i | 0 <= i < |args| ensures va[i] == vb[i] { assert va[i].Some?; EvalMonotone(a, b, args[i], paths); }
      assert va == vb;
    case _ =>
  }

  lemma {:induction false} RoundsGrow(p: Program, n: nat, paths: PathLibrary)
    ensures Within(Known(p, n, paths), Known(p, n + 1, paths))
  {
    if n > 0 {
      RoundsGrow(p, n - 1, paths);
      forall b | b in Known(p, n, paths)
        ensures b in Known(p, n + 1, paths) && Known(p, n + 1, paths)[b] == Known(p, n, paths)[b]
      {
        EvalMonotone(Known(p, n - 1, paths), Known(p, n, paths), p[b].value, paths);
      }
    }
  }

  lemma {:induction false} SmallerMap(a: Assignment, b: Assignment)
    requires Within(a, b) && a != b
    ensures |a| < |b|
  {
    assert a.Keys == b.Keys ==> a == b;
    SmallerSet(a.Keys, b.Keys);
  }

  lemma {:induction false} SmallerSet(a: set<Id>, b: set<Id>)
    requires a < b
    ensures |a| < |b|
  {
    assert b == a + (b - a) && |b| == |a| + |b - a|;
  }

  /** Either `n` declarations are known after `n` rounds, or the equations have settled. */
  lemma {:induction false} RoundsSettle(p: Program, n: nat, paths: PathLibrary)
    ensures Known(p, n + 1, paths) == Known(p, n, paths) || |Known(p, n + 1, paths)| > n
  {
    RoundsGrow(p, n, paths);
    if Known(p, n + 1, paths) != Known(p, n, paths) {
      SmallerMap(Known(p, n, paths), Known(p, n + 1, paths));
      if n > 0 { RoundsSettle(p, n - 1, paths); }
    }
  }

  /** `Solution` solves the equations. */
  lemma {:induction false} SolutionIsFixed(p: Program, paths: PathLibrary)
    ensures Round(p, Solution(p, paths), paths) == Solution(p, paths)
  {
    RoundsSettle(p, |p|, paths);
    var next := Known(p, |p| + 1, paths);
    assert next.Keys <= p.Keys;
    if next.Keys != p.Keys { SmallerSet(next.Keys, p.Keys); }
  }

  /** Every solution of the equations extends it. */
  lemma {:induction false} SolutionIsLeast(p: Program, paths: PathLibrary, other: Assignment, n: nat)
    requires Within(Round(p, other, paths), other)
    ensures Within(Known(p, n, paths), other)
  {
    if n > 0 {
      SolutionIsLeast(p, paths, other, n - 1);
      forall b | b in Known(p, n, paths) ensures b in other && other[b] == Known(p, n, paths)[b] {
        EvalMonotone(Known(p, n - 1, paths), other, p[b].value, paths);
        assert b in Round(p, other, paths);
      }
    }
  }

  /** The parts without which an expression has no value. */
  predicate IsPart(e: Expr, part: Expr) {
    match e
    case Template(_, spans) => exists i | 0 <= i < |spans| :: spans[i].expr == part
    case ArrayLiteral(elements) => Item(part) in elements
    case Plus(left, right) => part == left || part == right
    case MethodJoin(receiver, args) => part == receiver || (args != [] && part == args[0])
    case Call(callee, args) => part in args
    case _ => false
  }

  lemma {:induction false} PartsAreNeeded(known: Assignment, e: Expr, part: Expr, paths: PathLibrary)
    requires IsPart(e, part) && EvalIn(known, e, paths).Some?
    ensures EvalIn(known, part, paths).Some?
  {
    match e
    case Template(head, spans) =>
      var values := seq(|spans|, i requires 0 <= i < |spans| => EvalIn(known, spans[i].expr, paths));
      AllTextsNeedsAll(values);
      var i :| 0 <= i < |spans| && spans[i].expr == part;
      assert values[i].Some?;
    case ArrayLiteral(elements) =>
      var values := seq(|elements|, i requires 0 <= i < |elements| => EvalElement(known, elements[i], paths));
      AllTextsNeedsAll(values);
      var i :| 0 <= i < |elements| && elements[i] == Item(part);
      assert values[i].Some?;
    case Call(callee, args) =>
      var values := seq(|args|, i requires 0 <= i < |args| => EvalIn(known, args[i], paths));
      AllTextsNeedsAll(values);
      var i :| 0 <= i < |args| && args[i] == part;
      assert values[i].Some?;
    case _ =>
  }

  // ----- Cycles

  /** Whatever round first knows a declaration under evaluation, the round before evaluates `e`. */
  ghost predicate Demanded(p: Program, paths: PathLibrary, evaluating: set<Id>, e: Expr) {
    forall b, n: nat | b in evaluating && b in Known(p, n, paths) ::
      n > 0 && EvalIn(Known(p, n - 1, paths), e, paths).Some?
  }

  /** A declaration that needs itself is known in no round. */
  lemma {:induction false} CyclesAreUnknown(p: Program, paths: PathLibrary, evaluating: set<Id>, b: Id, n: nat)
    requires b in evaluating && Demanded(p, paths, evaluating, Identifier(Some(b)))
    ensures b !in Known(p, n, paths)
  {
    if n > 0 {
      CyclesAreUnknown(p, paths, evaluating, b, n - 1);
    }
  }

  lemma {:induction false} DemandsPart(p: Program, paths: PathLibrary, evaluating: set<Id>, e: Expr, part: Expr)
    requires Demanded(p, paths, evaluating, e) && IsPart(e, part)
    ensures Demanded(p, paths, evaluating, part)
  {
    forall b, n: nat | b in evaluating && b in Known(p, n, paths)
      ensures n > 0 && EvalIn(Known(p, n - 1, paths), part, paths).Some?
    {
      PartsAreNeeded(Known(p, n - 1, paths), e, part, paths);
    }
  }

  lemma {:induction false} DemandsInitializer(p: Program, paths: PathLibrary, evaluating: set<Id>, b: Id)
    requires Demanded(p, paths, evaluating, Identifier(Some(b)))
    requires b in p && p[b].Some?
    ensures Demanded(p, paths, evaluating + {b}, p[b].value)
  {
    forall c, n: nat | c in evaluating + {b} && c in Known(p, n, paths)
      ensures n > 0 && EvalIn(Known(p, n - 1, paths), p[b].value, paths).Some?
    {
      if c in evaluating {
        assert EvalIn(Known(p, n - 1, paths), Identifier(Some(b)), paths).Some?;
        var m: nat := n - 1;
        assert m > 0 && EvalIn(Known(p, m - 1, paths), p[b].value, paths).Some?;
        RoundsGrow(p, m - 1, paths);
        EvalMonotone(Known(p, m - 1, paths), Known(p, m, paths), p[b].value, paths);
      }
    }
  }

  class StaticPathEvaluator {
    const program: Program
    const paths: PathLibrary
    var values: map<Id, Option<Value>>
    var evaluated: set<Id>
    var evaluating: set<Id>

    constructor (program: Program, paths: PathLibrary)
      ensures this.program == program && this.paths == paths && evaluating == {} && Valid()
    {
      this.program := program;
      this.paths := paths;
      values, evaluated, evaluating := map[], {}, {};
    }

    /** The memo holds final answers only, also for what was found undefined inside a cycle. */
    ghost predicate Valid()
      reads this
    {
      && evaluated <= values.Keys
      && (forall b | b in evaluated :: values[b] == Lookup(Solution(program, paths), b))
    }

    method EvaluateDeclaration(b: Id) returns (value: Option<Value>)
      requires Valid() && Demanded(program, paths, evaluating, Identifier(Some(b)))
      requires b in program
      modifies this
      ensures Valid() && evaluating == old(evaluating)
      ensures value == Lookup(Solution(program, paths), b)
      decreases program.Keys - evaluating, Identifier(Some(b)), 1
    {
      SolutionIsFixed(program, paths);
      if b in evaluated {
        return values[b];
      }
      if b in evaluating {
        CyclesAreUnknown(program, paths, evaluating, b, |program|);
        return None;
      }
      if program[b].None? {
        evaluated := evaluated + {b};
        values := values[b := None];
        return None;
      }
      DemandsInitializer(program, paths, evaluating, b);
      evaluating := evaluating + {b};
      value := Evaluate(program[b].value);
      evaluating := evaluating - {b};
      evaluated := evaluated + {b};
      values := values[b := value];
    }

    /** A part of `e`: a smaller expression that `e` cannot do without. */
    method EvaluatePart(ghost e: Expr, part: Expr) returns (value: Option<Value>)
      requires Valid() && Demanded(program, paths, evaluating, e) && IsPart(e, part) && part < e
      modifies this
      ensures Valid() && evaluating == old(evaluating)
      ensures value == EvalIn(Solution(program, paths), part, paths)
      decreases program.Keys - evaluating, e, 0
    {
      DemandsPart(program, paths, evaluating, e, part);
      value := Evaluate(part);
    }

    method EvaluateTemplate(e: Expr) returns (value: Option<Value>)
      requires e.Template? && Valid() && Demanded(program, paths, evaluating, e)
      modifies this
      ensures Valid() && evaluating == old(evaluating)
      ensures value == EvalIn(Solution(program, paths), e, paths)
      decreases program.Keys - evaluating, e, 1
    {
      hide Demanded, Solution, Fill;
      assert Fill(e.head, [], []) == e.head by { FillNothing(e.head); }
      ghost var solution := Solution(program, paths);
      ghost var values := seq(|e.spans|, i requires 0 <= i < |e.spans| => EvalIn(solution, e.spans[i].expr, paths));
      AllTextsNeedsAll(values);
      var result := e.head;
      ghost var texts := seq(|e.spans|, i requires 0 <= i < |e.spans| =>
                               if values[i].Some? && values[i].value.Text? then values[i].value.text else "");
      for i := 0 to |e.spans|
        invariant Valid() && evaluating == old(evaluating)
        invariant forall k | 0 <= k < i :: values[k] == Some(Text(texts[k]))
        invariant result == Fill(e.head, texts[..i], e.spans[..i])
      {
        var part := EvaluatePart(e, e.spans[i].expr);
        assert part == values[i];
        if part.None? || !part.value.Text? {
          return None;
        }
        FillOneMore(e.head, texts, e.spans, i);
        result := result + part.value.text + e.spans[i].text;
      }
      AllTextsAre(values, texts);
      assert texts[..|e.spans|] == texts && e.spans[..|e.spans|] == e.spans;
      value := Some(Text(result));
    }

    method EvaluateArray(e: Expr) returns (value: Option<Value>)
      requires e.ArrayLiteral? && Valid() && Demanded(program, paths, evaluating, e)
      modifies this
      ensures Valid() && evaluating == old(evaluating)
      ensures value == EvalIn(Solution(program, paths), e, paths)
      decreases program.Keys - evaluating, e, 1
    {
      ghost var solution := Solution(program, paths);
      ghost var values := seq(|e.elements|,
                              i requires 0 <= i < |e.elements| => EvalElement(solution, e.elements[i], paths));
      var items: seq<Option<Value>> := [];
      for i := 0 to |e.elements|
        invariant Valid() && evaluating == old(evaluating)
        invariant items == values[..i]
      {
        var item := None;
        if e.elements[i].Item? {
          item := EvaluatePart(e, e.elements[i].expr);
        }
        items := items + [item];
      }
      assert items == values;
      var texts := AllTexts(items);
      value := if texts.Some? then Some(Texts(texts.value)) else None;
    }

    method EvaluateCall(e: Expr) returns (value: Option<Value>)
      requires e.Call? && Valid() && Demanded(program, paths, evaluating, e)
      modifies this
      ensures Valid() && evaluating == old(evaluating)
      ensures value == EvalIn(Solution(program, paths), e, paths)
      decreases program.Keys - evaluating, e, 1
    {
      if e.callee != "join" && e.callee != "resolve" {
        return None;
      }
      ghost var solution := Solution(program, paths);
      ghost var values := seq(|e.args|, i requires 0 <= i < |e.args| => EvalIn(solution, e.args[i], paths));
      var parts: seq<Option<Value>> := [];
      for i := 0 to |e.args|
        invariant Valid() && evaluating == old(evaluating)
        invariant parts == values[..i]
      {
        var part := EvaluatePart(e, e.args[i]);
        parts := parts + [part];
      }
      assert parts == values;
      value := CallResult(e.callee, AllTexts(parts), paths);
    }

    /**
     `evaluate`: after any earlier queries, the value in the least solution, and
     undefined exactly where that is undefined.
     */
    method Evaluate(e: Expr) returns (value: Option<Value>)
      requires Valid() && Demanded(program, paths, evaluating, e)
      modifies this
      ensures Valid() && evaluating == old(evaluating)
      ensures value == EvalIn(Solution(program, paths), e, paths)
      decreases program.Keys - evaluating, e, 2
    {
      match e {
        case Wrapped(inner) =>
          value := Evaluate(inner);
        case Literal(text) =>
          value := Some(Text(text));
        case Identifier(declaration) =>
          if declaration.None? || declaration.value !in program {
            value := None;
          } else {
            value := EvaluateDeclaration(declaration.value);
          }
        case Template(_, _) =>
          value := EvaluateTemplate(e);
        case ArrayLiteral(_) =>
          value := EvaluateArray(e);
        case Plus(l, r) =>
          var left := EvaluatePart(e, l);
          var right := EvaluatePart(e, r);
          value := PlusResult(left, right);
        case MethodJoin(r, args) =>
          var receiver := EvaluatePart(e, r);
          var separator := Some(Text(","));
          if args != [] {
            separator := EvaluatePart(e, args[0]);
          }
          value := MethodJoinResult(receiver, separator);
        case Call(_, _) =>
          value := EvaluateCall(e);
        case Opaque =>
          value := None;
      }
    }

    /** No order of queries, and no cycle met on the way, changes an answer. */
    method EvaluateAll(queries: seq<Expr>) returns (answers: seq<Option<Value>>)
      requires Valid() && evaluating == {}
      modifies this
      ensures Valid() && evaluating == {}
      ensures |answers| == |queries|
      ensures forall i | 0 <= i < |queries| :: answers[i] == EvalIn(Solution(program, paths), queries[i], paths)
    {
      answers := [];
      for i := 0 to |queries|
        invariant Valid() && evaluating == {} && |answers| == i
        invariant forall k | 0 <= k < i :: answers[k] == EvalIn(Solution(program, paths), queries[k], paths)
      {
        var answer := Evaluate(queries[i]);
        answers := answers + [answer];
      }
    }
  }
}
