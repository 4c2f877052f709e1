/** The calculator: parsing reverse Polish notation and evaluating the tree (calculator/calc/). */
module Rpn {
  import opened Prelude

  /** ZeroDivision comes from evaluation, the others from the parser. */
  datatype Problem = IndexError | ValueError | AssertionError | ZeroDivisionError

  datatype BinaryOperator = BinaryOperator(text: string, on: (real, real) -> Result<real, Problem>)

  datatype ExpressionNode =
    | ValueNode(val: real)
    | OperatorNode(executor: BinaryOperator, l: ExpressionNode, r: ExpressionNode)
  {
    function Evaluate(): Result<real, Problem> {
      match this
      case ValueNode(val) => Ok(val)
      case OperatorNode(executor, l, r) =>
        var a := l.Evaluate();
        if a.Err? then a
        else
          var b := r.Evaluate();
          if b.Err? then b else executor.on(a.value, b.value)
    }
  }

  // ---------------------------------------------------------------------------- operators

  function Add(a: real, b: real): Result<real, Problem> { Ok(a + b) }

  function Multiply(a: real, b: real): Result<real, Problem> { Ok(a * b) }

  /** Built from the injected adding and multiplying operators. */
  function Subtract(a: real, b: real): Result<real, Problem> {
    var negated := Multiply(b, -1.0);
    if negated.Err? then negated else Add(a, negated.value)
  }

  function Divide(a: real, b: real): Result<real, Problem> {
    if b == 0.0 then Err(ZeroDivisionError) else Ok(a / b)
  }

  function Adding(): BinaryOperator { BinaryOperator("+", (a, b) => Add(a, b)) }

  function Multiplying(): BinaryOperator { BinaryOperator("x", (a, b) => Multiply(a, b)) }

  function Subtracting(): BinaryOperator { BinaryOperator("-", (a, b) => Subtract(a, b)) }

  function Dividing(): BinaryOperator { BinaryOperator("/", (a, b) => Divide(a, b)) }

  // ------------------------------------------------------------------------------ parsing

  /** The first operator with a text. */
  function Lookup(operators: seq<BinaryOperator>, s: string): (o: Option<BinaryOperator>)
    ensures o.Some? ==> o.value in operators && o.value.text == s
    ensures o.None? <==> forall p <- operators :: p.text != s
  {
    if operators == [] then None
    else if operators[0].text == s then Some(operators[0])
    else Lookup(operators[1..], s)
  }

  /** What the parser is given: the injected operators and `float`. */
  datatype Notation = Notation(operators: seq<BinaryOperator>, float: string -> Option<real>)
  {
    function Operator(s: string): Option<BinaryOperator> {
      Lookup(operators, s)
    }
  }

  type Stack = Result<seq<ExpressionNode>, Problem>

  function Step(n: Notation, s: string, stack: seq<ExpressionNode>): Stack {
    var o := n.Operator(s);
    if o.Some? then
      if |stack| < 2 then Err(IndexError)
      else Ok(stack[..|stack| - 2] + [OperatorNode(o.value, stack[|stack| - 2], stack[|stack| - 1])])
    else
      var v := n.float(s);
      if v.None? then Err(ValueError) else Ok(stack + [ValueNode(v.value)])
  }

  function Steps(n: Notation, symbols: seq<string>, stack: seq<ExpressionNode>): Stack {
    if symbols == [] then Ok(stack)
    else
      var next := Step(n, symbols[0], stack);
      if next.Err? then next else Steps(n, symbols[1..], next.value)
  }

  function Parsed(n: Notation, symbols: seq<string>): Result<ExpressionNode, Problem> {
    var stack := Steps(n, symbols, []);
    if stack.Err? then Err(stack.error)
    else if |stack.value| == 1 then Ok(stack.value[0])
    else Err(AssertionError)
  }

  class RPNParser {
    const notation: Notation

    constructor (n: Notation)
      ensures notation == n
    {
      notation := n;
    }

    /** The search among the operators: what the first with this text does to the stack. */
    method Operate(s: string, stack: seq<ExpressionNode>) returns (isOperator: bool, r: Stack)
      ensures isOperator <==> notation.Operator(s).Some?
      ensures isOperator ==> r == Step(notation, s, stack)
    {
      isOperator, r := false, Ok(stack);
      for o := 0 to |notation.operators|
        invariant notation.Operator(s) == Lookup(notation.operators[o..], s)
      {
        if notation.operators[o].text == s {
          if |stack| < 2 { return true, Err(IndexError); }
          var right, left := stack[|stack| - 1], stack[|stack| - 2];
          return true, Ok(stack[..|stack| - 2] + [OperatorNode(notation.operators[o], left, right)]);
        }
      }
    }

    method Parse(symbols: seq<string>) returns (r: Result<ExpressionNode, Problem>)
      ensures r == Parsed(notation, symbols)
    {
      var stack: seq<ExpressionNode> := [];
      for k := 0 to |symbols|
        invariant Steps(notation, symbols, []) == Steps(notation, symbols[k..], stack)
      {
        var s := symbols[k];
        assert symbols[k..][0] == s && symbols[k..][1..] == symbols[k + 1..];
        var isOperator, operated := Operate(s, stack);
        if isOperator {
          if operated.Err? { return Err(operated.error); }
          stack := operated.value;
        } else {
          var v := notation.float(s);
          if v.None? { return Err(ValueError); }
          stack := stack + [ValueNode(v.value)];
        }
      }
      if |stack| != 1 { return Err(AssertionError); }
      return Ok(stack[0]);
    }
  }

  // ------------------------------------------------------------- the language of the notation

  /** `symbols` is the postfix form of a tree, each number in any spelling. */
  ghost predicate Spells(n: Notation, symbols: seq<string>, tree: ExpressionNode)
    decreases tree
  {
    match tree
    case ValueNode(val) =>
      |symbols| == 1 && n.Operator(symbols[0]).None? && n.float(symbols[0]) == Some(val)
    case OperatorNode(executor, l, r) =>
      && symbols != []
      && n.Operator(symbols[|symbols| - 1]) == Some(executor)
      && exists k | 0 <= k < |symbols| :: Spells(n, symbols[..k], l) && Spells(n, symbols[k..|symbols| - 1], r)
  }

  /** The postfix forms of the trees on a stack, one after the other. */
  ghost predicate SpellsAll(n: Notation, symbols: seq<string>, stack: seq<ExpressionNode>)
    decreases |stack|
  {
    if stack == [] then symbols == []
    else exists k | 0 <= k <= |symbols| :: SpellsAll(n, symbols[..k], stack[..|stack| - 1]) && Spells(n, symbols[k..], stack[|stack| - 1])
  }

  lemma SplitSpelling(n: Notation, symbols: seq<string>, tree: ExpressionNode) returns (a: seq<string>, b: seq<string>, c: string)
    requires tree.OperatorNode? && Spells(n, symbols, tree)
    ensures symbols == a + (b + [c]) && n.Operator(c) == Some(tree.executor)
    ensures Spells(n, a, tree.l) && Spells(n, b, tree.r)
  {
    var last := |symbols| - 1;
    var k :| 0 <= k < |symbols| && Spells(n, symbols[..k], tree.l) && Spells(n, symbols[k..last], tree.r);
    a, b, c := symbols[..k], symbols[k..last], symbols[last];
  }

  lemma JoinSpelling(n: Notation, a: seq<string>, b: seq<string>, c: string, o: BinaryOperator, l: ExpressionNode, r: ExpressionNode)
    requires n.Operator(c) == Some(o) && Spells(n, a, l) && Spells(n, b, r)
    ensures Spells(n, a + (b + [c]), OperatorNode(o, l, r))
  {
    hide Lookup, Notation.Operator;
    var all := a + (b + [c]);
    assert all[..|a|] == a && all[|a|..|all| - 1] == b && all[|all| - 1] == c;
  }

  lemma SplitStack(n: Notation, symbols: seq<string>, stack: seq<ExpressionNode>, tree: ExpressionNode)
    returns (front: seq<string>, top: seq<string>)
    requires SpellsAll(n, symbols, stack + [tree])
    ensures symbols == front + top && SpellsAll(n, front, stack) && Spells(n, top, tree)
  {
    hide Spells;
    var all := stack + [tree];
    assert all[..|all| - 1] == stack && all[|all| - 1] == tree;
    var k :| 0 <= k <= |symbols| && SpellsAll(n, symbols[..k], stack) && Spells(n, symbols[k..], tree);
    front, top := symbols[..k], symbols[k..];
  }

  lemma JoinStack(n: Notation, front: seq<string>, top: seq<string>, stack: seq<ExpressionNode>, tree: ExpressionNode)
    requires SpellsAll(n, front, stack) && Spells(n, top, tree)
    ensures SpellsAll(n, front + top, stack + [tree])
  {
    hide Spells;
    assert (front + top)[..|front|] == front && (front + top)[|front|..] == top && (stack + [tree])[..|stack|] == stack;
  }

  lemma {:induction false} StepsAppend(n: Notation, a: seq<string>, b: seq<string>, stack: seq<ExpressionNode>)
    ensures var first := Steps(n, a, stack);
            Steps(n, a + b, stack) == if first.Err? then first else Steps(n, b, first.value)
  {
    if a == [] {
      assert a + b == b;
    } else {
      assert (a + b)[1..] == a[1..] + b;
      var next := Step(n, a[0], stack);
      if next.Ok? { StepsAppend(n, a[1..], b, next.value); }
    }
  }

  lemma StepsOne(n: Notation, s: string, stack: seq<ExpressionNode>)
    ensures Steps(n, [s], stack) == Step(n, s, stack)
  {
    assert [s][1..] == [];
  }

  /** Reading the postfix form of a tree leaves that tree on top of whatever was there. */
  lemma {:induction false} SpelledIsPushed(n: Notation, symbols: seq<string>, tree: ExpressionNode, stack: seq<ExpressionNode>)
    requires Spells(n, symbols, tree)
    ensures Steps(n, symbols, stack) == Ok(stack + [tree])
    decreases tree
  {
    match tree
    case ValueNode(val) =>
      assert symbols == [symbols[0]];
      StepsOne(n, symbols[0], stack);
    case OperatorNode(executor, l, r) =>
      var a, b, c := SplitSpelling(n, symbols, tree);
      hide Spells;
      SpelledIsPushed(n, a, l, stack);
      SpelledIsPushed(n, b, r, stack + [l]);
      StepsAppend(n, a, b + [c], stack);
      StepsAppend(n, b, [c], stack + [l]);
      StepsOne(n, c, stack + [l] + [r]);
      assert (stack + [l] + [r])[..|stack|] == stack;
  }

  lemma OperatorSpells(n: Notation, symbols: seq<string>, s: string, o: BinaryOperator,
        stack: seq<ExpressionNode>, l: ExpressionNode, r: ExpressionNode)
    requires SpellsAll(n, symbols, stack + [l] + [r]) && n.Operator(s) == Some(o)
    ensures SpellsAll(n, symbols + [s], stack + [OperatorNode(o, l, r)])
  {
    hide *;
    var front, right := SplitStack(n, symbols, stack + [l], r);
    var rest, left := SplitStack(n, front, stack, l);
    JoinSpelling(n, left, right, s, o, l, r);
    JoinStack(n, rest, left + (right + [s]), stack, OperatorNode(o, l, r));
    Reassociate(rest, left, right, [s]);
  }

  lemma Reassociate<T>(a: seq<T>, b: seq<T>, c: seq<T>, d: seq<T>)
    ensures a + (b + (c + d)) == ((a + b) + c) + d
  {
  }

  lemma StepSpells(n: Notation, symbols: seq<string>, s: string, stack: seq<ExpressionNode>)
    requires SpellsAll(n, symbols, stack) && Step(n, s, stack).Ok?
    ensures SpellsAll(n, symbols + [s], Step(n, s, stack).value)
  {
    if n.Operator(s).Some? {
      hide Spells, SpellsAll, Lookup;
      var rest, l, r := stack[..|stack| - 2], stack[|stack| - 2], stack[|stack| - 1];
      assert stack == rest + [l] + [r];
      OperatorSpells(n, symbols, s, n.Operator(s).value, rest, l, r);
    } else {
      var tree := ValueNode(n.float(s).value);
      assert Spells(n, [s], tree);
      hide Spells, SpellsAll;
      JoinStack(n, symbols, [s], stack, tree);
    }
  }

  lemma {:induction false} StepsSpell(n: Notation, before: seq<string>, symbols: seq<string>, stack: seq<ExpressionNode>)
    requires SpellsAll(n, before, stack) && Steps(n, symbols, stack).Ok?
    ensures SpellsAll(n, before + symbols, Steps(n, symbols, stack).value)
    decreases |symbols|
  {
    if symbols == [] {
      assert before + symbols == before;
    } else {
      StepSpells(n, before, symbols[0], stack);
      assert before + symbols == before + [symbols[0]] + symbols[1..];
      StepsSpell(n, before + [symbols[0]], symbols[1..], Step(n, symbols[0], stack).value);
    }
  }

  /** The parser accepts exactly the postfix forms of trees, and answers with the tree. */
  lemma ParsesPostfix(n: Notation, symbols: seq<string>, tree: ExpressionNode)
    ensures Parsed(n, symbols) == Ok(tree) <==> Spells(n, symbols, tree)
  {
    if Spells(n, symbols, tree) {
      SpelledIsPushed(n, symbols, tree, []);
    }
    if Parsed(n, symbols) == Ok(tree) {
      StepsSpell(n, [], symbols, []);
      var stack := Steps(n, symbols, []).value;
      assert [] + symbols == symbols && stack == [tree] && stack[..0] == [];
      var k :| 0 <= k <= |symbols| && SpellsAll(n, symbols[..k], []) && Spells(n, symbols[k..], tree);
      assert symbols[k..] == symbols;
    }
  }

  /** No input is the postfix form of two trees. */
  lemma Unambiguous(n: Notation, symbols: seq<string>, a: ExpressionNode, b: ExpressionNode)
    requires Spells(n, symbols, a) && Spells(n, symbols, b)
    ensures a == b
  {
    ParsesPostfix(n, symbols, a);
    ParsesPostfix(n, symbols, b);
  }

  // ------------------------------------------------------------------- printing and parsing

  /** A canonical postfix form, `show` spelling the numbers. */
  function Postfix(tree: ExpressionNode, show: real -> string): seq<string> {
    match tree
    case ValueNode(val) => [show(val)]
    case OperatorNode(executor, l, r) => Postfix(l, show) + Postfix(r, show) + [executor.text]
  }

  /** The parser finds the operators of a tree by their texts and reads its numbers as shown. */
  ghost predicate Written(n: Notation, tree: ExpressionNode, show: real -> string) {
    match tree
    case ValueNode(val) => n.Operator(show(val)).None? && n.float(show(val)) == Some(val)
    case OperatorNode(executor, l, r) =>
      n.Operator(executor.text) == Some(executor) && Written(n, l, show) && Written(n, r, show)
  }

  lemma {:induction false} PostfixSpells(n: Notation, tree: ExpressionNode, show: real -> string)
    requires Written(n, tree, show)
    ensures Spells(n, Postfix(tree, show), tree)
  {
    match tree
    case ValueNode(_) =>
    case OperatorNode(executor, l, r) =>
      PostfixSpells(n, l, show);
      PostfixSpells(n, r, show);
      JoinSpelling(n, Postfix(l, show), Postfix(r, show), executor.text, executor, l, r);
      assert Postfix(tree, show) == Postfix(l, show) + (Postfix(r, show) + [executor.text]);
  }

  /** Parsing the postfix form of a tree gives the tree back. */
  lemma RoundTrip(n: Notation, tree: ExpressionNode, show: real -> string)
    requires Written(n, tree, show)
    ensures Parsed(n, Postfix(tree, show)) == Ok(tree)
  {
    PostfixSpells(n, tree, show);
    ParsesPostfix(n, Postfix(tree, show), tree);
  }

  // ------------------------------------------------------------------------ which inputs fail

  /** Numbers less operators: how high the stack stands. */
  function Height(n: Notation, symbols: seq<string>): int {
    if symbols == [] then 0
    else Height(n, symbols[..|symbols| - 1]) + if n.Operator(symbols[|symbols| - 1]).Some? then -1 else 1
  }

  /** The symbol at `k` can be read: an operator has two operands, anything else is a number. */
  predicate Readable(n: Notation, symbols: seq<string>, k: nat)
    requires k < |symbols|
  {
    if n.Operator(symbols[k]).Some? then Height(n, symbols[..k]) >= 2 else n.float(symbols[k]).Some?
  }

  lemma {:induction false} StepsByHeight(n: Notation, symbols: seq<string>, k: nat)
    requires k <= |symbols| && forall j | 0 <= j < k :: Readable(n, symbols, j)
    ensures Steps(n, symbols[..k], []).Ok? && |Steps(n, symbols[..k], []).value| == Height(n, symbols[..k])
  {
    if k > 0 {
      StepsByHeight(n, symbols, k - 1);
      assert symbols[..k][..k - 1] == symbols[..k - 1];
      assert symbols[..k] == symbols[..k - 1] + [symbols[k - 1]];
      assert Readable(n, symbols, k - 1);
      StepsAppend(n, symbols[..k - 1], [symbols[k - 1]], []);
      StepsOne(n, symbols[k - 1], Steps(n, symbols[..k - 1], []).value);
    }
  }

  /** The first symbol that cannot be read decides the error. */
  lemma FirstUnreadable(n: Notation, symbols: seq<string>, k: nat)
    requires k < |symbols| && !Readable(n, symbols, k) && forall j | 0 <= j < k :: Readable(n, symbols, j)
    ensures Parsed(n, symbols) == Err(if n.Operator(symbols[k]).Some? then IndexError else ValueError)
  {
    StepsByHeight(n, symbols, k);
    var a, s, b := symbols[..k], symbols[k], symbols[k + 1..];
    assert symbols == a + ([s] + b);
    StepsAppend(n, a, [s] + b, []);
    StepsAppend(n, [s], b, Steps(n, a, []).value);
    StepsOne(n, s, Steps(n, a, []).value);
  }

  /** Input is accepted exactly when every symbol can be read and one tree remains. */
  lemma AcceptsWellFormed(n: Notation, symbols: seq<string>)
    ensures Parsed(n, symbols).Ok? <==> (forall j | 0 <= j < |symbols| :: Readable(n, symbols, j)) && Height(n, symbols) == 1
    ensures (forall j | 0 <= j < |symbols| :: Readable(n, symbols, j)) && Height(n, symbols) != 1 ==> Parsed(n, symbols) == Err(AssertionError)
  {
    if forall j | 0 <= j < |symbols| :: Readable(n, symbols, j) {
      StepsByHeight(n, symbols, |symbols|);
      assert symbols[..|symbols|] == symbols;
    } else {
      FirstBad(n, symbols, 0);
    }
  }

  lemma {:induction false} FirstBad(n: Notation, symbols: seq<string>, k: nat)
    requires k <= |symbols| && (forall j | 0 <= j < k :: Readable(n, symbols, j))
    requires exists j | 0 <= j < |symbols| :: !Readable(n, symbols, j)
    ensures Parsed(n, symbols).Err?
    decreases |symbols| - k
  {
    if !Readable(n, symbols, k) {
      FirstUnreadable(n, symbols, k);
    } else {
      FirstBad(n, symbols, k + 1);
    }
  }

  // --------------------------------------------------------------------------- evaluation

  type Values = Result<seq<real>, Problem>

  /** The same symbols on a stack of numbers, without a tree. */
  function Compute(n: Notation, symbols: seq<string>, stack: seq<real>): Values {
    if symbols == [] then Ok(stack)
    else
      var o := n.Operator(symbols[0]);
      if o.Some? then
        if |stack| < 2 then Err(IndexError)
        else
          var r := o.value.on(stack[|stack| - 2], stack[|stack| - 1]);
          if r.Err? then Err(r.error) else Compute(n, symbols[1..], stack[..|stack| - 2] + [r.value])
      else
        var v := n.float(symbols[0]);
        if v.None? then Err(ValueError) else Compute(n, symbols[1..], stack + [v.value])
  }

  lemma {:induction false} ComputeAppend(n: Notation, a: seq<string>, b: seq<string>, stack: seq<real>)
    ensures var first := Compute(n, a, stack);
            Compute(n, a + b, stack) == if first.Err? then first else Compute(n, b, first.value)
  {
    if a == [] {
      assert a + b == b;
    } else {
      assert (a + b)[1..] == a[1..] + b;
      var o, v := n.Operator(a[0]), n.float(a[0]);
      if o.Some? {
        if |stack| >= 2 {
          var r := o.value.on(stack[|stack| - 2], stack[|stack| - 1]);
          if r.Ok? { ComputeAppend(n, a[1..], b, stack[..|stack| - 2] + [r.value]); }
        }
      } else if v.Some? {
        ComputeAppend(n, a[1..], b, stack + [v.value]);
      }
    }
  }

  function Pushed(stack: seq<real>, r: Result<real, Problem>): Values {
    if r.Err? then Err(r.error) else Ok(stack + [r.value])
  }

  /** An operator symbol takes the two numbers on top. */
  lemma ComputesOperator(n: Notation, c: string, o: BinaryOperator, stack: seq<real>, x: real, y: real)
    requires n.Operator(c) == Some(o)
    ensures Compute(n, [c], stack + [x] + [y]) == Pushed(stack, o.on(x, y))
  {
    hide Notation.Operator;
    var both := stack + [x] + [y];
    assert both[..|both| - 2] == stack && [c][1..] == [];
  }

  lemma {:induction false} ComputesTree(n: Notation, symbols: seq<string>, tree: ExpressionNode, stack: seq<real>)
    requires Spells(n, symbols, tree)
    ensures Compute(n, symbols, stack) == Pushed(stack, tree.Evaluate())
    decreases tree
  {
    match tree
    case ValueNode(val) =>
      assert symbols[1..] == [];
    case OperatorNode(executor, l, r) =>
      var a, b, c := SplitSpelling(n, symbols, tree);
      hide Spells, Compute, Notation.Operator;
      ComputesTree(n, a, l, stack);
      ComputeAppend(n, a, b + [c], stack);
      if l.Evaluate().Ok? {
        var left := stack + [l.Evaluate().value];
        ComputesTree(n, b, r, left);
        ComputeAppend(n, b, [c], left);
        if r.Evaluate().Ok? { ComputesOperator(n, c, executor, stack, l.Evaluate().value, r.Evaluate().value); }
      }
  }

  /** Evaluating the parsed tree gives what a machine with a stack of numbers gives, errors of
      the operators included. */
  lemma EvaluatesAsMachine(n: Notation, symbols: seq<string>)
    requires Parsed(n, symbols).Ok?
    ensures Compute(n, symbols, []) == Pushed([], Parsed(n, symbols).value.Evaluate())
  {
    ParsesPostfix(n, symbols, Parsed(n, symbols).value);
    ComputesTree(n, symbols, Parsed(n, symbols).value, []);
  }

  /** Ordinary arithmetic; no value when something is divided by zero. */
  function Meaning(tree: ExpressionNode): Option<real> {
    match tree
    case ValueNode(val) => Some(val)
    case OperatorNode(executor, l, r) =>
      var a, b := Meaning(l), Meaning(r);
      if a.None? || b.None? then None
      else if executor.text == "+" then Some(a.value + b.value)
      else if executor.text == "-" then Some(a.value - b.value)
      else if executor.text == "x" then Some(a.value * b.value)
      else if b.value == 0.0 then None
      else Some(a.value / b.value)
  }

  ghost predicate Arithmetic(tree: ExpressionNode) {
    match tree
    case ValueNode(_) => true
    case OperatorNode(executor, l, r) =>
      && (executor == Adding() || executor == Multiplying() || executor == Subtracting() || executor == Dividing())
      && Arithmetic(l) && Arithmetic(r)
  }

  /** Adding the second operand times minus one is subtracting it. */
  lemma {:induction false} EvaluatesArithmetic(tree: ExpressionNode)
    requires Arithmetic(tree)
    ensures tree.Evaluate() == if Meaning(tree).Some? then Ok(Meaning(tree).value) else Err(ZeroDivisionError)
  {
    match tree
    case ValueNode(_) =>
    case OperatorNode(_, l, r) =>
      EvaluatesArithmetic(l);
      EvaluatesArithmetic(r);
  }
}
