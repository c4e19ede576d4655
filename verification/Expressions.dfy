/** The debugger's expression evaluator (commands.c): two stacks of twenty slots. */
module Expressions {
  import opened Bytes
  import opened Wrappers

  /** Operands are already read; brackets and operators are still characters. */
  datatype Token = Operand(value: word) | Symbol(ch: char)

  const SLOTS := 20

  function Precedence(ch: char): int {
    match ch
    case '+' => 1 case '-' => 1
    case '*' => 2 case '/' => 2 case '%' => 2
    case '(' => -2 case ')' => -3
    case _ => -1
  }

  predicate IsOperator(ch: char) { Precedence(ch) > 0 }

  /** 16-bit arithmetic; a division by zero has no result. */
  function RunOperator(ch: char, right: word, left: word): Option<word> {
    match ch
    case '+' => Some(Word(left + right))
    case '-' => Some(Word(left - right))
    case '*' => Some(Word(left * right))
    case '/' => if right == 0 then None else Some(Word(left / right))
    case '%' => if right == 0 then None else Some(Word(left % right))
    case _ => Some(0)
  }

  // ----- trees and what they mean

  datatype Expr = Num(value: word) | Bin(op: char, left: Expr, right: Expr) | Paren(inner: Expr)

  function Eval(e: Expr): Option<word> {
    match e
    case Num(v) => Some(v)
    case Paren(i) => Eval(i)
    case Bin(op, l, r) =>
      if Eval(l).Some? && Eval(r).Some? then RunOperator(op, Eval(r).value, Eval(l).value) else None
  }

  function Print(e: Expr): seq<Token> {
    match e
    case Num(v) => [Operand(v)]
    case Paren(i) => [Symbol('(')] + Print(i) + [Symbol(')')]
    case Bin(op, l, r) => Print(l) + [Symbol(op)] + Print(r)
  }

  /** How tightly the outermost construct binds. */
  function Level(e: Expr): int { if e.Bin? then Precedence(e.op) else 3 }

  /** The grammar: tighter operators to the left, tighter or equal ones to the right. */
  predicate Grammatical(e: Expr) {
    match e
    case Num(_) => true
    case Paren(i) => Grammatical(i)
    case Bin(op, l, r) =>
      IsOperator(op) && Grammatical(l) && Grammatical(r) && Level(l) > Precedence(op) && Level(r) >= Precedence(op)
  }

  /** Brackets put where the grammar needs them. */
  function Bracketed(e: Expr): Expr {
    match e
    case Num(_) => e
    case Paren(i) => Paren(Bracketed(i))
    case Bin(op, l, r) =>
      var l', r' := Bracketed(l), Bracketed(r);
      Bin(op, if Level(l') > Precedence(op) then l' else Paren(l'),
          if Level(r') >= Precedence(op) then r' else Paren(r'))
  }

  predicate ProperOperators(e: Expr) {
    match e
    case Num(_) => true
    case Paren(i) => ProperOperators(i)
    case Bin(op, l, r) => IsOperator(op) && ProperOperators(l) && ProperOperators(r)
  }

  /** Every tree can be written down, and means the same afterwards. */
  lemma {:induction false} BracketedIsGrammatical(e: Expr)
    requires ProperOperators(e)
    ensures Grammatical(Bracketed(e)) && Eval(Bracketed(e)) == Eval(e)
  {
    match e
    case Num(_) =>
    case Paren(i) => BracketedIsGrammatical(i);
    case Bin(op, l, r) =>
      BracketedIsGrammatical(l);
      BracketedIsGrammatical(r);
  }

  /** How many slots of each stack a tree takes. */
  function ValueDepth(e: Expr): nat {
    match e
    case Num(_) => 1
    case Paren(i) => ValueDepth(i)
    case Bin(_, l, r) => if ValueDepth(l) > 1 + ValueDepth(r) then ValueDepth(l) else 1 + ValueDepth(r)
  }

  function OperatorDepth(e: Expr): nat {
    match e
    case Num(_) => 0
    case Paren(i) => 1 + OperatorDepth(i)
    case Bin(_, l, r) => if OperatorDepth(l) > 1 + OperatorDepth(r) then OperatorDepth(l) else 1 + OperatorDepth(r)
  }

  // ----- the two-stack machine

  /** `Stuck`: a stack overflows, an operator lacks operands (the source then loops for ever), or a
      division by zero. */
  datatype Machine = Stuck | Stacks(vals: seq<word>, ops: seq<char>)

  /** Applies the operator on top of the stack. */
  function Applied(m: Machine): Machine
    requires m.Stacks? && m.ops != []
  {
    var n := |m.vals|;
    if n < 2 then Stuck
    else
      var v := RunOperator(m.ops[|m.ops| - 1], m.vals[n - 1], m.vals[n - 2]);
      if v.None? then Stuck else Stacks(m.vals[..n - 2] + [v.value], m.ops[..|m.ops| - 1])
  }

  /** Applies operators while they bind tighter than `level`. */
  function Unwound(m: Machine, level: int): Machine
    decreases if m.Stacks? then |m.ops| else 0
  {
    if m.Stuck? || m.ops == [] || Precedence(m.ops[|m.ops| - 1]) <= level then m
    else if Applied(m).Stuck? then Stuck
    else Unwound(Applied(m), level)
  }

  /** A right parenthesis: applies operators back to the left one, and drops that. */
  function Closed(m: Machine): Machine
    decreases if m.Stacks? then |m.ops| else 0
  {
    if m.Stuck? || m.ops == [] then m
    else if Precedence(m.ops[|m.ops| - 1]) == -2 then m.(ops := m.ops[..|m.ops| - 1])
    else if Applied(m).Stuck? then Stuck
    else Closed(Applied(m))
  }

  function PushOp(m: Machine, ch: char): Machine {
    if m.Stuck? || |m.ops| >= SLOTS then Stuck else m.(ops := m.ops + [ch])
  }

  function Fed(m: Machine, t: Token): Machine {
    if m.Stuck? then Stuck
    else
      match t
      case Operand(v) => if |m.vals| >= SLOTS then Stuck else m.(vals := m.vals + [v])
      case Symbol(ch) =>
        if Precedence(ch) == -2 then PushOp(m, ch)
        else if Precedence(ch) == -3 then Closed(m)
        else PushOp(Unwound(m, Precedence(ch)), ch)
  }

  function Run(m: Machine, ts: seq<Token>): Machine
    decreases |ts|
  {
    if ts == [] then m else Run(Fed(m, ts[0]), ts[1..])
  }

  /** After the last token. A parenthesis left over, or too few values, makes the result 0. */
  function Finished(m: Machine): Option<word>
    decreases if m.Stacks? then |m.ops| else 0
  {
    if m.Stuck? then None
    else if m.ops == [] then if m.vals == [] then Some(0) else Some(m.vals[|m.vals| - 1])
    else if Precedence(m.ops[|m.ops| - 1]) == -2 || |m.vals| < 2 then Some(0)
    else if Applied(m).Stuck? then None
    else Finished(Applied(m))
  }

  function Outcome(ts: seq<Token>): Option<word> { Finished(Run(Stacks([], []), ts)) }

  // ----- the machine computes the meaning

  lemma {:induction false} RunAppend(m: Machine, a: seq<Token>, b: seq<Token>)
    ensures Run(m, a + b) == Run(Run(m, a), b)
    decreases |a|
  {
    if a == [] {
      assert a + b == b;
    } else {
      assert (a + b)[0] == a[0] && (a + b)[1..] == a[1..] + b;
      RunAppend(Fed(m, a[0]), a[1..], b);
    }
  }

  /** What a tree leaves on the stacks until something looser comes: the left operands and
      operators along its right edge. */
  function PendingVals(e: Expr): seq<word>
    requires Eval(e).Some?
  {
    if e.Bin? then [Eval(e.left).value] + PendingVals(e.right) else [Eval(e).value]
  }

  function PendingOps(e: Expr): seq<char> {
    if e.Bin? then [e.op] + PendingOps(e.right) else []
  }

  function Pending(m: Machine, e: Expr): Machine
    requires m.Stacks? && Eval(e).Some?
  {
    Stacks(m.vals + PendingVals(e), m.ops + PendingOps(e))
  }

  function WithValue(m: Machine, e: Expr): Machine
    requires m.Stacks? && Eval(e).Some?
  {
    Stacks(m.vals + [Eval(e).value], m.ops)
  }

  /** Whatever keeps applying operators looser than the tree's own gets to the tree's value. */
  lemma {:induction false} Collapses(m: Machine, e: Expr, level: int)
    requires m.Stacks? && Grammatical(e) && Eval(e).Some?
    ensures level < Level(e) ==> Unwound(Pending(m, e), level) == Unwound(WithValue(m, e), level)
    ensures Closed(Pending(m, e)) == Closed(WithValue(m, e))
    ensures Finished(Pending(m, e)) == Finished(WithValue(m, e))
    decreases e
  {
    if e.Bin? {
      var m1 := Stacks(m.vals + [Eval(e.left).value], m.ops + [e.op]);
      assert Pending(m, e) == Pending(m1, e.right) by {
        assert m.vals + PendingVals(e) == m1.vals + PendingVals(e.right);
        assert m.ops + PendingOps(e) == m1.ops + PendingOps(e.right);
      }
      Collapses(m1, e.right, level);
      var m2 := WithValue(m1, e.right);
      assert m2.vals[..|m2.vals| - 2] == m.vals && m2.ops[..|m2.ops| - 1] == m.ops;
      assert Applied(m2) == WithValue(m, e);
    } else {
      assert Pending(m, e) == WithValue(m, e);
    }
  }

  /** Nothing on the operator stack binds tighter than the tree. */
  predicate Below(m: Machine, e: Expr)
    requires m.Stacks?
  {
    m.ops == [] || Precedence(m.ops[|m.ops| - 1]) <= Level(e)
  }

  predicate Fits(m: Machine, e: Expr)
    requires m.Stacks?
  {
    |m.vals| + ValueDepth(e) <= SLOTS && |m.ops| + OperatorDepth(e) <= SLOTS
  }

  /** An operator looser than the pending tree before it reduces that tree to its value. */
  lemma ReadsOperator(m: Machine, op: char, l: Expr)
    requires m.Stacks? && IsOperator(op) && Grammatical(l) && Eval(l).Some? && Level(l) > Precedence(op)
    requires m.ops == [] || Precedence(m.ops[|m.ops| - 1]) <= Precedence(op)
    requires |m.ops| < SLOTS
    ensures Run(Pending(m, l), [Symbol(op)]) == Stacks(m.vals + [Eval(l).value], m.ops + [op])
  {
    Collapses(m, l, Precedence(op));
    var m1 := Pending(m, l);
    RunOne(m1, Symbol(op));
  }

  lemma RunOne(m: Machine, t: Token)
    ensures Run(m, [t]) == Fed(m, t)
  {
    assert Run(m, [t]) == Run(Fed(m, t), [t][1..]);
  }

  /** Reading a printed tree leaves it pending, wherever it stands. */
  lemma {:induction false} ReadsTree(m: Machine, e: Expr)
    requires m.Stacks? && Grammatical(e) && Eval(e).Some? && Below(m, e) && Fits(m, e)
    ensures Run(m, Print(e)) == Pending(m, e)
    decreases e, 0
  {
    match e
    case Num(v) => ReadsOperand(m, v);
    case Paren(i) => ReadsParen(m, i);
    case Bin(op, l, r) =>
      Parts(m, op, l, r);
      hide Run, Fed, Below, Fits, Grammatical, Pending, Eval;
      RunAppend(m, Print(l) + [Symbol(op)], Print(r));
      RunAppend(m, Print(l), [Symbol(op)]);
      ReadsTree(m, l);
      ReadsOperator(m, op, l);
      ReadsTree(Stacks(m.vals + [Eval(l).value], m.ops + [op]), r);
  }

  /** Both operands of an operator can be read, the right one on top of the left one's value. */
  lemma Parts(m: Machine, op: char, l: Expr, r: Expr)
    requires var e := Bin(op, l, r); m.Stacks? && Grammatical(e) && Eval(e).Some? && Below(m, e) && Fits(m, e)
    ensures Grammatical(l) && Eval(l).Some? && Below(m, l) && Fits(m, l)
    ensures IsOperator(op) && Level(l) > Precedence(op) && |m.ops| < SLOTS
    ensures m.ops == [] || Precedence(m.ops[|m.ops| - 1]) <= Precedence(op)
    ensures var m2 := Stacks(m.vals + [Eval(l).value], m.ops + [op]);
            && Grammatical(r) && Eval(r).Some? && Below(m2, r) && Fits(m2, r)
            && Pending(m2, r) == Pending(m, Bin(op, l, r))
  {
    hide Run, Fed;
    DepthPositive(r);
    var e, m2 := Bin(op, l, r), Stacks(m.vals + [Eval(l).value], m.ops + [op]);
    assert m2.vals + PendingVals(r) == m.vals + PendingVals(e);
    assert m2.ops + PendingOps(r) == m.ops + PendingOps(e);
  }

  lemma ReadsOperand(m: Machine, v: word)
    requires m.Stacks? && Fits(m, Num(v))
    ensures Run(m, Print(Num(v))) == Pending(m, Num(v))
  {
    RunOne(m, Operand(v));
    assert m.ops + [] == m.ops;
  }

  lemma DepthPositive(e: Expr)
    ensures ValueDepth(e) >= 1
  {
  }

  lemma ReadsParen(m: Machine, i: Expr)
    requires m.Stacks? && Grammatical(i) && Eval(i).Some? && Fits(m, Paren(i))
    ensures Run(m, Print(Paren(i))) == Pending(m, Paren(i))
    decreases i, 1
  {
    RunAppend(m, [Symbol('(')] + Print(i), [Symbol(')')]);
    RunAppend(m, [Symbol('(')], Print(i));
    var m1 := Stacks(m.vals, m.ops + ['(']);
    assert Run(m, [Symbol('(')]) == Run(Fed(m, Symbol('(')), []) == m1;
    ReadsTree(m1, i);
    var m2 := Pending(m1, i);
    assert Run(m2, [Symbol(')')]) == Run(Fed(m2, Symbol(')')), []) == Closed(m2);
    Collapses(m1, i, 0);
    var m3 := WithValue(m1, i);
    assert m3.ops[..|m3.ops| - 1] == m.ops;
    assert m.ops + [] == m.ops;
  }

  /** Evaluating the printed form of a tree gives its value modulo 2^16, and neither stack
      underflows or overflows on the way. */
  lemma EvaluatesTree(e: Expr)
    requires Grammatical(e) && Eval(e).Some?
    requires ValueDepth(e) <= SLOTS && OperatorDepth(e) <= SLOTS
    ensures Outcome(Print(e)) == Eval(e)
    ensures Run(Stacks([], []), Print(e)).Stacks?
  {
    var m := Stacks([], []);
    ReadsTree(m, e);
    Collapses(m, e, 0);
    assert WithValue(m, e).vals == [Eval(e).value];
  }

  /** Operators of equal precedence group to the right: a - b - c is a - (b - c). */
  lemma GroupsRight(a: word, b: word, c: word)
    ensures Outcome([Operand(a), Symbol('-'), Operand(b), Symbol('-'), Operand(c)]) == Some(Word(a - Word(b - c)))
  {
    var i := Bin('-', Num(b), Num(c));
    assert Precedence('-') == 1 && Level(Num(b)) == Level(Num(c)) == Level(Num(a)) == 3;
    assert Eval(i) == Some(Word(b - c)) && ValueDepth(i) == 2 && OperatorDepth(i) == 1;
    assert Print(i) == [Operand(b), Symbol('-'), Operand(c)] && Level(i) == 1 && Grammatical(i);
    var e := Bin('-', Num(a), i);
    assert Print(e) == [Operand(a), Symbol('-'), Operand(b), Symbol('-'), Operand(c)];
    EvaluatesTree(e);
  }

  // ----- the outcome as arithmetic

  /** Trees over + - * and brackets, and what they mean over all the integers. */
  predicate Whole(e: Expr) {
    match e
    case Num(_) => true
    case Paren(i) => Whole(i)
    case Bin(op, l, r) => (op == '+' || op == '-' || op == '*') && Whole(l) && Whole(r)
  }

  function Meaning(e: Expr): int
    requires Whole(e)
  {
    match e
    case Num(v) => v
    case Paren(i) => Meaning(i)
    case Bin(op, l, r) =>
      if op == '+' then Meaning(l) + Meaning(r)
      else if op == '-' then Meaning(l) - Meaning(r)
      else Meaning(l) * Meaning(r)
  }

  predicate FitsStacks(e: Expr) { ValueDepth(e) <= SLOTS && OperatorDepth(e) <= SLOTS }

  /** Wrapping at every step comes to the same as wrapping once at the end. */
  lemma {:induction false} WrapsOnce(e: Expr)
    requires Whole(e)
    ensures Eval(e) == Some(Word(Meaning(e)))
  {
    match e
    case Num(_) =>
    case Paren(i) => WrapsOnce(i);
    case Bin(op, l, r) =>
      WrapsOnce(l);
      WrapsOnce(r);
      WordSum(Meaning(l), Meaning(r));
      WordDifference(Meaning(l), Meaning(r));
      WordProduct(Meaning(l), Meaning(r));
      hide Word;
  }

  lemma WordSum(a: int, b: int)
    ensures Word(Word(a) + Word(b)) == Word(a + b)
  {
  }

  lemma WordDifference(a: int, b: int)
    ensures Word(Word(a) - Word(b)) == Word(a - b)
  {
  }

  lemma WordProduct(a: int, b: int)
    ensures Word(Word(a) * Word(b)) == Word(a * b)
  {
    var p: int, q: int := a / 0x10000, b / 0x10000;
    var x: int, y: int := Word(a), Word(b);
    Expand(p, x, q, y);
    Multiple(x * y, p * (q * 0x10000 + y) + x * q);
  }

  lemma Expand(p: int, x: int, q: int, y: int)
    ensures (p * 0x10000 + x) * (q * 0x10000 + y) == (p * (q * 0x10000 + y) + x * q) * 0x10000 + x * y
  {
    var b := q * 0x10000 + y;
    assert (p * 0x10000 + x) * b == (p * b) * 0x10000 + x * b;
    assert x * b == (x * q) * 0x10000 + x * y;
  }

  lemma Multiple(x: int, k: int)
    ensures Word(k * 0x10000 + x) == Word(x)
  {
  }

  /** The outcome of a printed tree over + - * is the value the integers give it, modulo 2^16. */
  lemma WholeOutcome(e: Expr)
    requires Grammatical(e) && Whole(e) && FitsStacks(e)
    ensures Outcome(Print(e)) == Some(Word(Meaning(e)))
  {
    WrapsOnce(e);
    EvaluatesTree(e);
  }

  /** `/` and `%` are the quotient and the remainder: the dividend is put together from them
      again. Either has no outcome exactly when the divisor is 0. */
  lemma Division(l: Expr, r: Expr)
    requires var q, m := Bin('/', l, r), Bin('%', l, r);
             Grammatical(q) && Grammatical(m) && FitsStacks(q) && Eval(l).Some? && Eval(r).Some?
    ensures var x, y := Eval(l).value, Eval(r).value;
            var q, m := Outcome(Print(Bin('/', l, r))), Outcome(Print(Bin('%', l, r)));
            if y == 0 then q == None && m == None
            else q.Some? && m.Some? && x == q.value * y + m.value && m.value < y
  {
    var x, y := Eval(l).value, Eval(r).value;
    if y != 0 {
      EvaluatesTree(Bin('/', l, r));
      EvaluatesTree(Bin('%', l, r));
      Quotient(x, y);
    } else {
      DividesByZero('/', l, r);
      DividesByZero('%', l, r);
    }
  }

  lemma DividesByZero(op: char, l: Expr, r: Expr)
    requires (op == '/' || op == '%') && Grammatical(Bin(op, l, r)) && FitsStacks(Bin(op, l, r))
    requires Eval(l).Some? && Eval(r) == Some(0)
    ensures Outcome(Print(Bin(op, l, r))) == None
  {
    var m := Stacks([], []);
    var m2 := Stacks([Eval(l).value], [op]);
    hide Run, Fed, Below, Fits, FitsStacks, Grammatical, Pending, Precedence, Finished, Eval, Outcome;
    BothFit(op, l, r);
    assert [] + [Eval(l).value] == [Eval(l).value] && [] + [op] == [op];
    DividedByZero(op, Eval(l).value);
    RunAppend(m, Print(l) + [Symbol(op)], Print(r));
    RunAppend(m, Print(l), [Symbol(op)]);
    ReadsTree(m, l);
    ReadsOperator(m, op, l);
    ReadsTree(m2, r);
    Collapses(m2, r, 0);
    assert WithValue(m2, r) == Stacks([Eval(l).value, 0], [op]);
  }

  lemma BothFit(op: char, l: Expr, r: Expr)
    requires (op == '/' || op == '%') && Grammatical(Bin(op, l, r)) && FitsStacks(Bin(op, l, r)) && Eval(l).Some?
    ensures var m, m2 := Stacks([], []), Stacks([Eval(l).value], [op]);
            Below(m, l) && Fits(m, l) && Below(m2, r) && Fits(m2, r) && Grammatical(l) && Grammatical(r)
  {
    DepthPositive(r);
    assert Precedence(op) == 2;
    hide Eval;
  }

  lemma DividedByZero(op: char, x: word)
    requires op == '/' || op == '%'
    ensures Finished(Stacks([x, 0], [op])) == None
  {
  }

  lemma Quotient(x: word, y: word)
    requires y != 0
    ensures Word(x / y) == x / y && Word(x % y) == x % y && x == x / y * y + x % y
  {
    Shrinks(x, y, x / y);
  }

  lemma Shrinks(x: int, y: int, q: int)
    requires y >= 1 && q == x / y && x >= 0
    ensures 0 <= q <= x
  {
    assert x == q * y + x % y;
  }

  /** `*` binds tighter than `+` on either side, and division too; in plain arithmetic. */
  lemma MixedPrecedence(a: word, b: word, c: word)
    ensures Outcome([Operand(a), Symbol('+'), Operand(b), Symbol('*'), Operand(c)]) == Some(Word(a + b * c))
    ensures Outcome([Operand(a), Symbol('*'), Operand(b), Symbol('+'), Operand(c)]) == Some(Word(a * b + c))
    ensures c != 0 ==> Outcome([Operand(a), Symbol('+'), Operand(b), Symbol('/'), Operand(c)]) == Some(Word(a + b / c))
  {
    assert Precedence('+') == 1 && Precedence('*') == 2 && Precedence('/') == 2;
    assert Level(Num(a)) == Level(Num(b)) == Level(Num(c)) == 3;
    Sandwich('+', a, '*', b, c);
    Sandwich('+', a, '/', b, c);
    SandwichLeft('*', a, '+', b, c);
    WordPlus(b * c, a);
    WordPlus(a * b, c);
    if c != 0 { Quotient(b, c); }
    hide Word, Outcome;
  }

  lemma TwoNumbers(op: char, a: word, b: word)
    requires IsOperator(op) && Precedence(op) < 3
    ensures var e := Bin(op, Num(a), Num(b));
            && Grammatical(e) && Level(e) == Precedence(op) && ValueDepth(e) == 2 && OperatorDepth(e) == 1
            && Print(e) == [Operand(a), Symbol(op), Operand(b)] && Eval(e) == RunOperator(op, b, a)
  {
    hide RunOperator, Precedence;
    assert Level(Num(a)) == Level(Num(b)) == 3 && Grammatical(Num(a)) && Grammatical(Num(b));
    assert Eval(Num(a)) == Some(a) && Eval(Num(b)) == Some(b);
    assert ValueDepth(Num(a)) == ValueDepth(Num(b)) == 1 && OperatorDepth(Num(a)) == OperatorDepth(Num(b)) == 0;
    assert Print(Num(a)) == [Operand(a)] && Print(Num(b)) == [Operand(b)];
  }

  /** a `op` (b `tight` c), when `tight` binds at least as tight. */
  lemma Sandwich(op: char, a: word, tight: char, b: word, c: word)
    requires IsOperator(op) && IsOperator(tight) && Precedence(tight) >= Precedence(op) && Precedence(op) < 3
    requires Precedence(tight) < 3
    ensures RunOperator(tight, c, b).Some? && RunOperator(op, RunOperator(tight, c, b).value, a).Some? ==>
              Outcome([Operand(a), Symbol(op), Operand(b), Symbol(tight), Operand(c)])
              == RunOperator(op, RunOperator(tight, c, b).value, a)
  {
    var i := Bin(tight, Num(b), Num(c));
    var e := Bin(op, Num(a), i);
    TwoNumbers(tight, b, c);
    hide RunOperator, Precedence, Outcome;
    assert Level(Num(a)) == 3 && Grammatical(Num(a)) && Eval(Num(a)) == Some(a) && Print(Num(a)) == [Operand(a)];
    assert Print(e) == [Operand(a), Symbol(op), Operand(b), Symbol(tight), Operand(c)];
    if Eval(i).Some? && Eval(e).Some? { EvaluatesTree(e); }
  }

  /** (a `tight` b) `op` c. */
  lemma SandwichLeft(tight: char, a: word, op: char, b: word, c: word)
    requires IsOperator(op) && IsOperator(tight) && Precedence(op) < Precedence(tight) < 3
    ensures RunOperator(tight, b, a).Some? && RunOperator(op, c, RunOperator(tight, b, a).value).Some? ==>
              Outcome([Operand(a), Symbol(tight), Operand(b), Symbol(op), Operand(c)])
              == RunOperator(op, c, RunOperator(tight, b, a).value)
  {
    var i := Bin(tight, Num(a), Num(b));
    var e := Bin(op, i, Num(c));
    TwoNumbers(tight, a, b);
    hide RunOperator, Precedence, Outcome;
    assert Level(Num(c)) == 3 && Grammatical(Num(c)) && Eval(Num(c)) == Some(c) && Print(Num(c)) == [Operand(c)];
    assert Print(e) == [Operand(a), Symbol(tight), Operand(b), Symbol(op), Operand(c)];
    if Eval(i).Some? && Eval(e).Some? { EvaluatesTree(e); }
  }

  // ----- the evaluator itself

  class Evaluator {
    const values: array<word>
    const operators: array<char>
    var valuePos: nat
    var operatorPos: nat

    constructor ()
      ensures Valid() && fresh(values) && fresh(operators) && Abs() == Stacks([], [])
    {
      values, operators := new word[SLOTS], new char[SLOTS];
      valuePos, operatorPos := 0, 0;
    }

    ghost predicate Valid()
      reads this
    {
      values.Length == SLOTS && operators.Length == SLOTS && valuePos <= SLOTS && operatorPos <= SLOTS
    }

    ghost function Abs(): Machine
      requires Valid()
      reads this, values, operators
    {
      Stacks(values[..valuePos], operators[..operatorPos])
    }

    method PushValue(v: word)
      requires Valid() && valuePos < SLOTS
      modifies this`valuePos, values
      ensures Valid() && Abs() == Stacks(old(Abs()).vals + [v], old(Abs()).ops)
    {
      values[valuePos] := v;
      valuePos := valuePos + 1;
    }

    method PushOperator(ch: char)
      requires Valid() && operatorPos < SLOTS
      modifies this`operatorPos, operators
      ensures Valid() && Abs() == Stacks(old(Abs()).vals, old(Abs()).ops + [ch])
    {
      operators[operatorPos] := ch;
      operatorPos := operatorPos + 1;
    }

    /** Pops two values and an operator, and pushes the result. */
    method Apply()
      requires Valid() && operatorPos > 0 && Applied(Abs()).Stacks?
      modifies this, values
      ensures Valid() && Abs() == Applied(old(Abs())) && operatorPos == old(operatorPos) - 1
    {
      ghost var m := Abs();
      var first := values[valuePos - 1];
      var second := values[valuePos - 2];
      var v := RunOperator(operators[operatorPos - 1], first, second);
      valuePos := valuePos - 2;
      values[valuePos] := v.value;
      valuePos := valuePos + 1;
      operatorPos := operatorPos - 1;
      assert values[..valuePos] == m.vals[..|m.vals| - 2] + [v.value];
      assert operators[..operatorPos] == m.ops[..|m.ops| - 1];
    }

    method Unwind(level: int)
      requires Valid() && Unwound(Abs(), level).Stacks?
      modifies this, values
      ensures Valid() && Abs() == Unwound(old(Abs()), level)
    {
      while operatorPos > 0 && Precedence(operators[operatorPos - 1]) > level
        invariant Valid() && Unwound(Abs(), level) == Unwound(old(Abs()), level)
        decreases operatorPos
      {
        Apply();
      }
    }

    method Close()
      requires Valid() && Closed(Abs()).Stacks?
      modifies this, values
      ensures Valid() && Abs() == Closed(old(Abs()))
    {
      while operatorPos > 0 && Precedence(operators[operatorPos - 1]) != -2
        invariant Valid() && Closed(Abs()) == Closed(old(Abs()))
        decreases operatorPos
      {
        Apply();
      }
      if operatorPos > 0 {
        operatorPos := operatorPos - 1;
      }
    }

    method Feed(t: Token)
      requires Valid() && Fed(Abs(), t).Stacks?
      modifies this, values, operators
      ensures Valid() && Abs() == Fed(old(Abs()), t)
    {
      match t {
        case Operand(v) => PushValue(v);
        case Symbol(ch) =>
          var level := Precedence(ch);
          if level == -2 {
            PushOperator(ch);
          } else if level == -3 {
            Close();
          } else {
            Unwind(level);
            PushOperator(ch);
          }
      }
    }

    /** The loop after the last token. */
    method Finish() returns (result: word)
      requires Valid() && Finished(Abs()).Some?
      modifies this, values
      ensures Some(result) == Finished(old(Abs()))
    {
      while operatorPos > 0
        invariant Valid() && Finished(Abs()) == Finished(old(Abs()))
        decreases operatorPos
      {
        if Precedence(operators[operatorPos - 1]) == -2 || valuePos < 2 {
          return 0;
        }
        Apply();
      }
      result := if valuePos > 0 then values[valuePos - 1] else 0;
    }

    /** `parse_expression_z80e`, on tokens that neither hang the source nor overrun its stacks. */
    method Evaluate(ts: seq<Token>) returns (result: word)
      requires Valid() && Abs() == Stacks([], []) && Outcome(ts).Some?
      modifies this, values, operators
      ensures Some(result) == Outcome(ts)
    {
      for i := 0 to |ts|
        invariant Valid() && Run(Abs(), ts[i..]) == Run(Stacks([], []), ts)
      {
        assert ts[i..][0] == ts[i] && ts[i..][1..] == ts[i + 1..];
        RunStuck(ts[i + 1..]);
        Feed(ts[i]);
      }
      assert ts[|ts|..] == [];
      result := Finish();
    }
  }

  lemma {:induction false} RunStuck(ts: seq<Token>)
    ensures Run(Stuck, ts) == Stuck
    decreases |ts|
  {
    if ts != [] { RunStuck(ts[1..]); }
  }
}
