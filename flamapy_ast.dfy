/** flamapy/core/models/ast.py: constraint trees, their rewriting into
    conjunctive normal form and their flattening into clause lists.

    A tree is a value: the source assigns `node.left`/`node.right` in place
    only on nodes that no other part of the computation still reads with a
    different value (see `ToCnfIdempotent`). */
module FlamapyAst {
  import opened Wrappers
  import Text

  /** The logical members of `ASTOperation` other than NOT. */
  datatype LogicOp = Requires | Excludes | And | Or | Xor | Implies | Equivalence

  /** Comparison, arithmetic and aggregation members of `ASTOperation`. */
  datatype ValueOp =
    | Equals | Lower | Greater | LowerEquals | GreaterEquals | NotEquals
    | Add | Sub | Mul | Div | Sum | Avg | Len | Floor | Ceil

  /** A `Node`: a term (its `data` is not an `ASTOperation`), a NOT over its
      `left` child, a logical binary operator, or an opaque non-logical operator
      with whatever children it was given. */
  datatype Node =
    | Term(name: string)
    | Not(child: Node)
    | Bin(op: LogicOp, left: Node, right: Node)
    | Other(vop: ValueOp, arg1: Option<Node>, arg2: Option<Node>)

  /** The exceptions `get_clauses` can raise on trees that are not clausal:
      `'-' + <ASTOperation>` under a NOT, and an attribute read on `None`. */
  datatype ClauseError = TypeError | AttributeError

  // ---------------------------------------------------------------------
  // Node predicates and rendering

  predicate IsOp(n: Node) { !n.Term? }
  predicate IsTerm(n: Node) { !IsOp(n) }
  predicate IsUnaryOp(n: Node) { n.Not? }
  predicate IsUniqueTerm(n: Node) { n.Term? }
  predicate IsBinaryOp(n: Node) { !IsUniqueTerm(n) && !IsUnaryOp(n) }

  /** Every node is exactly one of: a lone term, a unary operator, a binary
      operator; a non-logical operator always counts as binary. */
  lemma NodeKinds(n: Node)
    ensures IsUniqueTerm(n) || IsUnaryOp(n) || IsBinaryOp(n)
    ensures !(IsUniqueTerm(n) && IsUnaryOp(n)) && !(IsUniqueTerm(n) && IsBinaryOp(n))
    ensures !(IsUnaryOp(n) && IsBinaryOp(n))
    ensures n.Other? ==> IsBinaryOp(n)
  {
  }

  function LogicOpValue(op: LogicOp): string
  {
    match op
    case Requires => "REQUIRES"
    case Excludes => "EXCLUDES"
    case And => "AND"
    case Or => "OR"
    case Xor => "XOR"
    case Implies => "IMPLIES"
    case Equivalence => "EQUIVALENCE"
  }

  function ValueOpValue(op: ValueOp): string
  {
    match op
    case Equals => "EQUALS"
    case Lower => "LOWER"
    case Greater => "GREATER"
    case LowerEquals => "LOWER_EQUALS"
    case GreaterEquals => "GREATER_EQUALS"
    case NotEquals => "NOT_EQUALS"
    case Add => "ADD"
    case Sub => "SUB"
    case Mul => "MUL"
    case Div => "DIV"
    case Sum => "SUM"
    case Avg => "AVG"
    case Len => "LEN"
    case Floor => "FLOOR"
    case Ceil => "CEIL"
  }

  /** `pretty_str`. */
  function PrettyStr(n: Node): (r: string)
    ensures n.Term? ==> r == n.name
    ensures n.Not? ==> |r| >= 4 && r[..4] == "NOT " && r[4..] == PrettyOperand(n.child)
    decreases n, 0
  {
    match n
    case Term(x) => x
    case Not(c) => "NOT " + PrettyOperand(c)
    case Bin(op, l, r) => PrettyOperand(l) + " " + LogicOpValue(op) + " " + PrettyOperand(r)
    case Other(op, a, b) =>
      (if a.Some? then PrettyOperand(a.value) else "") + " " + ValueOpValue(op) + " "
      + (if b.Some? then PrettyOperand(b.value) else "")
  }

  /** `_get_pretty_str_node`: binary operands are parenthesised. */
  function PrettyOperand(n: Node): (r: string)
    ensures IsBinaryOp(n) ==> |r| >= 2 && r[0] == '(' && r[|r| - 1] == ')'
    ensures !IsBinaryOp(n) ==> r == PrettyStr(n)
    decreases n, 1
  {
    if IsOp(n) then (if IsBinaryOp(n) then "(" + PrettyStr(n) + ")" else PrettyStr(n))
    else n.name
  }

  /** Binary-operator nodes strictly below `n`. */
  function BinaryBelow(n: Node): nat
    decreases n, 0
  {
    match n
    case Term(_) => 0
    case Not(c) => BinaryOperand(c)
    case Bin(_, l, r) => BinaryOperand(l) + BinaryOperand(r)
    case Other(_, a, b) =>
      (if a.Some? then BinaryOperand(a.value) else 0) + (if b.Some? then BinaryOperand(b.value) else 0)
  }

  function BinaryOperand(n: Node): nat
    decreases n, 1
  {
    (if IsBinaryOp(n) then 1 else 0) + BinaryBelow(n)
  }

  predicate NoParenNames(n: Node)
  {
    match n
    case Term(x) => '(' !in x
    case Not(c) => NoParenNames(c)
    case Bin(_, l, r) => NoParenNames(l) && NoParenNames(r)
    case Other(_, a, b) => (a.Some? ==> NoParenNames(a.value)) && (b.Some? ==> NoParenNames(b.value))
  }

  lemma OperatorNamesHaveNoParenthesis(op: LogicOp, vop: ValueOp)
    ensures '(' !in LogicOpValue(op) && '(' !in ValueOpValue(vop)
  {
    match op
    case Requires => case Excludes => case And => case Or => case Xor =>
    case Implies => case Equivalence =>
    match vop
    case Equals => case Lower => case Greater => case LowerEquals =>
    case GreaterEquals => case NotEquals => case Add => case Sub => case Mul =>
    case Div => case Sum => case Avg => case Len => case Floor => case Ceil =>
  }

  lemma CountInfix(a: string, s: string, b: string, c: char)
    requires c != ' ' && c !in s
    ensures Text.Count(a + " " + s + " " + b, c) == Text.Count(a, c) + Text.Count(b, c)
  {
    Text.CountZero(s, c);
    Text.CountZero(" ", c);
    Text.CountAppend(a, " ", c);
    Text.CountAppend(a + " ", s, c);
    Text.CountAppend(a + " " + s, " ", c);
    Text.CountAppend(a + " " + s + " ", b, c);
  }

  /** `pretty_str` opens exactly one parenthesis per binary operator below the
      root, when no term name holds one. */
  lemma {:induction false} PrettyStrParentheses(n: Node)
    requires NoParenNames(n)
    ensures Text.Count(PrettyStr(n), '(') == BinaryBelow(n)
    decreases n, 0
  {
    match n
    case Term(x) =>
      Text.CountZero(x, '(');
    case Not(c) =>
      PrettyOperandParentheses(c);
      Text.CountZero("NOT ", '(');
      Text.CountAppend("NOT ", PrettyOperand(c), '(');
    case Bin(op, l, r) =>
      PrettyOperandParentheses(l);
      PrettyOperandParentheses(r);
      OperatorNamesHaveNoParenthesis(op, Equals);
      CountInfix(PrettyOperand(l), LogicOpValue(op), PrettyOperand(r), '(');
    case Other(op, a, b) =>
      var sa := if a.Some? then PrettyOperand(a.value) else "";
      var sb := if b.Some? then PrettyOperand(b.value) else "";
      if a.Some? { PrettyOperandParentheses(a.value); }
      if b.Some? { PrettyOperandParentheses(b.value); }
      OperatorNamesHaveNoParenthesis(And, op);
      CountInfix(sa, ValueOpValue(op), sb, '(');
      assert PrettyStr(n) == sa + " " + ValueOpValue(op) + " " + sb;
  }

  lemma {:induction false} PrettyOperandParentheses(n: Node)
    requires NoParenNames(n)
    ensures Text.Count(PrettyOperand(n), '(') == BinaryOperand(n)
    decreases n, 1
  {
    PrettyStrParentheses(n);
    if IsOp(n) && IsBinaryOp(n) {
      Text.CountAppend("(", PrettyStr(n), '(');
      Text.CountAppend("(" + PrettyStr(n), ")", '(');
    } else if !IsOp(n) {
      Text.CountZero(n.name, '(');
    }
  }

  // ---------------------------------------------------------------------
  // Meaning

  /** Truth value under an assignment `v` of the terms; a non-logical
      operator is an opaque atom whose value `w` gives. */
  function Eval(n: Node, v: string -> bool, w: Node -> bool): bool
  {
    match n
    case Term(x) => v(x)
    case Not(c) => !Eval(c, v, w)
    case Bin(op, l, r) =>
      var a, b := Eval(l, v, w), Eval(r, v, w);
      (match op
       case And => a && b
       case Or => a || b
       case Implies => a ==> b
       case Requires => a ==> b
       case Excludes => !(a && b)
       case Equivalence => a == b
       case Xor => a != b)
    case Other(_, _, _) => w(n)
  }

  /** No XOR at the logical level (non-logical operators are atoms). */
  predicate XorFree(n: Node)
  {
    match n
    case Term(_) => true
    case Not(c) => XorFree(c)
    case Bin(op, l, r) => op != Xor && XorFree(l) && XorFree(r)
    case Other(_, _, _) => true
  }

  /** Only terms, NOT, AND, OR and non-logical atoms at the logical level. */
  predicate Simplified(n: Node)
  {
    match n
    case Term(_) => true
    case Not(c) => Simplified(c)
    case Bin(op, l, r) => (op == And || op == Or) && Simplified(l) && Simplified(r)
    case Other(_, _, _) => true
  }

  // ---------------------------------------------------------------------
  // simplify_formula

  /** No EQUIVALENCE at the logical level (non-logical operators are atoms). */
  predicate EquivalenceFree(n: Node)
  {
    match n
    case Term(_) => true
    case Not(c) => EquivalenceFree(c)
    case Bin(op, l, r) => op != Equivalence && EquivalenceFree(l) && EquivalenceFree(r)
    case Other(_, _, _) => true
  }

  lemma {:induction false} SimplifiedIsFree(n: Node)
    requires Simplified(n)
    ensures XorFree(n) && EquivalenceFree(n)
  {
    match n
    case Not(c) => SimplifiedIsFree(c);
    case Bin(_, l, r) =>
      SimplifiedIsFree(l);
      SimplifiedIsFree(r);
    case _ =>
  }

  /** The truth value `simplify_formula` actually gives a tree: `Eval` with
      every EQUIVALENCE read as IMPLIES. */
  function EvalAsSimplified(n: Node, v: string -> bool, w: Node -> bool): bool
  {
    match n
    case Term(x) => v(x)
    case Not(c) => !EvalAsSimplified(c, v, w)
    case Bin(op, l, r) =>
      var a, b := EvalAsSimplified(l, v, w), EvalAsSimplified(r, v, w);
      (match op
       case And => a && b
       case Or => a || b
       case Implies => a ==> b
       case Requires => a ==> b
       case Excludes => !(a && b)
       case Equivalence => a ==> b
       case Xor => a != b)
    case Other(_, _, _) => w(n)
  }

  /** The two readings differ only at EQUIVALENCE. */
  lemma {:induction false} EvalAsSimplifiedAgrees(n: Node, v: string -> bool, w: Node -> bool)
    requires EquivalenceFree(n)
    ensures EvalAsSimplified(n, v, w) == Eval(n, v, w)
  {
    match n
    case Not(c) => EvalAsSimplifiedAgrees(c, v, w);
    case Bin(_, l, r) =>
      EvalAsSimplifiedAgrees(l, v, w);
      EvalAsSimplifiedAgrees(r, v, w);
    case _ =>
  }

  /** A measure that `SimplifyFormula` never increases; EQUIVALENCE and XOR
      weigh enough to pay for the trees they are rewritten into. */
  function Weight(n: Node): nat
  {
    match n
    case Term(_) => 1
    case Not(c) => Weight(c) + 1
    case Bin(op, l, r) =>
      (match op
       case And => Weight(l) + Weight(r) + 1
       case Or => Weight(l) + Weight(r) + 1
       case Implies => Weight(l) + Weight(r) + 3
       case Requires => Weight(l) + Weight(r) + 3
       case Excludes => Weight(l) + Weight(r) + 3
       case Equivalence => 3 * Weight(l) + 3 * Weight(r) + 10
       case Xor => 3 * Weight(l) + 3 * Weight(r) + 10)
    case Other(_, _, _) => 1
  }

  /** `simplify_formula`, as written: both EQUIVALENCE and XOR reassign
      `left` before building their second tree from it, so the second IMPLIES
      of an EQUIVALENCE has the simplified first one as its consequent, and
      XOR simplifies its own first result a second time. */
  function SimplifyFormula(n: Node): (r: Node)
    ensures Weight(r) <= Weight(n)
    ensures n.Term? || n.Other? ==> r == n
    decreases Weight(n)
  {
    match n
    case Bin(Implies, l, r) => Bin(Or, Not(SimplifyFormula(l)), SimplifyFormula(r))
    case Bin(Requires, l, r) => Bin(Or, Not(SimplifyFormula(l)), SimplifyFormula(r))
    case Bin(Excludes, l, r) => Bin(Or, Not(SimplifyFormula(l)), Not(SimplifyFormula(r)))
    case Bin(Equivalence, l, r) =>
      assert Weight(Bin(Implies, l, r)) == Weight(l) + Weight(r) + 3;
      var first := SimplifyFormula(Bin(Implies, l, r));
      assert Weight(Bin(Implies, r, first)) == Weight(r) + Weight(first) + 3;
      var second := SimplifyFormula(Bin(Implies, r, first));
      assert Weight(Bin(And, first, second)) == Weight(first) + Weight(second) + 1;
      Bin(And, first, second)
    case Bin(Xor, l, r) =>
      assert Weight(Bin(And, l, Not(r))) == Weight(l) + Weight(r) + 2;
      var first := SimplifyFormula(Bin(And, l, Not(r)));
      assert Weight(Bin(And, Not(first), r)) == Weight(first) + Weight(r) + 2;
      var second := SimplifyFormula(Bin(And, Not(first), r));
      Bin(Or, second, r)
    case Bin(And, l, r) => Bin(And, SimplifyFormula(l), SimplifyFormula(r))
    case Bin(Or, l, r) => Bin(Or, SimplifyFormula(l), SimplifyFormula(r))
    case Not(c) => Not(SimplifyFormula(c))
    case _ => n
  }

  /** Without XOR, the simplified tree has only NOT, AND and OR above its atoms. */
  lemma {:induction false} SimplifyRemovesComplex(n: Node)
    requires XorFree(n)
    ensures Simplified(SimplifyFormula(n))
    decreases Weight(n)
  {
    match n
    case Bin(op, l, r) =>
      if op == Equivalence {
        SimplifyRemovesComplex(Bin(Implies, l, r));
        var first := SimplifyFormula(Bin(Implies, l, r));
        SimplifiedIsFree(first);
        assert Weight(Bin(Implies, r, first)) == Weight(r) + Weight(first) + 3;
        SimplifyRemovesComplex(Bin(Implies, r, first));
      } else if op != Xor {
        SimplifyRemovesComplex(l);
        SimplifyRemovesComplex(r);
      }
    case Not(c) =>
      SimplifyRemovesComplex(c);
    case _ =>
  }

  /** Without XOR, simplification keeps the truth value that reads EQUIVALENCE
      as IMPLIES, and so the true truth value of every tree without
      EQUIVALENCE either. */
  lemma {:induction false} SimplifyPreservesEval(n: Node, v: string -> bool, w: Node -> bool)
    requires XorFree(n)
    ensures Eval(SimplifyFormula(n), v, w) == EvalAsSimplified(n, v, w)
    ensures EquivalenceFree(n) ==> Eval(SimplifyFormula(n), v, w) == Eval(n, v, w)
    decreases Weight(n)
  {
    match n {
    case Bin(op, l, r) =>
      if op == Equivalence {
        SimplifyPreservesEval(Bin(Implies, l, r), v, w);
        var first := SimplifyFormula(Bin(Implies, l, r));
        SimplifyRemovesComplex(Bin(Implies, l, r));
        SimplifiedIsFree(first);
        EvalAsSimplifiedAgrees(first, v, w);
        assert Weight(Bin(Implies, r, first)) == Weight(r) + Weight(first) + 3;
        SimplifyPreservesEval(Bin(Implies, r, first), v, w);
      } else if op != Xor {
        SimplifyPreservesEval(l, v, w);
        SimplifyPreservesEval(r, v, w);
      }
    case Not(c) =>
      SimplifyPreservesEval(c, v, w);
    case _ =>
    }
    if EquivalenceFree(n) {
      EvalAsSimplifiedAgrees(n, v, w);
    }
  }

  /** As written, `A XOR B` is rewritten into a tree that is false when A is
      true and B false, where the XOR is true. */
  lemma XorCounterexample()
    ensures var n := Bin(Xor, Term("A"), Term("B"));
            var v := (x: string) => x == "A";
            var w := (m: Node) => false;
            Eval(n, v, w) && !Eval(SimplifyFormula(n), v, w)
  {
    var n := Bin(Xor, Term("A"), Term("B"));
    var first := SimplifyFormula(Bin(And, Term("A"), Not(Term("B"))));
    assert first == Bin(And, Term("A"), Not(Term("B")));
    assert SimplifyFormula(n) == Bin(Or, Bin(And, Not(first), Term("B")), Term("B"));
  }

  /** As written, `P <=> Q` is rewritten into a tree that is true when P is
      false and Q true, where the EQUIVALENCE is false. */
  lemma EquivalenceCounterexample()
    ensures var n := Bin(Equivalence, Term("P"), Term("Q"));
            var v := (x: string) => x == "Q";
            var w := (m: Node) => false;
            !Eval(n, v, w) && Eval(SimplifyFormula(n), v, w)
  {
    var n := Bin(Equivalence, Term("P"), Term("Q"));
    var first := SimplifyFormula(Bin(Implies, Term("P"), Term("Q")));
    assert first == Bin(Or, Not(Term("P")), Term("Q"));
    assert SimplifyFormula(n) == Bin(And, first, SimplifyFormula(Bin(Implies, Term("Q"), first)));
  }

  /** `simplify_formula` with the EQUIVALENCE and XOR cases as their comments
      describe them: P <=> Q becomes (P => Q) AND (Q => P), built from the
      original operands, and P XOR Q becomes (P AND NOT Q) OR (NOT P AND Q). */
  function SimplifyFormulaFixed(n: Node): (r: Node)
    decreases Weight(n)
  {
    match n
    case Bin(Implies, l, r) => Bin(Or, Not(SimplifyFormulaFixed(l)), SimplifyFormulaFixed(r))
    case Bin(Requires, l, r) => Bin(Or, Not(SimplifyFormulaFixed(l)), SimplifyFormulaFixed(r))
    case Bin(Excludes, l, r) => Bin(Or, Not(SimplifyFormulaFixed(l)), Not(SimplifyFormulaFixed(r)))
    case Bin(Equivalence, l, r) =>
      assert Weight(Bin(Implies, l, r)) == Weight(Bin(Implies, r, l)) == Weight(l) + Weight(r) + 3;
      Bin(And, SimplifyFormulaFixed(Bin(Implies, l, r)), SimplifyFormulaFixed(Bin(Implies, r, l)))
    case Bin(Xor, l, r) =>
      var p, q := SimplifyFormulaFixed(l), SimplifyFormulaFixed(r);
      Bin(Or, Bin(And, p, Not(q)), Bin(And, Not(p), q))
    case Bin(And, l, r) => Bin(And, SimplifyFormulaFixed(l), SimplifyFormulaFixed(r))
    case Bin(Or, l, r) => Bin(Or, SimplifyFormulaFixed(l), SimplifyFormulaFixed(r))
    case Not(c) => Not(SimplifyFormulaFixed(c))
    case _ => n
  }

  /** The corrected rewrite keeps the truth value of every tree, EQUIVALENCE
      and XOR included, and leaves only NOT, AND and OR above the atoms. */
  lemma {:induction false} FixedPreservesEval(n: Node, v: string -> bool, w: Node -> bool)
    ensures Eval(SimplifyFormulaFixed(n), v, w) == Eval(n, v, w)
    ensures Simplified(SimplifyFormulaFixed(n))
    decreases Weight(n)
  {
    match n
    case Bin(op, l, r) =>
      if op == Equivalence {
        FixedPreservesEval(Bin(Implies, l, r), v, w);
        FixedPreservesEval(Bin(Implies, r, l), v, w);
      } else {
        FixedPreservesEval(l, v, w);
        FixedPreservesEval(r, v, w);
        if op == Xor {
          var p, q := SimplifyFormulaFixed(l), SimplifyFormulaFixed(r);
          assert SimplifyFormulaFixed(n) == Bin(Or, Bin(And, p, Not(q)), Bin(And, Not(p), q));
          assert Eval(n, v, w) == (Eval(l, v, w) != Eval(r, v, w));
          assert Eval(Bin(And, p, Not(q)), v, w) == (Eval(p, v, w) && !Eval(q, v, w));
          assert Eval(Bin(And, Not(p), q), v, w) == (!Eval(p, v, w) && Eval(q, v, w));
        }
      }
    case Not(c) =>
      FixedPreservesEval(c, v, w);
    case _ =>
  }

  /** Both versions agree on every tree without EQUIVALENCE and XOR. */
  lemma {:induction false} FixedAgrees(n: Node)
    requires XorFree(n) && EquivalenceFree(n)
    ensures SimplifyFormulaFixed(n) == SimplifyFormula(n)
  {
    match n
    case Bin(_, l, r) =>
      FixedAgrees(l);
      FixedAgrees(r);
    case Not(c) =>
      FixedAgrees(c);
    case _ =>
  }

  // ---------------------------------------------------------------------
  // propagate_negation

  /** `propagate_negation(node, negated)`. */
  function PropagateNegation(n: Node, negated: bool): (r: Node)
    ensures NnfShape(r)
    ensures Simplified(n) ==> NnfLiterals(r)
  {
    match n
    case Not(c) => PropagateNegation(c, !negated)
    case Bin(And, l, r) =>
      Bin(if negated then Or else And, PropagateNegation(l, negated), PropagateNegation(r, negated))
    case Bin(Or, l, r) =>
      Bin(if negated then And else Or, PropagateNegation(l, negated), PropagateNegation(r, negated))
    case _ => if negated then Not(n) else n
  }

  /** Negation normal form at the logical level: AND/OR are structure, and a
      NOT sits only directly above a node that is not AND, OR or NOT. */
  predicate NnfShape(n: Node)
  {
    match n
    case Bin(And, l, r) => NnfShape(l) && NnfShape(r)
    case Bin(Or, l, r) => NnfShape(l) && NnfShape(r)
    case Not(c) => !c.Not? && !(c.Bin? && (c.op == And || c.op == Or))
    case _ => true
  }

  /** A literal: a term or non-logical atom, possibly under one NOT. */
  predicate IsLiteral(n: Node)
  {
    n.Term? || n.Other? || (n.Not? && (n.child.Term? || n.child.Other?))
  }

  /** AND/OR over literals only. */
  predicate NnfLiterals(n: Node)
  {
    match n
    case Bin(And, l, r) => NnfLiterals(l) && NnfLiterals(r)
    case Bin(Or, l, r) => NnfLiterals(l) && NnfLiterals(r)
    case _ => IsLiteral(n)
  }

  /** The result evaluates to `eval(n) != negated` and is in negation normal
      form; on a simplified tree every NOT lands on a term or atom. */
  lemma {:induction false} PropagateNegationCorrect(n: Node, negated: bool, v: string -> bool, w: Node -> bool)
    ensures Eval(PropagateNegation(n, negated), v, w) == (Eval(n, v, w) != negated)
    ensures NnfShape(PropagateNegation(n, negated))
    ensures Simplified(n) ==> NnfLiterals(PropagateNegation(n, negated))
  {
    match n
    case Not(c) =>
      PropagateNegationCorrect(c, !negated, v, w);
    case Bin(op, l, r) =>
      if op == And || op == Or {
        PropagateNegationCorrect(l, negated, v, w);
        PropagateNegationCorrect(r, negated, v, w);
      }
    case _ =>
  }

  // ---------------------------------------------------------------------
  // to_cnf

  function Size(n: Node): nat
  {
    match n
    case Term(_) => 1
    case Not(c) => Size(c) + 1
    case Bin(_, l, r) => Size(l) + Size(r) + 1
    case Other(_, _, _) => 1
  }

  /** `to_cnf`: AND converts both sides; OR converts both sides and then
      distributes over an AND side, the left one first. */
  function ToCnf(n: Node): (r: Node)
    ensures CnfShape(r)
    ensures NnfLiterals(n) ==> Cnf(r)
  {
    match n
    case Bin(And, l, r) => Bin(And, ToCnf(l), ToCnf(r))
    case Bin(Or, l, r) => Distribute(ToCnf(l), ToCnf(r))
    case _ => n
  }

  /** `to_cnf` of an OR over two operands that are already converted. */
  function Distribute(a: Node, b: Node): (r: Node)
    ensures CnfShape(a) && CnfShape(b) ==> CnfShape(r)
    ensures Cnf(a) && Cnf(b) ==> Cnf(r)
    decreases Size(a) + Size(b)
  {
    match (a, b)
    case (Bin(And, a1, a2), _) => Bin(And, Distribute(a1, b), Distribute(a2, b))
    case (_, Bin(And, b1, b2)) => Bin(And, Distribute(a, b1), Distribute(a, b2))
    case _ => Bin(Or, a, b)
  }

  /** An OR tree with no AND in it (atoms are not looked into). */
  predicate ClauseShape(n: Node)
  {
    match n
    case Bin(Or, l, r) => ClauseShape(l) && ClauseShape(r)
    case Bin(And, _, _) => false
    case _ => true
  }

  /** An AND tree of `ClauseShape` trees: no AND beneath any OR. */
  predicate CnfShape(n: Node)
  {
    match n
    case Bin(And, l, r) => CnfShape(l) && CnfShape(r)
    case _ => ClauseShape(n)
  }

  /** CNF down to the literals. */
  predicate Cnf(n: Node)
  {
    match n
    case Bin(And, l, r) => Cnf(l) && Cnf(r)
    case _ => ClauseOfLiterals(n)
  }

  predicate ClauseOfLiterals(n: Node)
  {
    match n
    case Bin(Or, l, r) => ClauseOfLiterals(l) && ClauseOfLiterals(r)
    case _ => IsLiteral(n)
  }

  /** Distributing an OR gives a tree with the OR's truth value. */
  lemma {:induction false} DistributeEval(a: Node, b: Node, v: string -> bool, w: Node -> bool)
    ensures Eval(Distribute(a, b), v, w) == (Eval(a, v, w) || Eval(b, v, w))
    decreases Size(a) + Size(b)
  {
    if a.Bin? && a.op == And {
      DistributeEval(a.left, b, v, w);
      DistributeEval(a.right, b, v, w);
    } else if b.Bin? && b.op == And {
      DistributeEval(a, b.left, v, w);
      DistributeEval(a, b.right, v, w);
    } else {
      assert Distribute(a, b) == Bin(Or, a, b);
    }
  }

  /** Distributing an OR over two CNF-shaped trees keeps the CNF shape. */
  lemma {:induction false} DistributeShape(a: Node, b: Node)
    requires CnfShape(a) && CnfShape(b)
    ensures CnfShape(Distribute(a, b))
    decreases Size(a) + Size(b)
  {
    if a.Bin? && a.op == And {
      DistributeShape(a.left, b);
      DistributeShape(a.right, b);
    } else if b.Bin? && b.op == And {
      DistributeShape(a, b.left);
      DistributeShape(a, b.right);
    } else {
      assert ClauseShape(a) && ClauseShape(b);
      assert Distribute(a, b) == Bin(Or, a, b);
    }
  }

  /** Distributing an OR over two CNF trees gives a CNF tree. */
  lemma {:induction false} DistributeCnf(a: Node, b: Node)
    requires Cnf(a) && Cnf(b)
    ensures Cnf(Distribute(a, b))
    decreases Size(a) + Size(b)
  {
    if a.Bin? && a.op == And {
      DistributeCnf(a.left, b);
      DistributeCnf(a.right, b);
    } else if b.Bin? && b.op == And {
      DistributeCnf(a, b.left);
      DistributeCnf(a, b.right);
    } else {
      assert ClauseOfLiterals(a) && ClauseOfLiterals(b);
      assert Distribute(a, b) == Bin(Or, a, b);
    }
  }

  /** `to_cnf` keeps the truth value of every tree and leaves no AND beneath an
      OR; on a tree in negation normal form the result is CNF down to the
      literals. */
  lemma {:induction false} ToCnfCorrect(n: Node, v: string -> bool, w: Node -> bool)
    ensures Eval(ToCnf(n), v, w) == Eval(n, v, w)
    ensures CnfShape(ToCnf(n))
    ensures NnfLiterals(n) ==> Cnf(ToCnf(n))
  {
    match n
    case Bin(op, l, r) =>
      if op == And || op == Or {
        ToCnfCorrect(l, v, w);
        ToCnfCorrect(r, v, w);
        if op == Or {
          DistributeEval(ToCnf(l), ToCnf(r), v, w);
          DistributeShape(ToCnf(l), ToCnf(r));
          if NnfLiterals(n) {
            DistributeCnf(ToCnf(l), ToCnf(r));
          }
        }
      }
    case _ =>
  }

  /** Trees already in CNF shape are left as they are. */
  lemma {:induction false} ToCnfFixesCnf(n: Node)
    requires CnfShape(n)
    ensures ToCnf(n) == n
  {
    match n
    case Bin(And, l, r) =>
      ToCnfFixesCnf(l);
      ToCnfFixesCnf(r);
    case Bin(Or, l, r) =>
      ClauseIsCnf(l);
      ClauseIsCnf(r);
      ToCnfFixesCnf(l);
      ToCnfFixesCnf(r);
    case _ =>
  }

  lemma ClauseIsCnf(n: Node)
    requires ClauseShape(n)
    ensures CnfShape(n) && !(n.Bin? && n.op == And)
  {
  }

  /** Converting twice gives the same tree: so the source's in-place
      replacement of an OR node's children by their conversion never changes
      the value of a subtree that is shared. */
  lemma ToCnfIdempotent(n: Node)
    ensures ToCnf(ToCnf(n)) == ToCnf(n)
  {
    var w := (m: Node) => false;
    var v := (x: string) => false;
    ToCnfCorrect(n, v, w);
    ToCnfFixesCnf(ToCnf(n));
  }

  /** `ToCnf` satisfies the recursive equations of the source's OR case:
      after converting both sides, a left AND is distributed (and the result
      converted again) before a right AND is looked at. */
  lemma ToCnfMatchesSource(l: Node, r: Node)
    ensures var lc, rc := ToCnf(l), ToCnf(r);
            ToCnf(Bin(Or, l, r)) ==
              if lc.Bin? && lc.op == And then
                ToCnf(Bin(And, Bin(Or, lc.left, rc), Bin(Or, lc.right, rc)))
              else if rc.Bin? && rc.op == And then
                ToCnf(Bin(And, Bin(Or, lc, rc.left), Bin(Or, lc, rc.right)))
              else Bin(Or, lc, rc)
  {
    var w := (m: Node) => false;
    var v := (x: string) => false;
    var lc, rc := ToCnf(l), ToCnf(r);
    ToCnfCorrect(l, v, w);
    ToCnfCorrect(r, v, w);
    if lc.Bin? && lc.op == And {
      ToCnfFixesCnf(lc.left);
      ToCnfFixesCnf(lc.right);
      ToCnfFixesCnf(rc);
    } else if rc.Bin? && rc.op == And {
      ToCnfFixesCnf(lc);
      ToCnfFixesCnf(rc.left);
      ToCnfFixesCnf(rc.right);
    }
  }

  // ---------------------------------------------------------------------
  // convert_into_cnf

  /** `convert_into_cnf`: simplify, push negations down, then convert. */
  function ConvertIntoCnf(n: Node): (r: Node)
    ensures CnfShape(r)
    ensures XorFree(n) ==> Cnf(r)
  {
    if XorFree(n) then SimplifyRemovesComplex(n); ToCnf(PropagateNegation(SimplifyFormula(n), false))
    else ToCnf(PropagateNegation(SimplifyFormula(n), false))
  }

  /** Without XOR, the conversion yields CNF down to the literals and keeps
      the truth value that reads EQUIVALENCE as IMPLIES: the true truth value
      whenever there is no EQUIVALENCE either. */
  lemma ConvertIntoCnfCorrect(n: Node, v: string -> bool, w: Node -> bool)
    requires XorFree(n)
    ensures Eval(ConvertIntoCnf(n), v, w) == EvalAsSimplified(n, v, w)
    ensures EquivalenceFree(n) ==> Eval(ConvertIntoCnf(n), v, w) == Eval(n, v, w)
    ensures Cnf(ConvertIntoCnf(n))
  {
    var s := SimplifyFormula(n);
    SimplifyPreservesEval(n, v, w);
    SimplifyRemovesComplex(n);
    PropagateNegationCorrect(s, false, v, w);
    ToCnfCorrect(PropagateNegation(s, false), v, w);
  }

  // ---------------------------------------------------------------------
  // get_clauses

  /** The member name Python's `str` prints for the operator of a node. */
  function OperatorName(n: Node): string
    requires IsOp(n)
  {
    match n
    case Not(_) => "NOT"
    case Bin(op, _, _) => LogicOpValue(op)
    case Other(op, _, _) => ValueOpValue(op)
  }

  /** A literal of a clause: the name of a term, else `f'-{node.left.data}'` of
      the node's first child, which prints an operator child as
      `ASTOperation.<NAME>`; a missing first child is an attribute read on
      `None`. */
  function LiteralOf(n: Node): (r: Result<string, ClauseError>)
    ensures r.Err? <==> n.Other? && n.arg1.None?
    ensures r.Err? ==> r.error == AttributeError
    ensures IsPlainLiteral(n) ==> r == Ok(LiteralString(n))
    ensures n.Not? && IsOp(n.child) ==> r == Ok("-ASTOperation." + OperatorName(n.child))
  {
    if n.Term? then Ok(n.name)
    else
      var first :- match n
                   case Not(c) => Ok(c)
                   case Bin(_, l, _) => Ok(l)
                   case Other(_, a, _) => if a.None? then Err(AttributeError) else Ok(a.value);
      if first.Term? then Ok("-" + first.name)
      else Ok("-ASTOperation." + OperatorName(first))
  }

  /** `get_clause_from_or_node`: nested ORs on either side join the clause. */
  function GetClauseFromOrNode(n: Node): (r: Result<seq<string>, ClauseError>)
    requires n.Bin? && n.op == Or
    ensures r.Err? ==> r.error == AttributeError
    ensures r.Ok? ==> |r.value| == |OrLeaves(n)|
  {
    var left :- if n.left.Bin? && n.left.op == Or then GetClauseFromOrNode(n.left)
                else (var t :- LiteralOf(n.left); Ok([t]));
    var right :- if n.right.Bin? && n.right.op == Or then GetClauseFromOrNode(n.right)
                 else (var t :- LiteralOf(n.right); Ok([t]));
    Ok(left + right)
  }

  /** `get_clauses`: a term or NOT gives one unit clause, an OR one clause, an
      AND the clauses of both sides; any other node gives none. */
  function GetClauses(n: Node): (r: Result<seq<seq<string>>, ClauseError>)
    ensures n.Not? ==> (r.Err? <==> IsOp(n.child))
    ensures r.Ok? ==> forall i :: 0 <= i < |r.value| ==> |r.value[i]| > 0
  {
    match n
    case Term(x) => Ok([[x]])
    case Not(c) => if c.Term? then Ok([["-" + c.name]]) else Err(TypeError)
    case Bin(Or, _, _) =>
      var clause :- GetClauseFromOrNode(n);
      Ok([clause])
    case Bin(And, l, r) =>
      var left :- GetClauses(l);
      var right :- GetClauses(r);
      Ok(left + right)
    case _ => Ok([])
  }

  /** `AST.get_clauses`: convert, then extract. */
  function AstGetClauses(n: Node): (r: Result<seq<seq<string>>, ClauseError>)
    ensures r.Ok? ==> forall i :: 0 <= i < |r.value| ==> |r.value[i]| > 0
  {
    GetClauses(ConvertIntoCnf(n))
  }

  /** An OR over a negated comparison: the negated leaf is read through its
      first child, so the literal is the operator's printed name. */
  lemma ComparisonLiteral()
    ensures var price := Other(Greater, Some(Term("Price")), Some(Term("5")));
            GetClauses(Bin(Or, Not(price), Term("B"))) == Ok([["-ASTOperation.GREATER", "B"]]) &&
            AstGetClauses(Bin(Implies, price, Term("B"))) == Ok([["-ASTOperation.GREATER", "B"]])
  {
    var price := Other(Greater, Some(Term("Price")), Some(Term("5")));
    assert OperatorName(price) == "GREATER";
    assert "-ASTOperation." + "GREATER" == "-ASTOperation.GREATER";
    assert LiteralOf(Not(price)) == Ok("-ASTOperation.GREATER");
    assert LiteralOf(Term("B")) == Ok("B");
    assert ["-ASTOperation.GREATER"] + ["B"] == ["-ASTOperation.GREATER", "B"];
    assert GetClauseFromOrNode(Bin(Or, Not(price), Term("B"))) == Ok(["-ASTOperation.GREATER", "B"]);
  }

  /** The leaves of an OR tree, left to right. */
  function OrLeaves(n: Node): (r: seq<Node>)
    ensures |r| > 0
  {
    if n.Bin? && n.op == Or then OrLeaves(n.left) + OrLeaves(n.right) else [n]
  }

  /** The string `get_clauses` writes for a term or a negated term. */
  function LiteralString(n: Node): string
    requires n.Term? || (n.Not? && n.child.Term?)
  {
    if n.Term? then n.name else "-" + n.child.name
  }

  /** A literal without non-logical atoms. */
  predicate IsPlainLiteral(n: Node)
  {
    n.Term? || (n.Not? && n.child.Term?)
  }

  predicate PlainClause(n: Node)
  {
    if n.Bin? && n.op == Or then PlainClause(n.left) && PlainClause(n.right) else IsPlainLiteral(n)
  }

  predicate PlainCnf(n: Node)
  {
    if n.Bin? && n.op == And then PlainCnf(n.left) && PlainCnf(n.right) else PlainClause(n)
  }

  /** On an OR of literals, the clause has one literal per leaf, left subtree
      first. */
  lemma {:induction false} ClauseFromOrLeaves(n: Node)
    requires n.Bin? && n.op == Or && PlainClause(n)
    ensures GetClauseFromOrNode(n).Ok?
    ensures var c := GetClauseFromOrNode(n).value;
            |c| == |OrLeaves(n)| &&
            forall i :: 0 <= i < |c| ==> IsPlainLiteral(OrLeaves(n)[i]) && c[i] == LiteralString(OrLeaves(n)[i])
  {
    var l, r := n.left, n.right;
    if l.Bin? && l.op == Or { ClauseFromOrLeaves(l); }
    if r.Bin? && r.op == Or { ClauseFromOrLeaves(r); }
    var c := GetClauseFromOrNode(n).value;
    var lc := if l.Bin? && l.op == Or then GetClauseFromOrNode(l).value else [LiteralString(l)];
    var rc := if r.Bin? && r.op == Or then GetClauseFromOrNode(r).value else [LiteralString(r)];
    assert c == lc + rc;
    var ll, rl := OrLeaves(l), OrLeaves(r);
    assert OrLeaves(n) == ll + rl;
    forall i | 0 <= i < |c|
      ensures IsPlainLiteral(OrLeaves(n)[i]) && c[i] == LiteralString(OrLeaves(n)[i])
    {
      if i < |lc| {
        assert c[i] == lc[i] && OrLeaves(n)[i] == ll[i];
      } else {
        var k := i - |lc|;
        assert c[i] == rc[k] && OrLeaves(n)[i] == rl[k];
      }
    }
  }

  // Meaning of clause lists

  predicate NoDashNames(n: Node)
  {
    match n
    case Term(x) => |x| == 0 || x[0] != '-'
    case Not(c) => NoDashNames(c)
    case Bin(_, l, r) => NoDashNames(l) && NoDashNames(r)
    case Other(_, _, _) => true
  }

  /** A literal string holds: "-x" when x is false, any other name when it is true. */
  predicate LiteralHolds(lit: string, v: string -> bool)
  {
    if |lit| > 0 && lit[0] == '-' then !v(lit[1..]) else v(lit)
  }

  predicate ClauseHolds(c: seq<string>, v: string -> bool)
  {
    exists i :: 0 <= i < |c| && LiteralHolds(c[i], v)
  }

  /** A clause list means the conjunction of its clauses. */
  predicate ClausesHold(cs: seq<seq<string>>, v: string -> bool)
  {
    forall i :: 0 <= i < |cs| ==> ClauseHolds(cs[i], v)
  }

  lemma PlainLiteralHolds(n: Node, v: string -> bool, w: Node -> bool)
    requires IsPlainLiteral(n) && NoDashNames(n)
    ensures LiteralHolds(LiteralString(n), v) == Eval(n, v, w)
  {
    if n.Not? {
      assert ("-" + n.child.name)[1..] == n.child.name;
    }
  }

  /** The OR leaves of a plain clause tree are plain literals. */
  lemma {:induction false} OrLeavesPlain(n: Node)
    requires PlainClause(n) && NoDashNames(n)
    ensures forall i :: 0 <= i < |OrLeaves(n)| ==> IsPlainLiteral(OrLeaves(n)[i]) && NoDashNames(OrLeaves(n)[i])
  {
    if n.Bin? && n.op == Or {
      OrLeavesPlain(n.left);
      OrLeavesPlain(n.right);
      var a, b := OrLeaves(n.left), OrLeaves(n.right);
      assert OrLeaves(n) == a + b;
    } else {
      assert OrLeaves(n) == [n];
    }
  }

  /** A plain clause tree holds exactly when one of its OR leaves does. */
  lemma {:induction false} OrLeavesEval(n: Node, v: string -> bool, w: Node -> bool)
    ensures Eval(n, v, w) <==> exists i :: 0 <= i < |OrLeaves(n)| && Eval(OrLeaves(n)[i], v, w)
  {
    if n.Bin? && n.op == Or {
      OrLeavesEval(n.left, v, w);
      OrLeavesEval(n.right, v, w);
      var a, b := OrLeaves(n.left), OrLeaves(n.right);
      var all := OrLeaves(n);
      assert all == a + b;
      assert Eval(n, v, w) == (Eval(n.left, v, w) || Eval(n.right, v, w));
      if Eval(n.left, v, w) {
        var i :| 0 <= i < |a| && Eval(a[i], v, w);
        assert 0 <= i < |all| && all[i] == a[i];
        assert exists k :: 0 <= k < |OrLeaves(n)| && Eval(OrLeaves(n)[k], v, w);
      } else if Eval(n.right, v, w) {
        var i :| 0 <= i < |b| && Eval(b[i], v, w);
        assert 0 <= |a| + i < |all| && all[|a| + i] == b[i];
        assert exists k :: 0 <= k < |OrLeaves(n)| && Eval(OrLeaves(n)[k], v, w);
      } else {
        assert !Eval(n.left, v, w) && !Eval(n.right, v, w);
        assert !(exists j :: 0 <= j < |OrLeaves(n.left)| && Eval(OrLeaves(n.left)[j], v, w));
        assert !(exists j :: 0 <= j < |OrLeaves(n.right)| && Eval(OrLeaves(n.right)[j], v, w));
        forall i | 0 <= i < |all| ensures !Eval(all[i], v, w) {
          if i < |a| {
            assert all[i] == a[i] && !Eval(a[i], v, w);
          } else {
            var k := i - |a|;
            assert 0 <= k < |b| && all[i] == b[k];
            assert !Eval(b[k], v, w);
          }
        }
      }
    } else {
      var leaves := OrLeaves(n);
      assert leaves == [n];
      if Eval(n, v, w) {
        assert 0 < |OrLeaves(n)| && OrLeaves(n)[0] == n;
        assert exists i :: 0 <= i < |OrLeaves(n)| && Eval(OrLeaves(n)[i], v, w);
      } else {
        forall i | 0 <= i < |leaves| ensures !Eval(leaves[i], v, w) {
          assert leaves[i] == n;
        }
      }
    }
  }

  /** On a plain clause tree, the extracted clause holds exactly when the tree does. */
  lemma ClauseFromOrMeaning(n: Node, v: string -> bool, w: Node -> bool)
    requires n.Bin? && n.op == Or && PlainClause(n) && NoDashNames(n)
    ensures GetClauseFromOrNode(n).Ok?
    ensures ClauseHolds(GetClauseFromOrNode(n).value, v) == Eval(n, v, w)
  {
    ClauseFromOrLeaves(n);
    OrLeavesPlain(n);
    OrLeavesEval(n, v, w);
    var c := GetClauseFromOrNode(n).value;
    var leaves := OrLeaves(n);
    forall i | 0 <= i < |c| ensures LiteralHolds(c[i], v) == Eval(leaves[i], v, w) {
      PlainLiteralHolds(leaves[i], v, w);
    }
  }

  lemma SingleClause(c: seq<string>, v: string -> bool)
    ensures ClausesHold([c], v) == ClauseHolds(c, v)
  {
    assert [c][0] == c;
  }

  lemma UnitClause(lit: string, v: string -> bool)
    ensures ClausesHold([[lit]], v) == LiteralHolds(lit, v)
  {
    assert [[lit]][0] == [lit];
    assert [lit][0] == lit;
  }

  lemma ClausesHoldAppend(a: seq<seq<string>>, b: seq<seq<string>>, v: string -> bool)
    ensures ClausesHold(a + b, v) == (ClausesHold(a, v) && ClausesHold(b, v))
  {
    if ClausesHold(a, v) && ClausesHold(b, v) {
      forall i | 0 <= i < |a + b| ensures ClauseHolds((a + b)[i], v) {
        if i >= |a| { assert (a + b)[i] == b[i - |a|]; }
      }
    }
    if ClausesHold(a + b, v) {
      forall i | 0 <= i < |b| ensures ClauseHolds(b[i], v) {
        assert (a + b)[|a| + i] == b[i];
      }
      forall i | 0 <= i < |a| ensures ClauseHolds(a[i], v) {
        assert (a + b)[i] == a[i];
      }
    }
  }

  /** On a plain CNF tree, `get_clauses` succeeds and its clause list holds
      exactly when the tree does. */
  lemma {:induction false} GetClausesMeaning(n: Node, v: string -> bool, w: Node -> bool)
    requires PlainCnf(n) && NoDashNames(n)
    ensures GetClauses(n).Ok?
    ensures ClausesHold(GetClauses(n).value, v) == Eval(n, v, w)
  {
    if n.Bin? && n.op == And {
      GetClausesMeaning(n.left, v, w);
      GetClausesMeaning(n.right, v, w);
      var a, b := GetClauses(n.left).value, GetClauses(n.right).value;
      assert GetClauses(n).value == a + b;
      ClausesHoldAppend(a, b, v);
    } else if n.Bin? && n.op == Or {
      ClauseFromOrMeaning(n, v, w);
      var c := GetClauseFromOrNode(n).value;
      assert GetClauses(n).value == [c];
      SingleClause(c, v);
    } else {
      PlainLiteralHolds(n, v, w);
      assert GetClauses(n).value == [[LiteralString(n)]];
      UnitClause(LiteralString(n), v);
    }
  }

  /** `get_clauses` on single nodes: `[[name]]`, `[["-" + name]]`, one
      clause for an OR, the left clauses then the right ones for an AND. */
  lemma GetClausesShapes(x: string, l: Node, r: Node)
    ensures GetClauses(Term(x)) == Ok([[x]])
    ensures GetClauses(Not(Term(x))) == Ok([["-" + x]])
    ensures GetClauseFromOrNode(Bin(Or, l, r)).Ok? ==> |GetClauses(Bin(Or, l, r)).value| == 1
    ensures GetClauses(l).Ok? && GetClauses(r).Ok? ==>
              GetClauses(Bin(And, l, r)) == Ok(GetClauses(l).value + GetClauses(r).value)
  {
  }

  predicate NoOther(n: Node)
  {
    match n
    case Term(_) => true
    case Not(c) => NoOther(c)
    case Bin(_, l, r) => NoOther(l) && NoOther(r)
    case Other(_, _, _) => false
  }

  lemma {:induction false} SimplifyKeepsNames(n: Node)
    requires NoDashNames(n) && NoOther(n)
    ensures NoDashNames(SimplifyFormula(n)) && NoOther(SimplifyFormula(n))
    decreases Weight(n)
  {
    match n
    case Bin(Equivalence, l, r) =>
      SimplifyKeepsNames(Bin(Implies, l, r));
      var first := SimplifyFormula(Bin(Implies, l, r));
      assert Weight(Bin(Implies, r, first)) == Weight(r) + Weight(first) + 3;
      SimplifyKeepsNames(Bin(Implies, r, first));
    case Bin(Xor, l, r) =>
      var first := SimplifyFormula(Bin(And, l, Not(r)));
      assert Weight(Bin(And, l, Not(r))) == Weight(l) + Weight(r) + 2;
      SimplifyKeepsNames(Bin(And, l, Not(r)));
      assert Weight(Bin(And, Not(first), r)) == Weight(first) + Weight(r) + 2;
      SimplifyKeepsNames(Bin(And, Not(first), r));
    case Bin(_, l, r) =>
      SimplifyKeepsNames(l);
      SimplifyKeepsNames(r);
    case Not(c) =>
      SimplifyKeepsNames(c);
    case _ =>
  }

  lemma {:induction false} PropagateKeepsNames(n: Node, negated: bool)
    requires NoDashNames(n) && NoOther(n)
    ensures NoDashNames(PropagateNegation(n, negated)) && NoOther(PropagateNegation(n, negated))
  {
    match n
    case Not(c) => PropagateKeepsNames(c, !negated);
    case Bin(_, l, r) =>
      PropagateKeepsNames(l, negated);
      PropagateKeepsNames(r, negated);
    case _ =>
  }

  lemma {:induction false} DistributeKeepsNames(a: Node, b: Node)
    requires NoDashNames(a) && NoOther(a) && NoDashNames(b) && NoOther(b)
    ensures NoDashNames(Distribute(a, b)) && NoOther(Distribute(a, b))
    decreases Size(a) + Size(b)
  {
    if a.Bin? && a.op == And {
      DistributeKeepsNames(a.left, b);
      DistributeKeepsNames(a.right, b);
    } else if b.Bin? && b.op == And {
      DistributeKeepsNames(a, b.left);
      DistributeKeepsNames(a, b.right);
    }
  }

  lemma {:induction false} ToCnfKeepsNames(n: Node)
    requires NoDashNames(n) && NoOther(n)
    ensures NoDashNames(ToCnf(n)) && NoOther(ToCnf(n))
  {
    match n
    case Bin(op, l, r) =>
      if op == And || op == Or {
        ToCnfKeepsNames(l);
        ToCnfKeepsNames(r);
        if op == Or { DistributeKeepsNames(ToCnf(l), ToCnf(r)); }
      }
    case _ =>
  }

  lemma {:induction false} CnfWithoutOtherIsPlain(n: Node)
    requires Cnf(n) && NoOther(n)
    ensures PlainCnf(n)
  {
    if n.Bin? && n.op == And {
      CnfWithoutOtherIsPlain(n.left);
      CnfWithoutOtherIsPlain(n.right);
    } else {
      ClauseWithoutOtherIsPlain(n);
    }
  }

  lemma {:induction false} ClauseWithoutOtherIsPlain(n: Node)
    requires ClauseOfLiterals(n) && NoOther(n)
    ensures PlainClause(n)
  {
    if n.Bin? && n.op == Or {
      ClauseWithoutOtherIsPlain(n.left);
      ClauseWithoutOtherIsPlain(n.right);
    }
  }

  /** The end-to-end property: for a formula over terms with NOT, AND, OR,
      IMPLIES, REQUIRES, EXCLUDES and EQUIVALENCE, and no name starting with
      "-", `AST.get_clauses` succeeds and its clauses hold exactly when the
      formula read with EQUIVALENCE as IMPLIES does; without EQUIVALENCE,
      exactly when the formula does. */
  lemma AstGetClausesCorrect(n: Node, v: string -> bool, w: Node -> bool)
    requires XorFree(n) && NoOther(n) && NoDashNames(n)
    ensures AstGetClauses(n).Ok?
    ensures ClausesHold(AstGetClauses(n).value, v) == EvalAsSimplified(n, v, w)
    ensures EquivalenceFree(n) ==> ClausesHold(AstGetClauses(n).value, v) == Eval(n, v, w)
  {
    ConvertIntoCnfCorrect(n, v, w);
    SimplifyKeepsNames(n);
    PropagateKeepsNames(SimplifyFormula(n), false);
    ToCnfKeepsNames(PropagateNegation(SimplifyFormula(n), false));
    CnfWithoutOtherIsPlain(ConvertIntoCnf(n));
    GetClausesMeaning(ConvertIntoCnf(n), v, w);
  }

  /** As written, `P <=> Q` simplifies to `P => Q` and `Q => (P => Q)`. */
  lemma EquivalenceSimplifies()
    ensures var first := Bin(Or, Not(Term("P")), Term("Q"));
            SimplifyFormula(Bin(Equivalence, Term("P"), Term("Q"))) == Bin(And, first, Bin(Or, Not(Term("Q")), first))
  {
    var p, q := Term("P"), Term("Q");
    var first := Bin(Or, Not(p), q);
    assert SimplifyFormula(Bin(Implies, p, q)) == first;
    assert SimplifyFormula(first) == first;
    assert SimplifyFormula(Bin(Implies, q, first)) == Bin(Or, Not(q), first);
  }

  /** As written, `P <=> Q` converts into the conjunction of `P => Q` and
      `Q => (P => Q)`. */
  lemma EquivalenceConverts()
    ensures var first := Bin(Or, Not(Term("P")), Term("Q"));
            ConvertIntoCnf(Bin(Equivalence, Term("P"), Term("Q"))) == Bin(And, first, Bin(Or, Not(Term("Q")), first))
  {
    var p, q := Term("P"), Term("Q");
    var first := Bin(Or, Not(p), q);
    var second := Bin(Or, Not(q), first);
    var both := Bin(And, first, second);
    EquivalenceSimplifies();
    assert PropagateNegation(both, false) == both;
    assert ToCnf(first) == first;
    assert ToCnf(second) == second;
  }

  /** As written, `P <=> Q` yields the clauses of `P => Q` twice over: the
      second clause repeats the first under an extra `-Q`. */
  lemma EquivalenceClauses()
    ensures AstGetClauses(Bin(Equivalence, Term("P"), Term("Q"))) == Ok([["-P", "Q"], ["-Q", "-P", "Q"]])
  {
    var p, q := Term("P"), Term("Q");
    var first := Bin(Or, Not(p), q);
    var second := Bin(Or, Not(q), first);
    EquivalenceConverts();
    assert "-" + "P" == "-P" && "-" + "Q" == "-Q";
    assert LiteralOf(Not(p)) == Ok("-P");
    assert LiteralOf(Not(q)) == Ok("-Q");
    assert ["-P"] + ["Q"] == ["-P", "Q"];
    assert GetClauseFromOrNode(first) == Ok(["-P", "Q"]);
    assert ["-Q"] + ["-P", "Q"] == ["-Q", "-P", "Q"];
    assert GetClauseFromOrNode(second) == Ok(["-Q", "-P", "Q"]);
    assert [["-P", "Q"]] + [["-Q", "-P", "Q"]] == [["-P", "Q"], ["-Q", "-P", "Q"]];
  }
}
