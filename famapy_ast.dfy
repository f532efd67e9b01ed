/** famapy/core/models/ast.py: the older constraint-tree pipeline. Complex
    operators are eliminated, NOTs are moved inwards, ORs are distributed over
    ANDs, and the tree is read back as a Python list of clauses. Trees are
    values: the source's in-place updates of the caller's tree and of shared
    nodes are not followed. */
module FamapyAst {
  import opened Wrappers

  datatype Op = Requires | Excludes | And | Or | Implies | Equivalence

  /** A well-formed tree: a feature leaf, a NOT over its left child, or a
      binary operator. */
  datatype Formula =
    | Feature(name: string)
    | Not(child: Formula)
    | Bin(op: Op, left: Formula, right: Formula)

  /** Exceptions the pipeline can raise: unbounded recursion in
      `move_nots_inwards`, and `'-' + <ASTOperation>` in `get_clauses`. */
  datatype PyError = RecursionError | TypeError

  /** The Python values `get_clauses` builds: strings and lists. */
  datatype PyVal = Str(s: string) | List(items: seq<PyVal>)

  function Eval(f: Formula, v: string -> bool): bool
  {
    match f
    case Feature(x) => v(x)
    case Not(c) => !Eval(c, v)
    case Bin(op, l, r) =>
      var a, b := Eval(l, v), Eval(r, v);
      (match op
       case And => a && b
       case Or => a || b
       case Implies => a ==> b
       case Requires => a ==> b
       case Excludes => !(a && b)
       case Equivalence => a == b)
  }

  predicate IsComplex(op: Op)
  {
    op == Requires || op == Implies || op == Equivalence || op == Excludes
  }

  /** Only features, NOT, AND and OR. */
  predicate Basic(f: Formula)
  {
    match f
    case Feature(_) => true
    case Not(c) => Basic(c)
    case Bin(op, l, r) => !IsComplex(op) && Basic(l) && Basic(r)
  }

  // ---------------------------------------------------------------------
  // Eliminating complex operators

  /** `eliminate_implication`: P => Q becomes NOT P OR Q. */
  function EliminateImplication(f: Formula): (r: Formula)
    requires f.Bin?
    ensures forall v :: Eval(r, v) == (Eval(f.left, v) ==> Eval(f.right, v))
  {
    Bin(Or, Not(f.left), f.right)
  }

  /** `eliminate_equivalence`: P <=> Q becomes (P OR NOT Q) AND (NOT P OR Q). */
  function EliminateEquivalence(f: Formula): (r: Formula)
    requires f.Bin?
    ensures forall v :: Eval(r, v) == (Eval(f.left, v) == Eval(f.right, v))
  {
    assert forall v :: Eval(Bin(Or, f.left, Not(f.right)), v) == (Eval(f.left, v) || !Eval(f.right, v));
    assert forall v :: Eval(Bin(Or, Not(f.left), f.right), v) == (!Eval(f.left, v) || Eval(f.right, v));
    Bin(And, Bin(Or, f.left, Not(f.right)), Bin(Or, Not(f.left), f.right))
  }

  /** `eliminate_exclusion`: P EXCLUDES Q becomes NOT P OR NOT Q. */
  function EliminateExclusion(f: Formula): (r: Formula)
    requires f.Bin?
    ensures forall v :: Eval(r, v) == !(Eval(f.left, v) && Eval(f.right, v))
  {
    Bin(Or, Not(f.left), Not(f.right))
  }

  /** Each replacement is equivalent to the operator it replaces. */
  lemma EliminatorsCorrect(p: Formula, q: Formula, v: string -> bool)
    ensures Eval(EliminateImplication(Bin(Implies, p, q)), v) == Eval(Bin(Implies, p, q), v)
    ensures Eval(EliminateImplication(Bin(Requires, p, q)), v) == Eval(Bin(Requires, p, q), v)
    ensures Eval(EliminateEquivalence(Bin(Equivalence, p, q)), v) == Eval(Bin(Equivalence, p, q), v)
    ensures Eval(EliminateExclusion(Bin(Excludes, p, q)), v) == Eval(Bin(Excludes, p, q), v)
  {
    var a, b := Eval(p, v), Eval(q, v);
    assert Eval(Bin(Or, p, Not(q)), v) == (a || !b);
    assert Eval(Bin(Or, Not(p), q), v) == (!a || b);
  }

  /** `eliminate_complex_operators`: a complex operator is replaced without
      looking into its operands; NOT, AND and OR have their children rewritten. */
  function EliminateComplexOperators(f: Formula): (r: Formula)
    ensures NoNestedComplex(f) ==> Basic(r)
    ensures Basic(f) ==> r == f
  {
    match f
    case Feature(_) => f
    case Not(c) => Not(EliminateComplexOperators(c))
    case Bin(op, l, r) =>
      if op == Requires || op == Implies then EliminateImplication(f)
      else if op == Equivalence then EliminateEquivalence(f)
      else if op == Excludes then EliminateExclusion(f)
      else Bin(op, EliminateComplexOperators(l), EliminateComplexOperators(r))
  }

  /** No complex operator appears inside the operands of another one. */
  predicate NoNestedComplex(f: Formula)
  {
    match f
    case Feature(_) => true
    case Not(c) => NoNestedComplex(c)
    case Bin(op, l, r) =>
      if IsComplex(op) then Basic(l) && Basic(r) else NoNestedComplex(l) && NoNestedComplex(r)
  }

  /** The elimination keeps the truth value of every tree. */
  lemma {:induction false} EliminatePreservesEval(f: Formula, v: string -> bool)
    ensures Eval(EliminateComplexOperators(f), v) == Eval(f, v)
  {
    match f
    case Feature(_) =>
    case Not(c) => EliminatePreservesEval(c, v);
    case Bin(op, l, r) =>
      if !IsComplex(op) {
        EliminatePreservesEval(l, v);
        EliminatePreservesEval(r, v);
      } else {
        EliminatorsCorrect(l, r, v);
      }
  }

  /** The result is free of complex operators exactly when none is nested
      inside another's operands. */
  lemma {:induction false} EliminateIsBasicIff(f: Formula)
    ensures Basic(EliminateComplexOperators(f)) <==> NoNestedComplex(f)
  {
    match f
    case Feature(_) =>
    case Not(c) => EliminateIsBasicIff(c);
    case Bin(op, l, r) =>
      if !IsComplex(op) {
        EliminateIsBasicIff(l);
        EliminateIsBasicIff(r);
      } else if op == Equivalence {
        assert Basic(Bin(Or, l, Not(r))) == (Basic(l) && Basic(r));
        assert Basic(Bin(Or, Not(l), r)) == (Basic(l) && Basic(r));
      } else {
        assert Basic(Not(l)) == Basic(l);
      }
  }

  // ---------------------------------------------------------------------
  // Moving NOTs inwards

  /** `apply_demorganlaw(node, op)`: `op` over the negated operands. */
  function ApplyDemorganLaw(f: Formula, op: Op): (r: Formula)
    requires f.Bin?
    ensures f.op == Or && op == And ==> forall v :: Eval(r, v) == !Eval(f, v)
    ensures f.op == And && op == Or ==> forall v :: Eval(r, v) == !Eval(f, v)
  {
    Bin(op, Not(f.left), Not(f.right))
  }

  /** Decreases on every recursive call of `move_nots_inwards`, including the
      ones on the trees De Morgan's law builds. */
  function NotWeight(f: Formula): nat
  {
    match f
    case Feature(_) => 1
    case Not(c) => 2 * NotWeight(c) + 1
    case Bin(_, l, r) => NotWeight(l) + NotWeight(r) + 2
  }

  /** `move_nots_inwards`. A NOT over a complex operator is handed back to the
      function unchanged, so the source recurses until Python raises
      RecursionError; the model returns that error at once. */
  function MoveNotsInwards(f: Formula): (r: Result<Formula, PyError>)
    ensures r.Err? ==> r.error == RecursionError
    ensures r.Ok? ==> NotsOverFeatures(r.value)
    decreases NotWeight(f)
  {
    match f
    case Feature(_) => Ok(f)
    case Bin(op, l, r) =>
      var l' :- MoveNotsInwards(l);
      var r' :- MoveNotsInwards(r);
      Ok(Bin(op, l', r'))
    case Not(c) =>
      if c.Feature? then Ok(f)
      else if c.Bin? && c.op == Or then
        assert NotWeight(c) == NotWeight(c.left) + NotWeight(c.right) + 2;
        assert NotWeight(ApplyDemorganLaw(c, And)) == 2 * NotWeight(c.left) + 2 * NotWeight(c.right) + 4;
        MoveNotsInwards(ApplyDemorganLaw(c, And))
      else if c.Bin? && c.op == And then
        assert NotWeight(c) == NotWeight(c.left) + NotWeight(c.right) + 2;
        assert NotWeight(ApplyDemorganLaw(c, Or)) == 2 * NotWeight(c.left) + 2 * NotWeight(c.right) + 4;
        MoveNotsInwards(ApplyDemorganLaw(c, Or))
      else if c.Not? then
        assert NotWeight(c) == 2 * NotWeight(c.child) + 1;
        MoveNotsInwards(c.child)
      else Err(RecursionError)
  }

  /** The rewriting never meets a NOT over a complex operator: every complex
      operator sits under an even number of enclosing NOTs, counted through
      ANDs and ORs. */
  predicate NotsTerminate(f: Formula, negated: bool)
  {
    match f
    case Feature(_) => true
    case Not(c) => NotsTerminate(c, !negated)
    case Bin(op, l, r) =>
      if IsComplex(op) then !negated && NotsTerminate(l, false) && NotsTerminate(r, false)
      else NotsTerminate(l, negated) && NotsTerminate(r, negated)
  }

  /** Every NOT sits directly over a feature. */
  predicate NotsOverFeatures(f: Formula)
  {
    match f
    case Feature(_) => true
    case Not(c) => c.Feature?
    case Bin(_, l, r) => NotsOverFeatures(l) && NotsOverFeatures(r)
  }

  /** Pushing a pending NOT into `f`. */
  function Negated(f: Formula, negated: bool): Formula
  {
    if negated then Not(f) else f
  }

  lemma {:induction false} MoveNotsCorrectAux(f: Formula, negated: bool, v: string -> bool)
    ensures MoveNotsInwards(Negated(f, negated)).Ok? <==> NotsTerminate(f, negated)
    ensures MoveNotsInwards(Negated(f, negated)).Ok? ==>
              var r := MoveNotsInwards(Negated(f, negated)).value;
              Eval(r, v) == (Eval(f, v) != negated) && NotsOverFeatures(r)
    decreases f, if negated then 0 else 1
  {
    match f
    case Feature(_) =>
    case Not(c) =>
      if negated {
        MoveNotsCorrectAux(c, false, v);
      } else {
        MoveNotsCorrectAux(c, true, v);
      }
    case Bin(op, l, r) =>
      if !negated {
        MoveNotsCorrectAux(l, false, v);
        MoveNotsCorrectAux(r, false, v);
      } else if op == Or || op == And {
        MoveNotsCorrectAux(l, true, v);
        MoveNotsCorrectAux(r, true, v);
        var flipped := if op == Or then And else Or;
        assert MoveNotsInwards(Not(f)) == MoveNotsInwards(Bin(flipped, Not(l), Not(r)));
      } else {
        assert MoveNotsInwards(Not(f)) == Err(RecursionError);
      }
  }

  /** `move_nots_inwards` returns exactly when no NOT reaches a complex
      operator; its result then has the same truth value and every NOT
      directly over a feature. */
  lemma MoveNotsCorrect(f: Formula, v: string -> bool)
    ensures MoveNotsInwards(f).Ok? <==> NotsTerminate(f, false)
    ensures MoveNotsInwards(f).Ok? ==>
              Eval(MoveNotsInwards(f).value, v) == Eval(f, v) && NotsOverFeatures(MoveNotsInwards(f).value)
  {
    MoveNotsCorrectAux(f, false, v);
  }

  /** On trees over features, NOT, AND and OR the rewriting always returns. */
  lemma {:induction false} BasicTerminates(f: Formula, negated: bool)
    requires Basic(f)
    ensures NotsTerminate(f, negated)
  {
    match f
    case Feature(_) =>
    case Not(c) => BasicTerminates(c, !negated);
    case Bin(_, l, r) =>
      BasicTerminates(l, negated);
      BasicTerminates(r, negated);
  }

  /** Trees whose NOTs already sit over features are returned as they are, so
      moving NOTs inwards twice is the same as once. */
  lemma {:induction false} MoveNotsFixesNnf(f: Formula)
    requires NotsOverFeatures(f)
    ensures MoveNotsInwards(f) == Ok(f)
  {
    match f
    case Feature(_) =>
    case Not(c) =>
    case Bin(_, l, r) =>
      MoveNotsFixesNnf(l);
      MoveNotsFixesNnf(r);
  }

  /** `NOT(A => B)` under a NOT, as `eliminate_complex_operators` leaves a
      nested implication, makes `move_nots_inwards` recurse without end. */
  lemma NestedImplicationDiverges()
    ensures var f := Bin(Implies, Bin(Implies, Feature("A"), Feature("B")), Feature("C"));
            EliminateComplexOperators(f) == Bin(Or, Not(Bin(Implies, Feature("A"), Feature("B"))), Feature("C")) &&
            MoveNotsInwards(EliminateComplexOperators(f)) == Err(RecursionError)
  {
    var g := Bin(Or, Not(Bin(Implies, Feature("A"), Feature("B"))), Feature("C"));
    assert MoveNotsInwards(Not(Bin(Implies, Feature("A"), Feature("B")))) == Err(RecursionError);
  }

  // ---------------------------------------------------------------------
  // Distributing ORs over ANDs

  /** `apply_distribution(p, and_node)`: (p OR Q) AND (p OR R). */
  function ApplyDistribution(p: Formula, andNode: Formula): (r: Formula)
    requires andNode.Bin?
    ensures andNode.op == And ==> forall v :: Eval(r, v) == (Eval(p, v) || Eval(andNode, v))
  {
    Bin(And, Bin(Or, p, andNode.left), Bin(Or, p, andNode.right))
  }

  function Size(f: Formula): nat
  {
    match f
    case Feature(_) => 1
    case Not(c) => Size(c) + 1
    case Bin(_, l, r) => Size(l) + Size(r) + 1
  }

  /** `distribute_ors`. The call on the AND that `apply_distribution` builds is
      unfolded into the calls on its two ORs, each smaller than the original
      OR (`DistributeOrsMatchesSource` shows the two agree). After
      distributing inside the children of an OR the OR itself is not looked at
      again. Each new OR gets its own copy of the distributed operand, where
      the source shares one node object between them and rewrites it in
      place. */
  function DistributeOrs(f: Formula): (r: Formula)
    ensures NoOrOverAnd(f) ==> r == f
    ensures NotsOverFeatures(f) ==> NotsOverFeatures(r)
    decreases Size(f)
  {
    match f
    case Feature(_) => f
    case Not(c) => Not(DistributeOrs(c))
    case Bin(op, l, r) =>
      if op != Or then Bin(op, DistributeOrs(l), DistributeOrs(r))
      else if l.Feature? && r.Feature? then f
      else if l.Bin? && l.op == And then
        assert NotsOverFeatures(f) ==> NotsOverFeatures(l) && NotsOverFeatures(r);
        assert NotsOverFeatures(l) ==> NotsOverFeatures(l.left) && NotsOverFeatures(l.right);
        Bin(And, DistributeOrs(Bin(Or, r, l.left)), DistributeOrs(Bin(Or, r, l.right)))
      else if r.Bin? && r.op == And then
        assert NotsOverFeatures(f) ==> NotsOverFeatures(l) && NotsOverFeatures(r);
        assert NotsOverFeatures(r) ==> NotsOverFeatures(r.left) && NotsOverFeatures(r.right);
        Bin(And, DistributeOrs(Bin(Or, l, r.left)), DistributeOrs(Bin(Or, l, r.right)))
      else Bin(Or, DistributeOrs(l), DistributeOrs(r))
  }

  /** The source's equations: a left AND is distributed first, with the other
      operand placed first in each new OR, and the result is distributed again. */
  lemma DistributeOrsMatchesSource(l: Formula, r: Formula)
    ensures l.Bin? && l.op == And ==>
              DistributeOrs(Bin(Or, l, r)) == DistributeOrs(ApplyDistribution(r, l))
    ensures !(l.Bin? && l.op == And) && r.Bin? && r.op == And ==>
              DistributeOrs(Bin(Or, l, r)) == DistributeOrs(ApplyDistribution(l, r))
  {
  }

  /** Distribution keeps the truth value of every tree. */
  lemma {:induction false} DistributePreservesEval(f: Formula, v: string -> bool)
    ensures Eval(DistributeOrs(f), v) == Eval(f, v)
    decreases Size(f)
  {
    match f
    case Feature(_) =>
    case Not(c) => DistributePreservesEval(c, v);
    case Bin(op, l, r) =>
      if op != Or {
        DistributePreservesEval(l, v);
        DistributePreservesEval(r, v);
      } else if l.Feature? && r.Feature? {
      } else if l.Bin? && l.op == And {
        assert Size(l) == Size(l.left) + Size(l.right) + 1;
        DistributePreservesEval(Bin(Or, r, l.left), v);
        DistributePreservesEval(Bin(Or, r, l.right), v);
      } else if r.Bin? && r.op == And {
        assert Size(r) == Size(r.left) + Size(r.right) + 1;
        DistributePreservesEval(Bin(Or, l, r.left), v);
        DistributePreservesEval(Bin(Or, l, r.right), v);
      } else {
        DistributePreservesEval(l, v);
        DistributePreservesEval(r, v);
      }
  }

  /** An OR tree with no AND in it; NOT and complex operators are leaves. */
  predicate ClauseShape(f: Formula)
  {
    match f
    case Bin(Or, l, r) => ClauseShape(l) && ClauseShape(r)
    case Bin(And, _, _) => false
    case _ => true
  }

  /** No AND beneath any OR. */
  predicate CnfShape(f: Formula)
  {
    match f
    case Bin(And, l, r) => CnfShape(l) && CnfShape(r)
    case _ => ClauseShape(f)
  }

  /** An OR whose left child gains an AND by distribution keeps that AND:
      OR(OR(A, AND(B, C)), D) becomes OR(AND(OR(A, B), OR(A, C)), D). */
  lemma DistributeOrsLeavesAndUnderOr()
    ensures var a, b, c, d := Feature("A"), Feature("B"), Feature("C"), Feature("D");
            var f := Bin(Or, Bin(Or, a, Bin(And, b, c)), d);
            DistributeOrs(f) == Bin(Or, Bin(And, Bin(Or, a, b), Bin(Or, a, c)), d) &&
            !CnfShape(DistributeOrs(f))
  {
    var a, b, c, d := Feature("A"), Feature("B"), Feature("C"), Feature("D");
    assert DistributeOrs(Bin(Or, a, Bin(And, b, c))) == Bin(And, Bin(Or, a, b), Bin(Or, a, c));
  }

  /** `AST.get_clauses` on OR(OR(A, AND(B, C)), D), and on the tree the source
      leaves behind, where the top OR's left child is replaced by its
      distribution: a second call on the same AST starts from that tree. */
  lemma RepeatedGetClauses()
    ensures var a, b, c, d := Feature("A"), Feature("B"), Feature("C"), Feature("D");
            var f := Bin(Or, Bin(Or, a, Bin(And, b, c)), d);
            var after := Bin(Or, Bin(And, Bin(Or, a, b), Bin(Or, a, c)), d);
            AstGetClauses(f) == Ok([List([Str("A"), Str("B")]), List([Str("A"), Str("C")]), Str("D")]) &&
            AstGetClauses(after) == Ok([List([Str("D"), Str("A"), Str("B")]), List([Str("D"), Str("A"), Str("C")])])
  {
    var a, b, c, d := Feature("A"), Feature("B"), Feature("C"), Feature("D");
    var f := Bin(Or, Bin(Or, a, Bin(And, b, c)), d);
    var after := Bin(Or, Bin(And, Bin(Or, a, b), Bin(Or, a, c)), d);
    DistributeOrsLeavesAndUnderOr();
    MoveNotsFixesNnf(f);
    assert ConvertIntoCnf(f) == Ok(after);
    ClausesOfDistributed("A", "B", "C", "D");
    var g := Bin(And, Bin(Or, d, Bin(Or, a, b)), Bin(Or, d, Bin(Or, a, c)));
    MoveNotsFixesNnf(after);
    assert DistributeOrs(after) == g by {
      DistributeFixesNoOrOverAnd(Bin(Or, d, Bin(Or, a, b)));
      DistributeFixesNoOrOverAnd(Bin(Or, d, Bin(Or, a, c)));
    }
    assert ConvertIntoCnf(after) == Ok(g);
    ClausesOfRedistributed("A", "B", "C", "D");
  }

  /** The clauses of OR(AND(OR(a, b), OR(a, c)), d): two lists, then a bare name. */
  lemma ClausesOfDistributed(x: string, y: string, z: string, u: string)
    ensures var a, b, c, d := Feature(x), Feature(y), Feature(z), Feature(u);
            ClausesOf(Bin(Or, Bin(And, Bin(Or, a, b), Bin(Or, a, c)), d))
              == Ok([List([Str(x), Str(y)]), List([Str(x), Str(z)]), Str(u)])
  {
    var a, b, c, d := Feature(x), Feature(y), Feature(z), Feature(u);
    ClausesOfSmallTrees(x, y);
    ClausesOfSmallTrees(x, z);
    var ab, ac := [Str(x), Str(y)], [Str(x), Str(z)];
    var conj := Bin(And, Bin(Or, a, b), Bin(Or, a, c));
    ClausesOfUnfold(conj);
    assert Splice(ab) == [List(ab)] && Splice(ac) == [List(ac)];
    assert [List(ab)] + [List(ac)] == [List(ab), List(ac)];
    assert ClausesOf(conj) == Ok([List(ab), List(ac)]);
    ClausesOfUnfold(Bin(Or, conj, d));
    assert [List(ab), List(ac)] + [Str(u)] == [List(ab), List(ac), Str(u)];
  }

  /** The clauses of AND(OR(d, OR(a, b)), OR(d, OR(a, c))): two lists. */
  lemma ClausesOfRedistributed(x: string, y: string, z: string, u: string)
    ensures var a, b, c, d := Feature(x), Feature(y), Feature(z), Feature(u);
            ClausesOf(Bin(And, Bin(Or, d, Bin(Or, a, b)), Bin(Or, d, Bin(Or, a, c))))
              == Ok([List([Str(u), Str(x), Str(y)]), List([Str(u), Str(x), Str(z)])])
  {
    var a, b, c, d := Feature(x), Feature(y), Feature(z), Feature(u);
    ClausesOfSmallTrees(x, y);
    ClausesOfSmallTrees(x, z);
    var l, r := Bin(Or, d, Bin(Or, a, b)), Bin(Or, d, Bin(Or, a, c));
    ClausesOfUnfold(l);
    ClausesOfUnfold(r);
    var uxy, uxz := [Str(u), Str(x), Str(y)], [Str(u), Str(x), Str(z)];
    assert [Str(u)] + [Str(x), Str(y)] == uxy && [Str(u)] + [Str(x), Str(z)] == uxz;
    assert ClausesOf(l) == Ok(uxy) && ClausesOf(r) == Ok(uxz);
    ClausesOfUnfold(Bin(And, l, r));
    assert Splice(uxy) == [List(uxy)] && Splice(uxz) == [List(uxz)];
    assert [List(uxy)] + [List(uxz)] == [List(uxy), List(uxz)];
  }

  /** A tree that has no OR over an AND, at any depth, including inside NOTs
      and complex operators. */
  predicate NoOrOverAnd(f: Formula)
  {
    match f
    case Feature(_) => true
    case Not(c) => NoOrOverAnd(c)
    case Bin(op, l, r) =>
      NoOrOverAnd(l) && NoOrOverAnd(r) &&
      (op == Or ==> !(l.Bin? && l.op == And) && !(r.Bin? && r.op == And))
  }

  /** Trees without an OR over an AND are left as they are. */
  lemma {:induction false} DistributeFixesNoOrOverAnd(f: Formula)
    requires NoOrOverAnd(f)
    ensures DistributeOrs(f) == f
    decreases Size(f)
  {
    match f
    case Feature(_) =>
    case Not(c) => DistributeFixesNoOrOverAnd(c);
    case Bin(op, l, r) =>
      DistributeFixesNoOrOverAnd(l);
      DistributeFixesNoOrOverAnd(r);
  }

  /** `convert_into_cnf`: the three passes in order. */
  function ConvertIntoCnf(f: Formula): (r: Result<Formula, PyError>)
    ensures r.Err? ==> r.error == RecursionError
    ensures r.Ok? ==> NotsOverFeatures(r.value)
  {
    var g :- MoveNotsInwards(EliminateComplexOperators(f));
    Ok(DistributeOrs(g))
  }

  /** The conversion fails only with RecursionError, exactly when a NOT meets a
      complex operator left by the first pass (never when no complex operator
      is nested in another), and otherwise keeps the truth value. */
  lemma ConvertIntoCnfCorrect(f: Formula, v: string -> bool)
    ensures ConvertIntoCnf(f).Ok? <==> NotsTerminate(EliminateComplexOperators(f), false)
    ensures ConvertIntoCnf(f).Err? ==> ConvertIntoCnf(f).error == RecursionError
    ensures NoNestedComplex(f) ==> ConvertIntoCnf(f).Ok?
    ensures ConvertIntoCnf(f).Ok? ==> Eval(ConvertIntoCnf(f).value, v) == Eval(f, v)
  {
    var e := EliminateComplexOperators(f);
    EliminatePreservesEval(f, v);
    EliminateIsBasicIff(f);
    MoveNotsCorrect(e, v);
    MoveNotsErrors(e);
    if NoNestedComplex(f) { BasicTerminates(e, false); }
    if MoveNotsInwards(e).Ok? { DistributePreservesEval(MoveNotsInwards(e).value, v); }
  }

  lemma {:induction false} MoveNotsErrors(f: Formula)
    ensures MoveNotsInwards(f).Err? ==> MoveNotsInwards(f).error == RecursionError
    decreases NotWeight(f)
  {
    match f
    case Feature(_) =>
    case Bin(op, l, r) =>
      MoveNotsErrors(l);
      MoveNotsErrors(r);
    case Not(c) =>
      if c.Bin? && (c.op == Or || c.op == And) {
        var flipped := if c.op == Or then And else Or;
        assert NotWeight(c) == NotWeight(c.left) + NotWeight(c.right) + 2;
        assert NotWeight(ApplyDemorganLaw(c, flipped)) == 2 * NotWeight(c.left) + 2 * NotWeight(c.right) + 4;
        MoveNotsErrors(ApplyDemorganLaw(c, flipped));
      } else if c.Not? {
        assert NotWeight(c) == 2 * NotWeight(c.child) + 1;
        MoveNotsErrors(c.child);
      }
  }

  // ---------------------------------------------------------------------
  // Reading the clauses back

  /** How `get_clauses_from_and_node` adds one side's result: a list of lists
      is spliced in, anything else (a flat clause, or `[]`) is one clause. */
  function Splice(part: seq<PyVal>): seq<PyVal>
  {
    if |part| > 0 && part[0].List? then part else [List(part)]
  }

  /** What `get_clauses` returns, as a function of the tree. */
  function ClausesOf(f: Formula): (r: Result<seq<PyVal>, PyError>)
    ensures r.Err? ==> r.error == TypeError
    ensures NotsOverFeatures(f) ==> r.Ok?
  {
    match f
    case Feature(_) => Ok([])
    case Not(c) => if c.Feature? then Ok([Str("-" + c.name)]) else Err(TypeError)
    case Bin(And, l, r) =>
      var a :- ClausesOf(l);
      var b :- ClausesOf(r);
      Ok(Splice(a) + Splice(b))
    case Bin(Or, l, r) =>
      var a :- if l.Feature? then Ok([Str(l.name)]) else ClausesOf(l);
      var b :- if r.Feature? then Ok([Str(r.name)]) else ClausesOf(r);
      Ok(a + b)
    case _ => Ok([])
  }

  lemma ClausesOfUnfold(f: Formula)
    requires f.Bin? && (f.op == And || f.op == Or)
    ensures var a := if f.op == Or && f.left.Feature? then Ok([Str(f.left.name)]) else ClausesOf(f.left);
            var b := if f.op == Or && f.right.Feature? then Ok([Str(f.right.name)]) else ClausesOf(f.right);
            ClausesOf(f) ==
              if a.Err? then Err(a.error)
              else if b.Err? then Err(b.error)
              else if f.op == And then Ok(Splice(a.value) + Splice(b.value))
              else Ok(a.value + b.value)
  {
  }

  /** `get_clauses`. */
  method GetClauses(f: Formula) returns (r: Result<seq<PyVal>, PyError>)
    ensures r == ClausesOf(f)
    decreases f, 1
  {
    match f {
      case Feature(_) =>
        r := Ok([]);
      case Not(c) =>
        if c.Feature? {
          r := Ok([Str("-" + c.name)]);
        } else {
          r := Err(TypeError);
        }
      case Bin(op, _, _) =>
        if op == And {
          r := GetClausesFromAndNode(f);
        } else if op == Or {
          r := GetClauseFromOrNode(f);
        } else {
          r := Ok([]);
        }
    }
  }

  /** `get_clauses_from_and_node`: the clauses of the left operand, then those
      of the right one, element by element. */
  method GetClausesFromAndNode(f: Formula) returns (r: Result<seq<PyVal>, PyError>)
    requires f.Bin? && f.op == And
    ensures r == ClausesOf(f)
    decreases f, 0
  {
    ClausesOfUnfold(f);
    var left := GetClauses(f.left);
    if left.Err? {
      return Err(left.error);
    }
    var clauses := AppendClauses([], left.value);
    assert clauses == Splice(left.value);
    var right := GetClauses(f.right);
    if right.Err? {
      return Err(right.error);
    }
    clauses := AppendClauses(clauses, right.value);
    r := Ok(clauses);
  }

  /** One side of `get_clauses_from_and_node`: a list of lists is appended
      clause by clause, any other result as a single clause. */
  method AppendClauses(clauses: seq<PyVal>, part: seq<PyVal>) returns (r: seq<PyVal>)
    ensures r == clauses + Splice(part)
  {
    r := clauses;
    if |part| > 0 && part[0].List? {
      var i := 0;
      while i < |part|
        invariant 0 <= i <= |part|
        invariant r == clauses + part[..i]
      {
        r := r + [part[i]];
        i := i + 1;
      }
      assert part[..|part|] == part;
    } else {
      r := r + [List(part)];
    }
  }

  /** `get_clause_from_or_node`: nested operators add their own results to the
      clause, features add their name. */
  method GetClauseFromOrNode(f: Formula) returns (r: Result<seq<PyVal>, PyError>)
    requires f.Bin? && f.op == Or
    ensures r == ClausesOf(f)
    decreases f, 0
  {
    ClausesOfUnfold(f);
    var clause: seq<PyVal> := [];
    if f.left.Feature? {
      clause := clause + [Str(f.left.name)];
    } else {
      var left := GetClauses(f.left);
      if left.Err? {
        return Err(left.error);
      }
      clause := clause + left.value;
    }
    assert clause == if f.left.Feature? then [Str(f.left.name)] else ClausesOf(f.left).value;
    if f.right.Feature? {
      clause := clause + [Str(f.right.name)];
    } else {
      var right := GetClauses(f.right);
      if right.Err? {
        return Err(right.error);
      }
      clause := clause + right.value;
    }
    r := Ok(clause);
  }

  /** `AST.get_clauses`'s last step: a non-empty flat clause becomes a list of
      one clause, any other result is returned as it is. */
  function WrapClauses(cs: seq<PyVal>): (r: seq<PyVal>)
    ensures |cs| > 0 && !cs[0].List? ==> r == [List(cs)]
    ensures !(|cs| > 0 && !cs[0].List?) ==> r == cs
    ensures |r| > 0 ==> r[0].List?
  {
    if |cs| > 0 && !cs[0].List? then [List(cs)] else cs
  }

  /** `AST.get_clauses`. */
  function AstGetClauses(f: Formula): (r: Result<seq<PyVal>, PyError>)
    ensures r.Err? ==> r.error == RecursionError
    ensures ConvertIntoCnf(f).Ok? ==> r.Ok?
    ensures r.Ok? && |r.value| > 0 ==> r.value[0].List?
  {
    var g :- ConvertIntoCnf(f);
    // `g` has every NOT over a feature, so `get_clauses` raises nothing
    Ok(WrapClauses(ClausesOf(g).value))
  }

  /** `get_clauses` on single nodes: nothing for a feature, the flat `["-x"]`
      for its negation, and two empty clauses for the AND of two features. */
  lemma ClausesOfSmallTrees(x: string, y: string)
    ensures ClausesOf(Feature(x)) == Ok([])
    ensures ClausesOf(Not(Feature(x))) == Ok([Str("-" + x)])
    ensures ClausesOf(Bin(And, Feature(x), Feature(y))) == Ok([List([]), List([])])
    ensures ClausesOf(Bin(Or, Feature(x), Feature(y))) == Ok([Str(x), Str(y)])
    ensures AstGetClauses(Not(Feature(x))) == Ok([List([Str("-" + x)])])
  {
    var f := Not(Feature(x));
    assert EliminateComplexOperators(f) == f;
    assert MoveNotsInwards(f) == Ok(f);
    assert DistributeOrs(f) == f;
    assert ConvertIntoCnf(f) == Ok(f);
    ClausesOfUnfold(Bin(And, Feature(x), Feature(y)));
    ClausesOfUnfold(Bin(Or, Feature(x), Feature(y)));
    assert ClausesOf(Feature(x)) == Ok([]) && ClausesOf(Feature(y)) == Ok([]);
    assert Splice([]) == [List([])];
    assert [List([])] + [List([])] == [List([]), List([])];
    assert [Str(x)] + [Str(y)] == [Str(x), Str(y)];
  }

  // Meaning of clause lists

  predicate LiteralHolds(lit: PyVal, v: string -> bool)
  {
    lit.Str? && (if |lit.s| > 0 && lit.s[0] == '-' then !v(lit.s[1..]) else v(lit.s))
  }

  predicate ClauseHolds(c: PyVal, v: string -> bool)
  {
    c.List? && exists j :: 0 <= j < |c.items| && LiteralHolds(c.items[j], v)
  }

  /** A list of clauses means their conjunction. */
  predicate ClausesHold(cs: seq<PyVal>, v: string -> bool)
  {
    forall i :: 0 <= i < |cs| ==> ClauseHolds(cs[i], v)
  }

  /** For `AND(A, B)` and an assignment making both true, the clause list
      `[[], []]` does not hold: positive unit clauses are lost. */
  lemma AndOfFeaturesCounterexample()
    ensures var f := Bin(And, Feature("A"), Feature("B"));
            var v := (x: string) => true;
            Eval(f, v) && ClausesOf(f).Ok? && !ClausesHold(WrapClauses(ClausesOf(f).value), v)
  {
    var cs := ClausesOf(Bin(And, Feature("A"), Feature("B"))).value;
    assert cs == [List([]), List([])];
    assert !ClauseHolds(cs[0], (x: string) => true);
  }

  /** `get_clauses` with a feature giving its own unit clause `[name]`. */
  function ClausesOfFixed(f: Formula): (r: Result<seq<PyVal>, PyError>)
    ensures r.Err? ==> r.error == TypeError
    ensures NotsOverFeatures(f) ==> r.Ok?
    ensures r.Ok? && (f.Feature? || (f.Bin? && f.op == And)) ==> |r.value| > 0
  {
    match f
    case Feature(x) => Ok([Str(x)])
    case Bin(And, l, r) =>
      var a :- ClausesOfFixed(l);
      var b :- ClausesOfFixed(r);
      Ok(Splice(a) + Splice(b))
    case _ => ClausesOf(f)
  }

  predicate NoDashNames(f: Formula)
  {
    match f
    case Feature(x) => |x| == 0 || x[0] != '-'
    case Not(c) => NoDashNames(c)
    case Bin(_, l, r) => NoDashNames(l) && NoDashNames(r)
  }

  predicate IsLiteral(f: Formula)
  {
    f.Feature? || (f.Not? && f.child.Feature?)
  }

  /** An OR tree over literals. */
  predicate OrOfLiterals(f: Formula)
  {
    if f.Bin? && f.op == Or then OrOfLiterals(f.left) && OrOfLiterals(f.right) else IsLiteral(f)
  }

  /** An AND tree of OR trees over literals. */
  predicate CnfOfLiterals(f: Formula)
  {
    if f.Bin? && f.op == And then CnfOfLiterals(f.left) && CnfOfLiterals(f.right) else OrOfLiterals(f)
  }

  /** Literal strings only. */
  predicate FlatClause(cs: seq<PyVal>)
  {
    forall j :: 0 <= j < |cs| ==> cs[j].Str?
  }

  /** An OR of literals (other than a bare feature) reads back as a non-empty
      flat clause that holds exactly when the tree does. */
  lemma {:induction false} OrClauseMeaning(f: Formula, v: string -> bool)
    requires OrOfLiterals(f) && NoDashNames(f) && !f.Feature?
    ensures ClausesOf(f).Ok?
    ensures var cs := ClausesOf(f).value;
            |cs| > 0 && FlatClause(cs) && ClauseHolds(List(cs), v) == Eval(f, v)
  {
    if f.Not? {
      var cs := ClausesOf(f).value;
      assert cs[0].s[1..] == f.child.name;
      assert cs[0] == List(cs).items[0];
    } else {
      var l, r := f.left, f.right;
      if !l.Feature? { OrClauseMeaning(l, v); }
      if !r.Feature? { OrClauseMeaning(r, v); }
      var a := if l.Feature? then [Str(l.name)] else ClausesOf(l).value;
      var b := if r.Feature? then [Str(r.name)] else ClausesOf(r).value;
      if l.Feature? { assert a[0] == List(a).items[0]; }
      if r.Feature? { assert b[0] == List(b).items[0]; }
      assert ClausesOf(f).value == a + b;
      ConcatClauseHolds(a, b, v);
    }
  }

  lemma ConcatClauseHolds(a: seq<PyVal>, b: seq<PyVal>, v: string -> bool)
    ensures ClauseHolds(List(a + b), v) == (ClauseHolds(List(a), v) || ClauseHolds(List(b), v))
  {
    if ClauseHolds(List(a), v) {
      var j :| 0 <= j < |a| && LiteralHolds(a[j], v);
      assert (a + b)[j] == a[j];
    }
    if ClauseHolds(List(b), v) {
      var j :| 0 <= j < |b| && LiteralHolds(b[j], v);
      assert (a + b)[|a| + j] == b[j];
    }
    if ClauseHolds(List(a + b), v) {
      var j :| 0 <= j < |a + b| && LiteralHolds((a + b)[j], v);
      if j < |a| { assert a[j] == (a + b)[j]; } else { assert b[j - |a|] == (a + b)[j]; }
    }
  }

  lemma ClausesHoldAppend(a: seq<PyVal>, b: seq<PyVal>, v: string -> bool)
    ensures ClausesHold(a + b, v) == (ClausesHold(a, v) && ClausesHold(b, v))
  {
    if ClausesHold(a, v) && ClausesHold(b, v) {
      forall i | 0 <= i < |a + b| ensures ClauseHolds((a + b)[i], v) {
        if i >= |a| { assert (a + b)[i] == b[i - |a|]; }
      }
    }
    if ClausesHold(a + b, v) {
      forall i | 0 <= i < |b| ensures ClauseHolds(b[i], v) {
        assert (a + b)[|a| + i] == b[i];
      }
      forall i | 0 <= i < |a| ensures ClauseHolds(a[i], v) {
        assert (a + b)[i] == a[i];
      }
    }
  }

  predicate NoFeatureClause(f: Formula)
  {
    if f.Bin? && f.op == And then NoFeatureClause(f.left) && NoFeatureClause(f.right) else !f.Feature?
  }

  /** The result of `get_clauses` on an AND tree of OR trees is a list of
      clauses (or one flat clause) meaning the tree, provided no clause is a
      bare feature. */
  lemma {:induction false} AndClausesMeaning(f: Formula, v: string -> bool)
    requires CnfOfLiterals(f) && NoDashNames(f) && NoFeatureClause(f)
    ensures ClausesOf(f).Ok?
    ensures var cs := ClausesOf(f).value;
            |cs| > 0 &&
            (if f.Bin? && f.op == And then cs[0].List? && ClausesHold(cs, v) == Eval(f, v)
             else FlatClause(cs) && ClauseHolds(List(cs), v) == Eval(f, v))
  {
    if f.Bin? && f.op == And {
      AndClausesMeaning(f.left, v);
      AndClausesMeaning(f.right, v);
      var a, b := ClausesOf(f.left).value, ClausesOf(f.right).value;
      SpliceMeaning(f.left, a, v);
      SpliceMeaning(f.right, b, v);
      assert ClausesOf(f).value == Splice(a) + Splice(b);
      ClausesHoldAppend(Splice(a), Splice(b), v);
    } else {
      OrClauseMeaning(f, v);
    }
  }

  lemma SpliceMeaning(f: Formula, cs: seq<PyVal>, v: string -> bool)
    requires |cs| > 0
    requires f.Bin? && f.op == And ==> cs[0].List? && ClausesHold(cs, v) == Eval(f, v)
    requires !(f.Bin? && f.op == And) ==> FlatClause(cs) && ClauseHolds(List(cs), v) == Eval(f, v)
    ensures |Splice(cs)| > 0 && Splice(cs)[0].List? && ClausesHold(Splice(cs), v) == Eval(f, v)
  {
    if !(f.Bin? && f.op == And) {
      assert Splice(cs) == [List(cs)];
      assert ClausesHold([List(cs)], v) == ClauseHolds(List(cs), v) by {
        assert [List(cs)][0] == List(cs);
      }
    }
  }

  /** `AST.get_clauses`'s reading of a CNF tree over literals, with no bare
      feature as a clause, holds exactly when the tree does. */
  lemma GetClausesCorrect(f: Formula, v: string -> bool)
    requires CnfOfLiterals(f) && NoDashNames(f) && NoFeatureClause(f)
    ensures ClausesOf(f).Ok?
    ensures ClausesHold(WrapClauses(ClausesOf(f).value), v) == Eval(f, v)
  {
    AndClausesMeaning(f, v);
    var cs := ClausesOf(f).value;
    if !(f.Bin? && f.op == And) {
      assert WrapClauses(cs) == [List(cs)];
      assert [List(cs)][0] == List(cs);
    }
  }

  /** With features giving their own unit clause, every CNF tree over literals
      reads back as a clause list that holds exactly when the tree does. */
  lemma {:induction false} ClausesOfFixedCorrect(f: Formula, v: string -> bool)
    requires CnfOfLiterals(f) && NoDashNames(f)
    ensures ClausesOfFixed(f).Ok?
    ensures ClausesHold(WrapClauses(ClausesOfFixed(f).value), v) == Eval(f, v)
    ensures var cs := ClausesOfFixed(f).value;
            |cs| > 0 &&
            (if f.Bin? && f.op == And then cs[0].List? && ClausesHold(cs, v) == Eval(f, v)
             else FlatClause(cs) && ClauseHolds(List(cs), v) == Eval(f, v))
  {
    if f.Bin? && f.op == And {
      ClausesOfFixedCorrect(f.left, v);
      ClausesOfFixedCorrect(f.right, v);
      var cs := ClausesOfFixed(f).value;
      var a, b := ClausesOfFixed(f.left).value, ClausesOfFixed(f.right).value;
      SpliceMeaning(f.left, a, v);
      SpliceMeaning(f.right, b, v);
      assert cs == Splice(a) + Splice(b);
      ClausesHoldAppend(Splice(a), Splice(b), v);
    } else {
      if !f.Feature? {
        OrClauseMeaning(f, v);
      }
      var cs := ClausesOfFixed(f).value;
      if f.Feature? {
        assert cs[0] == List(cs).items[0];
      }
      assert WrapClauses(cs) == [List(cs)];
      assert [List(cs)][0] == List(cs);
    }
  }

  /** The corrected reading agrees with the source wherever no clause is a
      bare feature. */
  lemma {:induction false} ClausesOfFixedAgrees(f: Formula)
    requires NoFeatureClause(f)
    ensures ClausesOfFixed(f) == ClausesOf(f)
  {
    if f.Bin? && f.op == And {
      ClausesOfFixedAgrees(f.left);
      ClausesOfFixedAgrees(f.right);
    }
  }
}
