# flamapy core, modelled in Dafny

flamapy (and famapy, its predecessor) is a framework for automated analysis of
feature models. The framework core has three parts.

- The propositional-constraint engine: constraint trees attached to
  variability models.
  - For flamapy: simplify the operators away, move negations to the terms,
    reach conjunctive normal form and flatten the result to SAT-style
    clause lists.
  - The older famapy engine does the same in three passes and flattens the
    result into differently shaped lists.
  - FamaAST, the oldest generation, is a string tokenizer and a
    priority-based parser. It builds a flat list of nodes that are linked
    by token positions.
- The plugin registries. A plugin holds operation classes, transformation
  classes and maybe a variability-model class. The registries look things
  up by first match and count what each plugin holds.
- The discoverer, `DiscoverMetamodels`. It lists operation names, finds
  the plugins that offer an operation, chooses the reader for a file, and
  searches a chain of model-to-model transformations to a plugin that
  offers the operation. `use_operation_from_file` combines these steps
  with its guards.

Two small value types come with the core. `Configuration` maps elements to
selected or not. `extract_filename_extension` appears in both generations.

## The model

The project has one module per source file.

| module | file | source |
|---|---|---|
| `Wrappers` | wrappers.dfy | `Option` and `Result` |
| `Text` | text.dfy | `str.split`, `str.rsplit(maxsplit=1)` and `str.join` on `seq<char>`, with their lemmas |
| `FlamapyUtils`, `FamapyUtils` | utils.dfy | the two `utils.py` files |
| `Configurations` | configuration.dfy | `Configuration` |
| `FlamapyAst` | flamapy_ast.dfy | flamapy/core/models/ast.py |
| `FamapyAst` | famapy_ast.dfy | famapy/core/models/ast.py |
| `FamaTree` | fama_tree.dfy | famapy/core/ast/ast.py |
| `Registry` | registry.dfy | the operation and transformation classes as records, and the `next(filter(...))` idiom |
| `FlamapyPlugins` | flamapy_plugins.dfy | flamapy/core/plugins.py |
| `FamapyPlugins` | famapy_plugins.dfy | famapy/core/plugins.py, where it differs |
| `Discover` | discover.dfy | flamapy/core/discover.py |

### How the source becomes Dafny

**Pure code becomes functions.** Pure recursion builds fresh trees, so
those trees are datatypes, and the rewrites are functions from tree to tree.
In flamapy's `to_cnf` the in-place `node.left = ...` assignments replace a
subtree by its conversion, which converting again leaves as it is, so
values model them exactly. famapy's rewrites also assign in place, on trees
whose nodes can be shared. There the value model differs from the source;
"## Left out" says how.

**Formulas.**
- A flamapy formula is a `Node`: terms, `Not`, binary logical operators,
  and `Other` for the comparison, arithmetic and aggregation operators.
  `Other` nodes pass through every rewrite untouched.
- `Eval` gives a formula its truth value. It takes an assignment `v` for
  the terms and an interpretation `w` for the opaque `Other` nodes.
- `EvalAsSimplified` is `Eval` with EQUIVALENCE read as IMPLIES. That is
  the truth value `simplify_formula` gives a formula, since its EQUIVALENCE
  branch builds its second implication from the first one.

**Where the source changes state, the model is imperative.**
- `FamaAST` is a class. Its `nodes` list grows through `generate` and
  `explore`, methods proved against the functions `GenerateOn` and
  `ExploreSpec`.
- The `find_*_index` scans, `generate_list`, `get_root` and `get_childs`
  are loops with invariants.
- A `Plugin` is a class whose `append_*` methods extend its lists.
- `Plugins.get_stats` fills a map in a loop.
- The famapy clause extractors build their lists in loops.
- `DiscoverMetamodels` runs its nested loops and the recursive way search
  as methods. Each is proved equal to a specification function, and the
  properties are lemmas about those functions.

**Python failures become results.** The model returns each error the source
raises as an `Err`:
- `next` on an exhausted filter, as `PluginNotFound`;
- calling `None`, as `TypeError`;
- reading `None.get_extension`, as `AttributeError`;
- indexing past the end, as `IndexError`;
- recursion without end, as `RecursionError`.

Unbounded recursion is detected by a precondition-free characterisation
(`FamapyAst.NotsTerminate`, `FamaTree.ExploreDiverges`), so no model
requires it away.

### Where the model follows the code

- A one-token FamaAST input gets no tree.
  - Reading `self.list[-1]` on an empty range suggests three nodes: the
    root plus two leaf copies of the token. The code never gets that far.
  - `generate` explores the empty range
    `[1, 1)`. There `find_parent_item` returns -1, `self.list[-1]` is that
    one token, and `explore` then reads `self.list[i]` with `i = 1`. That
    is past the end of a one-element list, so `IndexError` is raised.
  - If the token is a binary operator, the recursion never ends instead.
    `FamaTree.OneTokenFails` states both outcomes.
- `__transform_to_model_from_file` splits on every "." (`str.split('.')[-1]`,
  as in famapy's utility). `Plugin.use_transformation_t2m` uses the
  rsplit-based `extract_filename_extension`. The two agree
  (`FamapyUtils.AgreesWithRsplit`).

## Model

| member | source | states |
|---|---|---|
| Configurations.GetExtension | flamapy/metamodels/configuration_metamodel/models/configuration.py:7-9 | the extension of every configuration is "configuration" |
| Configurations.Iter | flamapy/metamodels/configuration_metamodel/models/configuration.py:28-29 | iteration yields the element keys, one per entry, in insertion order |
| Configurations.Selected | flamapy/metamodels/configuration_metamodel/models/configuration.py:14-15 | a name is listed exactly when it is mapped to true; never more entries than the map |
| Configurations.GetSelectedElements | flamapy/metamodels/configuration_metamodel/models/configuration.py:14-15 | the selected elements are exactly the keys mapped to true |
| Configurations.SelectedOnce | flamapy/metamodels/configuration_metamodel/models/configuration.py:14-15 | in a configuration with distinct keys every selected element appears once |
| Configurations.SelectedAppend | flamapy/metamodels/configuration_metamodel/models/configuration.py:14-15 | selection keeps insertion order: selecting from a concatenation concatenates the selections |
| Configurations.SelectedDistinct | flamapy/metamodels/configuration_metamodel/models/configuration.py:14-15 | distinct keys give a duplicate-free selection |
| Configurations.ToMapHas | flamapy/metamodels/configuration_metamodel/models/configuration.py:11-12 | every key of the element map comes with its value from the given items |
| Configurations.ToMapOf | flamapy/metamodels/configuration_metamodel/models/configuration.py:11-12 | with distinct keys every given (key, value) pair is in the element map |
| Configurations.Equals | flamapy/metamodels/configuration_metamodel/models/configuration.py:17-20 | comparing with an object that is not a Configuration gives false |
| Configurations.EqualsIffSameItems | flamapy/metamodels/configuration_metamodel/models/configuration.py:17-20 | two configurations are equal exactly when they hold the same (element, selected) pairs |
| Configurations.EqualsIsSymmetric | flamapy/metamodels/configuration_metamodel/models/configuration.py:17-20 | equality does not depend on which side is asked |
| Configurations.ItemsAreElements | flamapy/metamodels/configuration_metamodel/models/configuration.py:22-23 | the hashed set of pairs is exactly the configuration's entries |
| Configurations.EqualHash | flamapy/metamodels/configuration_metamodel/models/configuration.py:22-23 | equal configurations have equal hashes, whatever the set hash |
| Configurations.ToString | flamapy/metamodels/configuration_metamodel/models/configuration.py:25-26 | no selected element prints as "", a single one prints as itself |
| FlamapyUtils.ExtractFilenameExtension | flamapy/core/utils.py:4-5 | the extension has no ".", is a suffix of the name, is the whole name when there is no ".", rebuilds the name as prefix + "." + extension, and a trailing "." gives "" |
| FamapyUtils.ExtractFilenameExtension | famapy/core/utils.py:4-5 | the extension is the last piece of splitting on ".", has no ".", is a suffix of the name, and is the whole name when there is no "." |
| FamapyUtils.AgreesWithRsplit | famapy/core/utils.py:4-5 | splitting on every "." and taking the last piece gives the same extension as the rsplit version, on every input |
| FamapyUtils.CompoundExtension | famapy/core/utils.py:4-5 | "a.tar.gz" has extension "gz" |
| Text.SplitPiecesAvoid | famapy/core/utils.py:5 | no piece of a split contains the separator |
| Text.SplitCount | famapy/core/ast/ast.py:29 | a split has one more piece than the string has separators |
| Text.JoinSplit | famapy/core/ast/ast.py:28-29 | joining the pieces of a split with the separator gives back the string |
| Text.LastIndex | flamapy/core/utils.py:5 | the position of the last separator, or none exactly when the string has none |
| Text.LastSegmentAfterLastIndex | famapy/core/utils.py:5 | the last piece of a split is what follows the last separator, or the whole string when there is none |
| FlamapyAst.NodeKinds | flamapy/core/models/ast.py:43-56 | every node is exactly one of lone term, unary operator, binary operator; non-logical operators count as binary |
| FlamapyAst.OperatorNamesHaveNoParenthesis | flamapy/core/models/ast.py:5-33 | no operator's printed value contains "(" |
| FlamapyAst.CountInfix | flamapy/core/models/ast.py:69-77 | writing an operator between two operands adds no "(" of its own |
| FlamapyAst.PrettyStr | flamapy/core/models/ast.py:79-90 | a term prints as its name and a NOT as "NOT " followed by its printed operand |
| FlamapyAst.PrettyOperand | flamapy/core/models/ast.py:69-77 | a binary operand is wrapped in parentheses, any other operand prints as it would on its own |
| FlamapyAst.PrettyStrParentheses | flamapy/core/models/ast.py:79-90 | when no name contains "(", the pretty string opens exactly one parenthesis per binary operand below a binary operator |
| FlamapyAst.PrettyOperandParentheses | flamapy/core/models/ast.py:69-77 | an operand is parenthesised exactly when it is a binary operator, recursively |
| FlamapyAst.SimplifyFormula | flamapy/core/models/ast.py:141-191 | simplification never makes a formula heavier, the measure its recursion on freshly built nodes descends on, and a term or any other non-logical node is returned unchanged |
| FlamapyAst.SimplifyRemovesComplex | flamapy/core/models/ast.py:141-191 | without XOR the result has no implies, requires, excludes or equivalence node, including where an EQUIVALENCE builds its second IMPLIES from the reassigned `left` |
| FlamapyAst.SimplifiedIsFree | flamapy/core/models/ast.py:141-191 | a formula of only NOT, AND and OR has neither XOR nor EQUIVALENCE, so it can be simplified again as lines 166-167 do |
| FlamapyAst.EvalAsSimplifiedAgrees | flamapy/core/models/ast.py:162-168 | reading EQUIVALENCE as IMPLIES changes nothing on a formula without EQUIVALENCE |
| FlamapyAst.SimplifyPreservesEval | flamapy/core/models/ast.py:141-191 | without XOR the result has, under every assignment, the truth value of the input read with each EQUIVALENCE as IMPLIES; without EQUIVALENCE too, the input's own truth value |
| FlamapyAst.XorCounterexample | flamapy/core/models/ast.py:169-177 | A XOR B with only A true simplifies to a formula that is false |
| FlamapyAst.EquivalenceCounterexample | flamapy/core/models/ast.py:162-168 | P EQUIVALENCE Q with only Q true is false but simplifies to a formula that is true |
| FlamapyAst.FixedPreservesEval | flamapy/core/models/ast.py:162-177 | with the EQUIVALENCE and XOR branches rewritten as their comments say, simplification preserves the truth value of every formula and leaves only NOT, AND, OR and opaque nodes |
| FlamapyAst.FixedAgrees | flamapy/core/models/ast.py:141-191 | the corrected simplification and the source's agree on every formula with neither XOR nor EQUIVALENCE |
| FlamapyAst.PropagateNegationCorrect | flamapy/core/models/ast.py:243-271 | the result evaluates to the input's value flipped by the flag, every NOT sits above a non-AND/OR/NOT node, and on simplified input every NOT sits on a term or opaque node |
| FlamapyAst.PropagateNegation | flamapy/core/models/ast.py:243-271 | every result is in negation normal form, and on simplified input every NOT lands on a term or opaque node |
| FlamapyAst.ToCnf | flamapy/core/models/ast.py:194-229 | every result has no AND below an OR, and on negation normal form the result is CNF over literals |
| FlamapyAst.Distribute | flamapy/core/models/ast.py:207-229 | the OR of two CNF-shaped (CNF) operands, distributed, is CNF-shaped (CNF) |
| FlamapyAst.DistributeEval | flamapy/core/models/ast.py:207-229 | distributing OR over two CNF operands evaluates to the OR of the operands |
| FlamapyAst.DistributeShape | flamapy/core/models/ast.py:207-229 | distributing two CNF-shaped operands gives CNF shape: no AND below an OR |
| FlamapyAst.DistributeCnf | flamapy/core/models/ast.py:207-229 | distributing two CNF operands over literals gives CNF over literals |
| FlamapyAst.ToCnfCorrect | flamapy/core/models/ast.py:194-229 | to_cnf preserves the truth value, always produces CNF shape, and on negation normal form produces CNF over literals |
| FlamapyAst.ToCnfFixesCnf | flamapy/core/models/ast.py:194-229 | a formula already in CNF shape comes back unchanged |
| FlamapyAst.ClauseIsCnf | flamapy/core/models/ast.py:194-229 | a disjunction of non-AND parts is CNF-shaped and is not itself an AND |
| FlamapyAst.ToCnfIdempotent | flamapy/core/models/ast.py:194-229 | applying to_cnf twice gives what applying it once gives |
| FlamapyAst.ToCnfMatchesSource | flamapy/core/models/ast.py:206-229 | the model's to_cnf on an OR satisfies the source's equations: convert both children, distribute into a left AND first, then into a right AND, and otherwise rebuild the OR |
| FlamapyAst.ConvertIntoCnfCorrect | flamapy/core/models/ast.py:135-138 | on XOR-free input the converted formula is in CNF over literals and has the truth value of the input read with EQUIVALENCE as IMPLIES; without EQUIVALENCE, the input's own truth value |
| FlamapyAst.ConvertIntoCnf | flamapy/core/models/ast.py:135-138 | every converted formula is CNF-shaped, and an XOR-free one is CNF over literals |
| FlamapyAst.LiteralOf | flamapy/core/models/ast.py:296-302 | a term gives its name; another leaf gives "-" and the printed data of its first child, "-ASTOperation.NAME" for an operator child; it fails, with AttributeError, exactly when that child is missing |
| FlamapyAst.GetClauseFromOrNode | flamapy/core/models/ast.py:290-304 | one literal per OR leaf, and the only error is AttributeError |
| FlamapyAst.GetClauses | flamapy/core/models/ast.py:274-287 | a NOT fails (TypeError) exactly when its child is an operator, and every clause produced is non-empty |
| FlamapyAst.AstGetClauses | flamapy/core/models/ast.py:116-121 | every clause of the result is non-empty |
| FlamapyAst.ComparisonLiteral | flamapy/core/models/ast.py:274-304 | (Price > 5) implies B gives [["-ASTOperation.GREATER", "B"]]: the negated comparison is read through its first child |
| FlamapyAst.ClauseFromOrLeaves | flamapy/core/models/ast.py:290-304 | an OR of literals gives a clause with one literal string per OR leaf, left subtree first |
| FlamapyAst.PlainLiteralHolds | flamapy/core/models/ast.py:290-304 | a literal string ("x" or "-x" for a name not starting with "-") holds exactly when its literal evaluates to true |
| FlamapyAst.OrLeavesPlain | flamapy/core/models/ast.py:290-304 | the leaves of an OR of literals are literals and keep the names' form |
| FlamapyAst.OrLeavesEval | flamapy/core/models/ast.py:290-304 | a nested OR is true exactly when one of its leaves is |
| FlamapyAst.ClauseFromOrMeaning | flamapy/core/models/ast.py:290-304 | the clause extracted from an OR of literals holds exactly when the OR is true |
| FlamapyAst.SingleClause | flamapy/core/models/ast.py:274-287 | a one-clause list holds exactly when the clause holds |
| FlamapyAst.UnitClause | flamapy/core/models/ast.py:274-287 | a unit clause holds exactly when its literal holds |
| FlamapyAst.ClausesHoldAppend | flamapy/core/models/ast.py:274-287 | the concatenation of two clause lists holds exactly when both do |
| FlamapyAst.GetClausesMeaning | flamapy/core/models/ast.py:274-287 | a CNF over literals always yields clauses, and they hold exactly when the formula is true |
| FlamapyAst.GetClausesShapes | flamapy/core/models/ast.py:274-287 | a term gives [[name]], NOT(term) gives [["-"+name]], an OR gives one clause, and an AND gives the left clauses then the right ones |
| FlamapyAst.SimplifyKeepsNames | flamapy/core/models/ast.py:141-191 | simplification introduces no name starting with "-" and no opaque node |
| FlamapyAst.PropagateKeepsNames | flamapy/core/models/ast.py:243-271 | negation propagation introduces no name starting with "-" and no opaque node |
| FlamapyAst.DistributeKeepsNames | flamapy/core/models/ast.py:207-229 | distribution introduces no name starting with "-" and no opaque node |
| FlamapyAst.ToCnfKeepsNames | flamapy/core/models/ast.py:194-229 | to_cnf introduces no name starting with "-" and no opaque node |
| FlamapyAst.CnfWithoutOtherIsPlain | flamapy/core/models/ast.py:274-287 | a CNF without opaque nodes has only plain literals in its clauses |
| FlamapyAst.ClauseWithoutOtherIsPlain | flamapy/core/models/ast.py:290-304 | a disjunction of literals without opaque nodes is a plain clause |
| FlamapyAst.AstGetClausesCorrect | flamapy/core/models/ast.py:116-121 | for an XOR-free logical formula whose names do not start with "-", the clauses exist and their conjunction evaluates like the formula read with EQUIVALENCE as IMPLIES; without EQUIVALENCE, like the formula itself |
| FlamapyAst.EquivalenceClauses | flamapy/core/models/ast.py:116-121 | P EQUIVALENCE Q gives the clauses [["-P", "Q"], ["-Q", "-P", "Q"]], which say only P implies Q |
| FlamapyAst.EquivalenceConverts | flamapy/core/models/ast.py:135-138 | P EQUIVALENCE Q converts into (NOT P OR Q) AND (NOT Q OR (NOT P OR Q)) |
| FamapyAst.EliminateImplication | famapy/core/models/ast.py:134-137 | the result holds exactly when P implies Q |
| FamapyAst.EliminateEquivalence | famapy/core/models/ast.py:140-146 | the result holds exactly when P and Q have the same value |
| FamapyAst.EliminateExclusion | famapy/core/models/ast.py:149-153 | the result holds exactly when P and Q are not both true |
| FamapyAst.EliminatorsCorrect | famapy/core/models/ast.py:134-153 | each of the three eliminators is equivalent to the operator it replaces; implies and requires both become OR(NOT P, Q) |
| FamapyAst.EliminatePreservesEval | famapy/core/models/ast.py:156-176 | eliminating complex operators preserves the truth value of every formula |
| FamapyAst.EliminateIsBasicIff | famapy/core/models/ast.py:156-176 | the output is free of complex operators exactly when no complex operator is nested inside another's operands |
| FamapyAst.EliminateComplexOperators | famapy/core/models/ast.py:156-176 | without nested complex operators the result has none, and a formula without complex operators comes back unchanged |
| FamapyAst.ApplyDemorganLaw | famapy/core/models/ast.py:179-188 | AND over the negated operands of an OR, or OR over those of an AND, holds exactly when the original does not |
| FamapyAst.MoveNotsCorrectAux | famapy/core/models/ast.py:191-214 | for a formula under a pending negation, moving NOTs inwards succeeds exactly when it terminates, and it then preserves the (flipped) truth value and leaves NOTs only over features |
| FamapyAst.MoveNotsCorrect | famapy/core/models/ast.py:191-214 | moving NOTs inwards succeeds exactly when no NOT meets a complex operator, and then preserves the truth value and leaves NOTs only over features |
| FamapyAst.BasicTerminates | famapy/core/models/ast.py:179-214 | on formulas over features, NOT, AND and OR the rewrite always terminates |
| FamapyAst.MoveNotsFixesNnf | famapy/core/models/ast.py:191-214 | a formula whose NOTs already sit on features comes back unchanged |
| FamapyAst.NestedImplicationDiverges | famapy/core/models/ast.py:156-214 | (A implies B) implies C keeps a NOT over an implication after elimination, so moving NOTs inwards never ends |
| FamapyAst.MoveNotsErrors | famapy/core/models/ast.py:191-214 | the only way moving NOTs inwards fails is RecursionError |
| FamapyAst.MoveNotsInwards | famapy/core/models/ast.py:191-214 | the only error is RecursionError, and every result has its NOTs directly over features |
| FamapyAst.ApplyDistribution | famapy/core/models/ast.py:217-224 | P OR (Q AND R) distributed holds exactly when P or the AND holds |
| FamapyAst.DistributeOrs | famapy/core/models/ast.py:227-250 | a formula without an AND directly under an OR comes back unchanged, and NOTs over features stay over features |
| FamapyAst.DistributeOrsMatchesSource | famapy/core/models/ast.py:227-250 | the model satisfies the source's equations, read on values: an OR with a left AND distributes the right operand into it, otherwise into a right AND |
| FamapyAst.DistributePreservesEval | famapy/core/models/ast.py:217-250 | distributing ORs preserves the truth value of every formula |
| FamapyAst.DistributeOrsLeavesAndUnderOr | famapy/core/models/ast.py:227-250 | OR(OR(A, AND(B, C)), D) comes back with an AND still under the top OR, so it is not in CNF |
| FamapyAst.DistributeFixesNoOrOverAnd | famapy/core/models/ast.py:227-250 | a formula without an AND directly under an OR comes back unchanged |
| FamapyAst.RepeatedGetClauses | famapy/core/models/ast.py:106-111 | OR(OR(A, AND(B, C)), D) gives [[A, B], [A, C], "D"], while the tree the source leaves behind gives [[D, A, B], [D, A, C]] |
| FamapyAst.ClausesOfDistributed | famapy/core/models/ast.py:253-296 | OR(AND(OR(a, b), OR(a, c)), d) gives [[a, b], [a, c], "d"] |
| FamapyAst.ClausesOfRedistributed | famapy/core/models/ast.py:253-296 | AND(OR(d, OR(a, b)), OR(d, OR(a, c))) gives [[d, a, b], [d, a, c]] |
| FamapyAst.ConvertIntoCnfCorrect | famapy/core/models/ast.py:120-131 | conversion succeeds exactly when moving NOTs terminates after elimination, fails only with RecursionError, succeeds when complex operators are not nested, and preserves the truth value |
| FamapyAst.ConvertIntoCnf | famapy/core/models/ast.py:120-131 | the only error is RecursionError, and every result has its NOTs directly over features |
| FamapyAst.ClausesOf | famapy/core/models/ast.py:253-296 | the only error is TypeError, and a tree whose NOTs sit over features always yields clauses |
| FamapyAst.GetClauses | famapy/core/models/ast.py:253-263 | the method returns the clause function's value: [] for a feature, ["-x"] for NOT(x) |
| FamapyAst.GetClausesFromAndNode | famapy/core/models/ast.py:266-283 | the loops compute the clause function's value for an AND |
| FamapyAst.AppendClauses | famapy/core/models/ast.py:270-275 | a list-of-lists part is appended clause by clause, any other part as one clause |
| FamapyAst.GetClauseFromOrNode | famapy/core/models/ast.py:286-296 | the method computes the clause function's value for an OR |
| FamapyAst.WrapClauses | famapy/core/models/ast.py:106-111 | a non-empty flat clause is wrapped into a one-element list, anything else is returned unchanged, and a non-empty result starts with a list |
| FamapyAst.AstGetClauses | famapy/core/models/ast.py:106-111 | fails only with RecursionError, succeeds whenever the conversion does, and a non-empty result starts with a list |
| FamapyAst.ClausesOfSmallTrees | famapy/core/models/ast.py:253-283 | a feature gives [], NOT(x) gives ["-x"], AND of two features gives [[], []], OR of two features gives [x, y], and AST.get_clauses wraps ["-x"] into [["-x"]] |
| FamapyAst.AndOfFeaturesCounterexample | famapy/core/models/ast.py:266-283 | A AND B is true with both features true, but its clause list [[], []] holds for no assignment |
| FamapyAst.OrClauseMeaning | famapy/core/models/ast.py:286-296 | an OR of literals gives a flat, non-empty clause that holds exactly when the OR is true |
| FamapyAst.ConcatClauseHolds | famapy/core/models/ast.py:286-296 | a concatenated clause holds exactly when one of its halves does |
| FamapyAst.ClausesHoldAppend | famapy/core/models/ast.py:266-283 | the concatenation of two clause lists holds exactly when both do |
| FamapyAst.AndClausesMeaning | famapy/core/models/ast.py:266-283 | for a CNF over literals without a bare feature clause, an AND gives a list of clauses and any other node one flat clause, each meaning the formula |
| FamapyAst.SpliceMeaning | famapy/core/models/ast.py:266-283 | splicing a part into an AND's clause list keeps its meaning |
| FamapyAst.GetClausesCorrect | famapy/core/models/ast.py:106-111 | for a CNF over literals with no bare feature as a clause, AST.get_clauses yields clauses whose conjunction evaluates like the formula |
| FamapyAst.ClausesOfFixedCorrect | famapy/core/models/ast.py:266-283 | with a feature clause handed over as [name], every CNF over literals yields clauses that mean the formula |
| FamapyAst.ClausesOfFixedAgrees | famapy/core/models/ast.py:266-283 | the corrected extractor agrees with the source's when no clause is a bare feature |
| FamapyAst.ClausesOfFixed | famapy/core/models/ast.py:266-283 | the only error is TypeError, a tree whose NOTs sit over features always yields clauses, and a feature or an AND never yields an empty list |
| FamaTree.PadParens | famapy/core/ast/ast.py:22-27 | the padded string is longer by one character per parenthesis |
| FamaTree.PadParensSpaced | famapy/core/ast/ast.py:22-27 | every parenthesis of the padded string has a space just before it |
| FamaTree.Tokenize | famapy/core/ast/ast.py:20-29 | at least one token, and no token contains a space |
| FamaTree.GenerateList | famapy/core/ast/ast.py:20-29 | the character loop returns the padded string split on single spaces |
| FamaTree.PadParensCount | famapy/core/ast/ast.py:22-27 | padding adds exactly one space per parenthesis |
| FamaTree.TokenizeShape | famapy/core/ast/ast.py:20-29 | there are (spaces + parentheses + 1) tokens, and joining them with " " rebuilds the padded string |
| FamaTree.TokenizeExample | famapy/core/ast/ast.py:20-29 | "A (B)" gives ["A", "", "(B", ")"]: a parenthesis stays on the following token and padding creates an empty token |
| FamaTree.PadParensAppend | famapy/core/ast/ast.py:22-27 | padding works character by character: it distributes over concatenation |
| FamaTree.PadParensPlain | famapy/core/ast/ast.py:22-27 | a string without parentheses is left as it is |
| FamaTree.PadExample | famapy/core/ast/ast.py:22-27 | "A (B)" pads to "A  (B )" |
| FamaTree.PadExampleGroup | famapy/core/ast/ast.py:22-27 | "(B)" pads to " (B )" |
| FamaTree.SplitExample | famapy/core/ast/ast.py:29 | "A  (B )" splits into ["A", "", "(B", ")"] |
| FamaTree.SplitExampleTail | famapy/core/ast/ast.py:29 | " (B )" splits into ["", "(B", ")"] |
| FamaTree.SplitExampleLast | famapy/core/ast/ast.py:29 | "(B )" splits into ["(B", ")"] |
| FamaTree.Kinds | famapy/core/ast/ast.py:5-7 | one classification per token |
| FamaTree.ClassifyConsistent | famapy/core/ast/ast.py:112-147 | every token falls under at least one of the five scans |
| FamaTree.KindsConsistent | famapy/core/ast/ast.py:112-147 | every token of a list falls under at least one of the five scans |
| FamaTree.FirstIndex | famapy/core/ast/ast.py:112-147 | a scan returns -1 or a position inside [i, j) |
| FamaTree.FirstIndexIsLeast | famapy/core/ast/ast.py:112-147 | a scan returns the least position in [i, j) of its token class, and -1 only when none is there |
| FamaTree.ParentItem | famapy/core/ast/ast.py:94-110 | the split point is -1 or inside [i, j) |
| FamaTree.ParentItemFound | famapy/core/ast/ast.py:94-110 | on classified tokens the split point is -1 exactly for an empty range; parentheses play no part |
| FamaTree.ParentItemPrefersAnd | famapy/core/ast/ast.py:94-110 | when the range holds an and-class token, the split point is the first of them |
| FamaTree.ParentItemThenOr | famapy/core/ast/ast.py:94-110 | with no and-class token, an or-class token is chosen, the first of them |
| FamaTree.ExploreSpec | famapy/core/ast/ast.py:69-91 | a successful exploration appends at least one node and no root |
| FamaTree.ExploreDiverges | famapy/core/ast/ast.py:69-79 | an empty range whose last token is a binary operator recurses without end |
| FamaTree.TerminalNodes | famapy/core/ast/ast.py:80-91 | a terminal step appends at least one node, each pointing somewhere, naming a token, at the current level or deeper |
| FamaTree.ExploreNodes | famapy/core/ast/ast.py:69-91 | explore appends at least one node and every appended node is a non-root that points somewhere and whose name (Node.get_name) is a token |
| FamaTree.GenerateOn | famapy/core/ast/ast.py:56-66 | a successful generate gives at least three nodes, the first a root pointing nowhere, no other a root |
| FamaTree.GenerateRootUnique | famapy/core/ast/ast.py:56-66 | a successful generate yields at least three nodes, with the root first and the only node flagged root and the only one pointing nowhere |
| FamaTree.RootThenExplored | famapy/core/ast/ast.py:56-66 | a root followed by explored nodes keeps the root unique |
| FamaTree.OneTokenFails | famapy/core/ast/ast.py:56-79 | a one-token input fails: with RecursionError for a binary operator, IndexError otherwise |
| FamaTree.SingleLetterIsFeature | famapy/core/ast/ast.py:140-145 | a one-letter token other than "&" or "\|" is a feature |
| FamaTree.AndKind | famapy/core/ast/ast.py:112-117 | "and" is an and-class binary operator |
| FamaTree.ConjunctionClassified | famapy/core/ast/ast.py:94-147 | a feature, an and-operator and a feature classify as such |
| FamaTree.ConjunctionParents | famapy/core/ast/ast.py:94-110 | in "feature and feature" the split point is the operator, and each one-token side splits at its token |
| FamaTree.ConjunctionLeaves | famapy/core/ast/ast.py:89-91 | each side of the conjunction becomes one leaf pointing at the operator |
| FamaTree.GenerateConjunction | famapy/core/ast/ast.py:56-91 | any "a op b" with an and-operator gives the root op followed by the two leaves |
| FamaTree.GenerateExample | famapy/core/ast/ast.py:56-91 | "A and B" gives the root "and" followed by leaves A and B, both pointing at token 1 |
| FamaTree.FirstRoot | famapy/core/ast/ast.py:155-161 | the root found is a root node of the list, and nothing is found only when there is none |
| FamaTree.GetName | famapy/core/ast/ast.py:213-217 | a feature node is named by its feature, any other node by its operator |
| FamaTree.Children | famapy/core/ast/ast.py:163-169 | the children of a token are exactly the nodes pointing at it, and never more than the nodes |
| FamaTree.ChildrenAppend | famapy/core/ast/ast.py:163-169 | the children of a token keep the order of the node list: those of a front part come before those of the rest |
| FamaTree.ExampleChildren | famapy/core/ast/ast.py:155-169 | in the "A and B" tree the root is found first and its children are the two leaves, in insertion order |
| FamaTree.FamaAst.constructor | famapy/core/ast/ast.py:14-18 | the tokens are the tokenized string; the nodes are the generated tree, or the failure is recorded |
| FamaTree.FamaAst.FindIndex | famapy/core/ast/ast.py:112-147 | each scan loop returns the first position of its class in [i, j), or -1 |
| FamaTree.FamaAst.FindParentItem | famapy/core/ast/ast.py:94-110 | the cascade of scans returns the split point |
| FamaTree.FamaAst.Explore | famapy/core/ast/ast.py:69-91 | the node list grows by exactly the explored nodes, or the failure is reported |
| FamaTree.FamaAst.ExploreBinaryOperator | famapy/core/ast/ast.py:75-79 | at a binary operator the list grows by the operator node and both sides |
| FamaTree.FamaAst.ExploreOperands | famapy/core/ast/ast.py:78-79 | the list grows by the left side then the right side, stopping at the first failure |
| FamaTree.FamaAst.AppendTerminal | famapy/core/ast/ast.py:80-91 | the list grows by the terminal nodes, or IndexError past the end |
| FamaTree.FamaAst.Generate | famapy/core/ast/ast.py:56-66 | the list grows by the root and the two explored sides, or the failure is reported |
| FamaTree.FamaAst.GetRoot | famapy/core/ast/ast.py:155-161 | the loop returns the first root node |
| FamaTree.FamaAst.GetChilds | famapy/core/ast/ast.py:163-169 | the loop returns the nodes pointing at the parent's token, in order |
| Registry.FirstWhere | flamapy/core/plugins.py:142-148 | the position of the first element passing the filter, or none when no element passes |
| Registry.FirstOf | flamapy/core/plugins.py:142-148 | the first element passing the filter, present exactly when some element passes |
| Registry.FirstWhereExtensional | flamapy/core/plugins.py:142-148 | the first match depends only on the filter's answers on the list |
| Registry.Filter | flamapy/core/discover.py:116-134 | the kept elements are exactly the elements passing the filter, never more than the list |
| Registry.FilterAppend | flamapy/core/discover.py:116-134 | filtering keeps the order of the list: the survivors of a front part come before those of the rest |
| Registry.Select | flamapy/core/discover.py:139-143 | a flagged selection is no longer than the list |
| Registry.SelectAppend | flamapy/core/discover.py:139-143 | selection keeps the order of the list: the selected elements of a front part come before those of the rest |
| Registry.SelectInOrder | flamapy/core/discover.py:139-143 | of two selected elements, the earlier one comes from the earlier position of the list |
| Registry.SelectMembers | flamapy/core/discover.py:139-143 | every selected element is flagged at its origin, and every flagged element is selected |
| Registry.SelectOrigin | flamapy/core/discover.py:139-143 | each selected element comes from a flagged position |
| Registry.SelectKeeps | flamapy/core/discover.py:139-143 | a flagged element is selected |
| FlamapyPlugins.SearchByName | flamapy/core/plugins.py:28-41 | the first operation whose class name or base-class name is the query, or OperationNotFound when none is |
| FlamapyPlugins.SearchByNameFindsBoth | flamapy/core/plugins.py:28-41 | an operation not shadowed by an earlier one is found by its class name and by its base-class name |
| FlamapyPlugins.Plugin.constructor | flamapy/core/plugins.py:46-50 | a new plugin has its module name, no variability model and empty lists |
| FlamapyPlugins.Plugin.AppendOperation | flamapy/core/plugins.py:66-67 | the operation is added at the end, the transformations are untouched, and the operation count grows by one |
| FlamapyPlugins.Plugin.AppendTransformation | flamapy/core/plugins.py:69-70 | the transformation is added at the end, the operations are untouched, and the transformation count grows by one |
| FlamapyPlugins.Plugin.GetOperation | flamapy/core/plugins.py:72-74 | the first operation of the plugin with that name, failing with OperationNotFound exactly when none of its operations has it |
| FlamapyPlugins.Plugin.GetTransformation | flamapy/core/plugins.py:52-64 | the first transformation passing the filter, or TransformationNotFound when none passes |
| FlamapyPlugins.Plugin.UseTransformationT2M | flamapy/core/plugins.py:79-91 | the first text-to-model transformation whose source is the text after the last "." of the path, or TransformationNotFound when there is none |
| FlamapyPlugins.Plugin.UseTransformationM2T | flamapy/core/plugins.py:93-105 | the first model-to-text transformation whose destination is the extension of the path, or TransformationNotFound when there is none |
| FlamapyPlugins.Plugin.UseTransformationM2M | flamapy/core/plugins.py:107-122 | the first model-to-model transformation with both the requested destination and the model's extension as source, or TransformationNotFound when there is none |
| FlamapyPlugins.Plugin.GetExtension | flamapy/core/plugins.py:124-125 | the variability model's extension, and AttributeError exactly when the plugin has none |
| FlamapyPlugins.Plugin.Name | flamapy/core/plugins.py:127-129 | a plugin name holds no "." |
| FlamapyPlugins.Plugin.NameIsLastComponent | flamapy/core/plugins.py:127-129 | the name is a suffix of the module name, and the whole module name when it has no "." |
| FlamapyPlugins.Plugin.GetStats | flamapy/core/plugins.py:131-136 | the stats count the operations and transformations and say whether a variability model is set |
| FlamapyPlugins.GetPluginByName | flamapy/core/plugins.py:150-155 | the first plugin with that name, or PluginNotFound when none has it |
| FlamapyPlugins.GetPluginByExtension | flamapy/core/plugins.py:170-175 | a found plugin has that extension; failures are PluginNotFound or AttributeError |
| FlamapyPlugins.GetPluginByExtensionDecides | flamapy/core/plugins.py:170-175 | PluginNotFound exactly when every plugin has another extension; asking a plugin without a variability model before a match raises AttributeError; otherwise the first match is returned |
| FlamapyPlugins.GetPluginByExtensionAllSet | flamapy/core/plugins.py:170-175 | when every plugin has a variability model, the first plugin with the extension is returned |
| FlamapyPlugins.GetPluginNames | flamapy/core/plugins.py:177-178 | the names of the plugins, one per plugin, in order |
| FlamapyPlugins.GetVariabilityModels | flamapy/core/plugins.py:180-181 | the variability models of the plugins, one per plugin, in order |
| FlamapyPlugins.GetOperationsByPluginName | flamapy/core/plugins.py:183-188 | the first plugin with the name gives its operations; an unknown name gives an empty list and does not fail |
| FlamapyPlugins.OperationsByOwnName | flamapy/core/plugins.py:183-188 | with distinct names each plugin's own operations are found by its name |
| FlamapyPlugins.StatsUpTo | flamapy/core/plugins.py:190-194 | after visiting plugins, "amount_plugins" and the name of every visited plugin are keys |
| FlamapyPlugins.GetPluginsStats | flamapy/core/plugins.py:190-194 | the loop fills the stats map that the specification function describes |
| FlamapyPlugins.StatsKeys | flamapy/core/plugins.py:190-194 | the keys are "amount_plugins" and the plugin names |
| FlamapyPlugins.StatsLastWins | flamapy/core/plugins.py:190-194 | each name maps to the stats of its last plugin: a later duplicate overwrites an earlier one |
| FlamapyPlugins.StatsAmount | flamapy/core/plugins.py:190-194 | "amount_plugins" is the number of plugins when no plugin is named so |
| FlamapyPlugins.StatsCountOverwritten | flamapy/core/plugins.py:190-194 | a last plugin named "amount_plugins" overwrites the count with its own stats |
| FamapyPlugins.SearchByName | famapy/core/plugins.py:28-36 | the first operation whose base-class name is the query, or None; no error is raised |
| FamapyPlugins.SearchByNameAgrees | famapy/core/plugins.py:28-36 | when no class name is the query, the famapy search finds what the flamapy search finds |
| FamapyPlugins.OwnNameMissed | famapy/core/plugins.py:28-36 | an operation is not found by its own class name, which the flamapy search does find |
| FamapyPlugins.UseOperation | famapy/core/plugins.py:64-66 | an operation of the plugin with the base-class name, and TypeError (calling None) exactly when there is none |
| FamapyPlugins.GetTransformation | famapy/core/plugins.py:47-56 | the first transformation passing the filter, or None when none passes |
| FamapyPlugins.Instantiate | famapy/core/plugins.py:68-77 | calling the found class succeeds exactly when there is one and fails with TypeError otherwise |
| FamapyPlugins.UseTransformationT2M | famapy/core/plugins.py:68-77 | the first text-to-model transformation for the path's extension; TypeError exactly when there is none |
| FamapyPlugins.UseTransformationM2T | famapy/core/plugins.py:79-88 | the first model-to-text transformation for the path's extension; TypeError exactly when there is none |
| FamapyPlugins.UseTransformationM2M | famapy/core/plugins.py:90-102 | the first model-to-model transformation with the requested source and destination; TypeError exactly when there is none |
| FamapyPlugins.T2MAgrees | famapy/core/plugins.py:68-77 | the famapy text-to-model lookup finds the flamapy one and turns its failure into TypeError |
| FamapyPlugins.M2TAgrees | famapy/core/plugins.py:79-88 | the famapy model-to-text lookup finds the flamapy one and turns its failure into TypeError |
| Discover.AllOperations | flamapy/core/discover.py:92-97 | the operations are exactly those of some plugin |
| Discover.AllOperationsAppend | flamapy/core/discover.py:92-97 | the listing is made plugin by plugin: the operations of a front part of the plugins come first, and one plugin contributes its own list in its own order |
| Discover.NameOperations | flamapy/core/discover.py:99-107 | every operation's class name is listed, and its base-class name unless it is "ABC", and nothing else |
| Discover.NameOperationsAppend | flamapy/core/discover.py:99-107 | names are listed operation by operation, in order |
| Discover.ListedNamesAreFound | flamapy/core/discover.py:99-107 | every listed name is found by the operation search |
| Discover.AbcBaseNotListed | flamapy/core/discover.py:99-107 | an "ABC" base is not listed, though the search would find it |
| Discover.TransformationsOfKind | flamapy/core/discover.py:116-134 | exactly the transformations of that kind from some plugin |
| Discover.TransformationsOfKindAppend | flamapy/core/discover.py:116-134 | the listing is made plugin by plugin: the transformations of a front part of the plugins come first |
| Discover.TransformationsOfOne | flamapy/core/discover.py:116-134 | one plugin contributes its transformations of the family in the order it registered them |
| Discover.OfferFlags | flamapy/core/discover.py:139-143 | one flag per plugin saying whether its name lists the operation |
| Discover.PluginsWithOperation | flamapy/core/discover.py:139-143 | exactly the plugins whose name lists the operation, never more than the plugins |
| Discover.PluginsWithOperationAppend | flamapy/core/discover.py:139-143 | the offering plugins of a front part of the plugin list come before those of the rest |
| Discover.PluginsWithOperationInOrder | flamapy/core/discover.py:139-143 | of two listed plugins, the earlier one stands at an earlier position of the plugin list, and both offer the operation |
| Discover.OffersOwnOperations | flamapy/core/discover.py:139-153 | with distinct names a plugin is kept exactly when its own operation names list the operation |
| Discover.SharedNameJudgedByFirst | flamapy/core/discover.py:139-153 | two plugins with one name are both judged by the first plugin's operations |
| Discover.TransformToModelFromFile | flamapy/core/discover.py:259-271 | the first text-to-model transformation, in the plugin-by-plugin listing, whose source extension is the file's last "."-segment (no earlier one of the listing reads that extension), taken from some plugin; or TransformationNotFound when no plugin has such a reader |
| Discover.CompoundExtensionNeverChosen | flamapy/core/discover.py:259-271 | a reader whose source extension holds a "." is never chosen |
| Discover.Unused | flamapy/core/discover.py:289-312 | the number of transformations whose pair is not on the way is at most the number of transformations |
| Discover.UnusedMonotone | flamapy/core/discover.py:289-312 | adding a pair never increases the unused count |
| Discover.UnusedDrops | flamapy/core/discover.py:289-312 | adding an unused pair decreases the count, so the recursion terminates |
| Discover.RecursiveWay | flamapy/core/discover.py:289-312 | the way never shrinks and grows by at most one pair per transformation not yet on it |
| Discover.RecursiveWayExtends | flamapy/core/discover.py:289-312 | the recursion only adds pairs in front of the way, at most one per unused transformation |
| Discover.RecursiveWayPairs | flamapy/core/discover.py:289-312 | every pair of the way comes from a model-to-model transformation or was given |
| Discover.RecursiveWayIsChain | flamapy/core/discover.py:289-312 | the way stays duplicate-free and a chain, each destination the next source, ending at the target extension |
| Discover.RecursiveWayStops | flamapy/core/discover.py:289-312 | the search stops at the input extension or when no unused transformation leads into the current front |
| Discover.RecursiveWayBounded | flamapy/core/discover.py:289-312 | a fresh way has at most as many pairs as there are model-to-model transformations |
| Discover.FindWay | flamapy/core/discover.py:314-320 | an accepted way is non-empty; failures are NotImplementedError or AttributeError; no candidate means NotImplementedError |
| Discover.FindWayFound | flamapy/core/discover.py:314-320 | an accepted way is a non-empty, duplicate-free chain ending at the extension of a plugin offering the operation |
| Discover.FindWayOwner | flamapy/core/discover.py:314-320 | an accepted way is the fresh recursive way into some candidate's extension |
| Discover.FreshWayShape | flamapy/core/discover.py:289-312 | a fresh way is a duplicate-free chain no longer than the transformation list |
| Discover.FindWayNone | flamapy/core/discover.py:314-320 | NotImplementedError exactly when every candidate has a variability model and yields an empty way |
| Discover.PartialWayAccepted | flamapy/core/discover.py:312-317 | a way from "c" to "b" is accepted for a model in "a": the first source is never checked |
| Discover.TransformationWay | flamapy/core/discover.py:273-320 | a start plugin without a variability model raises AttributeError, and a found way is non-empty |
| Discover.FollowWay | flamapy/core/discover.py:243-247 | following a way adds one step per pair and lands at the plugin of the last destination |
| Discover.FollowWayFlows | flamapy/core/discover.py:243-247 | each added step converts the previous step's model |
| Discover.StageFromNamedPlugin | flamapy/core/discover.py:232-234 | the named plugin reads the file with one of its own text-to-model transformations |
| Discover.Rerouted | flamapy/core/discover.py:240-247 | a plugin without the operation hands over only to a plugin of the registry |
| Discover.AlongWay | flamapy/core/discover.py:241-247 | following the found way ends at a plugin of the registry |
| Discover.StageFromExtension | flamapy/core/discover.py:236-247 | with no plugin named, the plugin that ends up with the model is one of the registry |
| Discover.StageFromFile | flamapy/core/discover.py:232-247 | the chosen plugin is one of the registry, and a named plugin reads the file itself in one step |
| Discover.StageFromFileFlows | flamapy/core/discover.py:232-247 | the model held came out of a single text-to-model read followed by model-to-model conversions |
| Discover.StageFromExtensionFlows | flamapy/core/discover.py:236-247 | the model held came out of a single read followed by conversions |
| Discover.ReroutedFlows | flamapy/core/discover.py:240-247 | rerouting keeps the chain of conversions intact |
| Discover.Configure | flamapy/core/discover.py:249-254 | the operation comes from the chosen plugin; a configurable one without a configuration file raises ConfigurationNotFound, and only a configurable one gets a configuration |
| Discover.ExecutionFromFile | flamapy/core/discover.py:221-254 | a successful run has an operation name the registry lists, and a configuration exactly when the operation takes one |
| Discover.UseOperationFromFileChoice | flamapy/core/discover.py:221-254 | a successful run has a listed name, a plugin of the registry offering it, a model from a chain of conversions, and a configuration exactly when the operation needs one |
| Discover.UnknownOperationFirst | flamapy/core/discover.py:229-230 | an operation no plugin lists fails with OperationNotFound before any file is looked at |
| Discover.ListedNameOwner | flamapy/core/discover.py:99-107 | a listed name belongs to an operation of some plugin |
| Discover.ConfigurationRequired | flamapy/core/discover.py:249-252 | a configurable operation without a configuration file fails with ConfigurationNotFound |
| Discover.DiscoverMetamodels.constructor | flamapy/core/discover.py:46-48 | the discoverer holds the given plugins |
| Discover.DiscoverMetamodels.GetOperations | flamapy/core/discover.py:92-97 | the loop concatenates the plugins' operations |
| Discover.DiscoverMetamodels.GetNameOperations | flamapy/core/discover.py:99-107 | the nested loop lists the names of all operations |
| Discover.DiscoverMetamodels.GetNameOperationsByPlugin | flamapy/core/discover.py:145-153 | the loop lists the names of the named plugin's operations |
| Discover.DiscoverMetamodels.GetTransformationsOfKind | flamapy/core/discover.py:116-134 | the loops collect the transformations of one kind, plugin by plugin |
| Discover.DiscoverMetamodels.SearchTransformationWay | flamapy/core/discover.py:273-320 | the recursive search with its in-place insertions returns the way the specification describes |
| Discover.DiscoverMetamodels.FollowTransformationWay | flamapy/core/discover.py:243-247 | the loop over the way follows it step by step |
| Discover.DiscoverMetamodels.Reroute | flamapy/core/discover.py:240-247 | the plugin keeps the model when it lists the operation, otherwise hands it along the way |
| Discover.DiscoverMetamodels.RerouteAlongWay | flamapy/core/discover.py:241-247 | search the way, then follow it |
| Discover.DiscoverMetamodels.ModelFromFile | flamapy/core/discover.py:232-247 | the method picks the plugin and the model as the specification does |
| Discover.DiscoverMetamodels.ModelFromExtension | flamapy/core/discover.py:236-247 | read by extension, hand to the model's plugin, reroute if needed |
| Discover.DiscoverMetamodels.UseOperationFromFile | flamapy/core/discover.py:221-254 | the guards and choices of use_operation_from_file, up to running the operation |

## Left out

- Plugin discovery (flamapy/core/discover.py:34-90) is left out because it is runtime reflection: module import, member inspection and subclass tests. Plugins enter the model as records.
- famapy/core/discover.py is not part of this model; it is context only.
- use_operation_from_vm (flamapy/core/discover.py:182-219) is left out because it reads `vm_temp` before assigning it on most paths.
- The thin delegations of DiscoverMetamodels (flamapy/core/discover.py:155-180) are not modelled. They forward to the registry or a plugin, whose lookups are modelled.
- Running an operation or a transformation (`execute`, `transform`, `get_result`, `set_configuration`) is foreign code. A transformation record's `produces` field stands for the extension of the model its `transform()` builds.
- `file_exists` in both utils files is not modelled because it does file-system I/O.
- `Plugins.get_plugin_by_variability_model` is left out because it tests `isinstance` against a class.
- The famapy `Plugins` registry (famapy/core/plugins.py:119-171) is not repeated: it is line for line the same as flamapy's, whose model covers it. So are famapy's `append_*`, `name`, `get_extension` and plugin `get_stats`.
- Lists are values. The model does not capture that `get_operations_by_plugin_name` and similar calls return a plugin's own list object.
  - A caller mutating that list would change the plugin; the model does not show this.
- `FamaAST.print_tree`, `print_tabs`, `__str__`, `height`, `node`, `get_nodes` and `get_nodes_by_feature` are left out. They are printing, a `math.log` calculation and accessors.
- `str(points_to) == str(token)` in `get_childs` is compared as `Option<int>` equality. This is the same test, because printing an integer is injective and "None" is no integer.
- Configurations.Hash: Python's `hash` of the frozenset is a parameter `h`, because its values are unspecified.
- Configurations.ToString: only the empty and one-element results are stated; the ", " join of longer selections is not.
- FamapyAst.DistributeOrs: the model gives each of the two ORs that `apply_distribution` builds its own copy of the shared operand (famapy/core/models/ast.py:222-223). The source puts one node object into both ORs, and the else branch of `distribute_ors` (247-248) rewrites that object in place, so the second OR sees the operand as the first OR's pass left it. On OR(AND(X, Y), OR(OR(A, AND(B, C)), D)) the two ORs then receive different operands, while the model gives both the same one. `DistributeOrsMatchesSource` holds for the model only.
- FamapyAst: `eliminate_complex_operators`, `move_nots_inwards` and `distribute_ors` (famapy/core/models/ast.py:170, 173-174, 199-200, 247-248) change the caller's tree in place, and `eliminate_equivalence` shares its operands between two ORs. The model leaves the input unchanged. It does not capture that a second `AST.get_clauses()` on the same AST starts from the rewritten tree: OR(OR(A, AND(B, C)), D) gives [[A, B], [A, C], "D"] the first time and [[D, A, B], [D, A, C]] the second. `FamapyAst.RepeatedGetClauses` computes both results in the model, the second by applying it to the rewritten tree.
- FamapyAst.MoveNotsInwards returns `RecursionError` at once when a NOT meets a complex operator. The source would recurse until the interpreter's recursion limit.
- FlamapyAst: comparison, arithmetic and aggregation operators are opaque `Other` nodes with an arbitrary truth value `w`. Only their pass-through is modelled, not their meaning.
- FlamapyAst and FamapyAst: a leaf's name is a `string`. The source's `Node.data` can be any value, and `'-' + data` (flamapy/core/models/ast.py:281) raises `TypeError` when it is not a string; the model has no such leaves.
- FlamapyAst.SimplifyFormula: the EQUIVALENCE and XOR branches are modelled as written in the source, so the truth value is stated only as `EvalAsSimplified` (EQUIVALENCE read as IMPLIES) without XOR, and as the true truth value without EQUIVALENCE and XOR. See "## Findings".
- FlamapyAst.GetClauses: names starting with "-" are excluded from the meaning lemmas, because "-" + name is then ambiguous.
- FamapyAst: the meaning lemmas likewise exclude names starting with "-".
- FlamapyPlugins.StatsUpTo: `get_stats` returns an insertion-ordered dict, with "amount_plugins" first and then the plugin names in order. The model's `map` has no order.
- Configurations: element keys are `string`. The source's `elements` is a `dict[Any, bool]` whose keys can be any hashable value.
- Exceptions carry no message text, and the exception type hierarchy is not modelled.
- `DiscoverMetamodels.reload` is not modelled, because it re-runs discovery.

## Findings

| source | as written | input that shows it | evidently intended | confidence | as-written member | corrected member |
|---|---|---|---|---|---|---|
| flamapy/core/models/ast.py:169-177 | the XOR branch assigns `left` twice, the second time from `NOT(left)` with the unsimplified `right`, so `P XOR Q` becomes `(NOT(P AND NOT Q) AND Q) OR Q`, which is `Q` | `A XOR B` with A true and B false: true before, false after | `(P AND NOT Q) OR (NOT P AND Q)` | not executed | FlamapyAst.XorCounterexample | FlamapyAst.FixedPreservesEval |
| flamapy/core/models/ast.py:162-168 | the EQUIVALENCE branch reassigns `left` to the simplified `P => Q` and then builds the second IMPLIES from `right` and that new `left`, so `P <=> Q` becomes `(NOT P OR Q) AND (NOT Q OR (NOT P OR Q))`, which is `P => Q` | `P <=> Q` with P false and Q true: false before, true after | `(P => Q) AND (Q => P)`, both built from the original operands | not executed | FlamapyAst.EquivalenceCounterexample | FlamapyAst.FixedPreservesEval |
| famapy/core/models/ast.py:266-283 | a feature operand of an AND gives `[]`, which is appended as an empty clause | `A AND B` gives `[[], []]`, which no assignment satisfies, although A and B both true satisfies the formula | a feature operand becomes the unit clause `[name]` | not executed | FamapyAst.AndOfFeaturesCounterexample | FamapyAst.ClausesOfFixedCorrect |
