/** famapy/core/ast/ast.py: `FamaAST`, a tokenizer and a parser that turns a
    constraint string into a flat list of nodes linked by token positions. */
module FamaTree {
  import opened Wrappers
  import Text

  /** `Node`: its attributes as the constructor sets them. */
  datatype TreeNode = TreeNode(
    token: int,
    isRoot: bool,
    isLeaf: bool,
    feature: string,
    isFeature: bool,
    unaryOperator: bool,
    binaryOperator: bool,
    pointsTo: Option<int>,
    operator: string,
    level: int)

  /** What `generate` can raise: a read past the end of the token list, and
      the recursion without end on an empty range whose last token is a binary
      operator. */
  datatype PyError = IndexError | RecursionError

  const UnaryOperators: seq<string> := ["not"]
  const BinaryOperators: seq<string> := ["&&", "&", "||", "|", "and", "or", "implies", "excludes", "requires"]
  const Constraints: seq<string> := ["implies", "excludes", "requires"]

  /** The token used for every unary-operator node. */
  const UnaryToken: int := 234342

  /** `Node.get_name`. */
  function GetName(n: TreeNode): (r: string)
    ensures n.isFeature ==> r == n.feature
    ensures !n.isFeature ==> r == n.operator
  {
    if n.isFeature then n.feature else n.operator
  }

  // ---------------------------------------------------------------------
  // generate_list

  function Padded(c: char): string
  {
    if c == '(' || c == ')' then [' ', c] else [c]
  }

  /** The characters `generate_list` collects: a space before each parenthesis. */
  function PadParens(s: string): (r: string)
    ensures |r| == |s| + Text.Count(s, '(') + Text.Count(s, ')')
  {
    if s == [] then []
    else
      var init, c := s[..|s| - 1], s[|s| - 1];
      assert s == init + [c];
      Text.CountAppend(init, [c], '(');
      Text.CountAppend(init, [c], ')');
      PadParens(init) + Padded(c)
  }

  /** The token list `generate_list` returns. */
  function Tokenize(s: string): (r: seq<string>)
    ensures |r| >= 1
    ensures forall k :: 0 <= k < |r| ==> ' ' !in r[k]
  {
    Text.SplitPiecesAvoid(PadParens(s), ' ');
    Text.Split(PadParens(s), ' ')
  }

  /** `generate_list`. */
  method GenerateList(s: string) returns (r: seq<string>)
    ensures r == Tokenize(s)
  {
    var characters: string := [];
    for i := 0 to |s|
      invariant characters == PadParens(s[..i])
    {
      var c := s[i];
      assert s[..i + 1][..i] == s[..i];
      if c == '(' || c == ')' {
        characters := characters + [' '];
      }
      characters := characters + [c];
    }
    assert s[..|s|] == s;
    r := Text.Split(characters, ' ');
  }

  lemma {:induction false} PadParensCount(s: string)
    ensures Text.Count(PadParens(s), ' ') == Text.Count(s, ' ') + Text.Count(s, '(') + Text.Count(s, ')')
  {
    if s != [] {
      var init, last := s[..|s| - 1], s[|s| - 1];
      PadParensCount(init);
      assert s == init + [last];
      Text.CountAppend(init, [last], ' ');
      Text.CountAppend(init, [last], '(');
      Text.CountAppend(init, [last], ')');
      Text.CountAppend(PadParens(init), Padded(last), ' ');
      if last == '(' || last == ')' {
        assert Padded(last) == [' '] + [last];
        Text.CountAppend([' '], [last], ' ');
      }
    }
  }

  /** One token more than there are spaces and parentheses in the input, and
      joining the tokens with single spaces rebuilds the padded string. */
  lemma TokenizeShape(s: string)
    ensures |Tokenize(s)| == Text.Count(s, ' ') + Text.Count(s, '(') + Text.Count(s, ')') + 1
    ensures Text.Join(Tokenize(s), " ") == PadParens(s)
  {
    PadParensCount(s);
    Text.SplitCount(PadParens(s), ' ');
    Text.JoinSplit(PadParens(s), ' ');
  }

  /** A parenthesis stays attached to the token after it, and padding can
      leave an empty token. */
  lemma TokenizeExample()
    ensures Tokenize("A (B)") == ["A", "", "(B", ")"]
  {
    PadExample();
    SplitExample();
  }

  lemma {:induction false} PadParensAppend(s: string, t: string)
    ensures PadParens(s + t) == PadParens(s) + PadParens(t)
    decreases |t|
  {
    if t == [] {
      assert s + t == s;
    } else {
      var init := t[..|t| - 1];
      assert (s + t)[..|s + t| - 1] == s + init;
      PadParensAppend(s, init);
    }
  }

  /** Every parenthesis of the padded text has a space just before it. */
  lemma {:induction false} PadParensSpaced(s: string)
    ensures forall k :: 0 <= k < |PadParens(s)| && PadParens(s)[k] in "()" ==> 0 < k && PadParens(s)[k - 1] == ' '
  {
    if s != [] {
      var init, c := s[..|s| - 1], s[|s| - 1];
      PadParensSpaced(init);
      var pre := PadParens(init);
      var r := PadParens(s);
      assert r == pre + Padded(c);
      forall k | 0 <= k < |r| && r[k] in "()"
        ensures 0 < k && r[k - 1] == ' '
      {
        if k < |pre| {
          assert pre[k] == r[k];
          assert r[k - 1] == pre[k - 1];
        } else {
          assert c == '(' || c == ')';
          assert Padded(c) == [' ', c] && k == |pre| + 1;
        }
      }
    }
  }

  /** Text without parentheses is left as it is. */
  lemma {:induction false} PadParensPlain(s: string)
    requires '(' !in s && ')' !in s
    ensures PadParens(s) == s
  {
    if s != [] {
      PadParensPlain(s[..|s| - 1]);
      assert s[..|s| - 1] + [s[|s| - 1]] == s;
    }
  }

  lemma PadExample()
    ensures PadParens("A (B)") == "A  (B )"
  {
    var a, b := "A ", "(B)";
    assert "A (B)" == a + b;
    PadExampleGroup();
    PadParensPlain(a);
    PadParensAppend(a, b);
    assert a + " (B )" == "A  (B )";
  }

  lemma PadExampleGroup()
    ensures PadParens("(B)") == " (B )"
  {
    PadParensAppend("(", "B)");
    PadParensAppend("B", ")");
    assert "(B)" == "(" + "B)";
    assert "B)" == "B" + ")";
  }

  lemma SplitExample()
    ensures Text.Split("A  (B )", ' ') == ["A", "", "(B", ")"]
  {
    SplitExampleTail();
    assert "A  (B )" == "A" + [' '] + " (B )";
    Text.SplitFirstPiece("A", " (B )", ' ');
  }

  lemma SplitExampleTail()
    ensures Text.Split(" (B )", ' ') == ["", "(B", ")"]
  {
    SplitExampleLast();
    assert " (B )" == "" + [' '] + "(B )";
    Text.SplitFirstPiece("", "(B )", ' ');
  }

  lemma SplitExampleLast()
    ensures Text.Split("(B )", ' ') == ["(B", ")"]
  {
    assert "(B )" == "(B" + [' '] + ")";
    Text.SplitFirstPiece("(B", ")", ' ');
    Text.SplitNoSep(")", ' ');
  }

  // ---------------------------------------------------------------------
  // Token classes

  /** Which of the comparisons made by `FamaAST` a token passes: the four
      names of `find_and_op_index`, the four of `find_or_op_index`,
      `constraints`, the two names of `find_not_op_index`, `unary_operators`
      and `binary_operators`. */
  datatype Kind = Kind(andOp: bool, orOp: bool, constraint: bool, notOp: bool, unary: bool, binary: bool)

  const AndNames: seq<string> := ["and", "AND", "&&", "&"]
  const OrNames: seq<string> := ["or", "OR", "||", "|"]
  const NotNames: seq<string> := ["not", "NOT"]

  function Classify(tok: string): Kind
  {
    Kind(tok in AndNames, tok in OrNames, tok in Constraints, tok in NotNames,
         tok in UnaryOperators, tok in BinaryOperators)
  }

  /** The kinds of the tokens, position by position. */
  function Kinds(tokens: seq<string>): (r: seq<Kind>)
    ensures |r| == |tokens|
  {
    seq(|tokens|, k requires 0 <= k < |tokens| => Classify(tokens[k]))
  }

  /** Every binary operator is also an AND, OR or constraint token, and the
      unary operator is a NOT token. */
  predicate Consistent(k: Kind)
  {
    (k.binary ==> k.andOp || k.orOp || k.constraint) && (k.unary ==> k.notOp)
  }

  lemma ClassifyConsistent(tok: string)
    ensures Consistent(Classify(tok))
  {
  }

  lemma KindsConsistent(tokens: seq<string>)
    ensures forall k :: 0 <= k < |tokens| ==> Consistent(Kinds(tokens)[k])
  {
    forall k | 0 <= k < |tokens| ensures Consistent(Kinds(tokens)[k]) {
      ClassifyConsistent(tokens[k]);
    }
  }

  // ---------------------------------------------------------------------
  // The find_*_index scans

  datatype TokenClass = AndClass | OrClass | ConstraintClass | NotClass | FeatureClass

  /** The test each scan applies; a feature is in none of the three lists. */
  predicate InClass(k: Kind, cls: TokenClass)
  {
    match cls
    case AndClass => k.andOp
    case OrClass => k.orOp
    case ConstraintClass => k.constraint
    case NotClass => k.notOp
    case FeatureClass => !k.constraint && !k.unary && !k.binary
  }

  /** The scan of one class over `[i, j)`: an index inside the range, or -1. */
  function FirstIndex(kinds: seq<Kind>, i: int, j: int, cls: TokenClass): (r: int)
    requires 0 <= i && j <= |kinds|
    ensures r == -1 || i <= r < j
    decreases j - i
  {
    if i >= j then -1
    else if InClass(kinds[i], cls) then i
    else FirstIndex(kinds, i + 1, j, cls)
  }

  /** The scan finds the least index in the range holding a token of the
      class, and gives -1 exactly when there is none. */
  lemma {:induction false} FirstIndexIsLeast(kinds: seq<Kind>, i: int, j: int, cls: TokenClass)
    requires 0 <= i && j <= |kinds|
    ensures var r := FirstIndex(kinds, i, j, cls);
            (r == -1 || InClass(kinds[r], cls)) &&
            forall k :: i <= k < j && (r == -1 || k < r) ==> !InClass(kinds[k], cls)
    decreases j - i
  {
    if i < j && !InClass(kinds[i], cls) {
      FirstIndexIsLeast(kinds, i + 1, j, cls);
    }
  }

  /** `find_parent_item`: the first AND-class token, else the first OR-class
      one, else the first constraint, else the first NOT, else the first
      feature; -1 if there is none. Parentheses are not looked at. */
  function ParentItem(kinds: seq<Kind>, i: int, j: int): (r: int)
    requires 0 <= i && j <= |kinds|
    ensures r == -1 || i <= r < j
  {
    var a := FirstIndex(kinds, i, j, AndClass);
    if a != -1 then a else
    var o := FirstIndex(kinds, i, j, OrClass);
    if o != -1 then o else
    var c := FirstIndex(kinds, i, j, ConstraintClass);
    if c != -1 then c else
    var n := FirstIndex(kinds, i, j, NotClass);
    if n != -1 then n else
    FirstIndex(kinds, i, j, FeatureClass)
  }

  /** On tokens that are classified consistently, `find_parent_item` gives -1
      exactly on an empty range. */
  lemma ParentItemFound(kinds: seq<Kind>, i: int, j: int)
    requires 0 <= i && j <= |kinds|
    requires forall k :: i <= k < j ==> Consistent(kinds[k])
    ensures ParentItem(kinds, i, j) == -1 <==> i >= j
  {
    if i < j {
      assert Consistent(kinds[i]);
    }
  }

  /** An AND-class token in the range wins: the parent is the first of them. */
  lemma ParentItemPrefersAnd(kinds: seq<Kind>, i: int, j: int, a: int)
    requires 0 <= i <= a < j <= |kinds| && kinds[a].andOp
    ensures var p := ParentItem(kinds, i, j);
            i <= p <= a && kinds[p].andOp && forall k :: i <= k < p ==> !kinds[k].andOp
  {
    FirstIndexIsLeast(kinds, i, j, AndClass);
  }

  /** With no AND-class token in the range, an OR-class one wins. */
  lemma ParentItemThenOr(kinds: seq<Kind>, i: int, j: int, o: int)
    requires 0 <= i <= o < j <= |kinds| && kinds[o].orOp
    requires forall k :: i <= k < j ==> !kinds[k].andOp
    ensures var p := ParentItem(kinds, i, j);
            i <= p <= o && kinds[p].orOp && forall k :: i <= k < p ==> !kinds[k].orOp
  {
    FirstIndexIsLeast(kinds, i, j, AndClass);
    FirstIndexIsLeast(kinds, i, j, OrClass);
  }

  // ---------------------------------------------------------------------
  // explore and generate

  function BinaryNode(token: int, pointsTo: Option<int>, name: string, level: int): TreeNode
  {
    TreeNode(token, false, false, "", false, false, true, pointsTo, name, level)
  }

  function LeafNode(token: int, name: string, pointsTo: int, level: int): TreeNode
  {
    TreeNode(token, false, true, name, true, false, false, Some(pointsTo), "", level)
  }

  function FeatureNode(token: int, name: string, pointsTo: int, level: int): TreeNode
  {
    TreeNode(token, false, false, name, true, false, false, Some(pointsTo), "", level)
  }

  function UnaryNode(pointsTo: int, name: string, level: int): TreeNode
  {
    TreeNode(UnaryToken, false, true, "", false, true, false, Some(pointsTo), name, level)
  }

  /** `self.list[p]`, where -1 is the last token. */
  function NameAt(tokens: seq<string>, p: int): string
    requires |tokens| >= 1 && -1 <= p < |tokens|
  {
    if p == -1 then tokens[|tokens| - 1] else tokens[p]
  }

  /** The kind of `self.list[p]`. */
  function KindAt(kinds: seq<Kind>, p: int): Kind
    requires |kinds| >= 1 && -1 <= p < |kinds|
  {
    if p == -1 then kinds[|kinds| - 1] else kinds[p]
  }

  predicate IsBinaryOperator(name: string)
  {
    name in BinaryOperators
  }

  /** The length of `range(i, j)`. */
  function Span(i: int, j: int): nat
  {
    if i < j then j - i else 0
  }

  /** The nodes `explore` appends for a token that is not a binary operator:
      a NOT at the start of the range gives a feature node for the next token
      and a unary node; anything else gives a leaf. `self.list[i]` and
      `self.list[i + 1]` are read first. */
  function ExploreTerminal(tokens: seq<string>, kinds: seq<Kind>, i: int, p: int, pointsTo: int, level: int): Result<seq<TreeNode>, PyError>
    requires |tokens| >= 1 && |kinds| == |tokens| && 0 <= i && -1 <= p < |tokens|
  {
    if i >= |tokens| then Err(IndexError)
    else if kinds[i].unary then
      if i + 1 >= |tokens| then Err(IndexError)
      else Ok([FeatureNode(p, tokens[i + 1], pointsTo, level), UnaryNode(p, tokens[i], level + 1)])
    else Ok([LeafNode(p, NameAt(tokens, p), pointsTo, level)])
  }

  /** The nodes `explore(i, j, points_to, level)` appends, or what it raises.
      When `find_parent_item` gives -1, `self.list[-1]` is the last token; if
      that token is a binary operator the source calls `explore(i, -1, ...)`,
      which finds -1 again, for ever. */
  function ExploreSpec(tokens: seq<string>, kinds: seq<Kind>, i: int, j: int, pointsTo: int, level: int): (r: Result<seq<TreeNode>, PyError>)
    requires |tokens| >= 1 && |kinds| == |tokens| && 0 <= i && j <= |tokens|
    ensures r.Ok? ==> |r.value| >= 1
    ensures r.Ok? ==> forall k :: 0 <= k < |r.value| ==> !r.value[k].isRoot
    decreases Span(i, j)
  {
    var p := ParentItem(kinds, i, j);
    if !KindAt(kinds, p).binary then ExploreTerminal(tokens, kinds, i, p, pointsTo, level)
    else if p == -1 then Err(RecursionError)
    else
      var left :- ExploreSpec(tokens, kinds, i, p, p, level + 1);
      var right :- ExploreSpec(tokens, kinds, p + 1, j, p, level + 1);
      Ok([BinaryNode(p, Some(pointsTo), NameAt(tokens, p), level)] + left + right)
  }

  /** `ExploreSpec` on a binary operator found inside the range. */
  lemma ExploreBinary(tokens: seq<string>, kinds: seq<Kind>, i: int, j: int, pointsTo: int, level: int)
    requires |tokens| >= 1 && |kinds| == |tokens| && 0 <= i && j <= |tokens|
    requires var p := ParentItem(kinds, i, j); p != -1 && kinds[p].binary
    ensures var p := ParentItem(kinds, i, j);
            var left := ExploreSpec(tokens, kinds, i, p, p, level + 1);
            var right := ExploreSpec(tokens, kinds, p + 1, j, p, level + 1);
            ExploreSpec(tokens, kinds, i, j, pointsTo, level) ==
              if left.Err? then Err(left.error)
              else if right.Err? then Err(right.error)
              else Ok([BinaryNode(p, Some(pointsTo), tokens[p], level)] + left.value + right.value)
  {
  }

  /** `ExploreSpec` on a token that is not a binary operator. */
  lemma ExploreNotBinary(tokens: seq<string>, kinds: seq<Kind>, i: int, j: int, pointsTo: int, level: int)
    requires |tokens| >= 1 && |kinds| == |tokens| && 0 <= i && j <= |tokens|
    requires !KindAt(kinds, ParentItem(kinds, i, j)).binary
    ensures ExploreSpec(tokens, kinds, i, j, pointsTo, level) == ExploreTerminal(tokens, kinds, i, ParentItem(kinds, i, j), pointsTo, level)
  {
  }

  /** No parent found and a binary operator as last token: no end. */
  lemma ExploreDiverges(tokens: seq<string>, kinds: seq<Kind>, i: int, j: int, pointsTo: int, level: int)
    requires |tokens| >= 1 && |kinds| == |tokens| && 0 <= i && j <= |tokens|
    requires ParentItem(kinds, i, j) == -1 && kinds[|kinds| - 1].binary
    ensures ExploreSpec(tokens, kinds, i, j, pointsTo, level) == Err(RecursionError)
  {
  }

  /** What a node appended by `explore` looks like. */
  predicate ExploredNode(tokens: seq<string>, n: TreeNode, level: int)
  {
    !n.isRoot && n.pointsTo.Some? && GetName(n) in tokens && n.level >= level
  }

  lemma TerminalNodes(tokens: seq<string>, kinds: seq<Kind>, i: int, p: int, pointsTo: int, level: int)
    requires |tokens| >= 1 && |kinds| == |tokens| && 0 <= i && -1 <= p < |tokens|
    requires ExploreTerminal(tokens, kinds, i, p, pointsTo, level).Ok?
    ensures var added := ExploreTerminal(tokens, kinds, i, p, pointsTo, level).value;
            |added| >= 1 && forall n :: n in added ==> ExploredNode(tokens, n, level)
  {
  }

  /** Explored nodes are never roots, all point to some token position, every
      name is one of the tokens, and none is above the starting level. */
  lemma {:induction false} ExploreNodes(tokens: seq<string>, kinds: seq<Kind>, i: int, j: int, pointsTo: int, level: int)
    requires |tokens| >= 1 && |kinds| == |tokens| && 0 <= i && j <= |tokens|
    requires ExploreSpec(tokens, kinds, i, j, pointsTo, level).Ok?
    ensures var added := ExploreSpec(tokens, kinds, i, j, pointsTo, level).value;
            |added| >= 1 && forall n :: n in added ==> ExploredNode(tokens, n, level)
    decreases Span(i, j)
  {
    var p := ParentItem(kinds, i, j);
    if !KindAt(kinds, p).binary {
      ExploreNotBinary(tokens, kinds, i, j, pointsTo, level);
      TerminalNodes(tokens, kinds, i, p, pointsTo, level);
    } else if p == -1 {
      ExploreDiverges(tokens, kinds, i, j, pointsTo, level);
      assert false;
    } else {
      ExploreBinary(tokens, kinds, i, j, pointsTo, level);
      ExploreNodes(tokens, kinds, i, p, p, level + 1);
      ExploreNodes(tokens, kinds, p + 1, j, p, level + 1);
      var left := ExploreSpec(tokens, kinds, i, p, p, level + 1).value;
      var right := ExploreSpec(tokens, kinds, p + 1, j, p, level + 1).value;
      var added := ExploreSpec(tokens, kinds, i, j, pointsTo, level).value;
      assert added == [BinaryNode(p, Some(pointsTo), tokens[p], level)] + left + right;
      forall n | n in added
        ensures ExploredNode(tokens, n, level)
      {
        if n in left {
        } else if n in right {
        }
      }
    }
  }

  /** The nodes `generate` appends: the root, then the left and the right
      explorations. */
  function GenerateOn(tokens: seq<string>, kinds: seq<Kind>): (r: Result<seq<TreeNode>, PyError>)
    requires |tokens| >= 1 && |kinds| == |tokens|
    ensures r.Ok? ==> |r.value| >= 3 && r.value[0].isRoot && r.value[0].pointsTo.None?
    ensures r.Ok? ==> forall k :: 0 < k < |r.value| ==> !r.value[k].isRoot
  {
    var p := ParentItem(kinds, 0, |tokens|);
    var root := TreeNode(p, true, false, "", false, false, true, None, NameAt(tokens, p), 1);
    var left :- ExploreSpec(tokens, kinds, 0, p, p, 1);
    var right :- ExploreSpec(tokens, kinds, p + 1, |tokens|, p, 1);
    Ok([root] + left + right)
  }

  function GenerateSpec(tokens: seq<string>): Result<seq<TreeNode>, PyError>
    requires |tokens| >= 1
  {
    GenerateOn(tokens, Kinds(tokens))
  }

  /** After a successful `generate` the first node is the only root, and it
      is the only node that points nowhere. */
  lemma GenerateRootUnique(tokens: seq<string>, kinds: seq<Kind>)
    requires |tokens| >= 1 && |kinds| == |tokens| && GenerateOn(tokens, kinds).Ok?
    ensures var ns := GenerateOn(tokens, kinds).value;
            |ns| >= 3 && ns[0].isRoot && ns[0].pointsTo.None? &&
            forall k :: 0 < k < |ns| ==> !ns[k].isRoot && ns[k].pointsTo.Some?
  {
    var p := ParentItem(kinds, 0, |tokens|);
    var left := ExploreSpec(tokens, kinds, 0, p, p, 1).value;
    var right := ExploreSpec(tokens, kinds, p + 1, |tokens|, p, 1).value;
    ExploreNodes(tokens, kinds, 0, p, p, 1);
    ExploreNodes(tokens, kinds, p + 1, |tokens|, p, 1);
    var ns := GenerateOn(tokens, kinds).value;
    RootThenExplored(tokens, ns[0], left, right);
  }

  lemma RootThenExplored(tokens: seq<string>, root: TreeNode, left: seq<TreeNode>, right: seq<TreeNode>)
    requires root.isRoot && root.pointsTo.None? && |left| >= 1 && |right| >= 1
    requires forall n :: n in left ==> ExploredNode(tokens, n, 1)
    requires forall n :: n in right ==> ExploredNode(tokens, n, 1)
    ensures var ns := [root] + left + right;
            |ns| >= 3 && forall k :: 0 < k < |ns| ==> !ns[k].isRoot && ns[k].pointsTo.Some?
  {
    var ns := [root] + left + right;
    forall k | 0 < k < |ns| ensures !ns[k].isRoot && ns[k].pointsTo.Some? {
      if k < 1 + |left| {
        assert ns[k] == left[k - 1];
        assert ExploredNode(tokens, left[k - 1], 1);
      } else {
        assert ns[k] == right[k - 1 - |left|];
        assert ExploredNode(tokens, right[k - 1 - |left|], 1);
      }
    }
  }

  /** No one-token input can be parsed: the exploration right of the root
      reads past the end of the list, and a lone NOT already does so on the
      left; a lone binary operator recurses without end. */
  lemma OneTokenFails(x: string)
    ensures GenerateSpec([x]) == Err(if IsBinaryOperator(x) then RecursionError else IndexError)
  {
    var tokens := [x];
    var kinds := Kinds(tokens);
    ClassifyConsistent(x);
    ParentItemFound(kinds, 0, 1);
    assert ParentItem(kinds, 0, 1) == 0;
    assert ParentItem(kinds, 0, 0) == -1;
    assert ParentItem(kinds, 1, 1) == -1;
    if !kinds[0].binary {
      ExploreNotBinary(tokens, kinds, 0, 0, 0, 1);
      ExploreNotBinary(tokens, kinds, 1, 1, 0, 1);
    } else {
      ExploreDiverges(tokens, kinds, 0, 0, 0, 1);
    }
  }

  /** The kind of a name in none of the operator lists. */
  const Plain := Kind(false, false, false, false, false, false)

  /** A one-letter name other than `&` and `|` is a plain feature. */
  lemma SingleLetterIsFeature(tok: string)
    requires |tok| == 1 && tok[0] != '&' && tok[0] != '|'
    ensures Classify(tok) == Plain
  {
  }

  /** `and` is an AND token and a binary operator, and nothing else. */
  lemma AndKind()
    ensures Classify("and") == AndOperator
  {
  }

  /** The kind of `and` (and of `AND`): an AND token and a binary operator. */
  const AndOperator := Kind(true, false, false, false, false, true)

  /** The kinds of `a and b`: a plain feature, the AND, a plain feature. */
  const ConjunctionKinds := [Plain, AndOperator, Plain]

  lemma ConjunctionClassified(a: string, op: string, b: string)
    requires Classify(a) == Plain && Classify(op) == AndOperator && Classify(b) == Plain
    ensures Kinds([a, op, b]) == ConjunctionKinds
  {
    var ks := Kinds([a, op, b]);
    assert ks[0] == Plain && ks[1] == AndOperator && ks[2] == Plain;
  }

  /** The AND is the parent of the whole line; each operand is its own. */
  lemma ConjunctionParents()
    ensures ParentItem(ConjunctionKinds, 0, 3) == 1
    ensures ParentItem(ConjunctionKinds, 0, 1) == 0
    ensures ParentItem(ConjunctionKinds, 2, 3) == 2
  {
    var kinds := ConjunctionKinds;
    assert FirstIndex(kinds, 0, 3, AndClass) == 1;
    assert FirstIndex(kinds, 0, 1, AndClass) == -1;
    assert FirstIndex(kinds, 0, 1, OrClass) == -1;
    assert FirstIndex(kinds, 0, 1, ConstraintClass) == -1;
    assert FirstIndex(kinds, 0, 1, NotClass) == -1;
    assert FirstIndex(kinds, 0, 1, FeatureClass) == 0;
    assert FirstIndex(kinds, 2, 3, AndClass) == -1;
    assert FirstIndex(kinds, 2, 3, OrClass) == -1;
    assert FirstIndex(kinds, 2, 3, ConstraintClass) == -1;
    assert FirstIndex(kinds, 2, 3, NotClass) == -1;
    assert FirstIndex(kinds, 2, 3, FeatureClass) == 2;
  }

  /** Each operand of the AND is explored to a single leaf under it. */
  lemma ConjunctionLeaves(a: string, op: string, b: string)
    ensures ExploreSpec([a, op, b], ConjunctionKinds, 0, 1, 1, 1) == Ok([LeafNode(0, a, 1, 1)])
    ensures ExploreSpec([a, op, b], ConjunctionKinds, 2, 3, 1, 1) == Ok([LeafNode(2, b, 1, 1)])
  {
    ConjunctionParents();
    ExploreNotBinary([a, op, b], ConjunctionKinds, 0, 1, 1, 1);
    ExploreNotBinary([a, op, b], ConjunctionKinds, 2, 3, 1, 1);
  }

  /** `a and b` over two plain features: the root AND and one leaf for each
      operand, both pointing to it. */
  lemma GenerateConjunction(a: string, op: string, b: string)
    requires Classify(a) == Plain && Classify(op) == AndOperator && Classify(b) == Plain
    ensures GenerateSpec([a, op, b]) == Ok([
              TreeNode(1, true, false, "", false, false, true, None, op, 1),
              LeafNode(0, a, 1, 1),
              LeafNode(2, b, 1, 1)])
  {
    var tokens := [a, op, b];
    ConjunctionClassified(a, op, b);
    ConjunctionParents();
    ConjunctionLeaves(a, op, b);
    var root := TreeNode(1, true, false, "", false, false, true, None, op, 1);
    assert NameAt(tokens, 1) == op;
    assert GenerateOn(tokens, ConjunctionKinds) == Ok([root] + [LeafNode(0, a, 1, 1)] + [LeafNode(2, b, 1, 1)]);
    assert [root] + [LeafNode(0, a, 1, 1)] + [LeafNode(2, b, 1, 1)] == [root, LeafNode(0, a, 1, 1), LeafNode(2, b, 1, 1)];
    assert GenerateSpec(tokens) == GenerateOn(tokens, ConjunctionKinds);
  }

  /** `A and B`. */
  lemma GenerateExample()
    ensures GenerateSpec(["A", "and", "B"]) == Ok([
              TreeNode(1, true, false, "", false, false, true, None, "and", 1),
              LeafNode(0, "A", 1, 1),
              LeafNode(2, "B", 1, 1)])
  {
    SingleLetterIsFeature("A");
    SingleLetterIsFeature("B");
    AndKind();
    GenerateConjunction("A", "and", "B");
  }

  // ---------------------------------------------------------------------
  // get_root and get_childs

  /** The first node whose `is_root` is set. */
  function FirstRoot(ns: seq<TreeNode>): (r: Option<TreeNode>)
    ensures r.Some? ==> r.value in ns && r.value.isRoot
    ensures r.None? ==> forall k :: 0 <= k < |ns| ==> !ns[k].isRoot
  {
    if ns == [] then None else if ns[0].isRoot then Some(ns[0]) else FirstRoot(ns[1..])
  }

  /** The nodes whose `points_to` is the token, in list order. */
  function Children(ns: seq<TreeNode>, token: int): (r: seq<TreeNode>)
    ensures |r| <= |ns|
    ensures forall x :: x in r <==> x in ns && x.pointsTo == Some(token)
  {
    if ns == [] then []
    else Children(ns[..|ns| - 1], token) + (if ns[|ns| - 1].pointsTo == Some(token) then [ns[|ns| - 1]] else [])
  }

  /** The children of a front part of the node list come before those of the
      rest: the list order is kept. */
  lemma {:induction false} ChildrenAppend(a: seq<TreeNode>, b: seq<TreeNode>, token: int)
    ensures Children(a + b, token) == Children(a, token) + Children(b, token)
    decreases |b|
  {
    if b == [] {
      assert a + b == a;
    } else {
      var b' := b[..|b| - 1];
      var last := if b[|b| - 1].pointsTo == Some(token) then [b[|b| - 1]] else [];
      assert (a + b)[..|a + b| - 1] == a + b';
      assert (a + b)[|a + b| - 1] == b[|b| - 1];
      calc {
        Children(a + b, token);
        Children(a + b', token) + last;
        == { ChildrenAppend(a, b', token); }
        (Children(a, token) + Children(b', token)) + last;
        Children(a, token) + (Children(b', token) + last);
        Children(a, token) + Children(b, token);
      }
    }
  }

  /** In the nodes of `A and B` (`GenerateExample`) the root is the AND and
      its children are both leaves. */
  lemma ExampleChildren()
    ensures var ns := [TreeNode(1, true, false, "", false, false, true, None, "and", 1), LeafNode(0, "A", 1, 1), LeafNode(2, "B", 1, 1)];
            FirstRoot(ns) == Some(ns[0]) && Children(ns, ns[0].token) == ns[1..]
  {
    var ns := [TreeNode(1, true, false, "", false, false, true, None, "and", 1), LeafNode(0, "A", 1, 1), LeafNode(2, "B", 1, 1)];
    assert ns[..2][..1] == [ns[0]];
    assert ns[..2] == [ns[0], ns[1]];
    assert ns[..1] == [ns[0]];
  }

  lemma AppendFour<T>(a: seq<T>, b: seq<T>, c: seq<T>, d: seq<T>)
    ensures a + b + c + d == a + (b + c + d)
  {
  }

  // ---------------------------------------------------------------------
  // The FamaAST object

  class FamaAst {
    /** `self.string`. */
    const source: string
    /** `self.list`. */
    const tokens: seq<string>
    /** The kind of each token, what the comparisons on it give. */
    ghost const kinds: seq<Kind>
    /** `self.nodes`. */
    var nodes: seq<TreeNode>
    /** The exception `__init__` raised, if any. */
    var failure: Option<PyError>

    /** `kinds` holds the classification of every token. */
    ghost predicate Classified()
    {
      |kinds| == |tokens| >= 1 &&
      forall k {:trigger Classify(tokens[k])} :: 0 <= k < |tokens| ==> kinds[k] == Classify(tokens[k])
    }

    /** `__init__`: tokenize, then `generate`. */
    constructor (s: string)
      ensures source == s && tokens == Tokenize(s) && Classified()
      ensures GenerateSpec(tokens).Ok? ==> failure.None? && nodes == GenerateSpec(tokens).value
      ensures GenerateSpec(tokens).Err? ==> failure == Some(GenerateSpec(tokens).error)
    {
      source := s;
      var t := GenerateList(s);
      tokens := t;
      kinds := Kinds(t);
      nodes := [];
      failure := None;
      new;
      failure := Generate();
    }

    /** One of the `find_*_index` scans. */
    method FindIndex(i: int, j: int, cls: TokenClass) returns (r: int)
      requires Classified() && 0 <= i && j <= |tokens|
      ensures r == FirstIndex(kinds, i, j, cls)
    {
      var item := i;
      while item < j
        invariant i <= item
        invariant FirstIndex(kinds, item, j, cls) == FirstIndex(kinds, i, j, cls)
        decreases j - item
      {
        if InClass(Classify(tokens[item]), cls) {
          return item;
        }
        item := item + 1;
      }
      return -1;
    }

    /** `find_parent_item`. */
    method FindParentItem(i: int, j: int) returns (r: int)
      requires Classified() && 0 <= i && j <= |tokens|
      ensures r == ParentItem(kinds, i, j)
    {
      r := FindIndex(i, j, AndClass);
      if r == -1 {
        r := FindIndex(i, j, OrClass);
      }
      if r == -1 {
        r := FindIndex(i, j, ConstraintClass);
      }
      if r == -1 {
        r := FindIndex(i, j, NotClass);
      }
      if r == -1 {
        r := FindIndex(i, j, FeatureClass);
      }
    }

    /** `explore`: append the nodes of the range `[i, j)`. */
    method Explore(i: int, j: int, pointsTo: int, level: int) returns (e: Option<PyError>)
      requires Classified() && 0 <= i && j <= |tokens|
      modifies this
      ensures ExploreSpec(tokens, kinds, i, j, pointsTo, level).Ok? ==>
                e.None? && nodes == old(nodes) + ExploreSpec(tokens, kinds, i, j, pointsTo, level).value
      ensures ExploreSpec(tokens, kinds, i, j, pointsTo, level).Err? ==>
                e == Some(ExploreSpec(tokens, kinds, i, j, pointsTo, level).error)
      decreases Span(i, j), 3
    {
      var p := FindParentItem(i, j);
      var at := if p == -1 then |tokens| - 1 else p;
      var name := tokens[at];
      assert KindAt(kinds, p) == kinds[at] == Classify(name);
      assert Classify(name).binary == (name in BinaryOperators);
      if name !in BinaryOperators {
        ExploreNotBinary(tokens, kinds, i, j, pointsTo, level);
        e := AppendTerminal(i, p, pointsTo, level);
      } else if p == -1 {
        assert kinds[|kinds| - 1] == kinds[at];
        ExploreDiverges(tokens, kinds, i, j, pointsTo, level);
        e := Some(RecursionError);
      } else {
        e := ExploreBinaryOperator(i, j, p, pointsTo, level);
      }
    }

    /** The branch of `explore` for a binary operator at `p`: its node, then
        the ranges left and right of it, one level down. */
    method ExploreBinaryOperator(i: int, j: int, p: int, pointsTo: int, level: int) returns (e: Option<PyError>)
      requires Classified() && 0 <= i && j <= |tokens|
      requires p == ParentItem(kinds, i, j) && p != -1 && kinds[p].binary
      modifies this
      ensures ExploreSpec(tokens, kinds, i, j, pointsTo, level).Ok? ==>
                e.None? && nodes == old(nodes) + ExploreSpec(tokens, kinds, i, j, pointsTo, level).value
      ensures ExploreSpec(tokens, kinds, i, j, pointsTo, level).Err? ==>
                e == Some(ExploreSpec(tokens, kinds, i, j, pointsTo, level).error)
      decreases Span(i, j), 2
    {
      ExploreBinary(tokens, kinds, i, j, pointsTo, level);
      assert i <= p < j;
      ghost var left := ExploreSpec(tokens, kinds, i, p, p, level + 1);
      ghost var right := ExploreSpec(tokens, kinds, p + 1, j, p, level + 1);
      var node := BinaryNode(p, Some(pointsTo), tokens[p], level);
      nodes := nodes + [node];
      e := ExploreOperands(i, j, p, level);
      if left.Ok? && right.Ok? {
        AppendFour(old(nodes), [node], left.value, right.value);
      }
    }

    /** The two calls of `explore` on the ranges left and right of `p`. */
    method ExploreOperands(i: int, j: int, p: int, level: int) returns (e: Option<PyError>)
      requires Classified() && 0 <= i <= p < j <= |tokens|
      modifies this
      ensures var left := ExploreSpec(tokens, kinds, i, p, p, level + 1);
              var right := ExploreSpec(tokens, kinds, p + 1, j, p, level + 1);
              if left.Err? then e == Some(left.error)
              else if right.Err? then e == Some(right.error)
              else e.None? && nodes == old(nodes) + left.value + right.value
      decreases Span(i, j), 0
    {
      e := Explore(i, p, p, level + 1);
      if e.Some? {
        return;
      }
      e := Explore(p + 1, j, p, level + 1);
    }

    /** The branches of `explore` for a token that is not a binary operator. */
    method AppendTerminal(i: int, p: int, pointsTo: int, level: int) returns (e: Option<PyError>)
      requires Classified() && 0 <= i && -1 <= p < |tokens|
      modifies this
      ensures ExploreTerminal(tokens, kinds, i, p, pointsTo, level).Ok? ==>
                e.None? && nodes == old(nodes) + ExploreTerminal(tokens, kinds, i, p, pointsTo, level).value
      ensures ExploreTerminal(tokens, kinds, i, p, pointsTo, level).Err? ==>
                e == Some(ExploreTerminal(tokens, kinds, i, p, pointsTo, level).error)
    {
      if i >= |tokens| {
        return Some(IndexError);
      }
      assert kinds[i] == Classify(tokens[i]);
      assert kinds[i].unary == (tokens[i] in UnaryOperators);
      if tokens[i] in UnaryOperators {
        if i + 1 >= |tokens| {
          return Some(IndexError);
        }
        nodes := nodes + [FeatureNode(p, tokens[i + 1], pointsTo, level), UnaryNode(p, tokens[i], level + 1)];
      } else {
        var name := if p == -1 then tokens[|tokens| - 1] else tokens[p];
        assert name == NameAt(tokens, p);
        nodes := nodes + [LeafNode(p, name, pointsTo, level)];
      }
      e := None;
    }

    /** `generate`: the root node, then both sides of it. */
    method Generate() returns (e: Option<PyError>)
      requires Classified()
      modifies this
      ensures GenerateOn(tokens, kinds).Ok? ==> e.None? && nodes == old(nodes) + GenerateOn(tokens, kinds).value
      ensures GenerateOn(tokens, kinds).Err? ==> e == Some(GenerateOn(tokens, kinds).error)
    {
      forall k | 0 <= k < |tokens| ensures Consistent(kinds[k]) {
        ClassifyConsistent(tokens[k]);
      }
      ParentItemFound(kinds, 0, |tokens|);
      var p := FindParentItem(0, |tokens|);
      var root := TreeNode(p, true, false, "", false, false, true, None, tokens[p], 1);
      ghost var left := ExploreSpec(tokens, kinds, 0, p, p, 1);
      ghost var right := ExploreSpec(tokens, kinds, p + 1, |tokens|, p, 1);
      assert GenerateOn(tokens, kinds) ==
               if left.Err? then Err(left.error)
               else if right.Err? then Err(right.error)
               else Ok([root] + left.value + right.value);
      nodes := nodes + [root];
      e := ExploreOperands(0, |tokens|, p, 0);
      if left.Ok? && right.Ok? {
        AppendFour(old(nodes), [root], left.value, right.value);
      }
    }

    /** `get_root`: the first node flagged as root. */
    method GetRoot() returns (r: Option<TreeNode>)
      ensures r == FirstRoot(nodes)
    {
      var k := 0;
      while k < |nodes|
        invariant 0 <= k <= |nodes|
        invariant FirstRoot(nodes[k..]) == FirstRoot(nodes)
      {
        if nodes[k].isRoot {
          return Some(nodes[k]);
        }
        assert nodes[k..][1..] == nodes[k + 1..];
        k := k + 1;
      }
      return None;
    }

    /** `get_childs`: the nodes whose `points_to` is the parent's token
        (`str(points_to) == str(token)`, equal exactly when both are the
        same integer). */
    method GetChilds(parent: TreeNode) returns (r: seq<TreeNode>)
      ensures r == Children(nodes, parent.token)
    {
      r := [];
      for k := 0 to |nodes|
        invariant r == Children(nodes[..k], parent.token)
      {
        assert nodes[..k + 1][..k] == nodes[..k];
        if nodes[k].pointsTo == Some(parent.token) {
          r := r + [nodes[k]];
        }
      }
      assert nodes[..|nodes|] == nodes;
    }
  }
}
