/**
 * `Gouge::Shql`: compiles an SHQL expression tree into an SQL condition with
 * its joins and selects (`parse_json`), or evaluates it to a boolean against a
 * subject and an object (`evaluate_json`).
 *
 * In this version the root segment of a left-hand path must be `subject` or
 * `object`, and a right-hand path is resolved against the scope the LEFT-hand
 * root names, whatever its own first segment says.
 */
module Shql {
  import opened Wrappers
  import opened RubyText
  import opened ShqlCommon

  /** The left-hand path of a leaf: its first token split at dots. */
  function LhsPath(leaf: string): seq<string> {
    if Scan(leaf) == [] then [] else Split(Scan(leaf)[0], '.')
  }

  predicate RootOk(arr: seq<string>) {
    arr != [] && (arr[0] == "subject" || arr[0] == "object")
  }

  /** The `case lhs_arr[0]` statement: the scope the root names, else a syntax error. */
  function RootScope(arr: seq<string>, leaf: string, subject: Val, obj: Val): (r: Result<Val, Error>)
    ensures r.Ok? <==> RootOk(arr)
    ensures r.Err? ==> r == Err(SyntaxError(leaf))
    ensures r.Ok? ==> r.value == (if arr[0] == "subject" then subject else obj)
  {
    if arr != [] && arr[0] == "subject" then Ok(subject)
    else if arr != [] && arr[0] == "object" then Ok(obj)
    else Err(SyntaxError(leaf))
  }

  /** A right-hand token is a path when it starts with `subject` or `object`. */
  predicate IsPathToken(t: string) {
    StartsWith(t, "subject") || StartsWith(t, "object")
  }

  // ----- parse_json -----

  /** The segments between the root and the last one. */
  function Middle(arr: seq<string>): seq<string> {
    if |arr| >= 2 then arr[1..|arr| - 1] else []
  }

  /** Successive `send`s along the middle of a right-hand path. */
  function SendPath(v: Val, atoms: seq<string>): (r: Result<Val, Error>)
    ensures r.Err? ==> r.error.NoMethodError?
    decreases |atoms|
  {
    if atoms == [] then Ok(v)
    else
      match Send(v, atoms[0])
      case Err(e) => Err(e)
      case Ok(w) => SendPath(w, atoms[1..])
  }

  /**
   * The SQL text of a right-hand path: walk the middle segments, then for IN
   * the IN-list of the last segment over the collection (blank when it is
   * empty), else the last segment as one quoted literal.
   */
  function RhsPath(op: string, arr: seq<string>, scope: Val): (r: Result<string, Error>)
    ensures r.Err? ==> r.error.NoMethodError?
  {
    if arr == [] then Ok("")
    else
      match SendPath(scope, Middle(arr))
      case Err(e) => Err(e)
      case Ok(s) =>
        var last := arr[|arr| - 1];
        if op == "IN" then
          match QuotedValues(s, last)
          case Err(e) => Err(e)
          case Ok(vs) => Ok(if vs == [] then "" else InList(vs))
        else
          match Send(s, last)
          case Err(e) => Err(e)
          case Ok(v) => Ok(Quoted(v))
  }

  /** The right-hand text: a path is resolved in the left-hand root's scope, any other token is copied. */
  function RhsText(op: string, rtok: string, scope: Val): (r: Result<string, Error>)
    ensures r.Err? ==> r.error.NoMethodError?
  {
    if IsPathToken(rtok) then RhsPath(op, Split(rtok, '.'), scope) else Ok(rtok)
  }

  /** What one leaf compiles to, raising as the source does. */
  function LeafPiece(leaf: string, subject: Val, obj: Val): Result<Piece, Error> {
    var toks := Scan(leaf);
    if !WellFormed(toks) then Err(SyntaxError(leaf))
    else
      match RootScope(Split(toks[0], '.'), leaf, subject, obj)
      case Err(e) => Err(e)
      case Ok(scope) => ScopedPiece(toks, scope)
  }

  /** A well-formed leaf in the scope its root names: left-hand path, right-hand token, condition. */
  function ScopedPiece(toks: seq<string>, scope: Val): Result<Piece, Error>
    requires WellFormed(toks)
  {
    match LhsOf(Split(toks[0], '.'), scope)
    case Err(e) => Err(e)
    case Ok(lhs) =>
      match RhsToken(toks)
      case Err(e) => Err(e)
      case Ok(rtok) =>
        match RhsText(toks[1], rtok, scope)
        case Err(e) => Err(e)
        case Ok(rhs) => Ok(Piece(PresentJoin(lhs.join), lhs.select, Condition(lhs.query, toks[1], rhs)))
  }

  /** What one element of a tree contributes as an operand: a leaf's piece, or a nested array's instruction in parentheses. */
  function OperandOf(t: Elem, subject: Val, obj: Val): (r: Result<Operand, Error>)
    ensures r.Ok? ==> NoDup(r.value.joins)
    decreases t, 2, 0
  {
    match t
    case Leaf(text) =>
      (match LeafPiece(text, subject, obj)
       case Err(e) => Err(e)
       case Ok(p) => Ok(LeafOperand(p)))
    case Group(items) =>
      (match Parse(items, subject, obj)
       case Err(e) => Err(e)
       case Ok(sub) => Ok(Operand("(" + sub.query + ")", sub.joins, sub.selects)))
  }

  /** The accumulator after the first i elements of a tree. */
  function ParseAcc(tree: seq<Elem>, i: nat, subject: Val, obj: Val): (r: Result<Acc, Error>)
    requires i <= |tree|
    ensures r.Ok? ==> |r.value.stack| + (if r.value.operator.Some? then 1 else 0) == i
    ensures r.Ok? && i >= 1 ==> (r.value.operator.Some? <==> IsCombinator(tree[0]))
    ensures r.Ok? && r.value.operator.Some? ==> i >= 1 && r.value.operator.value == tree[0].text
    ensures r.Ok? ==> NoDup(r.value.joins)
    decreases Group(tree), 0, i
  {
    if i == 0 then Ok(Acc(None, [], [], map[]))
    else
      match ParseAcc(tree, i - 1, subject, obj)
      case Err(e) => Err(e)
      case Ok(a) =>
        var t := tree[i - 1];
        if i == 1 && IsCombinator(t) then Ok(a.(operator := Some(t.text)))
        else
          assert t in tree;
          match OperandOf(t, subject, obj)
          case Err(e) => Err(e)
          case Ok(o) => Ok(Acc(a.operator, a.stack + [o.query], Union(a.joins, o.joins), a.selects + o.selects))
  }

  /** The first idx elements of the tree compile to the accumulator acc. */
  predicate Compiled(tree: seq<Elem>, idx: nat, acc: Acc, subject: Val, obj: Val)
    requires idx <= |tree|
  {
    ParseAcc(tree, idx, subject, obj) == Ok(acc)
  }

  /** `parse_json`: a blank tree is the true condition; otherwise the operands combined. */
  function Parse(tree: seq<Elem>, subject: Val, obj: Val): (r: Result<Instruction, Error>)
    ensures r.Ok? ==> NoDup(r.value.joins)
    decreases Group(tree), 1, 0
  {
    if tree == [] then Ok(Instruction(TRUE_QUERY, [], map[]))
    else
      match ParseAcc(tree, |tree|, subject, obj)
      case Err(e) => Err(e)
      case Ok(a) => Ok(Instruction(CombineQueries(a.operator, a.stack), a.joins, a.selects))
  }

  lemma {:induction false} ParseAccErrorPersists(tree: seq<Elem>, i: nat, j: nat, subject: Val, obj: Val)
    requires i <= j <= |tree| && ParseAcc(tree, i, subject, obj).Err?
    ensures ParseAcc(tree, j, subject, obj) == ParseAcc(tree, i, subject, obj)
    decreases j - i
  {
    if i < j {
      ParseAccErrorPersists(tree, i + 1, j, subject, obj);
    }
  }

  /** Once an element raises, the whole tree raises the same error. */
  lemma ParseErrorPersists(tree: seq<Elem>, i: nat, subject: Val, obj: Val)
    requires i <= |tree| && ParseAcc(tree, i, subject, obj).Err?
    ensures Parse(tree, subject, obj) == Err(ParseAcc(tree, i, subject, obj).error)
  {
    ParseAccErrorPersists(tree, i, |tree|, subject, obj);
  }

  /**
   * The right-hand loop of `parse_json`: index 0 names the root, the middle
   * indices reassign the scope, and the last index renders the value.
   */
  method ResolveRhs(op: string, arr: seq<string>, root: Val) returns (r: Result<string, Error>)
    ensures r == RhsPath(op, arr, root)
  {
    var n := |arr|;
    var scope := root;
    var rhs := "";
    var idx := 0;
    while idx < n
      invariant 0 <= idx <= n
      invariant idx <= 1 ==> scope == root
      invariant 1 <= idx <= n - 1 ==> SendPath(root, Middle(arr)) == SendPath(scope, arr[idx..n - 1])
      invariant idx < n || n == 0 ==> rhs == ""
      invariant n > 0 && idx == n ==> Ok(rhs) == RhsPath(op, arr, root)
    {
      var atom := arr[idx];
      if 0 < idx < n - 1 {
        assert arr[idx..n - 1][0] == atom && arr[idx..n - 1][1..] == arr[idx + 1..n - 1];
        var next := Send(scope, atom);
        if next.Err? {
          return Err(next.error);
        }
        scope := next.value;
      }
      if idx == n - 1 {
        assert SendPath(root, Middle(arr)) == Ok(scope);
        if op == "IN" {
          var values := QuotedValues(scope, atom);
          if values.Err? {
            return Err(values.error);
          }
          if values.value != [] {
            rhs := InList(values.value);
          }
        } else {
          var v := Send(scope, atom);
          if v.Err? {
            return Err(v.error);
          }
          rhs := Quoted(v.value);
        }
      }
      idx := idx + 1;
    }
    return Ok(rhs);
  }

  /** One leaf of `parse_json`: token check and root check, then the rest in that scope. */
  method CompileLeaf(leaf: string, subject: Val, obj: Val) returns (r: Result<Piece, Error>)
    ensures r == LeafPiece(leaf, subject, obj)
  {
    var toks := Scan(leaf);
    if !WellFormed(toks) {
      return Err(SyntaxError(leaf));
    }
    var arr := Split(toks[0], '.');
    if arr != [] && arr[0] == "subject" {
      r := CompileScoped(toks, subject);
    } else if arr != [] && arr[0] == "object" {
      r := CompileScoped(toks, obj);
    } else {
      r := Err(SyntaxError(leaf));
    }
  }

  /** The left-hand loop, the right-hand loop and the condition of a well-formed leaf. */
  method CompileScoped(toks: seq<string>, scope: Val) returns (r: Result<Piece, Error>)
    requires WellFormed(toks)
    ensures r == ScopedPiece(toks, scope)
  {
    var lhs := CompileLhs(Split(toks[0], '.'), scope);
    if lhs.Err? {
      return Err(lhs.error);
    }
    if |toks| < 3 {
      return Err(NoMethodError("start_with?"));
    }
    var rhs: string;
    if IsPathToken(toks[2]) {
      var resolved := ResolveRhs(toks[1], Split(toks[2], '.'), scope);
      if resolved.Err? {
        return Err(resolved.error);
      }
      rhs := resolved.value;
    } else {
      rhs := toks[2];
    }
    return Ok(Piece(PresentJoin(lhs.value.join), lhs.value.select, Condition(lhs.value.query, toks[1], rhs)));
  }

  /** One operand of `parse_json`: a nested array is compiled recursively, a leaf on its own. */
  method CompileOperand(token: Elem, subject: Val, obj: Val) returns (r: Result<Operand, Error>)
    ensures r == OperandOf(token, subject, obj)
    decreases token, 2
  {
    if token.Group? {
      var temp := ParseJson(token.items, subject, obj);
      if temp.Err? {
        return Err(temp.error);
      }
      return Ok(Operand("(" + temp.value.query + ")", temp.value.joins, temp.value.selects));
    } else {
      var piece := CompileLeaf(token.text, subject, obj);
      if piece.Err? {
        return Err(piece.error);
      }
      return Ok(LeafOperand(piece.value));
    }
  }

  /**
   * `parse_json`: the elements in order, pushing each operand's condition,
   * collecting joins with `|=` and selects with `merge!`.
   */
  method ParseJson(tree: seq<Elem>, subject: Val, obj: Val) returns (r: Result<Instruction, Error>)
    ensures r == Parse(tree, subject, obj)
    decreases Group(tree), 1
  {
    if tree == [] {
      return Ok(Instruction(TRUE_QUERY, [], map[]));
    }
    var acc := Acc(None, [], [], map[]);
    var idx := 0;
    while idx < |tree|
      invariant 0 <= idx <= |tree|
      invariant Compiled(tree, idx, acc, subject, obj)
    {
      var next := ParseStep(tree, idx, acc, subject, obj);
      if next.Err? {
        ParseErrorPersists(tree, idx + 1, subject, obj);
        return Err(next.error);
      }
      acc := next.value;
      idx := idx + 1;
    }
    return Ok(Instruction(CombineQueries(acc.operator, acc.stack), acc.joins, acc.selects));
  }

  /**
   * The body of the `parse_json` loop for element `idx`: a leading combinator
   * is recorded, any other element's condition is pushed and its joins and
   * selects are collected with `|=` and `merge!`.
   */
  method ParseStep(tree: seq<Elem>, idx: nat, acc: Acc, subject: Val, obj: Val) returns (r: Result<Acc, Error>)
    requires idx < |tree| && Compiled(tree, idx, acc, subject, obj)
    ensures r.Ok? ==> Compiled(tree, idx + 1, r.value, subject, obj)
    ensures r.Err? ==> ParseAcc(tree, idx + 1, subject, obj) == r
    decreases Group(tree), 0, 1
  {
    var token := tree[idx];
    if idx == 0 && IsCombinator(token) {
      return Ok(acc.(operator := Some(token.text)));
    }
    r := PushOperand(tree, idx, acc, subject, obj);
  }

  /** An element that is not the leading combinator: its condition is pushed, its joins added with `|=`, its selects merged in. */
  method PushOperand(tree: seq<Elem>, idx: nat, acc: Acc, subject: Val, obj: Val) returns (r: Result<Acc, Error>)
    requires idx < |tree| && !(idx == 0 && IsCombinator(tree[0])) && Compiled(tree, idx, acc, subject, obj)
    ensures r.Ok? ==> Compiled(tree, idx + 1, r.value, subject, obj)
    ensures r.Err? ==> ParseAcc(tree, idx + 1, subject, obj) == r
    decreases Group(tree), 0, 0
  {
    assert tree[idx] in tree;
    var operand := CompileOperand(tree[idx], subject, obj);
    if operand.Err? {
      return Err(operand.error);
    }
    return Ok(Acc(acc.operator, acc.stack + [operand.value.query], Union(acc.joins, operand.value.joins), acc.selects + operand.value.selects));
  }

  // ----- evaluate_json -----

  /** The comparison of a leaf: a blank right side is false, IN is `rhs.include?(lhs)`, anything else equality. */
  function Decide(op: string, lhs: Val, rhs: Val): Result<bool, Error> {
    if !Present(rhs) then Ok(false)
    else if op == "IN" then Includes(rhs, lhs)
    else Ok(lhs == rhs)
  }

  /** The value a right-hand token stands for: a path in the left-hand root's scope, or the literal unquoted. */
  function RhsValue(rtok: string, scope: Val): Result<Val, Error> {
    if IsPathToken(rtok) then PathValue(scope, Split(rtok, '.')) else Ok(Str(StripQuotes(rtok)))
  }

  /** What one leaf evaluates to, raising as the source does. */
  function LeafValue(leaf: string, subject: Val, obj: Val): Result<bool, Error> {
    var toks := Scan(leaf);
    if !WellFormed(toks) then Err(SyntaxError(leaf))
    else
      match RootScope(Split(toks[0], '.'), leaf, subject, obj)
      case Err(e) => Err(e)
      case Ok(scope) => ScopedValue(toks, scope)
  }

  /** A well-formed leaf in the scope its root names: both sides resolved, then compared. */
  function ScopedValue(toks: seq<string>, scope: Val): Result<bool, Error>
    requires WellFormed(toks)
  {
    match PathValue(scope, Split(toks[0], '.'))
    case Err(e) => Err(e)
    case Ok(lhs) =>
      match RhsToken(toks)
      case Err(e) => Err(e)
      case Ok(rtok) =>
        match RhsValue(rtok, scope)
        case Err(e) => Err(e)
        case Ok(rhs) => Decide(toks[1], lhs, rhs)
  }

  /** What one element of a tree evaluates to: a leaf's result, or a nested array's. */
  function OperandValue(t: Elem, subject: Val, obj: Val): Result<bool, Error>
    decreases t, 2, 0
  {
    match t
    case Leaf(text) => LeafValue(text, subject, obj)
    case Group(items) => Evaluate(items, subject, obj)
  }

  /** The accumulator after the first i elements of a tree. */
  function EvalAcc(tree: seq<Elem>, i: nat, subject: Val, obj: Val): (r: Result<Tally, Error>)
    requires i <= |tree|
    ensures r.Ok? ==> |r.value.stack| + (if r.value.operator.Some? then 1 else 0) == i
    ensures r.Ok? && i >= 1 ==> (r.value.operator.Some? <==> IsCombinator(tree[0]))
    ensures r.Ok? && r.value.operator.Some? ==> i >= 1 && r.value.operator.value == tree[0].text
    decreases Group(tree), 0, i
  {
    if i == 0 then Ok(Tally(None, []))
    else
      match EvalAcc(tree, i - 1, subject, obj)
      case Err(e) => Err(e)
      case Ok(a) =>
        var t := tree[i - 1];
        if i == 1 && IsCombinator(t) then Ok(a.(operator := Some(t.text)))
        else
          assert t in tree;
          match OperandValue(t, subject, obj)
          case Err(e) => Err(e)
          case Ok(b) => Ok(a.(stack := a.stack + [b]))
  }

  /** `evaluate_json`: a blank tree is true; otherwise the operand results combined. */
  function Evaluate(tree: seq<Elem>, subject: Val, obj: Val): Result<bool, Error>
    decreases Group(tree), 1, 0
  {
    if tree == [] then Ok(true)
    else
      match EvalAcc(tree, |tree|, subject, obj)
      case Err(e) => Err(e)
      case Ok(a) => Ok(CombineResults(a.operator, a.stack))
  }

  lemma {:induction false} EvalAccErrorPersists(tree: seq<Elem>, i: nat, j: nat, subject: Val, obj: Val)
    requires i <= j <= |tree| && EvalAcc(tree, i, subject, obj).Err?
    ensures EvalAcc(tree, j, subject, obj) == EvalAcc(tree, i, subject, obj)
    decreases j - i
  {
    if i < j {
      EvalAccErrorPersists(tree, i + 1, j, subject, obj);
    }
  }

  /** Once an element raises, the whole tree raises the same error. */
  lemma EvalErrorPersists(tree: seq<Elem>, i: nat, subject: Val, obj: Val)
    requires i <= |tree| && EvalAcc(tree, i, subject, obj).Err?
    ensures Evaluate(tree, subject, obj) == Err(EvalAcc(tree, i, subject, obj).error)
  {
    EvalAccErrorPersists(tree, i, |tree|, subject, obj);
  }

  /** One leaf of `evaluate_json`: token check and root check, then the rest in that scope. */
  method EvaluateLeaf(leaf: string, subject: Val, obj: Val) returns (r: Result<bool, Error>)
    ensures r == LeafValue(leaf, subject, obj)
  {
    var toks := Scan(leaf);
    if !WellFormed(toks) {
      return Err(SyntaxError(leaf));
    }
    var arr := Split(toks[0], '.');
    if arr != [] && arr[0] == "subject" {
      r := EvaluateScoped(toks, subject);
    } else if arr != [] && arr[0] == "object" {
      r := EvaluateScoped(toks, obj);
    } else {
      r := Err(SyntaxError(leaf));
    }
  }

  /** Both path loops and the comparison of a well-formed leaf. */
  method EvaluateScoped(toks: seq<string>, scope: Val) returns (r: Result<bool, Error>)
    requires WellFormed(toks)
    ensures r == ScopedValue(toks, scope)
  {
    var lhs := ResolvePath(scope, Split(toks[0], '.'));
    if lhs.Err? {
      return Err(lhs.error);
    }
    if |toks| < 3 {
      return Err(NoMethodError("start_with?"));
    }
    var rhs: Val;
    if IsPathToken(toks[2]) {
      var resolved := ResolvePath(scope, Split(toks[2], '.'));
      if resolved.Err? {
        return Err(resolved.error);
      }
      rhs := resolved.value;
    } else {
      rhs := Str(StripQuotes(toks[2]));
    }
    if Present(rhs) {
      if toks[1] == "IN" {
        r := Includes(rhs, lhs.value);
      } else {
        r := Ok(lhs.value == rhs);
      }
    } else {
      r := Ok(false);
    }
  }

  /** One operand of `evaluate_json`: a nested array is evaluated recursively, a leaf on its own. */
  method EvaluateOperand(token: Elem, subject: Val, obj: Val) returns (r: Result<bool, Error>)
    ensures r == OperandValue(token, subject, obj)
    decreases token, 2
  {
    if token.Group? {
      r := EvaluateJson(token.items, subject, obj);
    } else {
      r := EvaluateLeaf(token.text, subject, obj);
    }
  }

  /** The first idx elements of the tree evaluate to the tally t. */
  predicate Evaluated(tree: seq<Elem>, idx: nat, t: Tally, subject: Val, obj: Val)
    requires idx <= |tree|
  {
    EvalAcc(tree, idx, subject, obj) == Ok(t)
  }

  /** `evaluate_json`: the elements in order, pushing each operand's result. */
  method EvaluateJson(tree: seq<Elem>, subject: Val, obj: Val) returns (r: Result<bool, Error>)
    ensures r == Evaluate(tree, subject, obj)
    decreases Group(tree), 1
  {
    if tree == [] {
      return Ok(true);
    }
    var tally := Tally(None, []);
    var idx := 0;
    while idx < |tree|
      invariant 0 <= idx <= |tree|
      invariant Evaluated(tree, idx, tally, subject, obj)
    {
      var next := EvaluateStep(tree, idx, tally, subject, obj);
      if next.Err? {
        EvalErrorPersists(tree, idx + 1, subject, obj);
        return Err(next.error);
      }
      tally := next.value;
      idx := idx + 1;
    }
    return Ok(CombineResults(tally.operator, tally.stack));
  }

  /** The body of the `evaluate_json` loop for element `idx`: a leading combinator is recorded, any other element's result pushed. */
  method EvaluateStep(tree: seq<Elem>, idx: nat, tally: Tally, subject: Val, obj: Val) returns (r: Result<Tally, Error>)
    requires idx < |tree| && Evaluated(tree, idx, tally, subject, obj)
    ensures r.Ok? ==> Evaluated(tree, idx + 1, r.value, subject, obj)
    ensures r.Err? ==> EvalAcc(tree, idx + 1, subject, obj) == r
    decreases Group(tree), 0, 1
  {
    var token := tree[idx];
    if idx == 0 && IsCombinator(token) {
      return Ok(tally.(operator := Some(token.text)));
    }
    r := PushResult(tree, idx, tally, subject, obj);
  }

  /** An element that is not the leading combinator: its result is pushed. */
  method PushResult(tree: seq<Elem>, idx: nat, tally: Tally, subject: Val, obj: Val) returns (r: Result<Tally, Error>)
    requires idx < |tree| && !(idx == 0 && IsCombinator(tree[0])) && Evaluated(tree, idx, tally, subject, obj)
    ensures r.Ok? ==> Evaluated(tree, idx + 1, r.value, subject, obj)
    ensures r.Err? ==> EvalAcc(tree, idx + 1, subject, obj) == r
    decreases Group(tree), 0, 0
  {
    assert tree[idx] in tree;
    var result := EvaluateOperand(tree[idx], subject, obj);
    if result.Err? {
      return Err(result.error);
    }
    return Ok(tally.(stack := tally.stack + [result.value]));
  }

  // ----- properties: the tree -----

  /** Past the leading combinator, each element pushes its operand. */
  lemma ParseAccPush(tree: seq<Elem>, i: nat, subject: Val, obj: Val)
    requires Start(tree) < i <= |tree|
    ensures ParseAcc(tree, i, subject, obj) == PushAcc(ParseAcc(tree, i - 1, subject, obj), OperandOf(tree[i - 1], subject, obj))
  {
    assert !(i == 1 && IsCombinator(tree[0]));
  }

  /** The accumulator after i elements is the fold of the operands among them. */
  predicate AccFolds(tree: seq<Elem>, i: nat, subject: Val, obj: Val)
    requires Start(tree) <= i <= |tree|
  {
    ParseAcc(tree, i, subject, obj) == FoldAcc(Lead(tree), Collect(tree[Start(tree)..i], t => OperandOf(t, subject, obj)))
  }

  lemma {:induction false} ParseAccFolds(tree: seq<Elem>, i: nat, subject: Val, obj: Val)
    requires Start(tree) <= i <= |tree|
    ensures AccFolds(tree, i, subject, obj)
    decreases i
  {
    if i > Start(tree) {
      ParseAccFolds(tree, i - 1, subject, obj);
      ParseAccFoldStep(tree, i, subject, obj);
    } else {
      assert tree[Start(tree)..i] == [];
    }
  }

  lemma ParseAccFoldStep(tree: seq<Elem>, i: nat, subject: Val, obj: Val)
    requires Start(tree) < i <= |tree| && AccFolds(tree, i - 1, subject, obj)
    ensures AccFolds(tree, i, subject, obj)
  {
    var f := t => OperandOf(t, subject, obj);
    CollectStep(tree, Start(tree), i, f);
    ParseAccPush(tree, i, subject, obj);
    FoldPush(Lead(tree), Collect(tree[Start(tree)..i - 1], f), f(tree[i - 1]));
  }

  /**
   * `parse_json` on a tree: a blank tree is the true condition; otherwise the
   * operands' conditions combined under the leading combinator, their joins
   * collected with `|=` and their selects merged, and the first element that
   * raises decides the error.
   */
  lemma ParseCombines(tree: seq<Elem>, subject: Val, obj: Val)
    ensures tree == [] ==> Parse(tree, subject, obj) == Ok(Instruction(TRUE_QUERY, [], map[]))
    ensures tree != [] ==> (Parse(tree, subject, obj) ==
      match Collect(tree[Start(tree)..], t => OperandOf(t, subject, obj))
      case Err(e) => Err(e)
      case Ok(ops) => Ok(Instruction(CombineQueries(Lead(tree), QueriesOf(ops)), JoinsOf(ops), SelectsOf(ops))))
  {
    if tree != [] {
      ParseAccFolds(tree, |tree|, subject, obj);
      assert tree[Start(tree)..|tree|] == tree[Start(tree)..];
    }
  }

  /** Past the leading combinator, each element pushes its result. */
  lemma EvalAccPush(tree: seq<Elem>, i: nat, subject: Val, obj: Val)
    requires Start(tree) < i <= |tree|
    ensures EvalAcc(tree, i, subject, obj) == PushTally(EvalAcc(tree, i - 1, subject, obj), OperandValue(tree[i - 1], subject, obj))
  {
    assert !(i == 1 && IsCombinator(tree[0]));
  }

  /** The tally after i elements holds the results of the operands among them. */
  predicate TallyFolds(tree: seq<Elem>, i: nat, subject: Val, obj: Val)
    requires Start(tree) <= i <= |tree|
  {
    EvalAcc(tree, i, subject, obj) == FoldTally(Lead(tree), Collect(tree[Start(tree)..i], t => OperandValue(t, subject, obj)))
  }

  lemma {:induction false} EvalAccFolds(tree: seq<Elem>, i: nat, subject: Val, obj: Val)
    requires Start(tree) <= i <= |tree|
    ensures TallyFolds(tree, i, subject, obj)
    decreases i
  {
    if i > Start(tree) {
      EvalAccFolds(tree, i - 1, subject, obj);
      EvalAccFoldStep(tree, i, subject, obj);
    } else {
      assert tree[Start(tree)..i] == [];
    }
  }

  lemma EvalAccFoldStep(tree: seq<Elem>, i: nat, subject: Val, obj: Val)
    requires Start(tree) < i <= |tree| && TallyFolds(tree, i - 1, subject, obj)
    ensures TallyFolds(tree, i, subject, obj)
  {
    var f := t => OperandValue(t, subject, obj);
    CollectStep(tree, Start(tree), i, f);
    EvalAccPush(tree, i, subject, obj);
    FoldPushTally(Lead(tree), Collect(tree[Start(tree)..i - 1], f), f(tree[i - 1]));
  }

  /**
   * `evaluate_json` on a tree: a blank tree is true; otherwise the operand
   * results combined under the leading combinator (`all?` for AND, `any?`
   * for OR, the first alone without one), and the first element that raises
   * decides the error.
   */
  lemma EvaluateCombines(tree: seq<Elem>, subject: Val, obj: Val)
    ensures tree == [] ==> Evaluate(tree, subject, obj) == Ok(true)
    ensures tree != [] ==> (Evaluate(tree, subject, obj) ==
      match Collect(tree[Start(tree)..], t => OperandValue(t, subject, obj))
      case Err(e) => Err(e)
      case Ok(bs) => Ok(CombineResults(Lead(tree), bs)))
  {
    if tree != [] {
      EvalAccFolds(tree, |tree|, subject, obj);
      assert tree[Start(tree)..|tree|] == tree[Start(tree)..];
    }
  }

  // ----- properties: one leaf -----

  /** A well-formed leaf in a scope raises only for a method its values do not answer. */
  lemma ScopedPieceRaisesNoMethod(toks: seq<string>, scope: Val)
    requires WellFormed(toks)
    ensures ScopedPiece(toks, scope).Err? ==> ScopedPiece(toks, scope).error.NoMethodError?
  {
  }

  /** Evaluating a well-formed leaf in a scope never raises a syntax error. */
  lemma ScopedValueNoSyntaxError(toks: seq<string>, scope: Val)
    requires WellFormed(toks)
    ensures ScopedValue(toks, scope).Err? ==> !ScopedValue(toks, scope).error.SyntaxError?
  {
  }

  /**
   * Both modes raise a syntax error for a leaf exactly when its tokens are
   * malformed or its left-hand root is neither `subject` nor `object`.
   */
  lemma LeafSyntaxRule(leaf: string, subject: Val, obj: Val)
    ensures LeafPiece(leaf, subject, obj) == Err(SyntaxError(leaf)) <==> !(WellFormed(Scan(leaf)) && RootOk(LhsPath(leaf)))
    ensures LeafValue(leaf, subject, obj) == Err(SyntaxError(leaf)) <==> !(WellFormed(Scan(leaf)) && RootOk(LhsPath(leaf)))
  {
    var toks := Scan(leaf);
    if WellFormed(toks) && RootOk(LhsPath(leaf)) {
      var scope := if LhsPath(leaf)[0] == "subject" then subject else obj;
      ScopedPieceRaisesNoMethod(toks, scope);
      ScopedValueNoSyntaxError(toks, scope);
    }
  }

  /** Under a `subject.` left-hand side the object plays no part, even for a right-hand path that names `object`. */
  lemma SubjectLeafIgnoresObject(leaf: string, subject: Val, obj1: Val, obj2: Val)
    requires LhsPath(leaf) != [] && LhsPath(leaf)[0] == "subject"
    ensures LeafPiece(leaf, subject, obj1) == LeafPiece(leaf, subject, obj2)
    ensures LeafValue(leaf, subject, obj1) == LeafValue(leaf, subject, obj2)
  {
  }

  /** Under an `object.` left-hand side the subject plays no part, even for a right-hand path that names `subject`. */
  lemma ObjectLeafIgnoresSubject(leaf: string, subject1: Val, subject2: Val, obj: Val)
    requires LhsPath(leaf) != [] && LhsPath(leaf)[0] == "object"
    ensures LeafPiece(leaf, subject1, obj) == LeafPiece(leaf, subject2, obj)
    ensures LeafValue(leaf, subject1, obj) == LeafValue(leaf, subject2, obj)
  {
  }

  /** The first segment of a right-hand path is never read. */
  lemma RhsRootIgnored(op: string, arr1: seq<string>, arr2: seq<string>, scope: Val)
    requires |arr1| == |arr2| >= 2 && arr1[1..] == arr2[1..]
    ensures RhsPath(op, arr1, scope) == RhsPath(op, arr2, scope)
  {
    assert Middle(arr1) == arr1[1..][..|arr1| - 2] == arr2[1..][..|arr2| - 2] == Middle(arr2);
    assert arr1[|arr1| - 1] == arr1[1..][|arr1| - 2] == arr2[|arr2| - 1];
  }

  /**
   * The join and select of a compiled leaf: the select maps the last segment
   * to the column, the column is `table.attr` for two segments and `s1.attr`
   * for more, and then the middle segments nest into the join.
   */
  lemma ScopedLhsShape(toks: seq<string>, scope: Val)
    requires WellFormed(toks) && ScopedPiece(toks, scope).Ok?
    ensures var arr := Split(toks[0], '.'); var p := ScopedPiece(toks, scope).value;
      arr != [] ==> p.select.Some? && p.select.value.0 == arr[|arr| - 1]
    ensures var arr := Split(toks[0], '.'); var p := ScopedPiece(toks, scope).value;
      |arr| >= 3 ==> p.join == PresentJoin(Some(NestJoin(arr[1..|arr| - 1]))) && p.select.value.1 == arr[1] + "." + arr[|arr| - 1]
    ensures var arr := Split(toks[0], '.'); var p := ScopedPiece(toks, scope).value;
      |arr| == 2 ==> p.join.None? && TableName(scope).Ok? && p.select.value.1 == TableName(scope).value + "." + arr[1]
  {
  }

  /** A right-hand token that is not a path is copied into the condition as it is, without quoting. */
  lemma ScopedLiteralVerbatim(toks: seq<string>, scope: Val)
    requires WellFormed(toks) && |toks| >= 3 && !IsPathToken(toks[2])
    requires LhsOf(Split(toks[0], '.'), scope).Ok?
    ensures ScopedPiece(toks, scope).Ok?
    ensures !IsBlank(toks[2]) ==> (ScopedPiece(toks, scope).value.query ==
      LhsOf(Split(toks[0], '.'), scope).value.query + " " + toks[1] + " " + toks[2])
  {
  }

  /** A two-token leaf (`a =` or `a IN`) has no right-hand token, and asking it `start_with?` raises. */
  lemma TwoTokenLeafRaises(toks: seq<string>, scope: Val)
    requires WellFormed(toks) && |toks| == 2 && LhsOf(Split(toks[0], '.'), scope).Ok?
    ensures ScopedPiece(toks, scope) == Err(NoMethodError("start_with?"))
  {
  }

  /**
   * IN over a collection whose records all have the attribute: the values,
   * each single-quoted, in a parenthesised comma-separated list; blank when
   * the collection is empty.
   */
  lemma InListOfRecords(arr: seq<string>, scope: Val, table: string, records: seq<Val>)
    requires arr != [] && SendPath(scope, Middle(arr)) == Ok(Many(table, records))
    requires forall k :: 0 <= k < |records| ==> records[k].Rec? && arr[|arr| - 1] in records[k].attrs
    ensures RhsPath("IN", arr, scope).Ok?
    ensures records == [] ==> RhsPath("IN", arr, scope).value == ""
    ensures records != [] ==> (RhsPath("IN", arr, scope).value ==
      InList(seq(|records|, k requires 0 <= k < |records| => Quoted(records[k].attrs[arr[|arr| - 1]]))))
  {
    QuotedValuesOfRecords(table, records, arr[|arr| - 1]);
  }

  /** IN over an empty collection makes the leaf the false condition. */
  lemma EmptyInListIsFalse(toks: seq<string>, scope: Val, table: string)
    requires WellFormed(toks) && |toks| >= 3 && toks[1] == "IN" && IsPathToken(toks[2])
    requires LhsOf(Split(toks[0], '.'), scope).Ok?
    requires SendPath(scope, Middle(Split(toks[2], '.'))) == Ok(Many(table, []))
    ensures ScopedPiece(toks, scope).Ok? && ScopedPiece(toks, scope).value.query == FALSE_QUERY
  {
    assert IsBlank("");
  }

  /** A leaf whose right-hand value is blank is false, whatever the left-hand value. */
  lemma BlankRhsIsFalse(toks: seq<string>, scope: Val)
    requires WellFormed(toks) && |toks| >= 3 && PathValue(scope, Split(toks[0], '.')).Ok?
    requires RhsValue(toks[2], scope).Ok? && !Present(RhsValue(toks[2], scope).value)
    ensures ScopedValue(toks, scope) == Ok(false)
  {
  }

  /** `a = 'w'` with a non-blank w holds exactly when the left-hand value is the string w. */
  lemma QuotedLiteralEquality(toks: seq<string>, scope: Val, w: string)
    requires WellFormed(toks) && |toks| >= 3 && toks[1] != "IN" && toks[2] == "'" + w + "'" && !IsBlank(w)
    requires PathValue(scope, Split(toks[0], '.')).Ok?
    ensures ScopedValue(toks, scope) == Ok(PathValue(scope, Split(toks[0], '.')).value == Str(w))
  {
    StripQuotesOfQuoted(w);
    assert !IsPathToken(toks[2]);
  }

  /** `a IN path` over a non-empty array holds exactly when the left-hand value is one of its elements. */
  lemma InIsMembership(toks: seq<string>, scope: Val, elems: seq<Val>)
    requires WellFormed(toks) && |toks| >= 3 && toks[1] == "IN" && elems != []
    requires PathValue(scope, Split(toks[0], '.')).Ok? && RhsValue(toks[2], scope) == Ok(List(elems))
    ensures ScopedValue(toks, scope) == Ok(PathValue(scope, Split(toks[0], '.')).value in elems)
  {
  }
}
