/**
 * The older top-level `Shql`: the same compiler and evaluator over the same
 * expression trees, with different leaf rules.
 *
 *   - The root segment of a left-hand path is never checked; compiling
 *     qualifies a two-segment path with the object's table, and evaluating
 *     always walks the path from the object.
 *   - Only a right-hand token starting with `subject` is resolved, always
 *     from the subject; a nil or false subject, or a nil or false value on
 *     the way, leaves the right-hand side blank.
 *   - Evaluating compares with membership when the left-hand value is an
 *     array, whatever the operator; otherwise `=` is equality and any other
 *     operator is `rhs.include?(lhs)`.
 */
module ShqlLegacy {
  import opened Wrappers
  import opened RubyText
  import opened ShqlCommon

  /** A right-hand token is resolved only when it starts with `subject`. */
  predicate IsSubjectToken(t: string) {
    StartsWith(t, "subject")
  }

  /** The segments between the root and the last one. */
  function Middle(arr: seq<string>): seq<string> {
    if |arr| >= 2 then arr[1..|arr| - 1] else []
  }

  // ----- parse_json -----

  /**
   * The subject walk of the right-hand loop: a value that is nil or false
   * stops it with nothing to render (`None`), anything else is sent the next
   * segment; the value reached is `Some`.
   */
  function GuardedWalk(v: Val, atoms: seq<string>): (r: Result<Option<Val>, Error>)
    ensures r.Err? ==> r.error.NoMethodError?
    ensures r.Ok? && r.value.Some? ==> Truthy(r.value.value)
    ensures !Truthy(v) ==> r == Ok(None)
    decreases |atoms|
  {
    if !Truthy(v) then Ok(None)
    else if atoms == [] then Ok(Some(v))
    else
      match Send(v, atoms[0])
      case Err(e) => Err(e)
      case Ok(w) => GuardedWalk(w, atoms[1..])
  }

  /**
   * The SQL text of a `subject.` path: blank when the walk stops at nil or
   * false; otherwise for IN the IN-list of the last segment over the
   * collection reached (blank when that is empty), else the last segment as
   * one quoted literal.
   */
  function SubjectRhs(op: string, arr: seq<string>, subject: Val): (r: Result<string, Error>)
    ensures r.Err? ==> r.error.NoMethodError?
  {
    if arr == [] then Ok("")
    else
      match GuardedWalk(subject, Middle(arr))
      case Err(e) => Err(e)
      case Ok(None) => Ok("")
      case Ok(Some(s)) =>
        var last := arr[|arr| - 1];
        if op == "IN" then
          match QuotedValues(s, last)
          case Err(e) => Err(e)
          case Ok(vs) => Ok(if vs == [] then "" else InList(vs))
        else
          match Send(s, last)
          case Err(e) => Err(e)
          case Ok(v) => Ok(Quoted(v))
  }

  /** The right-hand text: a `subject.` path is resolved from the subject, any other token is copied. */
  function RhsText(op: string, rtok: string, subject: Val): (r: Result<string, Error>)
    ensures r.Err? ==> r.error.NoMethodError?
  {
    if IsSubjectToken(rtok) then SubjectRhs(op, Split(rtok, '.'), subject) else Ok(rtok)
  }

  /** What one leaf compiles to, raising as the source does. */
  function LeafPiece(leaf: string, subject: Val, obj: Val): Result<Piece, Error> {
    var toks := Scan(leaf);
    if !WellFormed(toks) then Err(SyntaxError(leaf)) else TokensPiece(toks, subject, obj)
  }

  /** A well-formed leaf: the left-hand path against the object, the right-hand token, the condition. */
  function TokensPiece(toks: seq<string>, subject: Val, obj: Val): Result<Piece, Error>
    requires WellFormed(toks)
  {
    match LhsOf(Split(toks[0], '.'), obj)
    case Err(e) => Err(e)
    case Ok(lhs) =>
      match RhsToken(toks)
      case Err(e) => Err(e)
      case Ok(rtok) =>
        match RhsText(toks[1], rtok, subject)
        case Err(e) => Err(e)
        case Ok(rhs) => Ok(Piece(PresentJoin(lhs.join), lhs.select, Condition(lhs.query, toks[1], rhs)))
  }

  /** What one element of a tree contributes as an operand: a leaf's piece, or a nested array's instruction in parentheses. */
  function OperandOf(t: Elem, subject: Val, obj: Val): (r: Result<Operand, Error>)
    ensures r.Ok? ==> NoDup(r.value.joins)
    decreases t, 2, 0
  {
    match t
    case Leaf(text) =>
      (match LeafPiece(text, subject, obj)
       case Err(e) => Err(e)
       case Ok(p) => Ok(LeafOperand(p)))
    case Group(items) =>
      (match Parse(items, subject, obj)
       case Err(e) => Err(e)
       case Ok(sub) => Ok(Operand("(" + sub.query + ")", sub.joins, sub.selects)))
  }

  /** The accumulator after the first i elements of a tree. */
  function ParseAcc(tree: seq<Elem>, i: nat, subject: Val, obj: Val): (r: Result<Acc, Error>)
    requires i <= |tree|
    ensures r.Ok? ==> |r.value.stack| + (if r.value.operator.Some? then 1 else 0) == i
    ensures r.Ok? && i >= 1 ==> (r.value.operator.Some? <==> IsCombinator(tree[0]))
    ensures r.Ok? && r.value.operator.Some? ==> i >= 1 && r.value.operator.value == tree[0].text
    ensures r.Ok? ==> NoDup(r.value.joins)
    decreases Group(tree), 0, i
  {
    if i == 0 then Ok(Acc(None, [], [], map[]))
    else
      match ParseAcc(tree, i - 1, subject, obj)
      case Err(e) => Err(e)
      case Ok(a) =>
        var t := tree[i - 1];
        if i == 1 && IsCombinator(t) then Ok(a.(operator := Some(t.text)))
        else
          assert t in tree;
          match OperandOf(t, subject, obj)
          case Err(e) => Err(e)
          case Ok(o) => Ok(Acc(a.operator, a.stack + [o.query], Union(a.joins, o.joins), a.selects + o.selects))
  }

  /** The first idx elements of the tree compile to the accumulator acc. */
  predicate Compiled(tree: seq<Elem>, idx: nat, acc: Acc, subject: Val, obj: Val)
    requires idx <= |tree|
  {
    ParseAcc(tree, idx, subject, obj) == Ok(acc)
  }

  /** `parse_json`: a blank tree is the true condition; otherwise the operands combined. */
  function Parse(tree: seq<Elem>, subject: Val, obj: Val): (r: Result<Instruction, Error>)
    ensures r.Ok? ==> NoDup(r.value.joins)
    decreases Group(tree), 1, 0
  {
    if tree == [] then Ok(Instruction(TRUE_QUERY, [], map[]))
    else
      match ParseAcc(tree, |tree|, subject, obj)
      case Err(e) => Err(e)
      case Ok(a) => Ok(Instruction(CombineQueries(a.operator, a.stack), a.joins, a.selects))
  }

  lemma {:induction false} ParseAccErrorPersists(tree: seq<Elem>, i: nat, j: nat, subject: Val, obj: Val)
    requires i <= j <= |tree| && ParseAcc(tree, i, subject, obj).Err?
    ensures ParseAcc(tree, j, subject, obj) == ParseAcc(tree, i, subject, obj)
    decreases j - i
  {
    if i < j {
      ParseAccErrorPersists(tree, i + 1, j, subject, obj);
    }
  }

  /** Once an element raises, the whole tree raises the same error. */
  lemma ParseErrorPersists(tree: seq<Elem>, i: nat, subject: Val, obj: Val)
    requires i <= |tree| && ParseAcc(tree, i, subject, obj).Err?
    ensures Parse(tree, subject, obj) == Err(ParseAcc(tree, i, subject, obj).error)
  {
    ParseAccErrorPersists(tree, i, |tree|, subject, obj);
  }

  /**
   * The right-hand loop of `parse_json` over a `subject.` path: a nil or
   * false scope blanks the text and skips the index, index 0 names the root,
   * the middle indices reassign the scope and the last index renders it.
   */
  method ResolveSubjectRhs(op: string, arr: seq<string>, subject: Val) returns (r: Result<string, Error>)
    ensures r == SubjectRhs(op, arr, subject)
  {
    var n := |arr|;
    var scope := subject;
    var rhs := "";
    var idx := 0;
    while idx < n
      invariant 0 <= idx <= n
      invariant idx <= 1 ==> scope == subject
      invariant 1 <= idx <= n - 1 ==> GuardedWalk(subject, Middle(arr)) == GuardedWalk(scope, arr[idx..n - 1])
      invariant idx < n || n == 0 ==> rhs == ""
      invariant n > 0 && idx == n ==> Ok(rhs) == SubjectRhs(op, arr, subject)
    {
      var atom := arr[idx];
      if !Truthy(scope) {
        rhs := "";
        if idx == n - 1 {
          assert GuardedWalk(subject, Middle(arr)) == Ok(None);
        }
        idx := idx + 1;
        continue;
      }
      if 0 < idx < n - 1 {
        assert arr[idx..n - 1][0] == atom && arr[idx..n - 1][1..] == arr[idx + 1..n - 1];
        var next := Send(scope, atom);
        if next.Err? {
          return Err(next.error);
        }
        scope := next.value;
      }
      if idx == n - 1 {
        assert GuardedWalk(subject, Middle(arr)) == Ok(Some(scope));
        if op == "IN" {
          var values := QuotedValues(scope, atom);
          if values.Err? {
            return Err(values.error);
          }
          if values.value != [] {
            rhs := InList(values.value);
          }
        } else {
          var v := Send(scope, atom);
          if v.Err? {
            return Err(v.error);
          }
          rhs := Quoted(v.value);
        }
      }
      idx := idx + 1;
    }
    return Ok(rhs);
  }

  /** One leaf of `parse_json`: the token check, then the rest. */
  method CompileLeaf(leaf: string, subject: Val, obj: Val) returns (r: Result<Piece, Error>)
    ensures r == LeafPiece(leaf, subject, obj)
  {
    var toks := Scan(leaf);
    if !WellFormed(toks) {
      return Err(SyntaxError(leaf));
    }
    r := CompileTokens(toks, subject, obj);
  }

  /** The left-hand loop against the object, the right-hand loop and the condition of a well-formed leaf. */
  method CompileTokens(toks: seq<string>, subject: Val, obj: Val) returns (r: Result<Piece, Error>)
    requires WellFormed(toks)
    ensures r == TokensPiece(toks, subject, obj)
  {
    var lhs := CompileLhs(Split(toks[0], '.'), obj);
    if lhs.Err? {
      return Err(lhs.error);
    }
    if |toks| < 3 {
      return Err(NoMethodError("start_with?"));
    }
    var rhs: string;
    if IsSubjectToken(toks[2]) {
      var resolved := ResolveSubjectRhs(toks[1], Split(toks[2], '.'), subject);
      if resolved.Err? {
        return Err(resolved.error);
      }
      rhs := resolved.value;
    } else {
      rhs := toks[2];
    }
    return Ok(Piece(PresentJoin(lhs.value.join), lhs.value.select, Condition(lhs.value.query, toks[1], rhs)));
  }

  /** One operand of `parse_json`: a nested array is compiled recursively, a leaf on its own. */
  method CompileOperand(token: Elem, subject: Val, obj: Val) returns (r: Result<Operand, Error>)
    ensures r == OperandOf(token, subject, obj)
    decreases token, 2
  {
    if token.Group? {
      var temp := ParseJson(token.items, subject, obj);
      if temp.Err? {
        return Err(temp.error);
      }
      return Ok(Operand("(" + temp.value.query + ")", temp.value.joins, temp.value.selects));
    } else {
      var piece := CompileLeaf(token.text, subject, obj);
      if piece.Err? {
        return Err(piece.error);
      }
      return Ok(LeafOperand(piece.value));
    }
  }

  /**
   * `parse_json`: the elements in order, pushing each operand's condition,
   * collecting joins with `|=` and selects with `merge!`.
   */
  method ParseJson(tree: seq<Elem>, subject: Val, obj: Val) returns (r: Result<Instruction, Error>)
    ensures r == Parse(tree, subject, obj)
    decreases Group(tree), 1
  {
    if tree == [] {
      return Ok(Instruction(TRUE_QUERY, [], map[]));
    }
    var acc := Acc(None, [], [], map[]);
    var idx := 0;
    while idx < |tree|
      invariant 0 <= idx <= |tree|
      invariant Compiled(tree, idx, acc, subject, obj)
    {
      var next := ParseStep(tree, idx, acc, subject, obj);
      if next.Err? {
        ParseErrorPersists(tree, idx + 1, subject, obj);
        return Err(next.error);
      }
      acc := next.value;
      idx := idx + 1;
    }
    return Ok(Instruction(CombineQueries(acc.operator, acc.stack), acc.joins, acc.selects));
  }

  /** The body of the `parse_json` loop for element `idx`: a leading combinator is recorded, any other element pushed. */
  method ParseStep(tree: seq<Elem>, idx: nat, acc: Acc, subject: Val, obj: Val) returns (r: Result<Acc, Error>)
    requires idx < |tree| && Compiled(tree, idx, acc, subject, obj)
    ensures r.Ok? ==> Compiled(tree, idx + 1, r.value, subject, obj)
    ensures r.Err? ==> ParseAcc(tree, idx + 1, subject, obj) == r
    decreases Group(tree), 0, 1
  {
    var token := tree[idx];
    if idx == 0 && IsCombinator(token) {
      return Ok(acc.(operator := Some(token.text)));
    }
    r := PushOperand(tree, idx, acc, subject, obj);
  }

  /** An element that is not the leading combinator: its condition is pushed, its joins added with `|=`, its selects merged in. */
  method PushOperand(tree: seq<Elem>, idx: nat, acc: Acc, subject: Val, obj: Val) returns (r: Result<Acc, Error>)
    requires idx < |tree| && !(idx == 0 && IsCombinator(tree[0])) && Compiled(tree, idx, acc, subject, obj)
    ensures r.Ok? ==> Compiled(tree, idx + 1, r.value, subject, obj)
    ensures r.Err? ==> ParseAcc(tree, idx + 1, subject, obj) == r
    decreases Group(tree), 0, 0
  {
    assert tree[idx] in tree;
    var operand := CompileOperand(tree[idx], subject, obj);
    if operand.Err? {
      return Err(operand.error);
    }
    return Ok(Acc(acc.operator, acc.stack + [operand.value.query], Union(acc.joins, operand.value.joins), acc.selects + operand.value.selects));
  }

  // ----- evaluate_json -----

  /**
   * The comparison of a leaf: a blank right side is false; an array on the
   * left is `lhs.include?(rhs)`; otherwise `=` is equality and any other
   * operator `rhs.include?(lhs)`.
   */
  function Decide(op: string, lhs: Val, rhs: Val): Result<bool, Error> {
    if !Present(rhs) then Ok(false)
    else if lhs.List? then Ok(rhs in lhs.elems)
    else if op == "=" then Ok(lhs == rhs)
    else Includes(rhs, lhs)
  }

  /** The value a right-hand token stands for: a `subject.` path from the subject, or the literal unquoted. */
  function RhsValue(rtok: string, subject: Val): Result<Val, Error> {
    if IsSubjectToken(rtok) then PathValue(subject, Split(rtok, '.')) else Ok(Str(StripQuotes(rtok)))
  }

  /** What one leaf evaluates to, raising as the source does. */
  function LeafValue(leaf: string, subject: Val, obj: Val): Result<bool, Error> {
    var toks := Scan(leaf);
    if !WellFormed(toks) then Err(SyntaxError(leaf)) else TokensValue(toks, subject, obj)
  }

  /** A well-formed leaf: the left-hand path from the object, the right-hand value, the comparison. */
  function TokensValue(toks: seq<string>, subject: Val, obj: Val): Result<bool, Error>
    requires WellFormed(toks)
  {
    match PathValue(obj, Split(toks[0], '.'))
    case Err(e) => Err(e)
    case Ok(lhs) =>
      match RhsToken(toks)
      case Err(e) => Err(e)
      case Ok(rtok) =>
        match RhsValue(rtok, subject)
        case Err(e) => Err(e)
        case Ok(rhs) => Decide(toks[1], lhs, rhs)
  }

  /** What one element of a tree evaluates to: a leaf's result, or a nested array's. */
  function OperandValue(t: Elem, subject: Val, obj: Val): Result<bool, Error>
    decreases t, 2, 0
  {
    match t
    case Leaf(text) => LeafValue(text, subject, obj)
    case Group(items) => Evaluate(items, subject, obj)
  }

  /** The tally after the first i elements of a tree. */
  function EvalAcc(tree: seq<Elem>, i: nat, subject: Val, obj: Val): (r: Result<Tally, Error>)
    requires i <= |tree|
    ensures r.Ok? ==> |r.value.stack| + (if r.value.operator.Some? then 1 else 0) == i
    ensures r.Ok? && i >= 1 ==> (r.value.operator.Some? <==> IsCombinator(tree[0]))
    ensures r.Ok? && r.value.operator.Some? ==> i >= 1 && r.value.operator.value == tree[0].text
    decreases Group(tree), 0, i
  {
    if i == 0 then Ok(Tally(None, []))
    else
      match EvalAcc(tree, i - 1, subject, obj)
      case Err(e) => Err(e)
      case Ok(a) =>
        var t := tree[i - 1];
        if i == 1 && IsCombinator(t) then Ok(a.(operator := Some(t.text)))
        else
          assert t in tree;
          match OperandValue(t, subject, obj)
          case Err(e) => Err(e)
          case Ok(b) => Ok(a.(stack := a.stack + [b]))
  }

  /** `evaluate_json`: a blank tree is true; otherwise the operand results combined. */
  function Evaluate(tree: seq<Elem>, subject: Val, obj: Val): Result<bool, Error>
    decreases Group(tree), 1, 0
  {
    if tree == [] then Ok(true)
    else
      match EvalAcc(tree, |tree|, subject, obj)
      case Err(e) => Err(e)
      case Ok(a) => Ok(CombineResults(a.operator, a.stack))
  }

  lemma {:induction false} EvalAccErrorPersists(tree: seq<Elem>, i: nat, j: nat, subject: Val, obj: Val)
    requires i <= j <= |tree| && EvalAcc(tree, i, subject, obj).Err?
    ensures EvalAcc(tree, j, subject, obj) == EvalAcc(tree, i, subject, obj)
    decreases j - i
  {
    if i < j {
      EvalAccErrorPersists(tree, i + 1, j, subject, obj);
    }
  }

  /** Once an element raises, the whole tree raises the same error. */
  lemma EvalErrorPersists(tree: seq<Elem>, i: nat, subject: Val, obj: Val)
    requires i <= |tree| && EvalAcc(tree, i, subject, obj).Err?
    ensures Evaluate(tree, subject, obj) == Err(EvalAcc(tree, i, subject, obj).error)
  {
    EvalAccErrorPersists(tree, i, |tree|, subject, obj);
  }

  /** One leaf of `evaluate_json`: the token check, then the rest. */
  method EvaluateLeaf(leaf: string, subject: Val, obj: Val) returns (r: Result<bool, Error>)
    ensures r == LeafValue(leaf, subject, obj)
  {
    var toks := Scan(leaf);
    if !WellFormed(toks) {
      return Err(SyntaxError(leaf));
    }
    r := EvaluateTokens(toks, subject, obj);
  }

  /** Both path loops and the comparison of a well-formed leaf. */
  method EvaluateTokens(toks: seq<string>, subject: Val, obj: Val) returns (r: Result<bool, Error>)
    requires WellFormed(toks)
    ensures r == TokensValue(toks, subject, obj)
  {
    var lhs := ResolvePath(obj, Split(toks[0], '.'));
    if lhs.Err? {
      return Err(lhs.error);
    }
    if |toks| < 3 {
      return Err(NoMethodError("start_with?"));
    }
    var rhs: Val;
    if IsSubjectToken(toks[2]) {
      var resolved := ResolvePath(subject, Split(toks[2], '.'));
      if resolved.Err? {
        return Err(resolved.error);
      }
      rhs := resolved.value;
    } else {
      rhs := Str(StripQuotes(toks[2]));
    }
    if Present(rhs) {
      if lhs.value.List? {
        r := Ok(rhs in lhs.value.elems);
      } else if toks[1] == "=" {
        r := Ok(lhs.value == rhs);
      } else {
        r := Includes(rhs, lhs.value);
      }
    } else {
      r := Ok(false);
    }
  }

  /** One operand of `evaluate_json`: a nested array is evaluated recursively, a leaf on its own. */
  method EvaluateOperand(token: Elem, subject: Val, obj: Val) returns (r: Result<bool, Error>)
    ensures r == OperandValue(token, subject, obj)
    decreases token, 2
  {
    if token.Group? {
      r := EvaluateJson(token.items, subject, obj);
    } else {
      r := EvaluateLeaf(token.text, subject, obj);
    }
  }

  /** The first idx elements of the tree evaluate to the tally t. */
  predicate Evaluated(tree: seq<Elem>, idx: nat, t: Tally, subject: Val, obj: Val)
    requires idx <= |tree|
  {
    EvalAcc(tree, idx, subject, obj) == Ok(t)
  }

  /** `evaluate_json`: the elements in order, pushing each operand's result. */
  method EvaluateJson(tree: seq<Elem>, subject: Val, obj: Val) returns (r: Result<bool, Error>)
    ensures r == Evaluate(tree, subject, obj)
    decreases Group(tree), 1
  {
    if tree == [] {
      return Ok(true);
    }
    var tally := Tally(None, []);
    var idx := 0;
    while idx < |tree|
      invariant 0 <= idx <= |tree|
      invariant Evaluated(tree, idx, tally, subject, obj)
    {
      var next := EvaluateStep(tree, idx, tally, subject, obj);
      if next.Err? {
        EvalErrorPersists(tree, idx + 1, subject, obj);
        return Err(next.error);
      }
      tally := next.value;
      idx := idx + 1;
    }
    return Ok(CombineResults(tally.operator, tally.stack));
  }

  /** The body of the `evaluate_json` loop for element `idx`: a leading combinator is recorded, any other element's result pushed. */
  method EvaluateStep(tree: seq<Elem>, idx: nat, tally: Tally, subject: Val, obj: Val) returns (r: Result<Tally, Error>)
    requires idx < |tree| && Evaluated(tree, idx, tally, subject, obj)
    ensures r.Ok? ==> Evaluated(tree, idx + 1, r.value, subject, obj)
    ensures r.Err? ==> EvalAcc(tree, idx + 1, subject, obj) == r
    decreases Group(tree), 0, 1
  {
    var token := tree[idx];
    if idx == 0 && IsCombinator(token) {
      return Ok(tally.(operator := Some(token.text)));
    }
    r := PushResult(tree, idx, tally, subject, obj);
  }

  /** An element that is not the leading combinator: its result is pushed. */
  method PushResult(tree: seq<Elem>, idx: nat, tally: Tally, subject: Val, obj: Val) returns (r: Result<Tally, Error>)
    requires idx < |tree| && !(idx == 0 && IsCombinator(tree[0])) && Evaluated(tree, idx, tally, subject, obj)
    ensures r.Ok? ==> Evaluated(tree, idx + 1, r.value, subject, obj)
    ensures r.Err? ==> EvalAcc(tree, idx + 1, subject, obj) == r
    decreases Group(tree), 0, 0
  {
    assert tree[idx] in tree;
    var result := EvaluateOperand(tree[idx], subject, obj);
    if result.Err? {
      return Err(result.error);
    }
    return Ok(tally.(stack := tally.stack + [result.value]));
  }

  // ----- properties: the tree -----

  /** Past the leading combinator, each element pushes its operand. */
  lemma ParseAccPush(tree: seq<Elem>, i: nat, subject: Val, obj: Val)
    requires Start(tree) < i <= |tree|
    ensures ParseAcc(tree, i, subject, obj) == PushAcc(ParseAcc(tree, i - 1, subject, obj), OperandOf(tree[i - 1], subject, obj))
  {
    assert !(i == 1 && IsCombinator(tree[0]));
  }

  /** The accumulator after i elements is the fold of the operands among them. */
  predicate AccFolds(tree: seq<Elem>, i: nat, subject: Val, obj: Val)
    requires Start(tree) <= i <= |tree|
  {
    ParseAcc(tree, i, subject, obj) == FoldAcc(Lead(tree), Collect(tree[Start(tree)..i], t => OperandOf(t, subject, obj)))
  }

  lemma {:induction false} ParseAccFolds(tree: seq<Elem>, i: nat, subject: Val, obj: Val)
    requires Start(tree) <= i <= |tree|
    ensures AccFolds(tree, i, subject, obj)
    decreases i
  {
    if i > Start(tree) {
      ParseAccFolds(tree, i - 1, subject, obj);
      ParseAccFoldStep(tree, i, subject, obj);
    } else {
      assert tree[Start(tree)..i] == [];
    }
  }

  lemma ParseAccFoldStep(tree: seq<Elem>, i: nat, subject: Val, obj: Val)
    requires Start(tree) < i <= |tree| && AccFolds(tree, i - 1, subject, obj)
    ensures AccFolds(tree, i, subject, obj)
  {
    var f := t => OperandOf(t, subject, obj);
    CollectStep(tree, Start(tree), i, f);
    ParseAccPush(tree, i, subject, obj);
    FoldPush(Lead(tree), Collect(tree[Start(tree)..i - 1], f), f(tree[i - 1]));
  }

  /**
   * `parse_json` on a tree: a blank tree is the true condition; otherwise the
   * operands' conditions combined under the leading combinator, their joins
   * collected with `|=` and their selects merged, and the first element that
   * raises decides the error.
   */
  lemma ParseCombines(tree: seq<Elem>, subject: Val, obj: Val)
    ensures tree == [] ==> Parse(tree, subject, obj) == Ok(Instruction(TRUE_QUERY, [], map[]))
    ensures tree != [] ==> (Parse(tree, subject, obj) ==
      match Collect(tree[Start(tree)..], t => OperandOf(t, subject, obj))
      case Err(e) => Err(e)
      case Ok(ops) => Ok(Instruction(CombineQueries(Lead(tree), QueriesOf(ops)), JoinsOf(ops), SelectsOf(ops))))
  {
    if tree != [] {
      ParseAccFolds(tree, |tree|, subject, obj);
      assert tree[Start(tree)..|tree|] == tree[Start(tree)..];
    }
  }

  /** Past the leading combinator, each element pushes its result. */
  lemma EvalAccPush(tree: seq<Elem>, i: nat, subject: Val, obj: Val)
    requires Start(tree) < i <= |tree|
    ensures EvalAcc(tree, i, subject, obj) == PushTally(EvalAcc(tree, i - 1, subject, obj), OperandValue(tree[i - 1], subject, obj))
  {
    assert !(i == 1 && IsCombinator(tree[0]));
  }

  /** The tally after i elements holds the results of the operands among them. */
  predicate TallyFolds(tree: seq<Elem>, i: nat, subject: Val, obj: Val)
    requires Start(tree) <= i <= |tree|
  {
    EvalAcc(tree, i, subject, obj) == FoldTally(Lead(tree), Collect(tree[Start(tree)..i], t => OperandValue(t, subject, obj)))
  }

  lemma {:induction false} EvalAccFolds(tree: seq<Elem>, i: nat, subject: Val, obj: Val)
    requires Start(tree) <= i <= |tree|
    ensures TallyFolds(tree, i, subject, obj)
    decreases i
  {
    if i > Start(tree) {
      EvalAccFolds(tree, i - 1, subject, obj);
      EvalAccFoldStep(tree, i, subject, obj);
    } else {
      assert tree[Start(tree)..i] == [];
    }
  }

  lemma EvalAccFoldStep(tree: seq<Elem>, i: nat, subject: Val, obj: Val)
    requires Start(tree) < i <= |tree| && TallyFolds(tree, i - 1, subject, obj)
    ensures TallyFolds(tree, i, subject, obj)
  {
    var f := t => OperandValue(t, subject, obj);
    CollectStep(tree, Start(tree), i, f);
    EvalAccPush(tree, i, subject, obj);
    FoldPushTally(Lead(tree), Collect(tree[Start(tree)..i - 1], f), f(tree[i - 1]));
  }

  /**
   * `evaluate_json` on a tree: a blank tree is true; otherwise the operand
   * results combined under the leading combinator (`all?` for AND, `any?`
   * for OR, the first alone without one), and the first element that raises
   * decides the error.
   */
  lemma EvaluateCombines(tree: seq<Elem>, subject: Val, obj: Val)
    ensures tree == [] ==> Evaluate(tree, subject, obj) == Ok(true)
    ensures tree != [] ==> (Evaluate(tree, subject, obj) ==
      match Collect(tree[Start(tree)..], t => OperandValue(t, subject, obj))
      case Err(e) => Err(e)
      case Ok(bs) => Ok(CombineResults(Lead(tree), bs)))
  {
    if tree != [] {
      EvalAccFolds(tree, |tree|, subject, obj);
      assert tree[Start(tree)..|tree|] == tree[Start(tree)..];
    }
  }

  // ----- properties: one leaf -----

  /** A well-formed leaf raises only for a method its values do not answer. */
  lemma TokensPieceRaisesNoMethod(toks: seq<string>, subject: Val, obj: Val)
    requires WellFormed(toks)
    ensures TokensPiece(toks, subject, obj).Err? ==> TokensPiece(toks, subject, obj).error.NoMethodError?
  {
  }

  /** Evaluating a well-formed leaf never raises a syntax error. */
  lemma TokensValueNoSyntaxError(toks: seq<string>, subject: Val, obj: Val)
    requires WellFormed(toks)
    ensures TokensValue(toks, subject, obj).Err? ==> !TokensValue(toks, subject, obj).error.SyntaxError?
  {
  }

  /** Both modes raise a syntax error for a leaf exactly when its tokens are malformed; the root is not checked. */
  lemma LeafSyntaxRule(leaf: string, subject: Val, obj: Val)
    ensures LeafPiece(leaf, subject, obj) == Err(SyntaxError(leaf)) <==> !WellFormed(Scan(leaf))
    ensures LeafValue(leaf, subject, obj) == Err(SyntaxError(leaf)) <==> !WellFormed(Scan(leaf))
  {
    if WellFormed(Scan(leaf)) {
      TokensPieceRaisesNoMethod(Scan(leaf), subject, obj);
      TokensValueNoSyntaxError(Scan(leaf), subject, obj);
    }
  }

  /** The root segment of a left-hand path of two or more segments is never read, in either mode. */
  lemma LhsRootIgnored(arr1: seq<string>, arr2: seq<string>, obj: Val)
    requires |arr1| == |arr2| >= 2 && arr1[1..] == arr2[1..]
    ensures LhsOf(arr1, obj) == LhsOf(arr2, obj)
    ensures PathValue(obj, arr1) == PathValue(obj, arr2)
  {
    var n := |arr1|;
    assert arr1[1..n - 1] == arr1[1..][..n - 2] == arr2[1..][..n - 2] == arr2[1..n - 1];
    assert arr1[1] == arr1[1..][0] == arr2[1];
    assert arr1[n - 1] == arr1[1..][n - 2] == arr2[n - 1];
  }

  /** Two leaves whose right-hand parts agree and whose left-hand paths differ only in the root segment. */
  predicate SameButRoot(toks1: seq<string>, toks2: seq<string>) {
    |toks1| == |toks2| >= 2 && toks1[1..] == toks2[1..]
    && |Split(toks1[0], '.')| == |Split(toks2[0], '.')| >= 2 && Split(toks1[0], '.')[1..] == Split(toks2[0], '.')[1..]
  }

  /** Such leaves have the same operator and right-hand token. */
  lemma SameButRootTokens(toks1: seq<string>, toks2: seq<string>)
    requires SameButRoot(toks1, toks2)
    ensures toks1[1] == toks2[1] && RhsToken(toks1) == RhsToken(toks2)
    ensures WellFormed(toks1) <==> WellFormed(toks2)
  {
    assert toks1[1] == toks1[1..][0] == toks2[1];
    if |toks1| >= 3 {
      assert toks1[2] == toks1[1..][1] == toks2[2];
    }
  }

  /** Hence two leaves that differ only in that root segment compile alike. */
  lemma LeafRootIgnoredInParse(toks1: seq<string>, toks2: seq<string>, subject: Val, obj: Val)
    requires WellFormed(toks1) && SameButRoot(toks1, toks2)
    ensures WellFormed(toks2) && TokensPiece(toks1, subject, obj) == TokensPiece(toks2, subject, obj)
  {
    LhsRootIgnored(Split(toks1[0], '.'), Split(toks2[0], '.'), obj);
    SameButRootTokens(toks1, toks2);
  }

  /** And they evaluate alike. */
  lemma LeafRootIgnoredInEvaluate(toks1: seq<string>, toks2: seq<string>, subject: Val, obj: Val)
    requires WellFormed(toks1) && SameButRoot(toks1, toks2)
    ensures WellFormed(toks2) && TokensValue(toks1, subject, obj) == TokensValue(toks2, subject, obj)
  {
    LhsRootIgnored(Split(toks1[0], '.'), Split(toks2[0], '.'), obj);
    SameButRootTokens(toks1, toks2);
  }

  /** A right-hand token that does not start with `subject`, an `object.` path included, is copied into the condition as it is. */
  lemma NonSubjectRhsVerbatim(toks: seq<string>, subject: Val, obj: Val)
    requires WellFormed(toks) && |toks| >= 3 && !IsSubjectToken(toks[2])
    requires LhsOf(Split(toks[0], '.'), obj).Ok?
    ensures TokensPiece(toks, subject, obj).Ok?
    ensures !IsBlank(toks[2]) ==> (TokensPiece(toks, subject, obj).value.query ==
      LhsOf(Split(toks[0], '.'), obj).value.query + " " + toks[1] + " " + toks[2])
  {
  }

  /**
   * A nil or false subject, or a nil or false value on the way along the
   * subject path, leaves the right-hand side blank and the leaf is the false
   * condition; its join and select are still collected.
   */
  lemma StoppedSubjectIsFalse(toks: seq<string>, subject: Val, obj: Val)
    requires WellFormed(toks) && |toks| >= 3 && IsSubjectToken(toks[2])
    requires LhsOf(Split(toks[0], '.'), obj).Ok?
    requires GuardedWalk(subject, Middle(Split(toks[2], '.'))) == Ok(None)
    ensures TokensPiece(toks, subject, obj) == Ok(Piece(PresentJoin(LhsOf(Split(toks[0], '.'), obj).value.join), LhsOf(Split(toks[0], '.'), obj).value.select, FALSE_QUERY))
  {
    assert IsBlank("");
  }

  /** In particular a nil subject makes every `subject.` leaf the false condition. */
  lemma NilSubjectIsFalse(toks: seq<string>, obj: Val)
    requires WellFormed(toks) && |toks| >= 3 && IsSubjectToken(toks[2])
    requires LhsOf(Split(toks[0], '.'), obj).Ok?
    ensures TokensPiece(toks, Nil, obj).Ok? && TokensPiece(toks, Nil, obj).value.query == FALSE_QUERY
  {
    StoppedSubjectIsFalse(toks, Nil, obj);
  }

  /**
   * IN over a subject collection whose records all have the attribute: the
   * values, each single-quoted, in a parenthesised comma-separated list;
   * blank when the collection is empty.
   */
  lemma InListOfSubjectRecords(arr: seq<string>, subject: Val, table: string, records: seq<Val>)
    requires arr != [] && GuardedWalk(subject, Middle(arr)) == Ok(Some(Many(table, records)))
    requires forall k :: 0 <= k < |records| ==> records[k].Rec? && arr[|arr| - 1] in records[k].attrs
    ensures SubjectRhs("IN", arr, subject).Ok?
    ensures records == [] ==> SubjectRhs("IN", arr, subject).value == ""
    ensures records != [] ==> (SubjectRhs("IN", arr, subject).value ==
      InList(seq(|records|, k requires 0 <= k < |records| => Quoted(records[k].attrs[arr[|arr| - 1]]))))
  {
    QuotedValuesOfRecords(table, records, arr[|arr| - 1]);
  }

  /** A left-hand value that is an array is searched for the right-hand value, whatever the operator. */
  lemma ListLhsMeansMembership(toks: seq<string>, subject: Val, obj: Val, elems: seq<Val>)
    requires WellFormed(toks) && |toks| >= 3 && PathValue(obj, Split(toks[0], '.')) == Ok(List(elems))
    requires RhsValue(toks[2], subject).Ok? && Present(RhsValue(toks[2], subject).value)
    ensures TokensValue(toks, subject, obj) == Ok(RhsValue(toks[2], subject).value in elems)
  {
  }

  /** Any operator other than `=` over a left-hand value that is not an array asks the right-hand value whether it includes it. */
  lemma OtherOperatorIsInclusion(toks: seq<string>, subject: Val, obj: Val)
    requires WellFormed(toks) && |toks| >= 3 && toks[1] != "="
    requires PathValue(obj, Split(toks[0], '.')).Ok? && !PathValue(obj, Split(toks[0], '.')).value.List?
    requires RhsValue(toks[2], subject).Ok? && Present(RhsValue(toks[2], subject).value)
    ensures TokensValue(toks, subject, obj) == Includes(RhsValue(toks[2], subject).value, PathValue(obj, Split(toks[0], '.')).value)
  {
  }

  /** A leaf whose right-hand value is blank is false, whatever the left-hand value. */
  lemma BlankRhsIsFalse(toks: seq<string>, subject: Val, obj: Val)
    requires WellFormed(toks) && |toks| >= 3 && PathValue(obj, Split(toks[0], '.')).Ok?
    requires RhsValue(toks[2], subject).Ok? && !Present(RhsValue(toks[2], subject).value)
    ensures TokensValue(toks, subject, obj) == Ok(false)
  {
  }

  /** `a = 'w'` with a non-blank w over a left-hand value that is not an array holds exactly when that value is the string w. */
  lemma QuotedLiteralEquality(toks: seq<string>, subject: Val, obj: Val, w: string)
    requires WellFormed(toks) && |toks| >= 3 && toks[1] == "=" && toks[2] == "'" + w + "'" && !IsBlank(w)
    requires PathValue(obj, Split(toks[0], '.')).Ok? && !PathValue(obj, Split(toks[0], '.')).value.List?
    ensures TokensValue(toks, subject, obj) == Ok(PathValue(obj, Split(toks[0], '.')).value == Str(w))
  {
    StripQuotesOfQuoted(w);
    assert !IsSubjectToken(toks[2]);
  }
}
