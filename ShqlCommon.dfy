/**
 * What the two SHQL predicate engines share: the expression tree, the values
 * a path resolves to, the errors a leaf can raise, the leaf tokenizer (the
 * quote-aware `scan`), `Array#|` on join specs, the left-hand-side path
 * compiler and the value path walker of evaluate mode.
 *
 * Reflection (`send`) is an accessor on a tagged value: a record answers the
 * names of its attributes and associations, and nothing else answers any
 * name.
 */
module ShqlCommon {
  import opened Wrappers
  import opened RubyText

  const TRUE_QUERY := "1 = 1"
  const FALSE_QUERY := "1 = 2"

  /** An expression: a leaf string `"lhs op rhs"`, or a nested array. */
  datatype Elem = Leaf(text: string) | Group(items: seq<Elem>)

  /** Element 0 of an array names the combinator when it is `"AND"` or `"OR"`. */
  predicate IsCombinator(e: Elem) {
    e.Leaf? && (e.text == "AND" || e.text == "OR")
  }

  /** Index of the first operand: 1 after a leading combinator, else 0. */
  function Start(tree: seq<Elem>): (r: nat)
    ensures r <= |tree|
  {
    if |tree| > 0 && IsCombinator(tree[0]) then 1 else 0
  }

  /** The combinator a tree opens with, if any. */
  function Lead(tree: seq<Elem>): (r: Option<string>)
    ensures r.Some? <==> Start(tree) == 1
  {
    if |tree| > 0 && IsCombinator(tree[0]) then Some(tree[0].text) else None
  }

  /**
   * A value a scope path can reach: `nil`, a boolean, an integer, a string, a
   * record (its table and what its attribute and association readers return),
   * an association collection (`CollectionProxy`) and a plain array (what
   * `map` returns).
   */
  datatype Val =
    | Nil
    | Bool(b: bool)
    | Num(n: int)
    | Str(s: string)
    | Rec(table: string, attrs: map<string, Val>)
    | Many(table: string, records: seq<Val>)
    | List(elems: seq<Val>)

  /** The exceptions a leaf raises: `"Syntax error <leaf>"`, `NoMethodError`, `TypeError`. */
  datatype Error = SyntaxError(token: string) | NoMethodError(name: string) | TypeError

  /** A join spec: a symbol, or a one-key hash nesting a deeper spec. */
  datatype Join = Assoc(name: string) | Nest(name: string, inner: Join)

  /** `present?` of a join spec: only the empty symbol is blank. */
  predicate JoinPresent(j: Join) {
    !(j.Assoc? && j.name == "")
  }

  /** The compiled instruction: the SQL condition, the joins and the selects. */
  datatype Instruction = Instruction(query: string, joins: seq<Join>, selects: map<string, string>)

  // ----- the leaf tokenizer: token.scan(/(?:"(?:\\.|[^"])*"|[^" ])+/) -----

  /**
   * Length of the rest of a double-quoted segment (its body and the closing
   * quote) at the start of t, as the backtracking matcher finds it: an escape
   * `\` + any character but a newline is tried first, then any character but
   * a quote, then the closing quote.
   */
  function QuotedLen(t: string): (r: Option<nat>)
    ensures r.Some? ==> 1 <= r.value <= |t| && t[r.value - 1] == '"'
    decreases |t|
  {
    if t == "" then None
    else if t[0] == '"' then Some(1)
    else if t[0] == '\\' && |t| >= 2 && t[1] != '\n' && QuotedLen(t[2..]).Some? then Some(2 + QuotedLen(t[2..]).value)
    else match QuotedLen(t[1..])
      case None => None
      case Some(n) => Some(1 + n)
  }

  /** Length of one repetition of the token pattern at the start of t: a quoted segment or one other non-space character. */
  function ItemLen(t: string): (r: Option<nat>)
    ensures r.Some? ==> 1 <= r.value <= |t|
    ensures r.None? <==> t == "" || t[0] == ' ' || (t[0] == '"' && QuotedLen(t[1..]).None?)
  {
    if t == "" then None
    else if t[0] == '"' then (match QuotedLen(t[1..]) case None => None case Some(n) => Some(1 + n))
    else if t[0] == ' ' then None
    else Some(1)
  }

  /** Length of the token matched at the start of t (0 when none is). */
  function RunLen(t: string): (r: nat)
    ensures r <= |t|
    ensures r == 0 <==> ItemLen(t).None?
    decreases |t|
  {
    match ItemLen(t)
    case None => 0
    case Some(n) => n + RunLen(t[n..])
  }

  /** `String#scan`: leftmost matches, left to right, each search resuming where the last match ended. */
  function Scan(t: string): (r: seq<string>)
    ensures forall k :: 0 <= k < |r| ==> r[k] != ""
    decreases |t|
  {
    if t == "" then []
    else if RunLen(t) == 0 then Scan(t[1..])
    else [t[..RunLen(t)]] + Scan(t[RunLen(t)..])
  }

  /** The token-count rule: three tokens, or a second token `=` or `IN`. */
  predicate WellFormed(toks: seq<string>) {
    |toks| == 3 || (|toks| >= 2 && (toks[1] == "=" || toks[1] == "IN"))
  }

  /** `query_tokens[2]`; a two-token leaf has none and `nil.start_with?` raises. */
  function RhsToken(toks: seq<string>): (r: Result<string, Error>)
    ensures r.Ok? <==> |toks| >= 3
    ensures r.Ok? ==> r.value == toks[2]
  {
    if |toks| >= 3 then Ok(toks[2]) else Err(NoMethodError("start_with?"))
  }

  /** The non-empty strings of a list, in order. */
  function NonEmpty(parts: seq<string>): (r: seq<string>)
    decreases |parts|
  {
    if parts == [] then []
    else if parts[0] == "" then NonEmpty(parts[1..])
    else [parts[0]] + NonEmpty(parts[1..])
  }

  predicate QuoteFree(t: string) {
    forall j :: 0 <= j < |t| ==> t[j] != '"'
  }

  /** Without quotes, a token is a maximal run of non-space characters. */
  lemma {:induction false} RunOfPlain(t: string)
    requires QuoteFree(t) && t != "" && t[0] != ' '
    ensures 1 <= RunLen(t)
    ensures forall j :: 0 <= j < RunLen(t) ==> t[j] != ' '
    ensures RunLen(t) == |t| || t[RunLen(t)] == ' '
    decreases |t|
  {
    assert ItemLen(t) == Some(1);
    var u := t[1..];
    if u != [] && u[0] != ' ' {
      RunOfPlain(u);
      assert forall j :: 1 <= j < RunLen(t) ==> t[j] == u[j - 1];
    } else {
      assert RunLen(t) == 1 + RunLen(u) && RunLen(u) == 0;
    }
  }

  /** Without quotes, the tokens are exactly the non-empty fields between spaces. */
  lemma {:induction false} ScanOfPlain(t: string)
    requires QuoteFree(t)
    ensures Scan(t) == NonEmpty(Fields(t, ' '))
    decreases |t|
  {
    if t == "" {
    } else if t[0] == ' ' {
      ScanOfPlain(t[1..]);
      assert Fields(t, ' ') == [""] + Fields(t[1..], ' ');
      assert NonEmpty([""] + Fields(t[1..], ' ')) == NonEmpty(Fields(t[1..], ' '));
    } else {
      RunOfPlain(t);
      var k := RunLen(t);
      var w := t[..k];
      assert Scan(t) == [w] + Scan(t[k..]);
      if k == |t| {
        assert w == t;
        FieldsWithoutSeparator(t, ' ');
        assert NonEmpty([t]) == [t] + NonEmpty([]);
      } else {
        var rest := t[k + 1..];
        assert t == w + [' '] + rest;
        FieldsAfterHead(w, ' ', rest);
        assert ([w] + Fields(rest, ' '))[1..] == Fields(rest, ' ');
        assert t[k..][1..] == rest;
        ScanOfPlain(rest);
      }
    }
  }

  /** A quoted segment with no quote or backslash inside is one token, spaces and quotes included. */
  lemma QuotedSegmentIsOneToken(body: string, rest: string)
    requires forall j :: 0 <= j < |body| ==> body[j] != '"' && body[j] != '\\'
    requires rest == "" || rest[0] == ' '
    ensures Scan("\"" + body + "\"" + rest) == ["\"" + body + "\""] + Scan(rest)
  {
    var seg := "\"" + body + "\"";
    var t := seg + rest;
    var after := "\"" + rest;
    QuotedBody(body, after);
    assert t == "\"" + (body + after);
    assert t[0] == '"' && t[1..] == body + after;
    assert ItemLen(t) == Some(|seg|);
    assert t[|seg|..] == rest && t[..|seg|] == seg;
    RunEndsAt(t, |seg|);
  }

  /** A run that is one item followed by something that cannot start an item has that item's length. */
  lemma RunEndsAt(t: string, n: nat)
    requires ItemLen(t) == Some(n) && ItemLen(t[n..]).None?
    ensures RunLen(t) == n && Scan(t) == [t[..n]] + Scan(t[n..])
  {
  }

  lemma {:induction false} QuotedBody(body: string, after: string)
    requires forall j :: 0 <= j < |body| ==> body[j] != '"' && body[j] != '\\'
    requires after != "" && after[0] == '"'
    ensures QuotedLen(body + after) == Some(|body| + 1)
    decreases |body|
  {
    if body == "" {
      assert body + after == after;
    } else {
      QuotedBody(body[1..], after);
      assert (body + after)[1..] == body[1..] + after;
    }
  }

  // ----- Array#| on join specs -----

  predicate NoDup(xs: seq<Join>) {
    forall i, j :: 0 <= i < j < |xs| ==> xs[i] != xs[j]
  }

  /** `Array#uniq`: the first occurrence of each element, in order. */
  function Dedup(xs: seq<Join>): (r: seq<Join>)
    ensures NoDup(r)
    ensures forall x :: x in r <==> x in xs
    decreases |xs|
  {
    if xs == [] then []
    else
      var d := Dedup(xs[..|xs| - 1]);
      if xs[|xs| - 1] in d then d else d + [xs[|xs| - 1]]
  }

  /** `a | b`: the union without duplicates, in order of first appearance. */
  function Union(a: seq<Join>, b: seq<Join>): seq<Join> {
    Dedup(a + b)
  }

  /** Deduplicating a longer list extends the deduplication of its prefix. */
  lemma {:induction false} DedupPrefix(xs: seq<Join>, k: nat)
    requires k <= |xs|
    ensures Dedup(xs[..k]) <= Dedup(xs)
    decreases |xs| - k
  {
    if k < |xs| {
      DedupPrefix(xs, k + 1);
      assert xs[..k + 1][..k] == xs[..k];
    } else {
      assert xs[..k] == xs;
    }
  }

  /** A list without duplicates is its own deduplication. */
  lemma {:induction false} DedupOfNoDup(xs: seq<Join>)
    requires NoDup(xs)
    ensures Dedup(xs) == xs
    decreases |xs|
  {
    if xs != [] {
      var init := xs[..|xs| - 1];
      assert NoDup(init);
      DedupOfNoDup(init);
      assert xs[|xs| - 1] !in init;
      assert init + [xs[|xs| - 1]] == xs;
    }
  }

  /** `a | b` keeps a as it is, then adds what b has that a lacks: joins already collected never move. */
  lemma UnionKeepsLeft(a: seq<Join>, b: seq<Join>)
    requires NoDup(a)
    ensures a <= Union(a, b)
    ensures forall x :: x in Union(a, b) <==> x in a || x in b
  {
    assert (a + b)[..|a|] == a;
    DedupPrefix(a + b, |a|);
    DedupOfNoDup(a);
  }

  // ----- values and reflection -----

  /** `scope.send(atom)`: a record answers its attribute and association names; anything else raises. */
  function Send(v: Val, atom: string): (r: Result<Val, Error>)
    ensures r.Err? ==> r.error.NoMethodError?
    ensures r.Ok? <==> v.Rec? && atom in v.attrs
    ensures r.Ok? ==> r.value == v.attrs[atom]
  {
    if v.Rec? && atom in v.attrs then Ok(v.attrs[atom]) else Err(NoMethodError(atom))
  }

  /** `items.map { |m| m.send(atom) }`: the first failing send raises. */
  function MapSend(items: seq<Val>, atom: string): (r: Result<seq<Val>, Error>)
    ensures r.Err? ==> r.error.NoMethodError?
    ensures r.Ok? <==> forall k :: 0 <= k < |items| ==> Send(items[k], atom).Ok?
    ensures r.Ok? ==> |r.value| == |items| && forall k :: 0 <= k < |items| ==> Send(items[k], atom) == Ok(r.value[k])
    decreases |items|
  {
    if items == [] then Ok([])
    else
      match Send(items[0], atom)
      case Err(e) => Err(e)
      case Ok(v) =>
        match MapSend(items[1..], atom)
        case Err(e) => Err(e)
        case Ok(vs) => Ok([v] + vs)
  }

  /** `scope.table_name`: a record's or a collection's table. */
  function TableName(v: Val): (r: Result<string, Error>)
    ensures r.Err? ==> r.error.NoMethodError?
    ensures r.Ok? <==> v.Rec? || v.Many?
  {
    match v
    case Rec(table, _) => Ok(table)
    case Many(table, _) => Ok(table)
    case _ => Err(NoMethodError("table_name"))
  }

  /** String interpolation `"#{v}"`; records and arrays get a fixed stand-in text. */
  function ToS(v: Val): string {
    match v
    case Nil => ""
    case Bool(b) => if b then "true" else "false"
    case Num(n) => IntToString(n)
    case Str(s) => s
    case Rec(table, _) => "#<" + table + ">"
    case Many(table, _) => "#<" + table + "[]>"
    case List(_) => "[]"
  }

  /** A value as a single-quoted SQL literal. */
  function Quoted(v: Val): (r: string)
    ensures |r| >= 2 && r[0] == '\'' && r[|r| - 1] == '\''
    ensures r[1..|r| - 1] == ToS(v)
  {
    "'" + ToS(v) + "'"
  }

  /** An SQL IN-list of already quoted values, separated by bare commas. */
  function InList(values: seq<string>): (r: string)
    ensures |r| >= 2 && r[0] == '(' && r[|r| - 1] == ')'
    ensures r[1..|r| - 1] == JoinWith(values, ",")
  {
    "(" + JoinWith(values, ",") + ")"
  }

  /** Each value as a quoted literal, in order. */
  function QuoteAll(vs: seq<Val>): seq<string> {
    seq(|vs|, k requires 0 <= k < |vs| => Quoted(vs[k]))
  }

  /** `scope.map { |m| "'#{m.send(atom)}'" }`: only collections and arrays answer `map`. */
  function QuotedValues(scope: Val, atom: string): (r: Result<seq<string>, Error>)
    ensures r.Err? ==> r.error.NoMethodError?
    ensures r.Ok? ==> scope.Many? || scope.List?
  {
    match scope
    case Many(_, records) =>
      (match MapSend(records, atom)
       case Err(e) => Err(e)
       case Ok(vs) => Ok(QuoteAll(vs)))
    case List(elems) =>
      (match MapSend(elems, atom)
       case Err(e) => Err(e)
       case Ok(vs) => Ok(QuoteAll(vs)))
    case _ => Err(NoMethodError("map"))
  }

  /** Ruby truthiness: everything but `nil` and `false`. */
  predicate Truthy(v: Val) {
    !(v.Nil? || (v.Bool? && !v.b))
  }

  /** `present?`: not nil, not false, not a blank string, not an empty collection. */
  predicate Present(v: Val) {
    match v
    case Nil => false
    case Bool(b) => b
    case Num(_) => true
    case Str(s) => !IsBlank(s)
    case Rec(_, _) => true
    case Many(_, records) => records != []
    case List(elems) => elems != []
  }

  /** `container.include?(x)`: substring test on strings, membership on collections and arrays. */
  function Includes(container: Val, x: Val): (r: Result<bool, Error>)
    ensures container.Str? && x.Str? ==> r == Ok(ContainsSub(container.s, x.s))
    ensures container.Str? && !x.Str? ==> r == Err(TypeError)
    ensures container.List? ==> r == Ok(x in container.elems)
    ensures container.Many? ==> r == Ok(x in container.records)
    ensures !(container.Str? || container.List? || container.Many?) ==> r.Err?
  {
    match container
    case Str(s) => if x.Str? then Ok(ContainsSub(s, x.s)) else Err(TypeError)
    case List(elems) => Ok(x in elems)
    case Many(_, records) => Ok(x in records)
    case _ => Err(NoMethodError("include?"))
  }

  /**
   * `t.gsub(/\A'|'\Z/, '')`: one quote at the very start and one at the end
   * (or just before a final newline) are removed.
   */
  function StripQuotes(t: string): string {
    var u := if |t| > 0 && t[0] == '\'' then t[1..] else t;
    if |u| > 0 && u[|u| - 1] == '\'' then u[..|u| - 1]
    else if |u| >= 2 && u[|u| - 1] == '\n' && u[|u| - 2] == '\'' then u[..|u| - 2] + "\n"
    else u
  }

  /** A single-quoted literal loses exactly its two quotes. */
  lemma StripQuotesOfQuoted(w: string)
    ensures StripQuotes("'" + w + "'") == w
  {
    assert ("'" + w + "'")[1..] == w + "'";
    assert (w + "'")[..|w|] == w;
  }

  /** A literal with no quote at either end is kept as it is. */
  lemma StripQuotesOfBare(t: string)
    requires t != "" && t[0] != '\'' && t[|t| - 1] != '\'' && t[|t| - 1] != '\n'
    ensures StripQuotes(t) == t
  {
  }

  /** A collection whose records all have the attribute quotes each record's value, in order. */
  lemma QuotedValuesOfRecords(table: string, records: seq<Val>, atom: string)
    requires forall k :: 0 <= k < |records| ==> records[k].Rec? && atom in records[k].attrs
    ensures QuotedValues(Many(table, records), atom) == Ok(seq(|records|, k requires 0 <= k < |records| => Quoted(records[k].attrs[atom])))
  {
    assert forall k :: 0 <= k < |records| ==> Send(records[k], atom).Ok?;
    var vs := MapSend(records, atom).value;
    assert forall k :: 0 <= k < |records| ==> vs[k] == records[k].attrs[atom];
    assert QuoteAll(vs) == seq(|records|, k requires 0 <= k < |records| => Quoted(records[k].attrs[atom]));
  }

  // ----- evaluate mode: resolving a path to a value -----

  /** One step of evaluate mode: a collection maps the reader over its records, anything else is sent it. */
  function Step(v: Val, atom: string): (r: Result<Val, Error>)
    ensures r.Err? ==> r.error.NoMethodError?
    ensures v.Many? ==> (r.Ok? <==> MapSend(v.records, atom).Ok?)
    ensures v.Many? && r.Ok? ==> r.value == List(MapSend(v.records, atom).value)
    ensures !v.Many? ==> r == Send(v, atom)
  {
    if v.Many? then
      match MapSend(v.records, atom)
      case Err(e) => Err(e)
      case Ok(vs) => Ok(List(vs))
    else Send(v, atom)
  }

  /** The steps of a path, one after another. */
  function WalkSteps(v: Val, atoms: seq<string>): (r: Result<Val, Error>)
    ensures r.Err? ==> r.error.NoMethodError?
    decreases |atoms|
  {
    if atoms == [] then Ok(v)
    else
      match Step(v, atoms[0])
      case Err(e) => Err(e)
      case Ok(w) => WalkSteps(w, atoms[1..])
  }

  /** The value of a dotted path from its root scope: `""` for an empty path, else the root after every later segment. */
  function PathValue(root: Val, arr: seq<string>): (r: Result<Val, Error>)
    ensures r.Err? ==> r.error.NoMethodError?
  {
    if arr == [] then Ok(Str("")) else WalkSteps(root, arr[1..])
  }

  /** A path through records only reads their attributes one after another. */
  lemma {:induction false} WalkThroughRecords(v: Val, a: string, atoms: seq<string>)
    requires v.Rec? && a in v.attrs
    ensures WalkSteps(v, [a] + atoms) == WalkSteps(v.attrs[a], atoms)
  {
    assert ([a] + atoms)[0] == a && ([a] + atoms)[1..] == atoms;
  }

  /**
   * The evaluate-mode path loop: segment 0 only names the root; every later
   * segment reassigns the scope, and the query is the scope after the last one.
   */
  method ResolvePath(root: Val, arr: seq<string>) returns (r: Result<Val, Error>)
    ensures r == PathValue(root, arr)
  {
    var scope := root;
    var query := Str("");
    var idx := 0;
    while idx < |arr|
      invariant 0 <= idx <= |arr|
      invariant idx == 0 ==> scope == root && query == Str("")
      invariant idx > 0 ==> query == scope && PathValue(root, arr) == WalkSteps(scope, arr[idx..])
    {
      if idx > 0 {
        assert arr[idx..][0] == arr[idx] && arr[idx..][1..] == arr[idx + 1..];
        var next := Step(scope, arr[idx]);
        if next.Err? {
          return Err(next.error);
        }
        scope := next.value;
      }
      query := scope;
      idx := idx + 1;
    }
    return Ok(query);
  }

  // ----- compiling the left-hand path -----

  /** What a left-hand path compiles to: the join, the column and the select entry. */
  datatype Lhs = Lhs(join: Option<Join>, query: string, select: Option<(string, string)>)

  /** `{s1 => {s2 => ... :sk}}`, built from the innermost symbol outwards. */
  function NestJoin(atoms: seq<string>): (r: Join)
    requires atoms != []
    ensures r.name == atoms[0]
    ensures |atoms| == 1 <==> r.Assoc?
    decreases |atoms|
  {
    if |atoms| == 1 then Assoc(atoms[0]) else Nest(atoms[0], NestJoin(atoms[1..]))
  }

  /**
   * The closed form of the left-hand compiler; `scope` is whatever the
   * two-segment case takes its `table_name` from.
   *   - one segment: the segment itself is the column and the select;
   *   - two segments: the column is qualified with the table of `scope`;
   *   - more: the middle segments nest into a join and the column is
   *     `s1.<attr>`;
   * in each case the select maps the last segment to the column.
   */
  function LhsOf(arr: seq<string>, scope: Val): (r: Result<Lhs, Error>)
    ensures r.Err? ==> r.error.NoMethodError?
    ensures r.Err? <==> |arr| == 2 && TableName(scope).Err?
    ensures r.Ok? && arr != [] ==> r.value.select == Some((arr[|arr| - 1], r.value.query))
    ensures r.Ok? && |arr| >= 3 ==> r.value.join == Some(NestJoin(arr[1..|arr| - 1])) && r.value.query == arr[1] + "." + arr[|arr| - 1]
    ensures r.Ok? && |arr| == 2 ==> r.value.join.None? && r.value.query == TableName(scope).value + "." + arr[1]
    ensures r.Ok? && |arr| <= 1 ==> r.value.join.None? && r.value.query == (if arr == [] then "" else arr[0])
  {
    var n := |arr|;
    if n == 0 then Ok(Lhs(None, "", None))
    else if n == 1 then Ok(Lhs(None, arr[0], Some((arr[0], arr[0]))))
    else if n == 2 then
      (match TableName(scope)
       case Err(e) => Err(e)
       case Ok(table) => Ok(Lhs(None, table + "." + arr[1], Some((arr[1], table + "." + arr[1])))))
    else
      var column := arr[1] + "." + arr[n - 1];
      Ok(Lhs(Some(NestJoin(arr[1..n - 1])), column, Some((arr[n - 1], column))))
  }

  /** The part of the left-hand path that was compiled after visiting indices idx..n-1 from the back. */
  ghost predicate LhsVisited(arr: seq<string>, idx: int, join: Option<Join>, query: string, select: Option<(string, string)>) {
    var n := |arr|;
    (idx == n ==> join.None? && query == "" && select.None?)
    && (n >= 1 && idx == n - 1 ==> join.None? && query == arr[n - 1] && select == Some((arr[n - 1], arr[n - 1])))
    && (1 <= idx < n - 1 ==> join == Some(NestJoin(arr[idx..n - 1])) && query == arr[idx] + "." + arr[n - 1] && select == Some((arr[n - 1], query)))
  }

  /**
   * The `reverse_each` loop over the segments of the left-hand path: the last
   * segment opens the column, each middle segment wraps the join, and segment
   * 0 qualifies a two-segment path with the table of `scope`.
   */
  method CompileLhs(arr: seq<string>, scope: Val) returns (r: Result<Lhs, Error>)
    ensures r == LhsOf(arr, scope)
  {
    var n := |arr|;
    var join: Option<Join> := None;
    var query := "";
    var select: Option<(string, string)> := None;
    var idx := n;
    while idx > 0
      invariant 0 <= idx <= n
      invariant idx > 0 ==> LhsVisited(arr, idx, join, query, select)
      invariant idx == 0 ==> Ok(Lhs(join, query, select)) == LhsOf(arr, scope)
    {
      idx := idx - 1;
      var atom := arr[idx];
      if idx == n - 1 {
        query := atom;
        select := Some((atom, query));
      } else if idx > 0 {
        if join.None? {
          join := Some(Assoc(atom));
        } else {
          assert arr[idx..n - 1][1..] == arr[idx + 1..n - 1];
          join := Some(Nest(atom, join.value));
        }
        query := atom + "." + arr[n - 1];
        select := Some((arr[n - 1], query));
      } else if n == 2 {
        var table := TableName(scope);
        if table.Err? {
          return Err(table.error);
        }
        query := table.value + "." + arr[n - 1];
        select := Some((arr[n - 1], query));
      }
    }
    r := Ok(Lhs(join, query, select));
  }

  /** The join a leaf contributes: the left-hand join when it is present. */
  function PresentJoin(j: Option<Join>): (r: Option<Join>)
    ensures r.Some? <==> j.Some? && JoinPresent(j.value)
    ensures r.Some? ==> r == j
  {
    if j.Some? && JoinPresent(j.value) then j else None
  }

  /** What one leaf adds to the instruction: join, select and condition. */
  datatype Piece = Piece(join: Option<Join>, select: Option<(string, string)>, query: string)

  /** The condition of a leaf: the false sentinel when the right-hand side is blank. */
  function Condition(column: string, op: string, rhs: string): (r: string)
    ensures IsBlank(rhs) ==> r == FALSE_QUERY
    ensures !IsBlank(rhs) ==> r == column + " " + op + " " + rhs
  {
    if IsBlank(rhs) then FALSE_QUERY else column + " " + op + " " + rhs
  }

  /** What one operand adds to the instruction: its condition, its joins and its selects. */
  datatype Operand = Operand(query: string, joins: seq<Join>, selects: map<string, string>)

  /** A leaf as an operand: its join, if present, and its select entry, if any. */
  function LeafOperand(p: Piece): (r: Operand)
    ensures r.query == p.query
    ensures p.join.Some? ==> r.joins == [p.join.value]
    ensures p.join.None? ==> r.joins == []
    ensures p.select.Some? ==> r.selects == map[p.select.value.0 := p.select.value.1]
    ensures p.select.None? ==> r.selects == map[]
  {
    Operand(p.query,
            if p.join.Some? then [p.join.value] else [],
            if p.select.Some? then map[p.select.value.0 := p.select.value.1] else map[])
  }

  /** `all?` over the operand results. */
  predicate AllOf(bs: seq<bool>) {
    forall k :: 0 <= k < |bs| ==> bs[k]
  }

  /** `any?` over the operand results. */
  predicate AnyOf(bs: seq<bool>) {
    exists k :: 0 <= k < |bs| && bs[k]
  }

  /** How a tree combines its operand queries: joined with the combinator, or the first alone. */
  function CombineQueries(op: Option<string>, qs: seq<string>): string
    requires op.None? ==> qs != []
  {
    if op.Some? then JoinWith(qs, " " + op.value + " ") else qs[0]
  }

  /** How a tree combines its operand results: `all?` for AND, `any?` for OR, else the first. */
  function CombineResults(op: Option<string>, bs: seq<bool>): bool
    requires op.None? ==> bs != []
  {
    if op == Some("AND") then AllOf(bs) else if op.Some? then AnyOf(bs) else bs[0]
  }

  // ----- folding the operands of a tree -----

  /** Each element mapped through f, left to right; the first element that raises decides the error. */
  function Collect<X>(items: seq<Elem>, f: Elem -> Result<X, Error>): (r: Result<seq<X>, Error>)
    ensures r.Ok? ==> |r.value| == |items|
    decreases |items|
  {
    if items == [] then Ok([]) else Append(Collect(items[..|items| - 1], f), f(items[|items| - 1]))
  }

  /** One more result after a list: the first error wins. */
  function Append<X>(r: Result<seq<X>, Error>, x: Result<X, Error>): Result<seq<X>, Error> {
    match r
    case Err(e) => Err(e)
    case Ok(xs) =>
      match x
      case Err(e) => Err(e)
      case Ok(v) => Ok(xs + [v])
  }

  /** Collecting a slice one element longer appends that element's result. */
  lemma CollectStep<X>(s: seq<Elem>, a: nat, b: nat, f: Elem -> Result<X, Error>)
    requires a < b <= |s|
    ensures Collect(s[a..b], f) == Append(Collect(s[a..b - 1], f), f(s[b - 1]))
  {
    assert s[a..b][..b - a - 1] == s[a..b - 1];
  }

  /**
   * Collecting succeeds exactly when every element succeeds, and then holds
   * each element's value in order; otherwise its error is that of the first
   * element that raises.
   */
  lemma {:induction false} CollectMeaning<X>(items: seq<Elem>, f: Elem -> Result<X, Error>)
    ensures Collect(items, f).Ok? <==> forall k :: 0 <= k < |items| ==> f(items[k]).Ok?
    ensures Collect(items, f).Ok? ==> forall k :: 0 <= k < |items| ==> f(items[k]) == Ok(Collect(items, f).value[k])
    ensures Collect(items, f).Err? ==> exists k :: 0 <= k < |items| && f(items[k]) == Err(Collect(items, f).error) && forall m :: 0 <= m < k ==> f(items[m]).Ok?
    decreases |items|
  {
    if items != [] {
      var init := items[..|items| - 1];
      var last := items[|items| - 1];
      CollectMeaning(init, f);
      assert forall k :: 0 <= k < |init| ==> init[k] == items[k];
      var r := Collect(init, f);
      if r.Err? {
        var k :| 0 <= k < |init| && f(init[k]) == Err(r.error) && forall m :: 0 <= m < k ==> f(init[m]).Ok?;
        assert f(items[k]) == Err(Collect(items, f).error);
      } else if f(last).Err? {
        assert f(items[|items| - 1]) == Err(Collect(items, f).error);
      } else {
        assert Collect(items, f).value == r.value + [f(last).value];
      }
    }
  }

  /** The operands' conditions, in order. */
  function QueriesOf(ops: seq<Operand>): (r: seq<string>)
    ensures |r| == |ops|
    ensures forall k :: 0 <= k < |ops| ==> r[k] == ops[k].query
    decreases |ops|
  {
    if ops == [] then [] else QueriesOf(ops[..|ops| - 1]) + [ops[|ops| - 1].query]
  }

  /** The operands' joins collected with `|=`, one operand after another. */
  function JoinsOf(ops: seq<Operand>): seq<Join>
    decreases |ops|
  {
    if ops == [] then [] else Union(JoinsOf(ops[..|ops| - 1]), ops[|ops| - 1].joins)
  }

  /** The operands' selects merged with `merge!`, one operand after another. */
  function SelectsOf(ops: seq<Operand>): map<string, string>
    decreases |ops|
  {
    if ops == [] then map[] else SelectsOf(ops[..|ops| - 1]) + ops[|ops| - 1].selects
  }

  /** The accumulator of `parse_json`: combinator, operand stack, joins, selects. */
  datatype Acc = Acc(operator: Option<string>, stack: seq<string>, joins: seq<Join>, selects: map<string, string>)

  /** The accumulator of `evaluate_json`: combinator and operand results. */
  datatype Tally = Tally(operator: Option<string>, stack: seq<bool>)

  /** One more operand pushed onto an accumulator, as `parse_json` does. */
  function PushAcc(r: Result<Acc, Error>, o: Result<Operand, Error>): Result<Acc, Error> {
    match r
    case Err(e) => Err(e)
    case Ok(a) =>
      match o
      case Err(e) => Err(e)
      case Ok(x) => Ok(Acc(a.operator, a.stack + [x.query], Union(a.joins, x.joins), a.selects + x.selects))
  }

  /** The accumulator that a list of operands folds to under a leading combinator. */
  function FoldAcc(lead: Option<string>, r: Result<seq<Operand>, Error>): Result<Acc, Error> {
    match r
    case Err(e) => Err(e)
    case Ok(ops) => Ok(Acc(lead, QueriesOf(ops), JoinsOf(ops), SelectsOf(ops)))
  }

  /** Folding commutes with pushing one more operand. */
  lemma FoldPush(lead: Option<string>, r: Result<seq<Operand>, Error>, o: Result<Operand, Error>)
    ensures FoldAcc(lead, Append(r, o)) == PushAcc(FoldAcc(lead, r), o)
  {
    if r.Ok? && o.Ok? {
      assert (r.value + [o.value])[..|r.value|] == r.value;
    }
  }

  /** One more result pushed onto a tally, as `evaluate_json` does. */
  function PushTally(r: Result<Tally, Error>, b: Result<bool, Error>): Result<Tally, Error> {
    match r
    case Err(e) => Err(e)
    case Ok(a) =>
      match b
      case Err(e) => Err(e)
      case Ok(x) => Ok(a.(stack := a.stack + [x]))
  }

  /** The tally that a list of results folds to under a leading combinator. */
  function FoldTally(lead: Option<string>, r: Result<seq<bool>, Error>): Result<Tally, Error> {
    match r
    case Err(e) => Err(e)
    case Ok(bs) => Ok(Tally(lead, bs))
  }

  /** Folding commutes with pushing one more result. */
  lemma FoldPushTally(lead: Option<string>, r: Result<seq<bool>, Error>, b: Result<bool, Error>)
    ensures FoldTally(lead, Append(r, b)) == PushTally(FoldTally(lead, r), b)
  {
  }

  /**
   * The collected joins hold no duplicates, hold exactly the joins of the
   * operands, and keep the order in which the earlier operands put them.
   */
  lemma {:induction false} JoinsOfMembers(ops: seq<Operand>)
    ensures NoDup(JoinsOf(ops))
    ensures forall j :: j in JoinsOf(ops) <==> exists k :: 0 <= k < |ops| && j in ops[k].joins
    ensures ops != [] ==> JoinsOf(ops[..|ops| - 1]) <= JoinsOf(ops)
    decreases |ops|
  {
    if ops != [] {
      var init := ops[..|ops| - 1];
      JoinsOfMembers(init);
      UnionKeepsLeft(JoinsOf(init), ops[|ops| - 1].joins);
      forall j | j in JoinsOf(ops)
        ensures exists k :: 0 <= k < |ops| && j in ops[k].joins
      {
        if j !in ops[|ops| - 1].joins {
          var k :| 0 <= k < |init| && j in init[k].joins;
          assert ops[k] == init[k];
        }
      }
      forall j, k | 0 <= k < |ops| && j in ops[k].joins
        ensures j in JoinsOf(ops)
      {
        if k < |init| {
          assert init[k] == ops[k];
        }
      }
    }
  }

  /** The merged selects hold a key exactly when some operand selects it. */
  lemma {:induction false} SelectsOfKeys(ops: seq<Operand>)
    ensures forall key :: key in SelectsOf(ops) <==> exists k :: 0 <= k < |ops| && key in ops[k].selects
    decreases |ops|
  {
    if ops != [] {
      var init := ops[..|ops| - 1];
      SelectsOfKeys(init);
      forall key | key in SelectsOf(ops)
        ensures exists k :: 0 <= k < |ops| && key in ops[k].selects
      {
        if key !in ops[|ops| - 1].selects {
          assert key in SelectsOf(init);
          var k :| 0 <= k < |init| && key in init[k].selects;
          assert ops[k] == init[k];
        }
      }
      forall key, k | 0 <= k < |ops| && key in ops[k].selects
        ensures key in SelectsOf(ops)
      {
        if k < |init| {
          assert init[k] == ops[k];
        }
      }
    }
  }

  /** `merge!` is last-write-wins: a key takes its value from the last operand that selects it. */
  lemma {:induction false} SelectsLastWins(ops: seq<Operand>, k: nat, key: string)
    requires k < |ops| && key in ops[k].selects
    requires forall m :: k < m < |ops| ==> key !in ops[m].selects
    ensures key in SelectsOf(ops) && SelectsOf(ops)[key] == ops[k].selects[key]
    decreases |ops|
  {
    var init := ops[..|ops| - 1];
    if k < |ops| - 1 {
      assert init[k] == ops[k];
      forall m | k < m < |init|
        ensures key !in init[m].selects
      {
        assert init[m] == ops[m];
      }
      SelectsLastWins(init, k, key);
    }
  }
}
