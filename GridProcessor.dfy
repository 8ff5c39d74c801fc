/**
 * The SQL clause builders behind the data grid: the SELECT list, the quick
 * search WHERE, the advanced search WHERE and the ORDER BY, together with the
 * paging options `process_grid` normalises before it queries. The
 * ActiveRecord relation calls they feed are not modelled; each builder
 * returns the string the source passes on.
 */
module GridProcessor {
  import opened Wrappers
  import opened RubyText
  import BooleanTypecast

  const DEFAULT_PAGE: int := 1
  const DEFAULT_PER_PAGE: int := 10
  const VALID_PER_PAGES: seq<int> := [10, 20, 25, 50, 100, 200]
  const DISABLING_WORDS: seq<string> := ["FALSE", "False", "false", "0", "NO", "No", "no"]
  const DEFAULT_SORT_FIELDS: seq<string> := ["created_at"]
  const DEFAULT_SORT_DIRECTIONS: seq<string> := ["DESC"]

  /** A column definition from the grid: its field and whether its `traversed_by_q` is the boolean true. */
  datatype ColumnDef = ColumnDef(field: string, traversedByQ: bool)

  /** `field_lookup`: the hash's entries in insertion order, field name to SQL expression (or nil). */
  type FieldLookup = seq<(string, Option<string>)>

  datatype GridError =
    | RuntimeError(message: string)  // `raise "..."`
    | NoMethodError(name: string)    // a method the value does not have
    | DateParseError                 // `DateTime.parse` rejected the value

  // ----- field_to_fqn -----

  /** Entry i is the first one whose key is `key`. */
  predicate FirstWithKey(lookup: FieldLookup, key: string, i: int) {
    0 <= i < |lookup| && lookup[i].0 == key && forall j | 0 <= j < i :: lookup[j].0 != key
  }

  /** `field_lookup[key]`: the value of the entry with that key, nil when absent or nil. */
  function Get(lookup: FieldLookup, key: string): (r: Option<string>)
    ensures r.Some? ==> (key, r) in lookup
    ensures (forall i | 0 <= i < |lookup| :: lookup[i].0 != key) ==> r.None?
    ensures forall i | FirstWithKey(lookup, key, i) :: r == lookup[i].1
  {
    if lookup == [] then None
    else if lookup[0].0 == key then lookup[0].1
    else Get(lookup[1..], key)
  }

  /** `field_to_fqn`: the looked-up SQL expression when there is a non-nil one, else the field itself. */
  function FieldToFqn(field: string, lookup: FieldLookup): (r: string)
    ensures Get(lookup, field).Some? ==> r == Get(lookup, field).value
    ensures Get(lookup, field).None? ==> r == field
  {
    match Get(lookup, field)
    case Some(expr) => expr
    case None => field
  }

  /** `"#{x}"` for a lookup value: nil interpolates as the empty string. */
  function Interpolate(x: Option<string>): string {
    match x case Some(s) => s case None => ""
  }

  predicate HasKey(lookup: FieldLookup, key: string) {
    exists i | 0 <= i < |lookup| :: lookup[i].0 == key
  }

  /** `column_defs.collect { |c| c['field'] }`. */
  function ColumnFields(cols: seq<ColumnDef>): (r: seq<string>)
    ensures |r| == |cols| && forall i :: 0 <= i < |cols| ==> r[i] == cols[i].field
  {
    seq(|cols|, i requires 0 <= i < |cols| => cols[i].field)
  }

  // ----- process_select -----

  function SelectItem(c: ColumnDef, lookup: FieldLookup): string {
    FieldToFqn(c.field, lookup) + " AS " + c.field
  }

  /** The column part of the SELECT list, in column order. */
  function ColumnItems(cols: seq<ColumnDef>, lookup: FieldLookup): (r: seq<string>)
    ensures |r| == |cols|
  {
    if cols == [] then []
    else ColumnItems(cols[..|cols| - 1], lookup) + [SelectItem(cols[|cols| - 1], lookup)]
  }

  /** `(field_lookup.keys - fields).each { |k| "#{field_lookup[k]} AS #{k}" }`, in hash order. */
  function ExtraItems(lookup: FieldLookup, fields: seq<string>): seq<string> {
    if lookup == [] then []
    else
      var (k, v) := lookup[|lookup| - 1];
      ExtraItems(lookup[..|lookup| - 1], fields) + (if k in fields then [] else [Interpolate(v) + " AS " + k])
  }

  /** The SELECT list; `<table>.id` when neither columns nor extra lookup keys gave anything. */
  function SelectItems(tableName: string, cols: seq<ColumnDef>, lookup: FieldLookup): seq<string> {
    var items := ColumnItems(cols, lookup) + ExtraItems(lookup, ColumnFields(cols));
    if items == [] then [tableName + ".id"] else items
  }

  /** `process_select`. */
  method ProcessSelect(tableName: string, cols: seq<ColumnDef>, lookup: FieldLookup) returns (r: string)
    ensures r == JoinWith(SelectItems(tableName, cols, lookup), ", ")
  {
    var acc: seq<string> := [];
    var i := 0;
    while i < |cols|
      invariant 0 <= i <= |cols|
      invariant acc == ColumnItems(cols[..i], lookup)
    {
      assert cols[..i + 1][..i] == cols[..i];
      acc := acc + [SelectItem(cols[i], lookup)];
      i := i + 1;
    }
    assert cols[..|cols|] == cols;
    var fields := ColumnFields(cols);
    var j := 0;
    while j < |lookup|
      invariant 0 <= j <= |lookup|
      invariant acc == ColumnItems(cols, lookup) + ExtraItems(lookup[..j], fields)
    {
      assert lookup[..j + 1][..j] == lookup[..j];
      var (k, v) := lookup[j];
      if k !in fields {
        acc := acc + [Interpolate(v) + " AS " + k];
      }
      j := j + 1;
    }
    assert lookup[..|lookup|] == lookup;
    if acc == [] {
      acc := acc + [tableName + ".id"];
    }
    r := JoinWith(acc, ", ");
  }

  lemma {:induction false} ColumnItemAt(cols: seq<ColumnDef>, lookup: FieldLookup, i: nat)
    requires i < |cols|
    ensures ColumnItems(cols, lookup)[i] == FieldToFqn(cols[i].field, lookup) + " AS " + cols[i].field
  {
    if i < |cols| - 1 {
      ColumnItemAt(cols[..|cols| - 1], lookup, i);
    }
  }

  /** Every extra item comes from a lookup entry whose key is not a column field, and every such entry gives one. */
  lemma {:induction false} ExtraItemsExactly(lookup: FieldLookup, fields: seq<string>)
    ensures forall s :: s in ExtraItems(lookup, fields) ==>
      exists i :: 0 <= i < |lookup| && lookup[i].0 !in fields && s == Interpolate(lookup[i].1) + " AS " + lookup[i].0
    ensures forall i :: 0 <= i < |lookup| && lookup[i].0 !in fields ==>
      Interpolate(lookup[i].1) + " AS " + lookup[i].0 in ExtraItems(lookup, fields)
  {
    if lookup != [] {
      var init := lookup[..|lookup| - 1];
      ExtraItemsExactly(init, fields);
      forall i | 0 <= i < |init| ensures init[i] == lookup[i] { }
    }
  }

  /**
   * The SELECT list starts with one `fqn AS field` item per column, in order;
   * it is `<table>.id` alone when there are no columns and no lookup keys,
   * and otherwise the column items followed by the extra lookup items.
   */
  lemma SelectShape(tableName: string, cols: seq<ColumnDef>, lookup: FieldLookup)
    ensures forall i :: 0 <= i < |cols| ==>
      SelectItems(tableName, cols, lookup)[i] == FieldToFqn(cols[i].field, lookup) + " AS " + cols[i].field
    ensures cols == [] && lookup == [] ==> SelectItems(tableName, cols, lookup) == [tableName + ".id"]
    ensures cols != [] || lookup != [] ==>
      SelectItems(tableName, cols, lookup) == ColumnItems(cols, lookup) + ExtraItems(lookup, ColumnFields(cols))
  {
    forall i | 0 <= i < |cols|
      ensures SelectItems(tableName, cols, lookup)[i] == FieldToFqn(cols[i].field, lookup) + " AS " + cols[i].field
    {
      ColumnItemAt(cols, lookup, i);
    }
    if cols == [] {
      assert ColumnFields(cols) == [];
      if lookup != [] {
        ExtraItemsExactly(lookup, []);
        assert Interpolate(lookup[0].1) + " AS " + lookup[0].0 in ExtraItems(lookup, []);
      }
    }
  }

  // ----- process_where -----

  function WhereClause(c: ColumnDef, q: string, lookup: FieldLookup, useAlias: bool): string {
    "lower(" + (if useAlias then c.field else FieldToFqn(c.field, lookup)) + ") LIKE lower('%" + q + "%')"
  }

  /** One LIKE clause per column whose `traversed_by_q` is true, in column order. */
  function WhereItems(cols: seq<ColumnDef>, q: string, lookup: FieldLookup, useAlias: bool): seq<string> {
    if cols == [] then []
    else
      var c := cols[|cols| - 1];
      WhereItems(cols[..|cols| - 1], q, lookup, useAlias) + (if c.traversedByQ then [WhereClause(c, q, lookup, useAlias)] else [])
  }

  /** `process_where`; a nil `q` is passed as "" (its interpolation). */
  method ProcessWhere(cols: seq<ColumnDef>, q: string, lookup: FieldLookup, useAlias: bool) returns (r: string)
    ensures r == JoinWith(WhereItems(cols, q, lookup, useAlias), " OR ")
  {
    var acc: seq<string> := [];
    var i := 0;
    while i < |cols|
      invariant 0 <= i <= |cols|
      invariant acc == WhereItems(cols[..i], q, lookup, useAlias)
    {
      assert cols[..i + 1][..i] == cols[..i];
      if cols[i].traversedByQ {
        acc := acc + [WhereClause(cols[i], q, lookup, useAlias)];
      }
      i := i + 1;
    }
    assert cols[..|cols|] == cols;
    r := JoinWith(acc, " OR ");
  }

  /** The quick search has a clause for exactly the flagged columns, and nothing else. */
  lemma {:induction false} WhereItemsExactly(cols: seq<ColumnDef>, q: string, lookup: FieldLookup, useAlias: bool)
    ensures forall s :: s in WhereItems(cols, q, lookup, useAlias) ==>
      exists i :: 0 <= i < |cols| && cols[i].traversedByQ && s == WhereClause(cols[i], q, lookup, useAlias)
    ensures forall i :: 0 <= i < |cols| && cols[i].traversedByQ ==>
      WhereClause(cols[i], q, lookup, useAlias) in WhereItems(cols, q, lookup, useAlias)
  {
    if cols != [] {
      var init := cols[..|cols| - 1];
      WhereItemsExactly(init, q, lookup, useAlias);
      forall i | 0 <= i < |init| ensures init[i] == cols[i] { }
    }
  }

  /** No flagged column: the quick search WHERE is the empty string. */
  lemma {:induction false} NoFlaggedColumns(cols: seq<ColumnDef>, q: string, lookup: FieldLookup, useAlias: bool)
    requires forall i :: 0 <= i < |cols| ==> !cols[i].traversedByQ
    ensures WhereItems(cols, q, lookup, useAlias) == []
  {
    if cols != [] {
      NoFlaggedColumns(cols[..|cols| - 1], q, lookup, useAlias);
    }
  }

  // ----- process_advanced_search_query_where -----

  /** A filter value as decoded from the grid's JSON. */
  datatype FilterValue = FStr(s: string) | FInt(i: int) | FBool(b: bool) | FList(items: seq<string>) | FNil

  /** `present?`. */
  predicate Present(v: FilterValue) {
    match v
    case FStr(s) => !IsBlank(s)
    case FInt(_) => true
    case FBool(b) => b
    case FList(items) => items != []
    case FNil => false
  }

  /** `"#{v}"`; an acc interpolates as its `inspect`, here without escaping. */
  function Render(v: FilterValue): string {
    match v
    case FStr(s) => s
    case FInt(i) => IntToString(i)
    case FBool(b) => if b then "true" else "false"
    case FList(items) => "[" + JoinWith(Quoted(items), ", ") + "]"
    case FNil => ""
  }

  function Quoted(items: seq<string>): (r: seq<string>)
    ensures |r| == |items|
  {
    seq(|items|, i requires 0 <= i < |items| => "\"" + items[i] + "\"")
  }

  /** `k.split('_')`, then `pop` for the operator and `join('_')` for the field; the operator is nil when the split is empty. */
  function SplitKey(k: string): (string, Option<string>) {
    var parts := Split(k, '_');
    if parts == [] then ("", None)
    else (JoinWith(parts[..|parts| - 1], "_"), Some(parts[|parts| - 1]))
  }

  /** `column_def_fields.include?(field)`: a column field or a lookup key. */
  predicate Searchable(field: string, cols: seq<ColumnDef>, lookup: FieldLookup) {
    field in ColumnFields(cols) || HasKey(lookup, field)
  }

  const COMPARISONS: map<string, string> := map["eq" := "=", "lt" := "<", "lteq" := "<=", "gt" := ">", "gteq" := ">="]
  const DATE_COMPARISONS: map<string, string> :=
    map["eqdate" := "=", "ltdate" := "<", "lteqdate" := "<=", "gtdate" := ">", "gteqdate" := ">="]
  const DATETIME_COMPARISONS: map<string, string> :=
    map["eqdatetime" := "=", "ltdatetime" := "<", "lteqdatetime" := "<=", "gtdatetime" := ">", "gteqdatetime" := ">="]

  /** `[1, true, 'true', 'TRUE', 'True'].include?(v)`. */
  predicate MeansNull(v: FilterValue) {
    v == FInt(1) || v == FBool(true) || v == FStr("true") || v == FStr("TRUE") || v == FStr("True")
  }

  /** `[0, false, 'false', 'FALSE', 'False'].include?(v)`. */
  predicate MeansNotNull(v: FilterValue) {
    v == FInt(0) || v == FBool(false) || v == FStr("false") || v == FStr("FALSE") || v == FStr("False")
  }

  /**
   * The clause one filter entry adds, by operator, or none. `parseDate`
   * stands for `DateTime.parse(v).in_time_zone.to_date` rendered as text,
   * None when it raises.
   */
  function FilterClause(f: string, expr: string, v: FilterValue, parseDate: FilterValue -> Option<string>)
    : Result<Option<string>, GridError>
  {
    if expr == "cont" then Ok(Some("lower(" + f + ") LIKE lower('%" + Render(v) + "%')"))
    else if expr == "match" then Ok(Some("lower(" + f + ") LIKE lower('" + Render(v) + "')"))
    else if expr in COMPARISONS then Ok(Some(f + " " + COMPARISONS[expr] + " " + Render(v)))
    else if expr in DATE_COMPARISONS then
      match parseDate(v)
      case None => Err(DateParseError)
      case Some(d) => Ok(Some("DATE(" + f + ") " + DATE_COMPARISONS[expr] + " '" + d + "'"))
    else if expr in DATETIME_COMPARISONS then
      Ok(Some("(EXTRACT(EPOCH FROM " + f + ") * 1000) " + DATETIME_COMPARISONS[expr] + " " + Render(v)))
    else if expr == "isnull" then
      if MeansNull(v) then Ok(Some(f + " IS NULL"))
      else if MeansNotNull(v) then Ok(Some(f + " IS NOT NULL"))
      else Ok(None)
    else if expr == "in" then
      match v
      case FList(items) => Ok(Some(f + " IN ('" + JoinWith(items, "', '") + "')"))
      case _ => Err(NoMethodError("join"))
    else Ok(None)
  }

  /** What one `(k, v)` entry of `filter_params` contributes. */
  function EntryClause(k: string, v: FilterValue, cols: seq<ColumnDef>, lookup: FieldLookup,
                       parseDate: FilterValue -> Option<string>): Result<Option<string>, GridError>
  {
    var (field, expr) := SplitKey(k);
    if Searchable(field, cols, lookup) && Present(v) then
      match expr
      case None => Ok(None)
      case Some(e) => FilterClause(FieldToFqn(field, lookup), e, v, parseDate)
    else Ok(None)
  }

  /** The clauses of the entries in order; the first raising entry stops everything. */
  function AdvancedClauses(entries: seq<(string, FilterValue)>, cols: seq<ColumnDef>, lookup: FieldLookup,
                           parseDate: FilterValue -> Option<string>): Result<seq<string>, GridError>
  {
    if entries == [] then Ok([])
    else
      var earlier :- AdvancedClauses(entries[..|entries| - 1], cols, lookup, parseDate);
      var (k, v) := entries[|entries| - 1];
      var clause :- EntryClause(k, v, cols, lookup, parseDate);
      Ok(earlier + ClauseList(clause))
  }

  function ClauseList(clause: Option<string>): seq<string> {
    match clause case Some(c) => [c] case None => []
  }

  /** One more entry: the prefix's clauses, then the entry's own, unless either raises. */
  lemma AdvancedStep(entries: seq<(string, FilterValue)>, n: nat, cols: seq<ColumnDef>, lookup: FieldLookup,
                     parseDate: FilterValue -> Option<string>)
    requires n < |entries|
    ensures AdvancedClauses(entries[..n + 1], cols, lookup, parseDate) ==
      match AdvancedClauses(entries[..n], cols, lookup, parseDate)
      case Err(e) => Err(e)
      case Ok(earlier) =>
        match EntryClause(entries[n].0, entries[n].1, cols, lookup, parseDate)
        case Err(e) => Err(e)
        case Ok(clause) => Ok(earlier + ClauseList(clause))
  {
    var p := entries[..n + 1];
    assert p[..|p| - 1] == entries[..n];
    assert p[|p| - 1] == entries[n];
  }

  function JoinedAnd(r: Result<seq<string>, GridError>): Result<string, GridError> {
    match r case Ok(clauses) => Ok(JoinWith(clauses, " AND ")) case Err(e) => Err(e)
  }

  /** `process_advanced_search_query_where` over the entries of a non-nil `filter_params`. */
  method ProcessAdvancedSearch(cols: seq<ColumnDef>, entries: seq<(string, FilterValue)>, lookup: FieldLookup,
                               parseDate: FilterValue -> Option<string>) returns (r: Result<string, GridError>)
    ensures r == JoinedAnd(AdvancedClauses(entries, cols, lookup, parseDate))
  {
    var acc: seq<string> := [];
    var i := 0;
    while i < |entries|
      invariant 0 <= i <= |entries|
      invariant AdvancedClauses(entries[..i], cols, lookup, parseDate) == Ok(acc)
    {
      AdvancedStep(entries, i, cols, lookup, parseDate);
      var clause := EntryClause(entries[i].0, entries[i].1, cols, lookup, parseDate);
      if clause.Err? {
        AdvancedErrorSticks(entries, i + 1, cols, lookup, parseDate);
        return Err(clause.error);
      }
      acc := acc + ClauseList(clause.value);
      i := i + 1;
    }
    assert entries[..|entries|] == entries;
    r := Ok(JoinWith(acc, " AND "));
  }

  /** Once a prefix of the entries raises, the whole list raises the same error. */
  lemma {:induction false} AdvancedErrorSticks(entries: seq<(string, FilterValue)>, n: nat, cols: seq<ColumnDef>,
                                               lookup: FieldLookup, parseDate: FilterValue -> Option<string>)
    requires n <= |entries| && AdvancedClauses(entries[..n], cols, lookup, parseDate).Err?
    ensures AdvancedClauses(entries, cols, lookup, parseDate) == AdvancedClauses(entries[..n], cols, lookup, parseDate)
    decreases |entries| - n
  {
    if n < |entries| {
      var longer := entries[..n + 1];
      assert longer[..n] == entries[..n];
      AdvancedErrorSticks(entries, n + 1, cols, lookup, parseDate);
    } else {
      assert entries[..n] == entries;
    }
  }

  /** A key built as `field_expr` splits back into that field and operator, whatever underscores the field holds. */
  lemma KeySplitRoundTrip(field: string, expr: string)
    requires expr != "" && forall j :: 0 <= j < |expr| ==> expr[j] != '_'
    ensures SplitKey(field + "_" + expr) == (field, Some(expr))
  {
    FieldsAroundSeparator(field, '_', expr);
    FieldsWithoutSeparator(expr, '_');
    var parts := Fields(field, '_') + [expr];
    assert Fields(field + "_" + expr, '_') == parts;
    assert Split(field + "_" + expr, '_') == parts;
    assert parts[..|parts| - 1] == Fields(field, '_');
    FieldsJoin(field, '_');
  }

  /** An entry whose field is unknown or whose value is blank adds nothing. */
  lemma SkippedEntry(entries: seq<(string, FilterValue)>, k: string, v: FilterValue, cols: seq<ColumnDef>,
                     lookup: FieldLookup, parseDate: FilterValue -> Option<string>)
    requires !Searchable(SplitKey(k).0, cols, lookup) || !Present(v)
    ensures AdvancedClauses(entries + [(k, v)], cols, lookup, parseDate) == AdvancedClauses(entries, cols, lookup, parseDate)
  {
    var all := entries + [(k, v)];
    assert all[..|all| - 1] == entries;
    assert all[|all| - 1] == (k, v);
    assert EntryClause(k, v, cols, lookup, parseDate) == Ok(None);
    match AdvancedClauses(entries, cols, lookup, parseDate)
    case Err(_) =>
    case Ok(earlier) => assert earlier + ClauseList(None) == earlier;
  }

  /** `isnull` gives IS NULL, IS NOT NULL or nothing, and never raises. */
  lemma IsNullClause(f: string, v: FilterValue, parseDate: FilterValue -> Option<string>)
    ensures FilterClause(f, "isnull", v, parseDate) == Ok(Some(f + " IS NULL")) <==> MeansNull(v)
    ensures FilterClause(f, "isnull", v, parseDate) == Ok(Some(f + " IS NOT NULL")) <==> MeansNotNull(v)
    ensures FilterClause(f, "isnull", v, parseDate) == Ok(None) <==> !MeansNull(v) && !MeansNotNull(v)
  {
    assert "isnull" !in COMPARISONS && "isnull" !in DATE_COMPARISONS && "isnull" !in DATETIME_COMPARISONS;
    assert f + " IS NULL" != f + " IS NOT NULL" by {
      assert (f + " IS NULL")[|f| + 5] == 'U';
      assert (f + " IS NOT NULL")[|f| + 5] == 'O';
    }
  }

  /** `in` lists the acc's values quoted and comma-separated; any other value has no `join` and raises. */
  lemma InClause(f: string, v: FilterValue, parseDate: FilterValue -> Option<string>)
    ensures v.FList? ==> FilterClause(f, "in", v, parseDate) == Ok(Some(f + " IN ('" + JoinWith(v.items, "', '") + "')"))
    ensures !v.FList? <==> FilterClause(f, "in", v, parseDate) == Err(NoMethodError("join"))
  {
    assert "in" !in COMPARISONS && "in" !in DATE_COMPARISONS && "in" !in DATETIME_COMPARISONS;
  }

  /** The plain comparisons put the value in unquoted. */
  lemma ComparisonClause(f: string, expr: string, v: FilterValue, parseDate: FilterValue -> Option<string>)
    requires expr in COMPARISONS
    ensures FilterClause(f, expr, v, parseDate) == Ok(Some(f + " " + COMPARISONS[expr] + " " + Render(v)))
  {
  }

  /** An operator suffix the source does not know adds nothing. */
  lemma UnknownOperator(f: string, expr: string, v: FilterValue, parseDate: FilterValue -> Option<string>)
    requires expr !in {"cont", "match", "isnull", "in"}
    requires expr !in COMPARISONS && expr !in DATE_COMPARISONS && expr !in DATETIME_COMPARISONS
    ensures FilterClause(f, expr, v, parseDate) == Ok(None)
  {
  }

  // ----- process_order -----

  /** `sort_info`: its `fields` and `directions` lists, either possibly missing. */
  datatype SortInfo = SortInfo(fields: Option<seq<string>>, directions: Option<seq<string>>)

  function OrEmpty(xs: Option<seq<string>>): seq<string> {
    match xs case Some(s) => s case None => []
  }

  function OrderItems(fields: seq<string>, directions: seq<string>, lookup: FieldLookup): (r: seq<string>)
    requires |fields| == |directions|
    ensures |r| == |fields|
  {
    seq(|fields|, i requires 0 <= i < |fields| => FieldToFqn(fields[i], lookup) + " " + directions[i])
  }

  const ORDER_MISMATCH: string := "fields count not same as direction"

  /** `process_order`. */
  method ProcessOrder(info: SortInfo, lookup: FieldLookup) returns (r: Result<string, GridError>)
    ensures |OrEmpty(info.fields)| != |OrEmpty(info.directions)| <==> r == Err(RuntimeError(ORDER_MISMATCH))
    ensures r.Ok? ==> r.value == JoinWith(OrderItems(OrEmpty(info.fields), OrEmpty(info.directions), lookup), ",")
  {
    var fields := OrEmpty(info.fields);
    var directions := OrEmpty(info.directions);
    if |fields| != |directions| {
      return Err(RuntimeError(ORDER_MISMATCH));
    }
    var acc: seq<string> := [];
    var i := 0;
    while i < |fields|
      invariant 0 <= i <= |fields|
      invariant acc == OrderItems(fields, directions, lookup)[..i]
    {
      acc := acc + [FieldToFqn(fields[i], lookup) + " " + directions[i]];
      i := i + 1;
    }
    assert OrderItems(fields, directions, lookup)[..|fields|] == OrderItems(fields, directions, lookup);
    r := Ok(JoinWith(acc, ","));
  }

  /** The default sort info orders by `created_at DESC` when the lookup does not rename `created_at`. */
  lemma DefaultOrder(lookup: FieldLookup)
    requires Get(lookup, "created_at").None?
    ensures JoinWith(OrderItems(DEFAULT_SORT_FIELDS, DEFAULT_SORT_DIRECTIONS, lookup), ",") == "created_at DESC"
  {
    assert FieldToFqn(DEFAULT_SORT_FIELDS[0], lookup) == "created_at";
    assert "created_at" + " " + "DESC" == "created_at DESC";
    assert OrderItems(DEFAULT_SORT_FIELDS, DEFAULT_SORT_DIRECTIONS, lookup) == ["created_at DESC"];
  }

  // ----- process_grid option checks -----

  /** An option as it arrives in `opts`: a string from the request, an integer, a boolean or nil. */
  datatype Param = PStr(s: string) | PInt(i: int) | PBool(b: bool) | PNil

  /** `opts[key] || default`: nil and false fall back to the default. */
  function OrDefault(p: Param, default: Param): Param {
    if p == PNil || p == PBool(false) then default else p
  }

  /** `to_i` on the option (true.to_i is 1 by the boolean core extension, nil.to_i is 0). */
  function ParamToI(p: Param): int {
    match p
    case PStr(s) => ToI(s)
    case PInt(i) => i
    case PBool(b) => BooleanTypecast.BoolToI(b)
    case PNil => 0
  }

  /** `%w[FALSE False false 0 NO No no].include?(enable_paging)`: only these strings switch paging off. */
  predicate PagingDisabled(enablePaging: Param) {
    var e := OrDefault(enablePaging, PBool(true));
    e.PStr? && e.s in DISABLING_WORDS
  }

  datatype Paging = Paging(page: int, perPage: int)

  const INVALID_PER_PAGE: string := "Invalid per_page parameter. Valid values are [10, 20, 25, 50, 100, 200]"

  /**
   * The page and page size `process_grid` paginates with; `total` is the
   * number of matching records (`objects.size`), which replaces the page
   * size when paging is off.
   */
  function GridPaging(page: Param, perPage: Param, enablePaging: Param, total: nat): (r: Result<Paging, GridError>)
    ensures r.Err? <==> ParamToI(OrDefault(perPage, PInt(DEFAULT_PER_PAGE))) !in VALID_PER_PAGES
    ensures r.Err? ==> r.error == RuntimeError(INVALID_PER_PAGE)
    ensures r.Ok? && PagingDisabled(enablePaging) ==> r.value == Paging(1, total)
    ensures r.Ok? && !PagingDisabled(enablePaging) ==>
      r.value == Paging(ParamToI(OrDefault(page, PInt(DEFAULT_PAGE))), ParamToI(OrDefault(perPage, PInt(DEFAULT_PER_PAGE))))
  {
    var perPageValue := ParamToI(OrDefault(perPage, PInt(DEFAULT_PER_PAGE)));
    if perPageValue !in VALID_PER_PAGES then Err(RuntimeError(INVALID_PER_PAGE))
    else if PagingDisabled(enablePaging) then Ok(Paging(1, total))
    else Ok(Paging(ParamToI(OrDefault(page, PInt(DEFAULT_PAGE))), perPageValue))
  }

  /** With no options: page 1 of 10 records. */
  lemma DefaultPaging(total: nat)
    ensures GridPaging(PNil, PNil, PNil, total) == Ok(Paging(1, 10))
  {
  }

  /** A boolean false for `enable_paging` falls back to the default true: paging stays on. */
  lemma BooleanFalseKeepsPaging(page: Param, perPage: Param, total: nat)
    requires ParamToI(OrDefault(perPage, PInt(DEFAULT_PER_PAGE))) in VALID_PER_PAGES
    ensures GridPaging(page, perPage, PBool(false), total).Ok?
    ensures GridPaging(page, perPage, PBool(false), total).value.perPage == ParamToI(OrDefault(perPage, PInt(DEFAULT_PER_PAGE)))
  {
  }

  /** `per_page: true` reads as 1 through `true.to_i` and is refused. */
  lemma TruePerPageRefused(page: Param, enablePaging: Param, total: nat)
    ensures GridPaging(page, PBool(true), enablePaging, total) == Err(RuntimeError(INVALID_PER_PAGE))
  {
  }

  /** `per_page: "2_0"` reads as 20 through `String#to_i`, which skips the underscore, and is accepted. */
  lemma UnderscoredPerPageAccepted(page: Param, perPage: string, total: nat)
    requires perPage == "2_0" && page == PNil
    ensures GridPaging(page, PStr(perPage), PNil, total) == Ok(Paging(1, 20))
  {
    assert perPage[0] == '2' && perPage[1] == '_' && perPage[2] == '0' && |perPage| == 3;
    assert RubyText.SkipSpaces(perPage, 0) == 0;
    assert RubyText.DigitsValue(perPage, 3, 20) == 20;
    assert RubyText.DigitsValue(perPage, 1, 2) == RubyText.DigitsValue(perPage, 2, 2) == RubyText.DigitsValue(perPage, 3, 20);
  }

  /** A page size outside the list is refused even when paging is off. */
  lemma InvalidPerPageRefusedWithoutPaging(page: Param, total: nat)
    ensures GridPaging(page, PInt(15), PStr("no"), total).Err?
  {
  }

  /** The WHERE `process_grid` applies: advanced search when `filter_params` is given, else the quick search. */
  method ProcessGridWhere(cols: seq<ColumnDef>, q: string, filterParams: Option<seq<(string, FilterValue)>>,
                          lookup: FieldLookup, parseDate: FilterValue -> Option<string>) returns (r: Result<string, GridError>)
    ensures filterParams.Some? ==> r == JoinedAnd(AdvancedClauses(filterParams.value, cols, lookup, parseDate))
    ensures filterParams.None? ==> r == Ok(JoinWith(WhereItems(cols, q, lookup, false), " OR "))
  {
    if filterParams.Some? {
      r := ProcessAdvancedSearch(cols, filterParams.value, lookup, parseDate);
    } else {
      var w := ProcessWhere(cols, q, lookup, false);
      r := Ok(w);
    }
  }
}
