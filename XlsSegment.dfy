/**
 * `XlsSegment`: a block of spreadsheet rows with a position, margins and a
 * "linked" flag, configured through setter options and filled from a
 * processed grid (one header row, then one row per record).
 */
module XlsSegment {
  import opened Wrappers
  import opened RubyText
  import XlsStyle

  datatype Margin = Margin(top: int, right: int, bottom: int, left: int)

  /**
   * One cell of a data row: a hash with a value, classes, a style and optional
   * spans, or a bare value written as it is.
   */
  datatype Entry =
    | HashEntry(value: Option<string>, classes: XlsStyle.Classes, style: Option<XlsStyle.Style>, colspan: Option<int>, rowspan: Option<int>)
    | Bare(value: Option<string>)

  /** One key of the options hash given to `XlsSegment.new`; a key with no setter is `NoSetter`. */
  datatype Opt =
    | SetX(x: Option<int>)
    | SetY(y: Option<int>)
    | SetFloating(floating: string)
    | SetMargin(margin: Margin)
    | SetData(data: seq<seq<Entry>>)
    | SetLinked(linked: bool)
    | NoSetter(key: string)

  /** The configurable state of a segment. */
  datatype Settings = Settings(x: Option<int>, y: Option<int>, floating: string, margin: Margin, data: seq<seq<Entry>>, linked: bool)

  /** Floating `:left`, zero margins, no data, linked, and no position yet. */
  const DEFAULTS := Settings(None, None, "left", Margin(0, 0, 0, 0), [], true)

  /** The effect of one option's setter. */
  function Apply(s: Settings, o: Opt): Settings {
    match o
    case SetX(v) => s.(x := v)
    case SetY(v) => s.(y := v)
    case SetFloating(v) => s.(floating := v)
    case SetMargin(v) => s.(margin := v)
    case SetData(v) => s.(data := v)
    case SetLinked(v) => s.(linked := v)
    case NoSetter(_) => s
  }

  /** The options applied in hash order. */
  function Configure(s: Settings, opts: seq<Opt>): Settings
    decreases |opts|
  {
    if opts == [] then s else Configure(Apply(s, opts[0]), opts[1..])
  }

  /** A column definition as `import_from_processed_grid` reads it; the field is given. */
  datatype ColumnDef = ColumnDef(field: string, displayName: Option<string>, style: Option<XlsStyle.Style>, classes: XlsStyle.Classes)

  /** A record of the processed grid: its attribute values by name. */
  type Record = map<string, string>

  /** The field name without its leading underscores. */
  function Unprefixed(field: string): (r: string)
    ensures |r| <= |field| && r == field[|field| - |r|..]
    ensures forall i :: 0 <= i < |field| - |r| ==> field[i] == '_'
    ensures r == [] || r[0] != '_'
    decreases |field|
  {
    if field != [] && field[0] == '_' then Unprefixed(field[1..]) else field
  }

  /** A character of a humanised name: `_` becomes a space and a capital is downcased. */
  function HumanChar(c: char): char {
    if c == '_' then ' ' else DowncaseChar(c)
  }

  /**
   * `String#humanize` for a field name, as ActiveSupport 4.2 to 5.2 define it
   * with no inflection rules or acronyms registered: leading underscores and
   * a trailing `_id` are dropped, underscores become spaces, letters are
   * downcased and the first character is upcased.
   */
  function Humanize(field: string): (r: string)
    ensures |r| == |Stem(Unprefixed(field))|
    ensures |r| > 0 ==> Stem(Unprefixed(field))[0] != '_' && r[0] == UpcaseChar(Stem(Unprefixed(field))[0])
    ensures forall i :: 0 < i < |r| ==> r[i] == HumanChar(Stem(Unprefixed(field))[i])
    ensures forall i :: 0 <= i < |r| ==> r[i] != '_'
  {
    var stem := Stem(Unprefixed(field));
    var words := HumanWords(stem);
    if words == "" then ""
    else
      assert stem[0] != '_' && UpcaseChar(stem[0]) != '_';
      [UpcaseChar(stem[0])] + words[1..]
  }

  /** `tr('_', ' ')` followed by `downcase`. */
  function HumanWords(stem: string): (r: string)
    ensures |r| == |stem| && forall i :: 0 <= i < |stem| ==> r[i] == HumanChar(stem[i]) && r[i] != '_'
  {
    seq(|stem|, i requires 0 <= i < |stem| => HumanChar(stem[i]))
  }

  /** The field name without a trailing `_id`. */
  function Stem(field: string): (r: string)
    ensures |field| >= 3 && field[|field| - 3..] == "_id" ==> r + "_id" == field
    ensures !(|field| >= 3 && field[|field| - 3..] == "_id") ==> r == field
    ensures r != [] ==> r[0] == field[0]
  {
    if |field| >= 3 && field[|field| - 3..] == "_id" then field[..|field| - 3] else field
  }

  /** Header text: the display name when given (even if empty), else the humanised field. */
  function Title(d: ColumnDef): string {
    if d.displayName.Some? then d.displayName.value else Humanize(d.field)
  }

  /** The header row: one `table_heading` cell per column definition. */
  function HeaderRow(defs: seq<ColumnDef>): (r: seq<Entry>)
    ensures |r| == |defs|
    ensures forall i :: 0 <= i < |defs| ==> r[i] == HashEntry(Some(Title(defs[i])), XlsStyle.Text("table_heading"), None, None, None)
  {
    seq(|defs|, i requires 0 <= i < |defs| => HashEntry(Some(Title(defs[i])), XlsStyle.Text("table_heading"), None, None, None))
  }

  /** A record's row: per column definition, the record's value for the field with that column's style and classes. */
  function DataRow(entry: Record, defs: seq<ColumnDef>): (r: seq<Entry>)
    ensures |r| == |defs|
    ensures forall i :: 0 <= i < |defs| ==>
      r[i] == HashEntry(if defs[i].field in entry then Some(entry[defs[i].field]) else None, defs[i].classes, defs[i].style, None, None)
  {
    seq(|defs|, i requires 0 <= i < |defs| =>
      HashEntry(if defs[i].field in entry then Some(entry[defs[i].field]) else None, defs[i].classes, defs[i].style, None, None))
  }

  class Segment {
    var x: Option<int>
    var y: Option<int>
    var floating: string
    var margin: Margin
    var data: seq<seq<Entry>>
    var linked: bool

    function State(): Settings
      reads this
    {
      Settings(x, y, floating, margin, data, linked)
    }

    /** `XlsSegment.new(opts)`: the defaults, then each option that has a setter. */
    constructor(opts: seq<Opt>)
      ensures State() == Configure(DEFAULTS, opts)
    {
      x, y, floating, margin, data, linked := None, None, "left", Margin(0, 0, 0, 0), [], true;
      new;
      var i := 0;
      while i < |opts|
        invariant 0 <= i <= |opts|
        invariant Configure(DEFAULTS, opts) == Configure(State(), opts[i..])
      {
        assert opts[i..][0] == opts[i] && opts[i..][1..] == opts[i + 1..];
        Set(opts[i]);
        i := i + 1;
      }
    }

    /** The setter an option names, if any. */
    method Set(o: Opt)
      modifies this
      ensures State() == Apply(old(State()), o)
    {
      match o {
        case SetX(v) => x := v;
        case SetY(v) => y := v;
        case SetFloating(v) => floating := v;
        case SetMargin(v) => margin := v;
        case SetData(v) => data := v;
        case SetLinked(v) => linked := v;
        case NoSetter(_) =>
      }
    }

    /**
     * `import_from_processed_grid`: the data is replaced by the header row
     * followed by one row per record, in the order the grid yields them.
     */
    method ImportFromProcessedGrid(grid: seq<Record>, defs: seq<ColumnDef>)
      modifies this
      ensures |data| == 1 + |grid|
      ensures data[0] == HeaderRow(defs)
      ensures forall i :: 0 <= i < |grid| ==> data[i + 1] == DataRow(grid[i], defs)
      ensures State() == old(State()).(data := data)
    {
      data := [];
      data := data + [HeaderRow(defs)];
      var i := 0;
      while i < |grid|
        invariant 0 <= i <= |grid|
        invariant |data| == 1 + i && data[0] == HeaderRow(defs)
        invariant forall j :: 0 <= j < i ==> data[j + 1] == DataRow(grid[j], defs)
        invariant State() == old(State()).(data := data)
      {
        data := data + [DataRow(grid[i], defs)];
        i := i + 1;
      }
    }
  }

  // ----- properties -----

  /** Options with no setter change nothing. */
  lemma {:induction false} NoSetterIgnored(s: Settings, opts: seq<Opt>)
    requires forall i :: 0 <= i < |opts| ==> opts[i].NoSetter?
    ensures Configure(s, opts) == s
    decreases |opts|
  {
    if opts != [] {
      NoSetterIgnored(s, opts[1..]);
    }
  }

  /** Options apply one after another, so a later option for the same key wins. */
  lemma {:induction false} ConfigureAppend(s: Settings, opts: seq<Opt>, more: seq<Opt>)
    ensures Configure(s, opts + more) == Configure(Configure(s, opts), more)
    decreases |opts|
  {
    if opts == [] {
      assert opts + more == more;
    } else {
      assert (opts + more)[0] == opts[0] && (opts + more)[1..] == opts[1..] + more;
      ConfigureAppend(Apply(s, opts[0]), opts[1..], more);
    }
  }

  /** Each setter changes its own field and nothing else. */
  lemma LastLinkedWins(s: Settings, opts: seq<Opt>, b: bool)
    ensures Configure(s, opts + [SetLinked(b)]).linked == b
    ensures Configure(s, opts + [SetLinked(b)]) == Configure(s, opts).(linked := b)
  {
    ConfigureAppend(s, opts, [SetLinked(b)]);
  }

  /** Every header cell resolves to the bold `table_heading` style, whatever Object defines. */
  lemma HeaderIsBold(defs: seq<ColumnDef>, globals: XlsStyle.Globals)
    ensures forall i :: 0 <= i < |defs| ==>
      XlsStyle.GetClassStyle(HeaderRow(defs)[i].classes, globals) == Ok(XlsStyle.TABLE_HEADING)
  {
    XlsStyle.TableHeadingStyle(globals);
  }

  /** Humanising drops a trailing `_id` and keeps the length of the rest. */
  lemma HumanizeDropsId(stem: string)
    requires stem != "" && stem[0] != '_'
    ensures |Humanize(stem + "_id")| == |stem|
    ensures Humanize(stem + "_id")[0] == UpcaseChar(stem[0])
    ensures forall i :: 0 < i < |stem| ==> Humanize(stem + "_id")[i] == HumanChar(stem[i])
  {
    assert (stem + "_id")[0] == stem[0];
    assert Unprefixed(stem + "_id") == stem + "_id";
    assert (stem + "_id")[|stem + "_id"| - 3..] == "_id";
    assert (stem + "_id")[..|stem + "_id"| - 3] == stem;
    assert Stem(Unprefixed(stem + "_id")) == stem;
  }

  /** Leading underscores do not show in the header text. */
  lemma LeadingUnderscoreDropped(field: string)
    ensures Humanize("_" + field) == Humanize(field)
  {
    assert ("_" + field)[1..] == field;
  }

  /** A lower-case word is capitalised. */
  lemma HumanizeCapitalises(c: char, rest: string)
    requires 'a' <= c <= 'z'
    requires forall i :: 0 <= i < |rest| ==> rest[i] != '_' && !('A' <= rest[i] <= 'Z')
    ensures Humanize([c] + rest) == [UpcaseChar(c)] + rest
  {
    var w := [c] + rest;
    assert Unprefixed(w) == w;
    StemWithoutUnderscore(w);
    var r := Humanize(w);
    assert |r| == |w| && r[0] == UpcaseChar(c);
    forall i | 1 <= i < |w|
      ensures r[i] == ([UpcaseChar(c)] + rest)[i]
    {
      assert w[i] == rest[i - 1];
    }
  }

  lemma StemWithoutUnderscore(w: string)
    requires forall i :: 0 <= i < |w| ==> w[i] != '_'
    ensures Stem(w) == w
  {
    if |w| >= 3 {
      assert w[|w| - 3..][0] == w[|w| - 3] != '_';
    }
  }

  /** A typical foreign-key column gets a readable heading. */
  lemma HumanizeExample(stem: string)
    requires stem == "Due_date"
    ensures Humanize("_" + (stem + "_id")) == "Due date"
  {
    LeadingUnderscoreDropped(stem + "_id");
    HumanizeDropsId(stem);
    var r := Humanize(stem + "_id");
    assert r[1] == HumanChar('u') && r[2] == HumanChar('e') && r[3] == HumanChar('_');
    assert r[4] == HumanChar('d') && r[5] == HumanChar('a') && r[6] == HumanChar('t') && r[7] == HumanChar('e');
  }
}
