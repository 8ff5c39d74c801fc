/**
 * `XlsStyle.get_class_style`: class names, given as a string, a
 * space-separated string, a symbol, nil or a (nested) array of these, are
 * flattened into one word list, upcased, kept when `const_defined?` finds a
 * constant of that name, and the constants found are merged left to right.
 *
 * `const_defined?` is called with inherit true on a class, so it also finds
 * every constant of Object (`IO`, `ENV`, `ARGV`, ...) and follows `::` paths.
 * Those constants are a parameter `globals` supplied by the caller.
 */
module XlsStyle {
  import opened Wrappers
  import opened RubyText

  /** What `get_class_style` accepts. */
  datatype Classes = Text(s: string) | Symbol(name: string) | Nil | Many(items: seq<Classes>)

  /** A format attribute value: a symbol such as `:bold`, or a string. */
  datatype Attr = Sym(name: string) | Str(text: string)

  type Style = map<string, Attr>

  const TABLE_HEADING: Style := map["weight" := Sym("bold")]
  const CENTER: Style := map["horizontal_align" := Sym("center")]
  const CURRENCY: Style := map["number_format" := Str("$#,###.##")]

  /**
   * The value of a constant, as far as `get_class_style` tells values apart.
   * A hash, or an object answering `to_hash` such as `ENV`, merges as its
   * entries. A class or module carries the constants `const_defined?` finds
   * in it (its own and its ancestors', not Object's) and `kind`, the class
   * name a TypeError message shows for it (`Class` or `Module`). Any other
   * value is `shown` in such a message by its class name, or as `nil`,
   * `true` or `false`.
   */
  datatype Constant =
    | HashValue(entries: Style)
    | Namespace(kind: string, members: map<string, Constant>)
    | OtherValue(shown: string)

  /** The constants of Object, by name. */
  type Globals = map<string, Constant>

  datatype StyleError = NameError(message: string) | TypeError(message: string)

  /** The constants `XlsStyle` defines itself; they shadow Object's constants of the same name. */
  const OWN: map<string, Constant> :=
    map["TABLE_HEADING" := HashValue(TABLE_HEADING), "CENTER" := HashValue(CENTER), "CURRENCY" := HashValue(CURRENCY)]

  /** The constants a name without a leading `::` is looked up among first. */
  function Visible(globals: Globals): map<string, Constant> {
    globals + OWN
  }

  predicate IsUpper(c: char) { 'A' <= c <= 'Z' }

  /** Characters Ruby accepts after the first one of a constant name. */
  predicate IsNameChar(c: char) {
    IsUpper(c) || 'a' <= c <= 'z' || IsDigit(c) || c == '_' || c as int >= 128
  }

  /** Names Ruby accepts as constant names: an ASCII capital, then name characters. */
  predicate IsConstName(name: string) {
    |name| > 0 && IsUpper(name[0]) && forall i :: 0 < i < |name| ==> IsNameChar(name[i])
  }

  function WrongConstantName(name: string): string {
    "wrong constant name " + name
  }

  function NotAModule(name: string): string {
    name + " does not refer to class/module"
  }

  function NoImplicitConversion(shown: string): string {
    "no implicit conversion of " + shown + " into Hash"
  }

  /** How a TypeError message shows a constant's value. */
  function Shown(c: Constant): string {
    match c
    case HashValue(_) => "Hash"
    case Namespace(kind, _) => kind
    case OtherValue(shown) => shown
  }

  /** The end of the path segment that starts at i: the next ':' or the end. */
  function SegmentEnd(s: string, i: nat): (k: nat)
    requires i <= |s|
    ensures i <= k <= |s|
    ensures forall j :: i <= j < k ==> s[j] != ':'
    ensures k < |s| ==> s[k] == ':'
    decreases |s| - i
  {
    if i == |s| || s[i] == ':' then i else SegmentEnd(s, i + 1)
  }

  /**
   * The segment-by-segment walk `const_defined?` makes over a constant path
   * within `scope`, with the value `const_get` then returns: None as soon as
   * a segment is not defined, else the last segment's value. An empty
   * segment or a lone ':' raises NameError naming the whole path, a segment
   * that is not a constant name raises NameError naming that segment, and a
   * defined segment that is not a class or module but is followed by more
   * raises TypeError.
   */
  function Walk(path: string, scope: map<string, Constant>, whole: string): Result<Option<Constant>, StyleError>
    decreases |path|
  {
    if ':' !in path then
      if path == "" then Err(NameError(WrongConstantName(whole)))
      else if !IsConstName(path) then Err(NameError(WrongConstantName(path)))
      else if path !in scope then Ok(None)
      else Ok(Some(scope[path]))
    else
      var k := SegmentEnd(path, 0);
      var segment := path[..k];
      if segment == "" || k + 2 >= |path| || path[k + 1] != ':' then Err(NameError(WrongConstantName(whole)))
      else if !IsConstName(segment) then Err(NameError(WrongConstantName(segment)))
      else if segment !in scope then Ok(None)
      else
        match scope[segment]
        case Namespace(_, members) => Walk(path[k + 2..], members, whole)
        case _ => Err(TypeError(NotAModule(whole)))
  }

  /**
   * `const_defined?(name)` on `XlsStyle`, with the value `const_get(name)`
   * gives when it is defined. A leading `::` starts the walk at Object.
   */
  function Resolve(name: string, globals: Globals): Result<Option<Constant>, StyleError> {
    if |name| > 2 && name[..2] == "::" then Walk(name[2..], globals, name)
    else Walk(name, Visible(globals), name)
  }

  /** `[classes].join(' ')`: nested arrays are joined recursively and nil is the empty string. */
  function Flatten(c: Classes): string
    decreases c, 1
  {
    match c
    case Text(s) => s
    case Symbol(name) => name
    case Nil => ""
    case Many(items) => FlattenAll(items)
  }

  function FlattenAll(items: seq<Classes>): string
    decreases items, 0
  {
    if |items| == 0 then ""
    else if |items| == 1 then Flatten(items[0])
    else Flatten(items[0]) + " " + FlattenAll(items[1..])
  }

  function UpcaseAll(names: seq<string>): (r: seq<string>)
    ensures |r| == |names| && forall i :: 0 <= i < |names| ==> r[i] == Upcase(names[i])
  {
    if names == [] then [] else [Upcase(names[0])] + UpcaseAll(names[1..])
  }

  /** The upcased class names, in order. */
  function Names(c: Classes): seq<string> {
    UpcaseAll(Words(Flatten(if c.Nil? then Text("") else c)))
  }

  /** Some name raises `e` and every name before it resolves. */
  predicate FirstError(names: seq<string>, globals: Globals, e: StyleError) {
    exists i :: 0 <= i < |names| && Resolve(names[i], globals) == Err(e) &&
                forall j :: 0 <= j < i ==> Resolve(names[j], globals).Ok?
  }

  /** Some name has the value c. */
  predicate DefinedAmong(names: seq<string>, globals: Globals, c: Constant) {
    exists i :: 0 <= i < |names| && Resolve(names[i], globals) == Ok(Some(c))
  }

  /**
   * The `select` stage, with the `const_get` calls of `inject`: the values of
   * the names that are defined, in order, or the first error `const_defined?`
   * raises.
   */
  function Select(names: seq<string>, globals: Globals): (r: Result<seq<Constant>, StyleError>)
    ensures r.Ok? <==> forall i :: 0 <= i < |names| ==> Resolve(names[i], globals).Ok?
  {
    if names == [] then Ok([])
    else
      var head := Resolve(names[0], globals);
      if head.Err? then Err(head.error)
      else
        var rest := Select(names[1..], globals);
        assert forall i :: 1 <= i < |names| ==> names[1..][i - 1] == names[i];
        if rest.Err? then rest
        else if head.value.Some? then Ok([head.value.value] + rest.value)
        else rest
  }

  /**
   * `select` raises the error of the first name that raises one; otherwise it
   * keeps at most one value per name, each the value of some name.
   */
  lemma {:induction false} SelectExactly(names: seq<string>, globals: Globals)
    ensures Select(names, globals).Err? ==> FirstError(names, globals, Select(names, globals).error)
    ensures Select(names, globals).Ok? ==>
      |Select(names, globals).value| <= |names| &&
      forall c :: c in Select(names, globals).value ==> DefinedAmong(names, globals, c)
    decreases |names|
  {
    if names != [] && Resolve(names[0], globals).Ok? {
      SelectExactly(names[1..], globals);
      assert forall i :: 1 <= i < |names| ==> names[1..][i - 1] == names[i];
      if Select(names[1..], globals).Err? {
        var e := Select(names[1..], globals).error;
        var i :| 0 <= i < |names[1..]| && Resolve(names[1..][i], globals) == Err(e) &&
                 forall j :: 0 <= j < i ==> Resolve(names[1..][j], globals).Ok?;
        assert Resolve(names[i + 1], globals) == Err(e);
      } else {
        forall c | c in Select(names, globals).value
          ensures DefinedAmong(names, globals, c)
        {
          if c !in Select(names[1..], globals).value {
            assert Resolve(names[0], globals) == Ok(Some(c));
          } else {
            var i :| 0 <= i < |names[1..]| && Resolve(names[1..][i], globals) == Ok(Some(c));
            assert Resolve(names[i + 1], globals) == Ok(Some(c));
          }
        }
      }
    }
  }

  /**
   * The `inject({}) { |memo, c| memo.merge(c) }` stage: hashes merge left to
   * right, and the first value that is not one makes `merge` raise TypeError.
   */
  function MergeAll(memo: Style, cs: seq<Constant>): Result<Style, StyleError>
    decreases |cs|
  {
    if cs == [] then Ok(memo)
    else if cs[0].HashValue? then MergeAll(memo + cs[0].entries, cs[1..])
    else Err(TypeError(NoImplicitConversion(Shown(cs[0]))))
  }

  /** Merging styles left to right, later keys overriding earlier ones. */
  function Merge(memo: Style, styles: seq<Style>): Style
    decreases |styles|
  {
    if styles == [] then memo else Merge(memo + styles[0], styles[1..])
  }

  /** The entries of the hash constants, in order. */
  function Entries(cs: seq<Constant>): seq<Style> {
    if cs == [] then [] else (if cs[0].HashValue? then [cs[0].entries] else []) + Entries(cs[1..])
  }

  predicate AllHashes(cs: seq<Constant>) {
    forall i :: 0 <= i < |cs| ==> cs[i].HashValue?
  }

  /** `XlsStyle.get_class_style(classes)`. */
  function GetClassStyle(c: Classes, globals: Globals): Result<Style, StyleError> {
    StyleOfNames(Names(c), globals)
  }

  /** The `select`, `const_get` and `inject` stages over a list of upcased names. */
  function StyleOfNames(names: seq<string>, globals: Globals): Result<Style, StyleError> {
    var cs :- Select(names, globals);
    MergeAll(map[], cs)
  }

  /** The first error of the two, else the two styles merged with `b` winning. */
  function Combine(a: Result<Style, StyleError>, b: Result<Style, StyleError>): Result<Style, StyleError> {
    if a.Err? then a else if b.Err? then b else Ok(a.value + b.value)
  }

  // ----- properties -----

  /** Nil, the empty string and the empty array have no style. */
  lemma EmptyClasses(globals: Globals)
    ensures GetClassStyle(Nil, globals) == Ok(map[])
    ensures GetClassStyle(Text(""), globals) == Ok(map[])
    ensures GetClassStyle(Many([]), globals) == Ok(map[])
  {
  }

  /**
   * A name without ':' is looked up among XlsStyle's own constants, then
   * Object's: NameError when it is not a constant name, else its value when
   * either defines it.
   */
  lemma PlainName(name: string, globals: Globals)
    requires forall j :: 0 <= j < |name| ==> name[j] != ':'
    ensures !IsConstName(name) ==> Resolve(name, globals) == Err(NameError(WrongConstantName(name)))
    ensures IsConstName(name) && name in OWN ==> Resolve(name, globals) == Ok(Some(OWN[name]))
    ensures IsConstName(name) && name !in OWN && name in globals ==> Resolve(name, globals) == Ok(Some(globals[name]))
    ensures IsConstName(name) && name !in OWN && name !in globals ==> Resolve(name, globals) == Ok(None)
  {
    if |name| > 2 {
      assert name[..2][0] == name[0] != ':';
    }
    var k := SegmentEnd(name, 0);
    assert k == |name|;
    assert name[..k] == name;
  }

  /** A path whose first segment is defined nowhere is not defined, whatever follows the `::`. */
  lemma UndefinedPathSkipped(first: string, rest: string, globals: Globals)
    requires forall j :: 0 <= j < |first| ==> first[j] != ':'
    requires IsConstName(first) && first !in Visible(globals) && rest != ""
    ensures Resolve(first + "::" + rest, globals) == Ok(None)
  {
    var p := first + "::" + rest;
    assert p[..2][0] == first[0] != ':';
    SegmentEndAt(p, first);
  }

  /** A path through a constant that is not a class or module raises TypeError. */
  lemma NonModulePathRaises(first: string, rest: string, globals: Globals)
    requires forall j :: 0 <= j < |first| ==> first[j] != ':'
    requires IsConstName(first) && first in Visible(globals) && !Visible(globals)[first].Namespace? && rest != ""
    ensures Resolve(first + "::" + rest, globals) == Err(TypeError(NotAModule(first + "::" + rest)))
  {
    var p := first + "::" + rest;
    assert p[..2][0] == first[0] != ':';
    SegmentEndAt(p, first);
  }

  lemma SegmentEndAt(p: string, first: string)
    requires forall j :: 0 <= j < |first| ==> first[j] != ':'
    requires |p| > |first| && p[..|first|] == first && p[|first|] == ':'
    ensures SegmentEnd(p, 0) == |first| && p[..SegmentEnd(p, 0)] == first
  {
    SegmentEndFrom(p, 0, |first|);
  }

  lemma {:induction false} SegmentEndFrom(p: string, i: nat, k: nat)
    requires i <= k < |p| && p[k] == ':' && forall j :: i <= j < k ==> p[j] != ':'
    ensures SegmentEnd(p, i) == k
    decreases k - i
  {
    if i < k {
      SegmentEndFrom(p, i + 1, k);
    }
  }

  /** A class name such as `a::b` is skipped, not an error, when its first segment names no constant. */
  lemma UndefinedPathIgnored(s: string, first: string, rest: string, globals: Globals)
    requires s != "" && forall j :: 0 <= j < |s| ==> !IsSpace(s[j])
    requires Upcase(s) == first + "::" + rest && rest != ""
    requires forall j :: 0 <= j < |first| ==> first[j] != ':'
    requires IsConstName(first) && first !in Visible(globals)
    ensures GetClassStyle(Text(s), globals) == Ok(map[])
  {
    NamesOfWord(s);
    UndefinedPathSkipped(first, rest, globals);
    UnknownNameIgnored(Upcase(s), [], globals);
    assert [Upcase(s)] + [] == [Upcase(s)];
  }

  /**
   * Hashes merge left to right; otherwise the first value that is not a
   * hash raises TypeError naming what it is.
   */
  lemma {:induction false} MergeAllExactly(memo: Style, cs: seq<Constant>)
    ensures AllHashes(cs) ==> MergeAll(memo, cs) == Ok(Merge(memo, Entries(cs)))
    ensures forall k :: 0 <= k < |cs| && !cs[k].HashValue? && AllHashes(cs[..k]) ==>
      MergeAll(memo, cs) == Err(TypeError(NoImplicitConversion(Shown(cs[k]))))
    decreases |cs|
  {
    if cs != [] {
      MergeAllExactly(memo + (if cs[0].HashValue? then cs[0].entries else map[]), cs[1..]);
      forall k | 0 < k < |cs| && !cs[k].HashValue? && AllHashes(cs[..k])
        ensures cs[1..][k - 1] == cs[k] && AllHashes(cs[1..][..k - 1])
      {
        assert cs[1..][..k - 1] == cs[1..k];
      }
      if AllHashes(cs) {
        assert AllHashes(cs[1..]);
        assert Entries(cs) == [cs[0].entries] + Entries(cs[1..]);
      }
    }
  }

  /** The error a merge raises does not depend on the memo, and its result is the memo overridden. */
  lemma {:induction false} MergeAllFromMemo(memo: Style, cs: seq<Constant>)
    ensures MergeAll(memo, cs) ==
      if MergeAll(map[], cs).Err? then MergeAll(map[], cs) else Ok(memo + MergeAll(map[], cs).value)
    decreases |cs|
  {
    if cs != [] && cs[0].HashValue? {
      var h := cs[0].entries;
      MergeAllFromMemo(memo + h, cs[1..]);
      MergeAllFromMemo(h, cs[1..]);
      assert map[] + h == h;
      var tail := MergeAll(map[], cs[1..]);
      if tail.Ok? {
        UnionAssociative(memo, h, tail.value);
      }
    } else if cs == [] {
      assert memo + map[] == memo;
    }
  }

  /** Merging two lists of constants is merging one after the other, stopping at a TypeError. */
  lemma {:induction false} MergeAllAppend(memo: Style, xs: seq<Constant>, ys: seq<Constant>)
    ensures MergeAll(memo, xs + ys) ==
      if MergeAll(memo, xs).Err? then MergeAll(memo, xs) else MergeAll(MergeAll(memo, xs).value, ys)
    decreases |xs|
  {
    if xs == [] {
      assert xs + ys == ys;
    } else {
      assert (xs + ys)[0] == xs[0] && (xs + ys)[1..] == xs[1..] + ys;
      if xs[0].HashValue? {
        MergeAllAppend(memo + xs[0].entries, xs[1..], ys);
      }
    }
  }

  /** Merging proceeds left to right: merging two lists is merging one after the other. */
  lemma {:induction false} MergeAppend(memo: Style, xs: seq<Style>, ys: seq<Style>)
    ensures Merge(memo, xs + ys) == Merge(Merge(memo, xs), ys)
    decreases |xs|
  {
    if xs == [] {
      assert xs + ys == ys;
    } else {
      assert (xs + ys)[0] == xs[0] && (xs + ys)[1..] == xs[1..] + ys;
      MergeAppend(memo + xs[0], xs[1..], ys);
    }
  }

  /** What was merged before is overridden, key by key, by what is merged later. */
  lemma {:induction false} MergeFromMemo(memo: Style, styles: seq<Style>)
    ensures Merge(memo, styles) == memo + Merge(map[], styles)
    decreases |styles|
  {
    if styles != [] {
      var s := styles[0];
      MergeFromMemo(memo + s, styles[1..]);
      MergeFromMemo(s, styles[1..]);
      assert map[] + s == s;
      UnionAssociative(memo, s, Merge(map[], styles[1..]));
    }
  }

  lemma UnionAssociative(a: Style, b: Style, c: Style)
    ensures (a + b) + c == a + (b + c)
  {
  }

  /** A key takes its value from the last style that has it. */
  lemma {:induction false} LaterStyleWins(memo: Style, styles: seq<Style>, i: nat, key: string)
    requires i < |styles| && key in styles[i]
    requires forall j :: i < j < |styles| ==> key !in styles[j]
    ensures key in Merge(memo, styles) && Merge(memo, styles)[key] == styles[i][key]
  {
    MergeAppend(memo, styles[..i + 1], styles[i + 1..]);
    assert styles[..i + 1] + styles[i + 1..] == styles;
    MergeAppend(memo, styles[..i], [styles[i]]);
    assert styles[..i] + [styles[i]] == styles[..i + 1];
    MergeFromMemo(Merge(memo, styles[..i + 1]), styles[i + 1..]);
    var later := styles[i + 1..];
    forall j | 0 <= j < |later|
      ensures key !in later[j]
    {
      assert later[j] == styles[i + 1 + j];
    }
    MergeKeys(later, key);
  }

  /** Keys no style has stay out of the merge. */
  lemma {:induction false} MergeKeys(styles: seq<Style>, key: string)
    requires forall j :: 0 <= j < |styles| ==> key !in styles[j]
    ensures key !in Merge(map[], styles)
    decreases |styles|
  {
    if styles != [] {
      MergeFromMemo(styles[0], styles[1..]);
      MergeKeys(styles[1..], key);
      assert map[] + styles[0] == styles[0];
    }
  }

  lemma {:induction false} SelectAppend(xs: seq<string>, ys: seq<string>, globals: Globals)
    ensures Select(xs + ys, globals) ==
      if Select(xs, globals).Err? then Select(xs, globals)
      else if Select(ys, globals).Err? then Select(ys, globals)
      else Ok(Select(xs, globals).value + Select(ys, globals).value)
  {
    if xs == [] {
      assert xs + ys == ys;
      if Select(ys, globals).Ok? {
        assert [] + Select(ys, globals).value == Select(ys, globals).value;
      }
    } else {
      var zs := xs + ys;
      assert zs[0] == xs[0] && zs[1..] == xs[1..] + ys;
      var head := Resolve(xs[0], globals);
      if head.Ok? {
        SelectAppend(xs[1..], ys, globals);
        var rest, both := Select(xs[1..], globals), Select(xs[1..] + ys, globals);
        assert Select(zs, globals) == if both.Err? then both else if head.value.Some? then Ok([head.value.value] + both.value) else both;
        assert Select(xs, globals) == if rest.Err? then rest else if head.value.Some? then Ok([head.value.value] + rest.value) else rest;
        if rest.Ok? && Select(ys, globals).Ok? && head.value.Some? {
          assert [head.value.value] + (rest.value + Select(ys, globals).value) ==
                 ([head.value.value] + rest.value) + Select(ys, globals).value;
        }
      }
    }
  }

  lemma {:induction false} UpcaseAllAppend(xs: seq<string>, ys: seq<string>)
    ensures UpcaseAll(xs + ys) == UpcaseAll(xs) + UpcaseAll(ys)
  {
  }

  /**
   * Array arguments are flattened: styling `[a, b]` raises the first error
   * the `select` stage meets in a's names, then in b's; only then are the
   * two merged in turn, the first TypeError winning and b overriding a.
   */
  lemma PairIsCombined(a: Classes, b: Classes, globals: Globals)
    ensures GetClassStyle(Many([a, b]), globals) ==
      if Select(Names(a), globals).Err? then Err(Select(Names(a), globals).error)
      else if Select(Names(b), globals).Err? then Err(Select(Names(b), globals).error)
      else Combine(GetClassStyle(a, globals), GetClassStyle(b, globals))
  {
    NamesOfPair(a, b);
    NamesAppend(Names(a), Names(b), globals);
  }

  lemma NamesOfPair(a: Classes, b: Classes)
    ensures Names(Many([a, b])) == Names(a) + Names(b)
  {
    var fa, fb := Flatten(if a.Nil? then Text("") else a), Flatten(if b.Nil? then Text("") else b);
    assert FlattenAll([a, b]) == Flatten(a) + " " + FlattenAll([b]);
    assert Flatten(Many([a, b])) == fa + [' '] + fb;
    WordsAroundBlank(fa, ' ', fb);
    UpcaseAllAppend(Words(fa), Words(fb));
  }

  lemma NamesAppend(xs: seq<string>, ys: seq<string>, globals: Globals)
    ensures StyleOfNames(xs + ys, globals) ==
      if Select(xs, globals).Err? then Err(Select(xs, globals).error)
      else if Select(ys, globals).Err? then Err(Select(ys, globals).error)
      else Combine(StyleOfNames(xs, globals), StyleOfNames(ys, globals))
  {
    SelectAppend(xs, ys, globals);
    var sa, sb := Select(xs, globals), Select(ys, globals);
    if sa.Ok? && sb.Ok? {
      MergeAllAppend(map[], sa.value, sb.value);
      var ma := MergeAll(map[], sa.value);
      if ma.Ok? {
        MergeAllFromMemo(ma.value, sb.value);
      }
    }
  }

  /** A single class name is matched whatever its ASCII case. */
  lemma CaseInsensitive(s: string, globals: Globals)
    requires forall j :: 0 <= j < |s| ==> !IsSpace(s[j])
    ensures GetClassStyle(Text(s), globals) == GetClassStyle(Text(Upcase(s)), globals)
  {
    WordsOfWord(s);
    assert forall j :: 0 <= j < |s| ==> !IsSpace(Upcase(s)[j]);
    WordsOfWord(Upcase(s));
    assert Upcase(Upcase(s)) == Upcase(s);
  }

  /** A class name that names no constant is skipped. */
  lemma UnknownClassIgnored(s: string, rest: Classes, globals: Globals)
    requires forall j :: 0 <= j < |s| ==> !IsSpace(s[j])
    requires Resolve(Upcase(s), globals) == Ok(None)
    ensures GetClassStyle(Many([Text(s), rest]), globals) == GetClassStyle(rest, globals)
  {
    NamesOfPair(Text(s), rest);
    WordsOfWord(s);
    assert s != "";
    assert Names(Text(s)) == [Upcase(s)];
    UnknownNameIgnored(Upcase(s), Names(rest), globals);
  }

  lemma UnknownNameIgnored(n: string, rest: seq<string>, globals: Globals)
    requires Resolve(n, globals) == Ok(None)
    ensures StyleOfNames([n] + rest, globals) == StyleOfNames(rest, globals)
  {
    assert ([n] + rest)[0] == n && ([n] + rest)[1..] == rest;
    assert Select([n] + rest, globals) == Select(rest, globals);
  }

  /** A name that cannot be a constant raises NameError. */
  lemma BadNameRaises(globals: Globals)
    ensures GetClassStyle(Text("a-b"), globals) == Err(NameError(WrongConstantName("A-B")))
  {
    WordsOfWord("a-b");
    assert Upcase("a-b") == "A-B";
    assert !IsConstName("A-B") by { assert !IsNameChar("A-B"[1]); }
    PlainName("A-B", globals);
  }

  /**
   * A class name that upcases to a constant of Object: a hash (or `ENV`)
   * merges as its entries, and anything else, such as the class `IO` for
   * `io`, raises TypeError.
   */
  lemma ObjectConstant(s: string, globals: Globals)
    requires forall j :: 0 <= j < |s| ==> !IsSpace(s[j]) && s[j] != ':'
    requires IsConstName(Upcase(s)) && Upcase(s) !in OWN && Upcase(s) in globals
    ensures globals[Upcase(s)].HashValue? ==> GetClassStyle(Text(s), globals) == Ok(globals[Upcase(s)].entries)
    ensures !globals[Upcase(s)].HashValue? ==>
      GetClassStyle(Text(s), globals) == Err(TypeError(NoImplicitConversion(Shown(globals[Upcase(s)]))))
  {
    NamesOfWord(s);
    PlainName(Upcase(s), globals);
    StyleOfOne(Upcase(s), globals[Upcase(s)], globals);
  }

  /** The words of a blank-free string: its upcased self. */
  lemma NamesOfWord(s: string)
    requires s != "" && forall j :: 0 <= j < |s| ==> !IsSpace(s[j])
    ensures Names(Text(s)) == [Upcase(s)] && Names(Symbol(s)) == [Upcase(s)]
  {
    WordsOfWord(s);
  }

  /** One defined name: its value merged into the empty style. */
  lemma StyleOfOne(n: string, c: Constant, globals: Globals)
    requires Resolve(n, globals) == Ok(Some(c))
    ensures c.HashValue? ==> StyleOfNames([n], globals) == Ok(c.entries)
    ensures !c.HashValue? ==> StyleOfNames([n], globals) == Err(TypeError(NoImplicitConversion(Shown(c))))
  {
    assert [n][1..] == [];
    assert Select([n][1..], globals) == Ok([]);
    assert [c] + [] == [c];
    assert Select([n], globals) == Ok([c]);
    if c.HashValue? {
      assert MergeAll(map[], [c]) == MergeAll(map[] + c.entries, []);
      assert map[] + c.entries == c.entries;
    }
  }

  lemma SingleName(s: string, entries: Style, globals: Globals)
    requires forall j :: 0 <= j < |s| ==> !IsSpace(s[j])
    requires Resolve(Upcase(s), globals) == Ok(Some(HashValue(entries)))
    ensures GetClassStyle(Text(s), globals) == Ok(entries)
    ensures GetClassStyle(Symbol(s), globals) == Ok(entries)
  {
    assert s != "";
    NamesOfWord(s);
    StyleOfOne(Upcase(s), HashValue(entries), globals);
  }

  /** A class name that upcases to one of XlsStyle's own constants gives that style, whatever Object defines. */
  lemma OwnStyle(s: string, globals: Globals)
    requires forall j :: 0 <= j < |s| ==> !IsSpace(s[j]) && s[j] != ':'
    requires IsConstName(Upcase(s)) && Upcase(s) in OWN
    ensures GetClassStyle(Text(s), globals) == Ok(OWN[Upcase(s)].entries)
    ensures GetClassStyle(Symbol(s), globals) == Ok(OWN[Upcase(s)].entries)
  {
    PlainName(Upcase(s), globals);
    SingleName(s, OWN[Upcase(s)].entries, globals);
  }

  /** `s` is written out next to the constant it upcases to. */
  lemma OwnStyleOf(s: string, n: string, globals: Globals)
    requires |s| == |n| && forall j :: 0 <= j < |s| ==> UpcaseChar(s[j]) == n[j]
    requires forall j :: 0 <= j < |s| ==> !IsSpace(s[j]) && s[j] != ':'
    requires IsConstName(n) && n in OWN
    ensures GetClassStyle(Text(s), globals) == Ok(OWN[n].entries)
    ensures GetClassStyle(Symbol(s), globals) == Ok(OWN[n].entries)
  {
    assert Upcase(s) == n;
    OwnStyle(s, globals);
  }

  /** `table_heading` letter by letter against `TABLE_HEADING`. */
  lemma TableHeadingSpelled(s: string, n: string)
    requires s == "table_heading" && n == "TABLE_HEADING"
    ensures |s| == |n| && forall j :: 0 <= j < |s| ==> UpcaseChar(s[j]) == n[j]
    ensures forall j :: 0 <= j < |s| ==> !IsSpace(s[j]) && s[j] != ':'
    ensures IsConstName(n) && n in OWN
  {
  }

  lemma TableHeadingStyle(globals: Globals)
    ensures GetClassStyle(Symbol("table_heading"), globals) == Ok(TABLE_HEADING)
    ensures GetClassStyle(Text("table_heading"), globals) == Ok(TABLE_HEADING)
  {
    TableHeadingSpelled("table_heading", "TABLE_HEADING");
    OwnStyleOf("table_heading", "TABLE_HEADING", globals);
  }

  lemma CenterStyle(globals: Globals)
    ensures GetClassStyle(Text("center"), globals) == Ok(CENTER)
  {
    assert Upcase("center") == "CENTER";
    OwnStyle("center", globals);
  }

  lemma CurrencyStyle(globals: Globals)
    ensures GetClassStyle(Text("currency"), globals) == Ok(CURRENCY)
  {
    assert Upcase("currency") == "CURRENCY";
    OwnStyle("currency", globals);
  }

  /** A space-separated string styles like the array of its two words. */
  lemma SpaceSeparated(a: string, b: string, globals: Globals)
    ensures GetClassStyle(Text(a + " " + b), globals) == GetClassStyle(Many([Text(a), Text(b)]), globals)
  {
    assert [Text(a), Text(b)][1..] == [Text(b)];
    assert Flatten(Many([Text(a), Text(b)])) == FlattenAll([Text(a), Text(b)]) == a + " " + FlattenAll([Text(b)]);
    assert FlattenAll([Text(b)]) == b;
    assert Names(Many([Text(a), Text(b)])) == Names(Text(a + " " + b));
  }
}
