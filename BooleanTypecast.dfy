/**
 * `to_bool` on strings, integers, booleans and nil, with `to_i` on booleans.
 * Ruby raises ArgumentError for values that name no boolean; here that is
 * the Err branch of a Result carrying the exception message.
 */
module BooleanTypecast {
  import opened Wrappers
  import opened RubyText

  /** The receivers the core extension adds `to_bool` to. */
  datatype Value = Text(s: string) | Integer(i: int) | Boolean(b: bool) | Nil

  const TRUE_WORDS: set<string> := {"true", "t", "yes", "y", "1"}
  const FALSE_WORDS: set<string> := {"false", "f", "no", "n", "0"}

  /**
   * `/i` compares characters by Unicode case folding. The single-character
   * folds that reach ASCII letters are those of the ASCII capitals, of the
   * long s (U+017F, to `s`) and of the Kelvin sign (U+212A, to `k`). The
   * multi-character folds (`ß` and the `ﬀ` to `ﬆ` ligatures) give `ss`, `ff`,
   * `fi`, `fl`, `ffi`, `ffl` and `st`, and none of these occurs in a true or
   * false word, so they never help a line match.
   */
  function FoldChar(c: char): char {
    if c == '\U{017F}' then 's' else if c == '\U{212A}' then 'k' else DowncaseChar(c)
  }

  function Fold(s: string): (r: string)
    ensures |r| == |s| && forall i :: 0 <= i < |s| ==> r[i] == FoldChar(s[i])
  {
    seq(|s|, i requires 0 <= i < |s| => FoldChar(s[i]))
  }

  /**
   * `s =~ /^(w1|w2|...)$/i`: `^` and `$` are line anchors, so the pattern
   * matches when some newline-separated line of s is one of the words,
   * ignoring case.
   */
  predicate SomeLineIn(s: string, words: set<string>) {
    exists k | 0 <= k < |Fields(s, '\n')| :: Fold(Fields(s, '\n')[k]) in words
  }

  function InvalidValue(shown: string): string {
    "invalid value for Boolean: \"" + shown + "\""
  }

  /** `String#to_bool`. */
  function StringToBool(s: string): (r: Result<bool, string>)
    ensures r == Ok(true) <==> SomeLineIn(s, TRUE_WORDS)
    ensures r == Ok(false) <==> !SomeLineIn(s, TRUE_WORDS) && (IsBlank(s) || SomeLineIn(s, FALSE_WORDS))
    ensures r.Err? ==> r.error == InvalidValue(s)
  {
    if SomeLineIn(s, TRUE_WORDS) then Ok(true)
    else if IsBlank(s) || SomeLineIn(s, FALSE_WORDS) then Ok(false)
    else Err(InvalidValue(s))
  }

  /** `Fixnum#to_bool`. */
  function IntegerToBool(i: int): (r: Result<bool, string>)
    ensures r.Ok? <==> i == 0 || i == 1
    ensures r.Ok? ==> (r.value <==> i == 1)
    ensures r.Err? ==> r.error == InvalidValue(IntToString(i))
  {
    if i == 1 then Ok(true)
    else if i == 0 then Ok(false)
    else Err(InvalidValue(IntToString(i)))
  }

  /** `TrueClass#to_i` and `FalseClass#to_i`. */
  function BoolToI(b: bool): (r: int)
    ensures r == 0 || r == 1
    ensures b <==> r == 1
  {
    if b then 1 else 0
  }

  /** `to_bool` dispatched on the receiver; on booleans it is the identity and on nil it is false. */
  function ToBool(v: Value): (r: Result<bool, string>)
    ensures v.Boolean? ==> r == Ok(v.b)
    ensures v.Nil? ==> r == Ok(false)
  {
    match v
    case Text(s) => StringToBool(s)
    case Integer(i) => IntegerToBool(i)
    case Boolean(b) => Ok(b)
    case Nil => Ok(false)
  }

  /** `b.to_i.to_bool == b`. */
  lemma BoolIntRoundTrip(b: bool)
    ensures ToBool(Integer(BoolToI(b))) == Ok(b)
  {
  }

  /** `i.to_bool.to_i == i` for the two integers that convert. */
  lemma IntBoolRoundTrip(i: int)
    requires i == 0 || i == 1
    ensures IntegerToBool(i).Ok? && BoolToI(IntegerToBool(i).value) == i
  {
  }

  /** On single-line input the line-anchored match is a whole-string match ignoring case. */
  lemma SingleLineMatch(s: string, words: set<string>)
    requires forall j :: 0 <= j < |s| ==> s[j] != '\n'
    ensures SomeLineIn(s, words) <==> Fold(s) in words
  {
    FieldsWithoutSeparator(s, '\n');
    assert Fields(s, '\n')[0] == s;
  }

  /**
   * For a single-line string: true exactly for the true words, false exactly
   * for blank strings and the false words, and ArgumentError for the rest.
   */
  lemma SingleLineToBool(s: string)
    requires forall j :: 0 <= j < |s| ==> s[j] != '\n'
    ensures StringToBool(s) == Ok(true) <==> Fold(s) in TRUE_WORDS
    ensures StringToBool(s) == Ok(false) <==> Fold(s) !in TRUE_WORDS && (IsBlank(s) || Fold(s) in FALSE_WORDS)
    ensures StringToBool(s).Err? <==> Fold(s) !in TRUE_WORDS + FALSE_WORDS && !IsBlank(s)
  {
    SingleLineMatch(s, TRUE_WORDS);
    SingleLineMatch(s, FALSE_WORDS);
  }

  /** The spellings are matched in any case. */
  lemma UpperCaseTrue()
    ensures StringToBool("TRUE") == Ok(true)
  {
    SingleLineToBool("TRUE");
    assert Fold("TRUE") == "true";
  }

  lemma MixedCaseYes()
    ensures StringToBool("Yes") == Ok(true)
  {
    SingleLineToBool("Yes");
    assert Fold("Yes") == "yes";
  }

  lemma UpperCaseNo()
    ensures StringToBool("N") == Ok(false)
  {
    SingleLineToBool("N");
    assert Fold("N") == "n";
  }

  /** Blank means Unicode whitespace, so a no-break space is false too. */
  lemma BlankIsFalse()
    ensures StringToBool("") == Ok(false) && StringToBool(" \t") == Ok(false)
    ensures StringToBool("\U{00A0}\U{3000}") == Ok(false)
  {
    SingleLineToBool("\U{00A0}\U{3000}");
  }

  /** The long s folds to `s` under `/i`, so it spells the true word "yes". */
  lemma LongSFolds()
    ensures StringToBool("ye\U{017F}") == Ok(true)
  {
    SingleLineToBool("ye\U{017F}");
    assert Fold("ye\U{017F}") == "yes";
  }

  lemma OtherWordRaises()
    ensures StringToBool("maybe") == Err(InvalidValue("maybe"))
  {
    SingleLineToBool("maybe");
    assert |Fold("maybe")| == 5 && Fold("maybe")[0] == FoldChar('m') == 'm';
  }

  /** A true word on any line wins, even when another line is a false word. */
  lemma LineAnchors(a: string, b: string)
    requires forall j :: 0 <= j < |a| ==> a[j] != '\n'
    requires Fold(a) in FALSE_WORDS && Fold(b) in TRUE_WORDS
    requires forall j :: 0 <= j < |b| ==> b[j] != '\n'
    ensures StringToBool(a + "\n" + b) == Ok(true)
  {
    FieldsAfterHead(a, '\n', b);
    FieldsWithoutSeparator(b, '\n');
    assert Fields(a + "\n" + b, '\n')[1] == b;
  }
}
