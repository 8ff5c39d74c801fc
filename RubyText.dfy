/**
 * The few pieces of Ruby's String behaviour that the modelled code leans on:
 * `split` with a one-character separator (trailing empty fields dropped),
 * `split(' ')` (awk-style: runs of whitespace), `blank?`, `start_with?`,
 * `include?` on strings, `join`, ASCII `upcase`/`downcase`, `Integer#to_s`
 * and `String#to_i`.
 */
module RubyText {

  /** The characters awk-style `split` treats as blanks: ASCII whitespace only. */
  predicate IsSpace(c: char) {
    c == ' ' || c == '\t' || c == '\n' || c == '\U{000B}' || c == '\U{000C}' || c == '\r'
  }

  /**
   * The characters `[[:space:]]` matches in a UTF-8 string, which is what
   * ActiveSupport's `blank?` tests: the Unicode White_Space property.
   */
  predicate IsWhiteSpace(c: char) {
    IsSpace(c) || c == '\U{0085}' || c == '\U{00A0}' || c == '\U{1680}' ||
    ('\U{2000}' <= c <= '\U{200A}') || c == '\U{2028}' || c == '\U{2029}' ||
    c == '\U{202F}' || c == '\U{205F}' || c == '\U{3000}'
  }

  /** `String#blank?`: empty or made of whitespace only. */
  predicate IsBlank(s: string) {
    forall i :: 0 <= i < |s| ==> IsWhiteSpace(s[i])
  }

  predicate StartsWith(s: string, prefix: string) {
    |prefix| <= |s| && s[..|prefix|] == prefix
  }

  /** t occurs in s starting at position i. */
  predicate OccursAt(s: string, t: string, i: int) {
    0 <= i <= |s| - |t| && s[i..i + |t|] == t
  }

  /** `String#include?(t)`: t occurs in s as a contiguous substring. */
  predicate ContainsSub(s: string, t: string) {
    exists i | 0 <= i <= |s| - |t| :: OccursAt(s, t, i)
  }

  /** `Array#join(sep)` on strings. */
  function JoinWith(parts: seq<string>, sep: string): string {
    if |parts| == 0 then ""
    else if |parts| == 1 then parts[0]
    else parts[0] + sep + JoinWith(parts[1..], sep)
  }

  /** Every field between occurrences of `sep`, empty ones included; never empty. */
  function Fields(s: string, sep: char): (r: seq<string>)
    ensures |r| >= 1
  {
    if |s| == 0 then [""]
    else
      var rest := Fields(s[1..], sep);
      if s[0] == sep then [""] + rest else [[s[0]] + rest[0]] + rest[1..]
  }

  function DropTrailingEmpty(parts: seq<string>): (r: seq<string>)
    ensures |r| <= |parts| && r == parts[..|r|]
    ensures r != [] ==> r[|r| - 1] != ""
    ensures forall k :: |r| <= k < |parts| ==> parts[k] == ""
  {
    if |parts| > 0 && parts[|parts| - 1] == "" then DropTrailingEmpty(parts[..|parts| - 1]) else parts
  }

  /** `String#split(sep)` for a one-character separator other than a space. */
  function Split(s: string, sep: char): seq<string> {
    DropTrailingEmpty(Fields(s, sep))
  }

  lemma {:induction false} FieldsHaveNoSeparator(s: string, sep: char)
    ensures forall k, j :: 0 <= k < |Fields(s, sep)| && 0 <= j < |Fields(s, sep)[k]| ==> Fields(s, sep)[k][j] != sep
  {
    if |s| > 0 {
      FieldsHaveNoSeparator(s[1..], sep);
    }
  }

  /** Joining the fields back with the separator gives the string again. */
  lemma {:induction false} FieldsJoin(s: string, sep: char)
    ensures JoinWith(Fields(s, sep), [sep]) == s
  {
    if |s| > 0 {
      FieldsJoin(s[1..], sep);
      var rest := Fields(s[1..], sep);
      if s[0] == sep {
        assert Fields(s, sep) == [""] + rest;
        assert JoinWith([""] + rest, [sep]) == "" + [sep] + JoinWith(rest, [sep]);
      } else {
        var r := Fields(s, sep);
        assert r == [[s[0]] + rest[0]] + rest[1..];
        if |rest| == 1 {
          assert r == [[s[0]] + rest[0]];
        } else {
          assert r[1..] == rest[1..];
          assert JoinWith(rest, [sep]) == rest[0] + [sep] + JoinWith(rest[1..], [sep]);
        }
      }
    }
  }

  /** A string free of the separator is its own single field. */
  lemma {:induction false} SplitWithoutSeparator(s: string, sep: char)
    requires s != "" && forall j :: 0 <= j < |s| ==> s[j] != sep
    ensures Split(s, sep) == [s]
  {
    FieldsWithoutSeparator(s, sep);
  }

  lemma {:induction false} FieldsWithoutSeparator(s: string, sep: char)
    requires forall j :: 0 <= j < |s| ==> s[j] != sep
    ensures Fields(s, sep) == [s]
  {
    if |s| > 0 {
      FieldsWithoutSeparator(s[1..], sep);
      assert [s[0]] + s[1..] == s;
    }
  }

  /** Fields of `a + sep + b` are the single field `a` followed by the fields of `b`. */
  lemma {:induction false} FieldsAfterHead(a: string, sep: char, b: string)
    requires forall j :: 0 <= j < |a| ==> a[j] != sep
    ensures Fields(a + [sep] + b, sep) == [a] + Fields(b, sep)
  {
    if |a| == 0 {
      assert a + [sep] + b == [sep] + b;
      assert ([sep] + b)[1..] == b;
    } else {
      FieldsAfterHead(a[1..], sep, b);
      assert (a + [sep] + b)[1..] == a[1..] + [sep] + b;
      assert [a[0]] + a[1..] == a;
    }
  }

  /** A separator between two strings separates their fields. */
  lemma {:induction false} FieldsAroundSeparator(a: string, sep: char, b: string)
    ensures Fields(a + [sep] + b, sep) == Fields(a, sep) + Fields(b, sep)
  {
    if |a| == 0 {
      assert a + [sep] + b == [sep] + b;
      assert ([sep] + b)[1..] == b;
    } else {
      var s := a + [sep] + b;
      assert s[1..] == a[1..] + [sep] + b;
      FieldsAroundSeparator(a[1..], sep, b);
      FieldsGlue(a[0], Fields(a[1..], sep), Fields(b, sep));
    }
  }

  lemma FieldsGlue(c: char, fa: seq<string>, fb: seq<string>)
    requires |fa| >= 1
    ensures [[c] + (fa + fb)[0]] + (fa + fb)[1..] == ([[c] + fa[0]] + fa[1..]) + fb
  {
    assert (fa + fb)[1..] == fa[1..] + fb;
  }

  // ----- awk-style split(' ') -----

  /** End of the run of non-blank characters that starts at i. */
  function WordEnd(s: string, i: nat): (k: nat)
    requires i <= |s|
    ensures i <= k <= |s|
    ensures forall j :: i <= j < k ==> !IsSpace(s[j])
    ensures k < |s| ==> IsSpace(s[k])
    decreases |s| - i
  {
    if i == |s| || IsSpace(s[i]) then i else WordEnd(s, i + 1)
  }

  /** `String#split(' ')`: the maximal runs of non-blank characters, in order. */
  function Words(s: string): seq<string>
    decreases |s|
  {
    if |s| == 0 then []
    else if IsSpace(s[0]) then Words(s[1..])
    else
      var k := WordEnd(s, 0);
      [s[..k]] + Words(s[k..])
  }

  lemma {:induction false} WordEndAppend(a: string, t: string, i: nat)
    requires i <= |a|
    requires WordEnd(a, i) < |a| || (|t| > 0 && IsSpace(t[0])) || t == []
    ensures WordEnd(a + t, i) == WordEnd(a, i)
    decreases |a| - i
  {
    if i < |a| && !IsSpace(a[i]) {
      WordEndAppend(a, t, i + 1);
    } else if i == |a| && |t| > 0 {
      assert (a + t)[i] == t[0];
    }
  }

  /** A blank between two strings separates their words. */
  lemma {:induction false} WordsAroundBlank(a: string, w: char, b: string)
    requires IsSpace(w)
    ensures Words(a + [w] + b) == Words(a) + Words(b)
    decreases |a|
  {
    var s := a + [w] + b;
    if |a| == 0 {
      assert s == [w] + b && s[1..] == b;
    } else if IsSpace(a[0]) {
      assert s[1..] == a[1..] + [w] + b;
      WordsAroundBlank(a[1..], w, b);
    } else {
      var k := WordEnd(a, 0);
      WordEndAppend(a, [w] + b, 0);
      assert s == a + ([w] + b);
      assert WordEnd(s, 0) == k;
      assert s[..k] == a[..k];
      assert s[k..] == a[k..] + [w] + b;
      WordsAroundBlank(a[k..], w, b);
    }
  }

  /** Words of a string with no blanks in it: the string itself, if non-empty. */
  lemma {:induction false} WordsOfWord(s: string)
    requires forall j :: 0 <= j < |s| ==> !IsSpace(s[j])
    ensures Words(s) == if s == "" then [] else [s]
  {
    if s != "" {
      assert WordEnd(s, 0) == |s| by { WordEndNoSpace(s, 0); }
      assert !IsSpace(s[0]);
      assert s[..|s|] == s && s[|s|..] == [];
    }
  }

  lemma {:induction false} WordEndNoSpace(s: string, i: nat)
    requires i <= |s|
    requires forall j :: i <= j < |s| ==> !IsSpace(s[j])
    ensures WordEnd(s, i) == |s|
    decreases |s| - i
  {
    if i < |s| {
      WordEndNoSpace(s, i + 1);
    }
  }

  lemma {:induction false} WordsOfBlank(s: string)
    requires forall i :: 0 <= i < |s| ==> IsSpace(s[i])
    ensures Words(s) == []
    decreases |s|
  {
    if |s| > 0 {
      WordsOfBlank(s[1..]);
    }
  }

  // ----- case mapping -----

  function UpcaseChar(c: char): char {
    if 'a' <= c <= 'z' then (c as int - 'a' as int + 'A' as int) as char else c
  }

  function DowncaseChar(c: char): char {
    if 'A' <= c <= 'Z' then (c as int - 'A' as int + 'a' as int) as char else c
  }

  /** `String#upcase` on ASCII letters. */
  function Upcase(s: string): (r: string)
    ensures |r| == |s| && forall i :: 0 <= i < |s| ==> r[i] == UpcaseChar(s[i])
  {
    seq(|s|, i requires 0 <= i < |s| => UpcaseChar(s[i]))
  }

  /** `String#downcase` on ASCII letters. */
  function Downcase(s: string): (r: string)
    ensures |r| == |s| && forall i :: 0 <= i < |s| ==> r[i] == DowncaseChar(s[i])
  {
    seq(|s|, i requires 0 <= i < |s| => DowncaseChar(s[i]))
  }

  // ----- numbers -----

  predicate IsDigit(c: char) { '0' <= c <= '9' }

  function DigitChar(d: nat): char
    requires d < 10
  {
    "0123456789"[d]
  }

  function NatToString(n: nat): (r: string)
    ensures |r| >= 1
  {
    if n < 10 then [DigitChar(n)] else NatToString(n / 10) + [DigitChar(n % 10)]
  }

  /** `Integer#to_s`. */
  function IntToString(n: int): string {
    if n < 0 then "-" + NatToString(-n) else NatToString(n)
  }

  /**
   * Value of the run of digits starting at i, read left to right from acc.
   * A single `_` between two digits is skipped; anything else ends the run.
   */
  function DigitsValue(s: string, i: nat, acc: nat): nat
    requires i <= |s|
    decreases |s| - i
  {
    if i < |s| && IsDigit(s[i]) then DigitsValue(s, i + 1, acc * 10 + (s[i] as int - '0' as int))
    else if i + 1 < |s| && s[i] == '_' && IsDigit(s[i + 1]) then DigitsValue(s, i + 1, acc)
    else acc
  }

  /** The number after the sign: an optional `0d`/`0D` prefix, then digits that must start at once. */
  function Unsigned(s: string, i: nat): nat
    requires i <= |s|
  {
    var j := if i + 1 < |s| && s[i] == '0' && (s[i + 1] == 'd' || s[i + 1] == 'D') then i + 2 else i;
    if j < |s| && IsDigit(s[j]) then DigitsValue(s, j, 0) else 0
  }

  function SkipSpaces(s: string, i: nat): (k: nat)
    requires i <= |s|
    ensures i <= k <= |s|
    decreases |s| - i
  {
    if i < |s| && IsSpace(s[i]) then SkipSpaces(s, i + 1) else i
  }

  /**
   * `String#to_i`: leading blanks, an optional sign, an optional `0d`
   * prefix, then the longest run of decimal digits with single underscores
   * between them; anything unparsable reads as 0.
   */
  function ToI(s: string): int {
    var i := SkipSpaces(s, 0);
    if i < |s| && s[i] == '-' then 0 - Unsigned(s, i + 1)
    else if i < |s| && s[i] == '+' then Unsigned(s, i + 1)
    else Unsigned(s, i)
  }

  /** The decimal value of a string of digits. */
  function DecimalValue(ds: string): nat
    requires forall k :: 0 <= k < |ds| ==> IsDigit(ds[k])
  {
    if ds == [] then 0
    else
      var last := ds[|ds| - 1];
      assert IsDigit(last);
      DecimalValue(ds[..|ds| - 1]) * 10 + (last as int - '0' as int)
  }

  /** Reading a run of digits to its end gives its decimal value. */
  lemma {:induction false} DigitsRead(s: string, i: nat, j: nat)
    requires i <= j <= |s|
    requires forall k :: i <= k < j ==> IsDigit(s[k])
    ensures DigitsValue(s, i, 0) == DigitsValue(s, j, DecimalValue(s[i..j]))
    decreases j - i
  {
    if i < j {
      DigitsRead(s, i, j - 1);
      assert s[i..j][..j - 1 - i] == s[i..j - 1];
    }
  }

  lemma DigitCharValue(d: nat)
    requires d < 10
    ensures IsDigit(DigitChar(d)) && DigitChar(d) as int - '0' as int == d
  {
  }

  /** `NatToString` writes digits whose decimal value is the number. */
  lemma {:induction false} NatToStringValue(n: nat)
    ensures forall k :: 0 <= k < |NatToString(n)| ==> IsDigit(NatToString(n)[k])
    ensures DecimalValue(NatToString(n)) == n
  {
    DigitCharValue(n % 10);
    if n >= 10 {
      NatToStringValue(n / 10);
      var a := NatToString(n / 10);
      assert NatToString(n) == a + [DigitChar(n % 10)];
      assert (a + [DigitChar(n % 10)])[..|a|] == a;
    }
  }

  /** A digit string from i to the end reads as its decimal value. */
  lemma UnsignedOfDigits(s: string, i: nat)
    requires i < |s|
    requires forall k :: i <= k < |s| ==> IsDigit(s[k])
    ensures Unsigned(s, i) == DecimalValue(s[i..])
  {
    assert IsDigit(s[i]);
    assert i + 1 < |s| ==> IsDigit(s[i + 1]);
    DigitsRead(s, i, |s|);
    assert s[i..|s|] == s[i..];
  }

  /** `n.to_s.to_i == n` for every integer. */
  lemma ToIOfToS(n: int)
    ensures ToI(IntToString(n)) == n
  {
    var m: nat := if n < 0 then -n else n;
    NatToStringValue(m);
    var d := NatToString(m);
    if n < 0 {
      var s := "-" + d;
      assert s[1..] == d;
      UnsignedOfDigits(s, 1);
      assert SkipSpaces(s, 0) == 0;
    } else {
      assert d[0..] == d;
      UnsignedOfDigits(d, 0);
      assert SkipSpaces(d, 0) == 0;
    }
  }

  /** example: single underscores between digits are skipped; `__` ends the number and a leading `_` gives 0. */
  lemma UnderscoresRead(a: string, b: string, c: string)
    requires a == "1_0" && b == "1__0" && c == "_1"
    ensures ToI(a) == 10 && ToI(b) == 1 && ToI(c) == 0
  {
    assert a[0] == '1' && a[1] == '_' && a[2] == '0' && |a| == 3;
    assert SkipSpaces(a, 0) == 0;
    assert DigitsValue(a, 3, 10) == 10;
    assert DigitsValue(a, 1, 1) == DigitsValue(a, 2, 1) == DigitsValue(a, 3, 10);
    assert b[0] == '1' && b[1] == '_' && b[2] == '_' && |b| == 4;
    assert SkipSpaces(b, 0) == 0;
    assert DigitsValue(b, 1, 1) == 1;
    assert c[0] == '_' && c[1] == '1';
    assert SkipSpaces(c, 0) == 0;
  }

  /** example: a `0d` or `0D` prefix after the sign is read past; the prefix alone gives 0. */
  lemma DecimalPrefixRead(a: string, b: string, c: string)
    requires a == "-0D7" && b == "0d10" && c == "0d"
    ensures ToI(a) == -7 && ToI(b) == 10 && ToI(c) == 0
  {
    assert a[0] == '-' && a[1] == '0' && a[2] == 'D' && a[3] == '7' && |a| == 4;
    assert SkipSpaces(a, 0) == 0;
    assert DigitsValue(a, 4, 7) == 7;
    assert b[0] == '0' && b[1] == 'd' && b[2] == '1' && b[3] == '0' && |b| == 4;
    assert SkipSpaces(b, 0) == 0;
    assert DigitsValue(b, 4, 10) == 10;
    assert DigitsValue(b, 3, 1) == 10;
    assert c[0] == '0' && c[1] == 'd' && |c| == 2;
    assert SkipSpaces(c, 0) == 0;
  }
}
