/**
 * Record locators: a base-27 numeral system whose digits are the decimal
 * digits and capital letters with the look-alikes B, 8, S, 5, O, 0, I, 1
 * and Q removed, so that a printed locator cannot be misread.
 *
 * The ENCODER and DECODER tables are hashes keyed by the alphabet string;
 * they are modelled as functions of the alphabet `ring`, and the numeral
 * properties are proved for every alphabet of distinct characters before
 * being instantiated with BASE27.
 */
module RecordLocator {
  import opened Wrappers

  const DIGITS_AND_LETTERS: string := "0123456789ABCDEFGHIJKLMNOPQRSTUVWXYZ"
  const LOOK_ALIKES: string := "B8S5O0I1Q"

  /** The alphabet, digit 0 first. */
  const BASE27: string := "234679ACDEFGHJKLMNPRTUVWXYZ"

  predicate StrictlyAscending(s: string) {
    forall i :: 0 <= i < |s| - 1 ==> s[i] < s[i + 1]
  }

  predicate DistinctAt(s: string, i: nat, j: nat)
    requires i < |s| && j < |s|
  {
    s[i] != s[j]
  }

  /** No character occurs twice. */
  predicate Distinct(s: string) {
    forall i, j :: 0 <= i < j < |s| ==> DistinctAt(s, i, j)
  }


  lemma {:induction false} AscendingOrdered(s: string, i: nat, j: nat)
    requires StrictlyAscending(s) && i < j < |s|
    ensures s[i] < s[j]
    decreases j - i
  {
    if i + 1 < j {
      AscendingOrdered(s, i + 1, j);
    }
  }

  /**
   * BASE27 is what `delete_if` leaves of DIGITS_AND_LETTERS: both strings are
   * ascending, so order is kept, and BASE27 holds exactly the characters that
   * are not look-alikes.
   */
  lemma AlphabetDerived()
    ensures StrictlyAscending(DIGITS_AND_LETTERS) && StrictlyAscending(BASE27)
    ensures forall c | c in DIGITS_AND_LETTERS :: c in LOOK_ALIKES || c in BASE27
    ensures forall c | c in BASE27 :: c in DIGITS_AND_LETTERS && c !in LOOK_ALIKES
  {
    KeptCharacters();
    DroppedCharacters();
  }

  lemma KeptCharacters()
    ensures forall c | c in BASE27 :: c in DIGITS_AND_LETTERS && c !in LOOK_ALIKES
  {
    KeptAreDigitsOrLetters();
    KeptAreNoLookAlikes();
  }

  lemma KeptAreDigitsOrLetters()
    ensures forall c | c in BASE27 :: c in DIGITS_AND_LETTERS
  {
  }

  lemma KeptAreNoLookAlikes()
    ensures forall c | c in BASE27 :: c !in LOOK_ALIKES
  {
  }

  lemma DroppedCharacters()
    ensures forall c | c in DIGITS_AND_LETTERS :: c in LOOK_ALIKES || c in BASE27
  {
  }

  /** The alphabet has 27 distinct characters. */
  lemma AlphabetIsRing()
    ensures |BASE27| == 27 && Ring(BASE27)
  {
    assert StrictlyAscending(BASE27);
    forall i, j | 0 <= i < j < |BASE27| ensures DistinctAt(BASE27, i, j) {
      AscendingOrdered(BASE27, i, j);
    }
  }

  /** ENCODER[ring]: digit value to character. */
  function EncodeDigit(ring: string, d: nat): char
    requires d < |ring|
  {
    ring[d]
  }

  /** DECODER[ring]: character to digit value, nil for characters outside the ring (last index wins, as in `Hash[]`). */
  function DecodeDigit(ring: string, c: char): (r: Option<nat>)
    ensures r.Some? ==> r.value < |ring| && ring[r.value] == c
    ensures r.None? <==> c !in ring
  {
    if ring == "" then None
    else if ring[|ring| - 1] == c then Some(|ring| - 1)
    else
      assert ring == ring[..|ring| - 1] + [ring[|ring| - 1]];
      DecodeDigit(ring[..|ring| - 1], c)
  }

  lemma DistinctApart(s: string, i: nat, j: nat)
    requires Distinct(s) && i < |s| && j < |s| && i != j
    ensures s[i] != s[j]
  {
    if i < j {
      assert DistinctAt(s, i, j);
    } else {
      assert DistinctAt(s, j, i);
    }
  }

  lemma DigitRoundTrip(ring: string, d: nat)
    requires Distinct(ring) && d < |ring|
    ensures DecodeDigit(ring, EncodeDigit(ring, d)) == Some(d)
  {
    var r := DecodeDigit(ring, ring[d]);
    assert r.Some? && ring[r.value] == ring[d];
    if r.value != d {
      DistinctApart(ring, r.value, d);
    }
  }

  /** `BASE27.length`. */
  const BASE: nat := 27

  /** An alphabet `encode` and `decode` can work with. */
  predicate Ring(ring: string) {
    |ring| == BASE && Distinct(ring)
  }

  /** The numeral `Base.encode` builds: most significant digit first, "" for 0. */
  function Numeral(ring: string, n: nat): string
    requires |ring| == BASE
  {
    if n == 0 then "" else Numeral(ring, n / BASE) + [EncodeDigit(ring, n % BASE)]
  }

  function Reversed(s: string): (r: string)
    ensures |r| == |s|
  {
    if s == "" then "" else Reversed(s[1..]) + [s[0]]
  }

  lemma {:induction false} ReversedAppend(s: string, c: char)
    ensures Reversed(s + [c]) == [c] + Reversed(s)
  {
    if s != "" {
      assert (s + [c])[1..] == s[1..] + [c];
      ReversedAppend(s[1..], c);
    } else {
      assert [c][1..] == "";
    }
  }

  /**
   * `Base.encode`: peel off digits least significant first in a loop and
   * reverse them at the end. Only non-negative values are accepted: with a
   * negative value the Ruby loop `until value == 0` never ends.
   */
  method Encode(value: nat) returns (result: string)
    ensures result == Numeral(BASE27, value)
  {
    AlphabetIsRing();
    var ring := BASE27;
    var base := |ring|;
    assert base == BASE;
    var digits: string := [];
    var v: nat := value;
    while v != 0
      invariant Numeral(ring, value) == Numeral(ring, v) + Reversed(digits)
      decreases v
    {
      ReversedAppend(digits, EncodeDigit(ring, v % base));
      digits := digits + [EncodeDigit(ring, v % base)];
      v := v / base;
    }
    result := Reversed(digits);
  }

  datatype Decoded =
    | Number(n: nat)        // the decoded value
    | Unchanged(s: string)  // input containing '0' or '1', returned as it was
    | NoMethodError         // a character outside the alphabet: `nil * Integer`

  function Pow(b: nat, e: nat): nat {
    if e == 0 then 1 else b * Pow(b, e - 1)
  }

  /** `ring[char] * base**i`: the worth of digit d at reversed position i. */
  function Weighted(d: nat, base: nat, i: nat): nat {
    d * Pow(base, i)
  }

  /**
   * The `inject` of `Base.decode`: `sum + ring[char] * base**i` over the
   * reversed string, i counting from 0; `pos` is the next reversed position.
   */
  function DecodeFrom(ring: string, s: string, pos: nat, sum: nat): (r: Decoded)
    requires pos <= |s|
    ensures !r.Unchanged?
    decreases |s| - pos
  {
    if pos == |s| then Number(sum)
    else match DecodeDigit(ring, s[|s| - 1 - pos])
      case None => NoMethodError
      case Some(d) => DecodeFrom(ring, s, pos + 1, sum + Weighted(d, BASE, pos))
  }

  /** `Base.decode`: a string with a '0' or '1' in it is returned as it is. */
  function Decode(s: string): (r: Decoded)
    ensures ('0' in s || '1' in s) <==> r == Unchanged(s)
  {
    if '1' in s || '0' in s then Unchanged(s) else DecodeFrom(BASE27, s, 0, 0)
  }

  predicate InRing(ring: string, s: string) {
    forall i :: 0 <= i < |s| ==> s[i] in ring
  }

  /** Value of one digit character for the reference reading (characters outside the ring count 0). */
  function DigitValue(ring: string, c: char): nat {
    match DecodeDigit(ring, c) case None => 0 case Some(d) => d
  }

  /** Reference reading of a numeral: positional, most significant digit first. */
  function PositionalValue(ring: string, s: string): nat {
    if s == "" then 0
    else PositionalValue(ring, s[..|s| - 1]) * BASE + DigitValue(ring, s[|s| - 1])
  }

  lemma ShiftWeight(p: nat, base: nat, v: nat, d: nat)
    ensures d * p + (base * p) * v == p * (v * base + d)
  {
  }

  lemma {:induction false} DecodeFromValue(ring: string, s: string, pos: nat, sum: nat)
    requires pos <= |s| && InRing(ring, s)
    ensures DecodeFrom(ring, s, pos, sum) == Number(sum + Pow(BASE, pos) * PositionalValue(ring, s[..|s| - pos]))
    decreases |s| - pos
  {
    if pos < |s| {
      var c := s[|s| - 1 - pos];
      assert c in ring;
      var d := DecodeDigit(ring, c).value;
      DecodeFromValue(ring, s, pos + 1, sum + Weighted(d, BASE, pos));
      var head := s[..|s| - pos];
      var rest := s[..|s| - (pos + 1)];
      assert head[..|head| - 1] == rest;
      assert head[|head| - 1] == c;
      assert PositionalValue(ring, head) == PositionalValue(ring, rest) * BASE + d;
      ShiftWeight(Pow(BASE, pos), BASE, PositionalValue(ring, rest), d);
    } else {
      assert s[..0] == "";
    }
  }

  /** A character outside the ring makes the `inject` fail once it is reached. */
  lemma {:induction false} DecodeFromFails(ring: string, s: string, pos: nat, sum: nat, bad: nat)
    requires pos <= bad < |s| && s[|s| - 1 - bad] !in ring
    ensures DecodeFrom(ring, s, pos, sum) == NoMethodError
    decreases |s| - pos
  {
    if pos < bad {
      match DecodeDigit(ring, s[|s| - 1 - pos]) {
        case None =>
        case Some(d) => DecodeFromFails(ring, s, pos + 1, sum + Weighted(d, BASE, pos), bad);
      }
    }
  }

  lemma {:induction false} NumeralInRing(ring: string, n: nat)
    requires |ring| == BASE
    ensures InRing(ring, Numeral(ring, n))
  {
    if n > 0 {
      NumeralInRing(ring, n / BASE);
    }
  }

  /** Appending a digit multiplies by the base and adds the digit. */
  lemma PositionalStep(ring: string, t: string, d: nat)
    requires Distinct(ring) && d < |ring|
    ensures PositionalValue(ring, t + [EncodeDigit(ring, d)]) == PositionalValue(ring, t) * BASE + d
  {
    var s := t + [EncodeDigit(ring, d)];
    assert s[..|s| - 1] == t;
    DigitRoundTrip(ring, d);
  }

  lemma {:induction false} NumeralValue(ring: string, n: nat)
    requires Ring(ring)
    ensures PositionalValue(ring, Numeral(ring, n)) == n
  {
    if n > 0 {
      var q, d := n / BASE, n % BASE;
      NumeralValue(ring, q);
      PositionalStep(ring, Numeral(ring, q), d);
    }
  }

  /** For n > 0 the numeral is non-empty and never starts with the zero digit. */
  lemma {:induction false} NumeralLeadingDigit(ring: string, n: nat)
    requires Ring(ring) && n > 0
    ensures |Numeral(ring, n)| > 0 && Numeral(ring, n)[0] != EncodeDigit(ring, 0)
  {
    if n / BASE == 0 {
      assert Numeral(ring, n) == [EncodeDigit(ring, n % BASE)];
      DistinctApart(ring, n % BASE, 0);
    } else {
      NumeralLeadingDigit(ring, n / BASE);
      assert Numeral(ring, n)[0] == Numeral(ring, n / BASE)[0];
    }
  }

  lemma DecodeFromWhole(ring: string, s: string)
    requires InRing(ring, s)
    ensures DecodeFrom(ring, s, 0, 0) == Number(PositionalValue(ring, s))
  {
    DecodeFromValue(ring, s, 0, 0);
    assert s[..|s|] == s;
  }

  lemma NoLookAlikes(s: string)
    requires InRing(BASE27, s)
    ensures '0' !in s && '1' !in s
  {
    assert '0' !in BASE27 && '1' !in BASE27;
    forall i | 0 <= i < |s| ensures s[i] != '0' && s[i] != '1' {
      assert s[i] in BASE27;
    }
  }

  /** `decode` reads a numeral over BASE27 positionally, the last character weighted 27^0. */
  lemma DecodeIsPositional(s: string)
    requires InRing(BASE27, s)
    ensures Decode(s) == Number(PositionalValue(BASE27, s))
  {
    NoLookAlikes(s);
    DecodeFromWhole(BASE27, s);
  }

  /** A character outside the alphabet makes `decode` fail, unless a '0' or '1' returns the input first. */
  lemma DecodeFailsOutsideAlphabet(s: string, i: nat)
    requires i < |s| && s[i] !in BASE27 && '0' !in s && '1' !in s
    ensures Decode(s) == NoMethodError
  {
    DecodeFromFails(BASE27, s, 0, 0, |s| - 1 - i);
  }

  /** encode(n) for n > 0 uses only alphabet characters and does not start with '2', the zero digit. */
  lemma EncodeShape(n: nat)
    requires n > 0
    ensures InRing(BASE27, Numeral(BASE27, n))
    ensures |Numeral(BASE27, n)| > 0 && Numeral(BASE27, n)[0] != '2'
  {
    AlphabetIsRing();
    NumeralInRing(BASE27, n);
    NumeralLeadingDigit(BASE27, n);
  }

  /** decode(encode(n)) == n for every n >= 0; encode(0) is "" and decode("") is 0. */
  lemma RoundTrip(n: nat)
    ensures Decode(Numeral(BASE27, n)) == Number(n)
    ensures Numeral(BASE27, 0) == "" && Decode("") == Number(0)
  {
    AlphabetIsRing();
    NumeralValue(BASE27, n);
    NumeralInRing(BASE27, n);
    DecodeIsPositional(Numeral(BASE27, n));
  }
}
