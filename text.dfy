/** String operations the three pipelines rely on: Python's `sep.join`,
    `str.split`, `in` on strings, `str.lower`, `str()` of a number and
    pandas' numeric parsing of a text cell. */
module Text {
  import opened Outcomes

  /** The delimiter of every composite key ("Product Key" and the QC key). */
  const KeySeparator: string := " | "

  predicate Distinct<T(==)>(s: seq<T>) {
    forall i, j :: 0 <= i < j < |s| ==> s[i] != s[j]
  }

  /** The tail of a list without repeats has none either, and lacks the head. */
  lemma DistinctTail<T>(s: seq<T>)
    requires |s| > 0 && Distinct(s)
    ensures Distinct(s[1..]) && s[0] !in s[1..]
  {
    forall i, j | 0 <= i < j < |s[1..]| ensures s[1..][i] != s[1..][j] {
      assert s[1..][i] == s[i + 1] && s[1..][j] == s[j + 1];
    }
    forall i | 0 <= i < |s[1..]| ensures s[1..][i] != s[0] {
      assert s[1..][i] == s[i + 1];
    }
  }

  /** Python's `sep.join(parts)`. */
  function Join(parts: seq<string>, sep: string): string {
    if |parts| == 0 then ""
    else if |parts| == 1 then parts[0]
    else parts[0] + sep + Join(parts[1..], sep)
  }

  /** `pat` occurs in `s` starting at index `i`. */
  predicate MatchesAt(s: string, pat: string, i: int) {
    0 <= i && i + |pat| <= |s| && s[i..i + |pat|] == pat
  }

  /** Python's `pat in s`. */
  predicate Contains(s: string, pat: string) {
    exists i :: 0 <= i <= |s| - |pat| && MatchesAt(s, pat, i)
  }

  /** Index of the first occurrence of a non-empty `pat` in `s` (Python's `s.find(pat)`). */
  function Find(s: string, pat: string): (r: Option<nat>)
    requires |pat| > 0
    ensures r.Some? ==> MatchesAt(s, pat, r.value)
    ensures r.Some? ==> forall i :: 0 <= i < r.value ==> !MatchesAt(s, pat, i)
    ensures r.None? ==> forall i :: 0 <= i ==> !MatchesAt(s, pat, i)
    decreases |s|
  {
    if |s| < |pat| then None
    else if s[..|pat|] == pat then Some(0)
    else
      var rest := Find(s[1..], pat);
      assert forall i :: 1 <= i ==> (MatchesAt(s, pat, i) <==> MatchesAt(s[1..], pat, i - 1)) by {
        forall i | 1 <= i ensures MatchesAt(s, pat, i) <==> MatchesAt(s[1..], pat, i - 1) {
          if i + |pat| <= |s| {
            assert s[1..][i - 1..i - 1 + |pat|] == s[i..i + |pat|];
          }
        }
      }
      match rest
      case None => None
      case Some(i) => Some(i + 1)
  }

  /** Python's `s.split(sep)` for a non-empty separator: the pieces between
      the non-overlapping occurrences of `sep`, scanned left to right. */
  function Split(s: string, sep: string): (parts: seq<string>)
    requires |sep| > 0
    ensures |parts| >= 1
    decreases |s|
  {
    match Find(s, sep)
    case None => [s]
    case Some(i) => [s[..i]] + Split(s[i + |sep|..], sep)
  }

  /** A text without '|' contains no key separator. */
  lemma NoSeparator(s: string)
    requires '|' !in s
    ensures Find(s, KeySeparator) == None
  {
    forall i | 0 <= i ensures !MatchesAt(s, KeySeparator, i) {
      if i + 3 <= |s| {
        assert s[i..i + 3][1] == s[i + 1] != '|';
      }
    }
  }

  /** When the text before a separator has no '|', the first occurrence of the
      separator is that separator. */
  lemma FindSeparator(p: string, rest: string)
    requires '|' !in p
    ensures Find(p + KeySeparator + rest, KeySeparator) == Some(|p|)
  {
    var s := p + KeySeparator + rest;
    assert s[|p|..|p| + 3] == KeySeparator;
    assert MatchesAt(s, KeySeparator, |p|);
    forall i | 0 <= i < |p| ensures !MatchesAt(s, KeySeparator, i) {
      assert s[i + 1] != '|' by {
        if i + 1 < |p| {
          assert s[i + 1] == p[i + 1];
        } else {
          assert s[i + 1] == KeySeparator[0];
        }
      }
      assert s[i..i + 3][1] == s[i + 1];
    }
  }

  /** Splitting a joined key gives back its parts, provided no part contains
      '|'. (It is not enough that no part contains " | ": see SplitJoinCounterexample.) */
  lemma {:induction false} SplitJoin(parts: seq<string>)
    requires |parts| >= 1
    requires forall p :: p in parts ==> '|' !in p
    ensures Split(Join(parts, KeySeparator), KeySeparator) == parts
  {
    if |parts| == 1 {
      NoSeparator(parts[0]);
    } else {
      var rest := Join(parts[1..], KeySeparator);
      assert Join(parts, KeySeparator) == parts[0] + KeySeparator + rest;
      assert parts[0] in parts;
      SplitStep(parts[0], rest);
      forall p | p in parts[1..] ensures '|' !in p {
        assert p in parts;
      }
      SplitJoin(parts[1..]);
      assert parts == [parts[0]] + parts[1..];
    }
  }

  /** Splitting at a separator right after a part without '|'. */
  lemma SplitStep(p: string, rest: string)
    requires '|' !in p
    ensures Split(p + KeySeparator + rest, KeySeparator) == [p] + Split(rest, KeySeparator)
  {
    var s := p + KeySeparator + rest;
    FindSeparator(p, rest);
    assert s[..|p|] == p;
    assert s[|p| + 3..] == rest;
  }

  /** A part ending in " |" makes the join ambiguous: "a |" and "1" join to
      "a | | 1", whose first separator is inside the first part. */
  lemma SplitJoinCounterexample()
    ensures !Contains("a |", KeySeparator) && !Contains("1", KeySeparator)
    ensures Split(Join(["a |", "1"], KeySeparator), KeySeparator) != ["a |", "1"]
  {
    var s := Join(["a |", "1"], KeySeparator);
    assert s == "a | | 1";
    assert MatchesAt(s, KeySeparator, 1) by { assert s[1..4] == " | "; }
    assert !MatchesAt(s, KeySeparator, 0) by { assert s[0] == 'a'; }
    var f := Find(s, KeySeparator);
    assert f == Some(1);
    assert Split(s, KeySeparator)[0] == "a";
  }

  function LowerChar(c: char): char {
    if 'A' <= c <= 'Z' then (c as int + 32) as char else c
  }

  /** `str.lower()` on the ASCII letters. */
  function Lower(s: string): (r: string)
    ensures |r| == |s|
  {
    seq(|s|, i requires 0 <= i < |s| => LowerChar(s[i]))
  }

  predicate IsDigit(c: char) {
    '0' <= c <= '9'
  }

  predicate AllDigits(s: string) {
    forall c :: c in s ==> IsDigit(c)
  }

  function DigitChar(d: nat): (c: char)
    requires d < 10
    ensures IsDigit(c)
  {
    ('0' as int + d) as char
  }

  /** `str(n)` for a natural number: decimal digits, no leading zeros. */
  function NatText(n: nat): (r: string)
    ensures |r| >= 1 && AllDigits(r)
  {
    if n < 10 then [DigitChar(n)] else NatText(n / 10) + [DigitChar(n % 10)]
  }

  /** At most `fuel` decimal digits of a fraction in [0, 1), stopping once it is exhausted. */
  function FractionDigits(f: real, fuel: nat): string
    requires 0.0 <= f < 1.0
    decreases fuel
  {
    if fuel == 0 || f == 0.0 then ""
    else
      var d := (f * 10.0).Floor;
      [DigitChar(d)] + FractionDigits(f * 10.0 - d as real, fuel - 1)
  }

  function UnsignedText(x: real): string
    requires x >= 0.0
  {
    var w := x.Floor;
    var f := x - w as real;
    if f == 0.0 then NatText(w) else NatText(w) + "." + FractionDigits(f, 17)
  }

  /** `str()` of a number cell: whole numbers without a fraction, others in
      plain decimal notation. */
  function NumberText(x: real): string {
    if x < 0.0 then "-" + UnsignedText(-x) else UnsignedText(x)
  }

  function Pow10(n: nat): (r: nat)
    ensures r >= 1
  {
    if n == 0 then 1 else 10 * Pow10(n - 1)
  }

  /** The value of a run of decimal digits. */
  function DigitsValue(s: string): nat
    requires AllDigits(s)
  {
    if |s| == 0 then 0
    else
      assert s[|s| - 1] in s;
      DigitsValue(s[..|s| - 1]) * 10 + (s[|s| - 1] as int - '0' as int)
  }

  /** Index of the first `c` in `s`, or |s| when there is none. */
  function IndexOfChar(s: string, c: char): (k: nat)
    ensures k <= |s|
    ensures c !in s[..k]
    ensures k < |s| ==> s[k] == c
  {
    if |s| == 0 then 0
    else if s[0] == c then 0
    else
      var k := 1 + IndexOfChar(s[1..], c);
      assert s[..k] == [s[0]] + s[1..][..k - 1];
      k
  }

  /** Digits with an optional decimal point; at least one digit. */
  function ParseUnsigned(s: string): Option<real> {
    var k := IndexOfChar(s, '.');
    var whole := s[..k];
    var frac := if k < |s| then s[k + 1..] else "";
    if |whole| + |frac| == 0 || !AllDigits(whole) || !AllDigits(frac) then None
    else Some(DigitsValue(whole) as real + DigitsValue(frac) as real / Pow10(|frac|) as real)
  }

  /** The numeric value of a text cell, as `pd.to_numeric` reads it, or None
      when the text is not a number (`errors='coerce'`). */
  function ParseNumber(s: string): Option<real> {
    if |s| > 0 && (s[0] == '-' || s[0] == '+') then
      match ParseUnsigned(s[1..])
      case None => None
      case Some(v) => Some(if s[0] == '-' then -v else v)
    else ParseUnsigned(s)
  }

  lemma {:induction false} DigitsValueOfNatText(n: nat)
    ensures DigitsValue(NatText(n)) == n
  {
    var t := NatText(n);
    if n >= 10 {
      DigitsValueOfNatText(n / 10);
      assert t[..|t| - 1] == NatText(n / 10);
    }
  }

  /** Reading back the text of a whole number gives the number. */
  lemma ParseNatText(n: nat)
    ensures ParseNumber(NatText(n)) == Some(n as real)
  {
    var t := NatText(n);
    assert !IsDigit('.') && !IsDigit('-') && !IsDigit('+');
    assert t[0] in t;
    assert IndexOfChar(t, '.') == |t|;
    assert t[..|t|] == t;
    DigitsValueOfNatText(n);
  }

  /** `NumberText` and `ParseNumber` are inverse on whole numbers: a whole
      number written out by the model is read back unchanged. */
  lemma ParseNumberText(n: int)
    ensures ParseNumber(NumberText(n as real)) == Some(n as real)
  {
    if n < 0 {
      var m: nat := -n;
      var t := NatText(m);
      assert n as real == -(m as real);
      NegativeText(m);
      ParseNatText(m);
      assert t[0] in t;
      assert ParseUnsigned(t) == Some(m as real);
      assert ("-" + t)[1..] == t;
      assert ParseNumber("-" + t) == Some(-(m as real));
    } else {
      WholeText(n);
      ParseNatText(n);
    }
  }

  lemma WholeText(n: nat)
    ensures NumberText(n as real) == NatText(n)
  {
    assert (n as real).Floor == n;
  }

  lemma NegativeText(m: nat)
    requires m > 0
    ensures NumberText(-(m as real)) == "-" + NatText(m)
  {
    assert (m as real).Floor == m;
  }
}
