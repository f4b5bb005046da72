/** The string handling the analysis relies on: `str(n)` for atom roles,
    `int(s)` in the label sort key, `str.split('-')` on tally keys, and the
    slicing and prefix tests of Python strings. */
module Text {

  datatype Option<T> = None | Some(value: T)

  /** The separator of every tally key and label. */
  const Dash: char := '-'

  predicate IsDigit(c: char)
  {
    '0' <= c <= '9'
  }

  predicate AllDigits(s: string)
  {
    forall i :: 0 <= i < |s| ==> IsDigit(s[i])
  }

  function DigitChar(d: nat): (c: char)
    requires d < 10
    ensures IsDigit(c)
  {
    ('0' as int + d) as char
  }

  function DigitValue(c: char): (d: nat)
    requires IsDigit(c)
    ensures d < 10 && DigitChar(d) == c
  {
    c as int - '0' as int
  }

  /** `str(n)`: the decimal digits of `n`, most significant first. */
  function NatToString(n: nat): (s: string)
    ensures |s| > 0 && AllDigits(s)
    ensures Dash !in s
  {
    if n < 10 then [DigitChar(n)] else NatToString(n / 10) + [DigitChar(n % 10)]
  }

  /** The number a string of decimal digits denotes. */
  function DigitsValue(s: string): nat
    requires AllDigits(s)
  {
    if s == [] then 0 else 10 * DigitsValue(s[..|s| - 1]) + DigitValue(s[|s| - 1])
  }

  /** `int(s)` on ASCII text: an optional sign followed by at least one
      decimal digit; `None` where `int` raises `ValueError`. */
  function ParseInt(s: string): (r: Option<int>)
    ensures r.Some? ==> |s| > 0
  {
    if |s| > 0 && (s[0] == '-' || s[0] == '+') then
      if |s| > 1 && AllDigits(s[1..]) then
        Some(if s[0] == '-' then -(DigitsValue(s[1..]) as int) else DigitsValue(s[1..]))
      else None
    else if |s| > 0 && AllDigits(s) then Some(DigitsValue(s))
    else None
  }

  /** The digits of `n` denote `n`. */
  lemma {:induction false} DigitsOfNat(n: nat)
    ensures DigitsValue(NatToString(n)) == n
  {
    if n >= 10 {
      var s := NatToString(n);
      DigitsOfNat(n / 10);
      assert s[..|s| - 1] == NatToString(n / 10);
    }
  }

  /** `int("-" + s)` on a run of digits is minus their value. */
  lemma ParseNegative(s: string)
    requires |s| > 0 && AllDigits(s)
    ensures ParseInt([Dash] + s) == Some(-(DigitsValue(s) as int))
  {
    assert ([Dash] + s)[1..] == s;
  }

  /** `int(str(n)) == n` and `int("-" + str(n)) == -n`. */
  lemma ParseNatToString(n: nat)
    ensures ParseInt(NatToString(n)) == Some(n)
    ensures ParseInt([Dash] + NatToString(n)) == Some(-(n as int))
  {
    DigitsOfNat(n);
    ParseNegative(NatToString(n));
  }

  /** `str` is one-to-one. */
  lemma NatToStringInjective(m: nat, n: nat)
    requires NatToString(m) == NatToString(n)
    ensures m == n
  {
    DigitsOfNat(m);
    DigitsOfNat(n);
  }

  /** `s.startswith(p)` */
  predicate StartsWith(s: string, p: string)
  {
    |p| <= |s| && s[..|p|] == p
  }

  /** `s[n:]`, which is empty when `s` is shorter than `n`. */
  function Drop(s: string, n: nat): (r: string)
    ensures n <= |s| ==> s == s[..n] + r
    ensures n > |s| ==> r == []
  {
    if n <= |s| then s[n..] else []
  }

  /** `s.split(sep)`: the pieces between occurrences of `sep`, one more
      than there are occurrences, empty pieces included. */
  function Split(s: string, sep: char): (parts: seq<string>)
    ensures |parts| > 0
  {
    if s == [] then [[]]
    else
      var prev := Split(s[..|s| - 1], sep);
      var c := s[|s| - 1];
      if c == sep then prev + [[]] else prev[..|prev| - 1] + [prev[|prev| - 1] + [c]]
  }

  /** `sep.join(parts)` */
  function Join(parts: seq<string>, sep: char): string
    requires |parts| > 0
  {
    if |parts| == 1 then parts[0] else Join(parts[..|parts| - 1], sep) + [sep] + parts[|parts| - 1]
  }

  /** Splitting and joining again gives back the string, and no piece
      holds the separator. */
  lemma {:induction false} SplitJoin(s: string, sep: char)
    ensures Join(Split(s, sep), sep) == s
    ensures forall i :: 0 <= i < |Split(s, sep)| ==> sep !in Split(s, sep)[i]
  {
    if s != [] {
      var init := s[..|s| - 1];
      var prev := Split(init, sep);
      SplitJoin(init, sep);
      var c := s[|s| - 1];
      assert s == init + [c];
      if c == sep {
        assert (prev + [[]])[..|prev|] == prev;
      } else if |prev| == 1 {
        assert Split(s, sep) == [prev[0] + [c]];
      } else {
        var parts := Split(s, sep);
        assert parts[..|parts| - 1] == prev[..|prev| - 1];
        assert Join(prev, sep) == Join(prev[..|prev| - 1], sep) + [sep] + prev[|prev| - 1];
      }
    }
  }

  /** A string without the separator is one piece. */
  lemma {:induction false} SplitWhole(s: string, sep: char)
    requires sep !in s
    ensures Split(s, sep) == [s]
  {
    if s != [] {
      assert s == s[..|s| - 1] + [s[|s| - 1]];
      SplitWhole(s[..|s| - 1], sep);
    }
  }

  /** Appending a separator and a piece without one adds that piece. */
  lemma {:induction false} SplitAppend(a: string, b: string, sep: char)
    requires sep !in b
    ensures Split(a + [sep] + b, sep) == Split(a, sep) + [b]
    decreases |b|
  {
    if b == [] {
      assert (a + [sep] + b)[..|a|] == a;
    } else {
      var init := b[..|b| - 1];
      SplitAppend(a, init, sep);
      assert (a + [sep] + b)[..|a + [sep] + b| - 1] == a + [sep] + init;
      assert init + [b[|b| - 1]] == b;
      assert (Split(a, sep) + [init])[..|Split(a, sep)|] == Split(a, sep);
    }
  }

  /** Joining pieces free of the separator and splitting again gives back
      the pieces. */
  lemma {:induction false} JoinSplit(parts: seq<string>, sep: char)
    requires |parts| > 0
    requires forall i :: 0 <= i < |parts| ==> sep !in parts[i]
    ensures Split(Join(parts, sep), sep) == parts
  {
    if |parts| == 1 {
      SplitWhole(parts[0], sep);
    } else {
      var init, last := parts[..|parts| - 1], parts[|parts| - 1];
      JoinSplit(init, sep);
      SplitAppend(Join(init, sep), last, sep);
      assert Join(parts, sep) == Join(init, sep) + [sep] + last;
      assert init + [last] == parts;
    }
  }

  /** `f"{a}-{b}".split('-') == [a, b]` when neither part holds a dash. */
  lemma SplitPair(a: string, b: string)
    requires Dash !in a && Dash !in b
    ensures Split(a + [Dash] + b, Dash) == [a, b]
  {
    SplitWhole(a, Dash);
    SplitAppend(a, b, Dash);
  }
}
