/** The Python string built-ins that gbf.py relies on: the `in` substring
    test, `str.split()` with no argument, the slice `s[0:-2]` and `int()` on
    a decimal token. */
module PyText {
  import opened Common

  /** `sub` starts at position `i` of `s`. */
  predicate OccursAt(s: string, sub: string, i: int) {
    0 <= i && i + |sub| <= |s| && s[i..i + |sub|] == sub
  }

  /** Python's `sub in s` on two strings: only a string no longer than `s`
      can occur in it. */
  predicate Contains(s: string, sub: string)
    ensures Contains(s, sub) ==> |sub| <= |s|
  {
    exists i | 0 <= i <= |s| :: OccursAt(s, sub, i)
  }

  lemma ContainsOwnPrefix(s: string, t: string)
    ensures Contains(s + t, s)
  {
    assert OccursAt(s + t, s, 0);
  }

  /** The whitespace characters of Python's `str.isspace`. */
  predicate IsSpace(c: char) {
    var n := c as int;
    n == 0x20 || 0x09 <= n <= 0x0d || 0x1c <= n <= 0x1f || n == 0x85 || n == 0xa0 ||
    n == 0x1680 || 0x2000 <= n <= 0x200a || n == 0x2028 || n == 0x2029 ||
    n == 0x202f || n == 0x205f || n == 0x3000
  }

  predicate NoSpace(w: string) {
    forall i :: 0 <= i < |w| ==> !IsSpace(w[i])
  }

  /** Length of the run of non-whitespace characters that starts `s`. */
  function WordLength(s: string): (n: nat)
    ensures n <= |s|
    ensures forall i :: 0 <= i < n ==> !IsSpace(s[i])
    ensures n < |s| ==> IsSpace(s[n])
  {
    if s == [] || IsSpace(s[0]) then 0 else 1 + WordLength(s[1..])
  }

  /** Python's `s.split()`: the maximal runs of non-whitespace characters of
      `s`, in order. */
  function Split(s: string): (words: seq<string>)
    ensures forall w <- words :: w != [] && NoSpace(w)
    decreases |s|
  {
    if s == [] then []
    else if IsSpace(s[0]) then Split(s[1..])
    else
      var n := WordLength(s);
      [s[..n]] + Split(s[n..])
  }

  /** The words joined by single spaces: what `split` takes apart. */
  function Join(words: seq<string>): string {
    if |words| == 0 then ""
    else if |words| == 1 then words[0]
    else words[0] + " " + Join(words[1..])
  }

  lemma {:induction false} SplitWord(w: string)
    requires w != [] && NoSpace(w)
    ensures Split(w) == [w]
  {
    assert WordLength(w) == |w|;
    assert w[..|w|] == w;
    assert w[|w|..] == [];
  }

  lemma {:induction false} SplitSpace(rest: string)
    ensures Split(" " + rest) == Split(rest)
  {
    assert (" " + rest)[1..] == rest;
  }

  /** A word followed by a space is the first word `split` yields. */
  lemma {:induction false} SplitFirstWord(w: string, rest: string)
    requires w != [] && NoSpace(w)
    ensures Split(w + " " + rest) == [w] + Split(rest)
  {
    var s := w + " " + rest;
    assert s[|w|] == ' ';
    assert WordLength(s) == |w| by {
      forall i | 0 <= i < |w| ensures s[i] == w[i] { }
    }
    assert s[..|w|] == w;
    assert s[|w|..] == " " + rest;
    SplitSpace(rest);
  }

  /** `split` undoes `Join` on words that are non-empty and hold no whitespace. */
  lemma {:induction false} SplitJoin(words: seq<string>)
    requires forall w <- words :: w != [] && NoSpace(w)
    ensures Split(Join(words)) == words
    decreases |words|
  {
    if |words| == 1 {
      assert words[0] in words;
      SplitWord(words[0]);
    } else if |words| > 1 {
      assert words[0] in words;
      SplitFirstWord(words[0], Join(words[1..]));
      assert forall v <- words[1..] :: v in words;
      SplitJoin(words[1..]);
    }
  }

  /** Python's `s[0:-2]`: all but the last two characters, or nothing when
      `s` is shorter than two. */
  function DropLastTwo(s: string): (r: string)
    ensures |r| == if |s| >= 2 then |s| - 2 else 0
    ensures r <= s
  {
    s[..if |s| >= 2 then |s| - 2 else 0]
  }

  predicate IsDigit(c: char) {
    '0' <= c <= '9'
  }

  /** Decimal digits in which single underscores may separate two digits,
      as Python's `int()` accepts them. */
  predicate IsDigitRun(s: string) {
    |s| > 0 && IsDigit(s[0]) && IsDigit(s[|s| - 1]) &&
    forall i :: 0 <= i < |s| ==>
      IsDigit(s[i]) || (0 < i < |s| - 1 && s[i] == '_' && IsDigit(s[i - 1]) && IsDigit(s[i + 1]))
  }

  /** The number the digits of `s` spell, underscores skipped. */
  function DigitsValue(s: string): nat {
    if s == [] then 0
    else
      var rest := DigitsValue(s[..|s| - 1]);
      var last := s[|s| - 1];
      if IsDigit(last) then rest * 10 + (last as int - '0' as int) else rest
  }

  /** Python's `int(s)` on a string without whitespace: an optional sign,
      then a digit run; anything else is a ValueError, here `None`. */
  function ParseInt(s: string): (r: Option<int>)
    ensures r.Some? ==> |s| > 0
    ensures r.Some? && r.value < 0 ==> s[0] == '-'
    ensures IsDigitRun(s) ==> r == Some(DigitsValue(s))
    ensures r.Some? <==> IsDigitRun(s) || (|s| > 0 && (s[0] == '+' || s[0] == '-') && IsDigitRun(s[1..]))
    ensures |s| > 0 && (s[0] == '+' || s[0] == '-') && IsDigitRun(s[1..]) ==>
      r == Some(if s[0] == '-' then -(DigitsValue(s[1..]) as int) else DigitsValue(s[1..]))
  {
    if |s| > 0 && (s[0] == '+' || s[0] == '-') then
      if IsDigitRun(s[1..]) then
        var v: int := DigitsValue(s[1..]);
        Some(if s[0] == '-' then -v else v)
      else None
    else if IsDigitRun(s) then Some(DigitsValue(s))
    else None
  }

  function DigitChar(d: nat): (c: char)
    requires d < 10
    ensures IsDigit(c) && c as int - '0' as int == d
  {
    ('0' as int + d) as char
  }

  /** Python's `str(n)` for a natural number. */
  function ShowNat(n: nat): (s: string)
    ensures s != [] && forall i :: 0 <= i < |s| ==> IsDigit(s[i])
  {
    if n < 10 then [DigitChar(n)] else ShowNat(n / 10) + [DigitChar(n % 10)]
  }

  lemma {:induction false} ShowNatValue(n: nat)
    ensures DigitsValue(ShowNat(n)) == n
  {
    if n < 10 {
      assert [DigitChar(n)][..0] == [];
    } else {
      var s := ShowNat(n);
      assert s[..|s| - 1] == ShowNat(n / 10);
      ShowNatValue(n / 10);
    }
  }

  /** `int` reads back what `str` writes. */
  lemma ParseShowNat(n: nat)
    ensures ParseInt(ShowNat(n)) == Some(n)
  {
    ShowNatValue(n);
  }

  /** `int` raises ValueError on every token without a decimal digit, such
      as the empty token, a lone sign, or a bare `%`. */
  lemma ParseIntNeedsDigit(s: string)
    requires forall i :: 0 <= i < |s| ==> !IsDigit(s[i])
    ensures ParseInt(s) == None
  {
    if |s| > 1 {
      assert s[1..][0] == s[1];
    }
  }
}
