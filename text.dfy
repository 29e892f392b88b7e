/**
 * Character classes and string helpers shared by both analyzers: Python's
 * whitespace set (used by `str.strip` and by `\s`/`\S`), ASCII digits,
 * substring search (`k in s`), zero-padded decimal rendering and the
 * conversions `int(...)` and `float(...)` on the digit strings the patterns
 * can capture.
 */
module Text {
  import opened Wrappers

  /** Characters Python's `str.isspace` accepts; `\s` in a str pattern and
      the default `str.strip` use the same set. */
  predicate IsSpace(c: char) {
    ('\U{9}' <= c <= '\U{D}') || ('\U{1C}' <= c <= '\U{20}') || c == '\U{85}' || c == '\U{A0}'
    || c == '\U{1680}' || ('\U{2000}' <= c <= '\U{200A}') || c == '\U{2028}' || c == '\U{2029}'
    || c == '\U{202F}' || c == '\U{205F}' || c == '\U{3000}'
  }

  predicate IsDigit(c: char) {
    '0' <= c <= '9'
  }

  predicate IsLower(c: char) {
    'a' <= c <= 'z'
  }

  predicate AllDigits(s: string) {
    forall i :: 0 <= i < |s| ==> IsDigit(s[i])
  }

  predicate NoSpace(s: string) {
    forall i :: 0 <= i < |s| ==> !IsSpace(s[i])
  }

  /** `s` without its leading whitespace. */
  function TrimLeft(s: string): string {
    if s != [] && IsSpace(s[0]) then TrimLeft(s[1..]) else s
  }

  /** `s` without its trailing whitespace. */
  function TrimRight(s: string): string {
    if s != [] && IsSpace(s[|s| - 1]) then TrimRight(s[..|s| - 1]) else s
  }

  /** Trimming on the left drops exactly the leading whitespace: what is
      left is a suffix that starts with a non-space or is empty, and all it
      dropped is whitespace. */
  lemma {:induction false} TrimLeftSpec(s: string)
    ensures var r := TrimLeft(s);
      && |r| <= |s| && r == s[|s| - |r|..]
      && (r == [] || !IsSpace(r[0]))
      && (forall i :: 0 <= i < |s| - |r| ==> IsSpace(s[i]))
  {
    if s != [] && IsSpace(s[0]) {
      var rest := s[1..];
      TrimLeftSpec(rest);
      var r := TrimLeft(rest);
      assert TrimLeft(s) == r;
      assert s[|s| - |r|..] == rest[|rest| - |r|..];
      forall i | 0 <= i < |s| - |r|
        ensures IsSpace(s[i])
      {
        if i > 0 {
          assert s[i] == rest[i - 1];
        }
      }
    }
  }

  /** Trimming on the right drops exactly the trailing whitespace. */
  lemma {:induction false} TrimRightSpec(s: string)
    ensures var r := TrimRight(s);
      && |r| <= |s| && r == s[..|r|]
      && (r == [] || !IsSpace(r[|r| - 1]))
      && (forall i :: |r| <= i < |s| ==> IsSpace(s[i]))
  {
    if s != [] && IsSpace(s[|s| - 1]) {
      var init := s[..|s| - 1];
      TrimRightSpec(init);
      var r := TrimRight(init);
      assert TrimRight(s) == r;
      assert s[..|r|] == init[..|r|];
      forall i | |r| <= i < |s|
        ensures IsSpace(s[i])
      {
        if i < |s| - 1 {
          assert s[i] == init[i];
        }
      }
    }
  }

  /** Python's `s.strip()`. */
  function Strip(s: string): string {
    TrimRight(TrimLeft(s))
  }

  /** A trailing space survives trimming on the left unless nothing else
      does. */
  lemma {:induction false} TrimLeftAppendSpace(s: string, c: char)
    requires IsSpace(c)
    ensures TrimLeft(s + [c]) == if TrimLeft(s) == [] then [] else TrimLeft(s) + [c]
  {
    if s == [] {
      assert (s + [c])[1..] == [];
    } else if IsSpace(s[0]) {
      assert (s + [c])[1..] == s[1..] + [c];
      TrimLeftAppendSpace(s[1..], c);
    }
  }

  /** `strip` drops a trailing space, such as the `\n` a line read from a
      file ends with. */
  lemma StripAppendSpace(s: string, c: char)
    requires IsSpace(c)
    ensures Strip(s + [c]) == Strip(s)
  {
    TrimLeftAppendSpace(s, c);
    var t := TrimLeft(s);
    if t != [] {
      assert (t + [c])[..|t + [c]| - 1] == t;
    }
  }

  /** `k` occurs in `s` at position `i`. */
  predicate OccursAt(s: string, k: string, i: nat) {
    i + |k| <= |s| && s[i..i + |k|] == k
  }

  /** Python's `k in s` for strings: `k` occurs at some position of `s`. */
  predicate Contains(s: string, k: string) {
    exists i: nat | i <= |s| :: OccursAt(s, k, i)
  }

  /** Dropping the first character moves every occurrence one place left. */
  lemma OccursAtShift(s: string, k: string, j: nat)
    requires s != []
    ensures OccursAt(s, k, j + 1) <==> OccursAt(s[1..], k, j)
  {
    if j + 1 + |k| <= |s| {
      assert s[1..][j..j + |k|] == s[j + 1..j + 1 + |k|];
    }
  }

  /** Appending a character that `k` does not end with neither makes nor
      breaks an occurrence of `k`. */
  lemma OccursAtAppend(s: string, k: string, c: char, i: nat)
    requires k != [] && k[|k| - 1] != c
    ensures OccursAt(s + [c], k, i) <==> OccursAt(s, k, i)
  {
    var t := s + [c];
    if i + |k| <= |s| {
      assert t[i..i + |k|] == s[i..i + |k|];
    } else if i + |k| == |t| {
      assert t[i..i + |k|][|k| - 1] == c;
    }
  }

  /** `k in s + c` is `k in s` when `k` does not end with `c`. */
  lemma ContainsAppend(s: string, k: string, c: char)
    requires k != [] && k[|k| - 1] != c
    ensures Contains(s + [c], k) <==> Contains(s, k)
  {
    if Contains(s + [c], k) {
      var i: nat :| i <= |s + [c]| && OccursAt(s + [c], k, i);
      OccursAtAppend(s, k, c, i);
    }
    if Contains(s, k) {
      var i: nat :| i <= |s| && OccursAt(s, k, i);
      OccursAtAppend(s, k, c, i);
    }
  }

  /** Text that reading a file line by line keeps in one piece. */
  predicate SingleLine(s: string) {
    '\n' !in s && '\r' !in s
  }

  /** An occurrence of `k` at position `i` of `s` makes `k in s` true. */
  lemma ContainsAt(s: string, k: string, i: nat)
    requires i + |k| <= |s| && s[i..i + |k|] == k
    ensures Contains(s, k)
  {
    assert OccursAt(s, k, i);
  }

  /** A string is in any text that starts with it. */
  lemma ContainsPrefix(s: string, k: string)
    requires k <= s
    ensures Contains(s, k)
  {
    ContainsAt(s, k, 0);
  }

  /** A string is in any text that has it in the middle. */
  lemma ContainsMiddle(a: string, b: string, c: string)
    ensures Contains(a + b + c, b)
  {
    assert (a + b + c)[|a|..|a| + |b|] == b;
    ContainsAt(a + b + c, b, |a|);
  }

  /** Text in front keeps what is in a string. */
  lemma ContainsAfterPrefix(a: string, s: string, k: string)
    requires Contains(s, k)
    ensures Contains(a + s, k)
  {
    var j: nat :| j <= |s| && OccursAt(s, k, j);
    assert (a + s)[|a| + j..|a| + j + |k|] == s[j..j + |k|];
    ContainsAt(a + s, k, |a| + j);
  }

  /** `k` is not in `s` when one of its characters is not. */
  lemma MissingChar(s: string, k: string, c: char)
    requires c in k && c !in s
    ensures !Contains(s, k)
  {
    var j :| 0 <= j < |k| && k[j] == c;
    forall i: nat
      ensures !OccursAt(s, k, i)
    {
      if i + |k| <= |s| {
        assert s[i..i + |k|][j] == s[i + j];
      }
    }
  }

  /** No occurrence of `k` starts inside the first |p| characters of `p + m`. */
  ghost predicate NoStartIn(p: string, m: string, k: string) {
    forall i :: 0 <= i < |p| ==> !(k <= (p + m)[i..])
  }

  /** Putting `p` in front of `m` does not change `k in _` when no occurrence
      of `k` can start inside `p`. */
  lemma ContainsAfter(p: string, m: string, k: string)
    requires NoStartIn(p, m, k)
    ensures Contains(p + m, k) <==> Contains(m, k)
  {
    var s := p + m;
    forall i: nat | i < |p|
      ensures !OccursAt(s, k, i)
    {
      assert !(k <= s[i..]);
      if i + |k| <= |s| {
        assert s[i..][..|k|] == s[i..i + |k|];
      }
    }
    if Contains(s, k) {
      var i: nat :| i <= |s| && OccursAt(s, k, i);
      assert m[i - |p|..i - |p| + |k|] == s[i..i + |k|];
      ContainsAt(m, k, i - |p|);
    }
    if Contains(m, k) {
      ContainsAfterPrefix(p, m, k);
    }
  }

  /** When the first character of `k` does not occur in `p`, no occurrence of
      `k` starts inside `p`. */
  lemma FirstCharAbsent(p: string, m: string, k: string)
    requires k != [] && k[0] !in p
    ensures NoStartIn(p, m, k)
  {
    forall i | 0 <= i < |p|
      ensures !(k <= (p + m)[i..])
    {
      assert (p + m)[i..][0] == p[i];
    }
  }

  /** The value of an ASCII digit character. */
  function DigitValue(c: char): (d: nat)
    requires IsDigit(c)
    ensures d < 10
  {
    (c as int - '0' as int) as nat
  }

  function DigitChar(d: nat): (c: char)
    requires d < 10
    ensures IsDigit(c) && DigitValue(c) == d
  {
    ('0' as int + d) as char
  }

  /** Python's `int(s)` on a string of ASCII digits (the empty string gives 0). */
  function DigitsValue(s: string): nat
    requires AllDigits(s)
  {
    if s == [] then 0 else DigitsValue(s[..|s| - 1]) * 10 + DigitValue(s[|s| - 1])
  }

  /** `w` digits start at position `i` of `s`. */
  predicate DigitsAt(s: string, i: nat, w: nat) {
    i + w <= |s| && AllDigits(s[i..i + w])
  }

  function NumberAt(s: string, i: nat, w: nat): nat
    requires DigitsAt(s, i, w)
  {
    DigitsValue(s[i..i + w])
  }

  function Pow10(n: nat): (r: nat)
    ensures r >= 1
  {
    if n == 0 then 1 else 10 * Pow10(n - 1)
  }

  /** The last `width` decimal digits of `n`, zero-padded (`%0<width>d` when n < 10^width). */
  function Padded(n: nat, width: nat): (r: string)
    ensures |r| == width && AllDigits(r)
  {
    if width == 0 then "" else Padded(n / 10, width - 1) + [DigitChar(n % 10)]
  }

  /** Reading back a zero-padded rendering gives the number again. */
  lemma {:induction false} PaddedValue(n: nat, width: nat)
    requires n < Pow10(width)
    ensures DigitsValue(Padded(n, width)) == n
  {
    if width > 0 {
      var r := Padded(n, width);
      assert r[..|r| - 1] == Padded(n / 10, width - 1);
      PaddedValue(n / 10, width - 1);
    }
  }

  /** Decimal rendering of a natural number without leading zeros (`str(n)`). */
  function NatToString(n: nat): (r: string)
    ensures |r| >= 1 && AllDigits(r)
  {
    if n < 10 then [DigitChar(n)] else NatToString(n / 10) + [DigitChar(n % 10)]
  }

  /** `str(i)` for an integer. */
  function IntToString(i: int): string {
    if i < 0 then "-" + NatToString(-i) else NatToString(i)
  }

  predicate IsDigitOrDot(c: char) {
    IsDigit(c) || c == '.'
  }

  /** A run of `[\d.]+`, as the monitoring pattern captures it, that Python's
      `float` accepts: at most one dot and at least one digit. */
  predicate IsDecimalText(s: string) {
    && s != []
    && (forall i :: 0 <= i < |s| ==> IsDigitOrDot(s[i]))
    && ParseDecimal(s).Some?
  }

  /** Python's `float(s)` on a string made of digits and dots: `None` when
      `float` raises `ValueError` (two or more dots, or no digit at all). */
  function ParseDecimal(s: string): (r: Option<real>)
    ensures r.Some? ==> r.value >= 0.0
  {
    if AllDigits(s) then
      if s == [] then None else Some(DigitsValue(s) as real)
    else
      var k := FirstNonDigit(s);
      var whole, frac := s[..k], s[k + 1..];
      if s[k] == '.' && AllDigits(frac) && |whole| + |frac| > 0 then
        Some(DigitsValue(whole) as real + DigitsValue(frac) as real / Pow10(|frac|) as real)
      else None
  }

  /** Index of the first character of `s` that is not a digit. */
  function FirstNonDigit(s: string): (k: nat)
    requires !AllDigits(s)
    ensures k < |s| && !IsDigit(s[k]) && AllDigits(s[..k])
  {
    if !IsDigit(s[0]) then 0 else
      var k := FirstNonDigit(s[1..]) + 1;
      assert s[..k] == [s[0]] + s[1..][..k - 1];
      k
  }
}
