/**
 * The pieces of Python's `str` and `int` behaviour that the report pipeline
 * relies on: `str.isspace`/`str.strip`, `int(text)`, `str(number)`,
 * `str.split(sep)`, `sub in s`, `s.endswith(sub)` and the slice `s[:n]`.
 * Strings are sequences of Unicode scalar values, as Python's are sequences
 * of code points, so slicing counts code points.
 */
module PyText {
  import opened Wrappers

  /** `c.isspace()`: the characters Python treats as whitespace. */
  predicate IsSpace(c: char) {
    var k := c as int;
    (0x09 <= k <= 0x0d) || (0x1c <= k <= 0x20) || k == 0x85 || k == 0xa0 || k == 0x1680
    || (0x2000 <= k <= 0x200a) || k == 0x2028 || k == 0x2029 || k == 0x202f
    || k == 0x205f || k == 0x3000
  }

  /**
   * Which characters a strip removes. `str.strip()` removes every `isspace`
   * character. `int()` skips, among ASCII characters, only tab, line feed,
   * vertical tab, form feed, carriage return and space, and every non-ASCII
   * `isspace` character: it does not skip the separators U+001C..U+001F.
   */
  datatype Blanks = TextBlanks | NumberBlanks

  predicate IsBlank(b: Blanks, c: char) {
    IsSpace(c) && (b == NumberBlanks ==> !(0x1c <= c as int <= 0x1f))
  }

  predicate AllBlank(b: Blanks, s: string) {
    forall i | 0 <= i < |s| :: IsBlank(b, s[i])
  }

  /** Every character is `isspace`. */
  predicate AllSpace(s: string) {
    AllBlank(TextBlanks, s)
  }

  /** The text after its leading blanks: `s.lstrip()` for `TextBlanks`. */
  function LStrip(s: string, b: Blanks): (r: string)
    ensures |r| <= |s| && r == s[|s| - |r|..]
    ensures AllBlank(b, s[..|s| - |r|])
    ensures r == [] || !IsBlank(b, r[0])
  {
    if |s| > 0 && IsBlank(b, s[0]) then
      var r := LStrip(s[1..], b);
      assert s[1..][..|s| - 1 - |r|] == s[1..|s| - |r|];
      r
    else s
  }

  /** The text before its trailing blanks: `s.rstrip()` for `TextBlanks`. */
  function RStrip(s: string, b: Blanks): (r: string)
    ensures r <= s
    ensures AllBlank(b, s[|r|..])
    ensures r == [] || !IsBlank(b, r[|r| - 1])
  {
    if |s| > 0 && IsBlank(b, s[|s| - 1]) then
      var t := s[..|s| - 1];
      var r := RStrip(t, b);
      forall k | |r| <= k < |s| ensures IsBlank(b, s[k]) {
        if k < |s| - 1 {
          assert s[k] == t[|r|..][k - |r|];
        }
      }
      r
    else s
  }

  /** `s.strip()` */
  function Strip(s: string): string {
    RStrip(LStrip(s, TextBlanks), TextBlanks)
  }

  /** The surrounding blanks `int()` skips, removed. */
  function NumberStrip(s: string): string {
    RStrip(LStrip(s, NumberBlanks), NumberBlanks)
  }

  /** `s.strip()` is empty exactly when every character is whitespace. */
  lemma StripEmptyIffBlank(s: string)
    ensures Strip(s) == [] <==> AllSpace(s)
  {
    var l := LStrip(s, TextBlanks);
    assert |l| > 0 ==> l[0] == s[|s| - |l|];
    if Strip(s) == [] {
      assert AllBlank(TextBlanks, l[0..]);
      assert l == [];
      assert s[..|s|] == s;
    }
  }

  predicate IsDigit(c: char) {
    '0' <= c <= '9'
  }

  function DigitChar(d: nat): (c: char)
    requires d < 10
    ensures IsDigit(c)
  {
    ('0' as int + d) as char
  }

  function DigitValue(c: char): (d: nat)
    requires IsDigit(c)
    ensures d < 10 && DigitChar(d) == c
  {
    c as int - '0' as int
  }

  predicate DigitsOrUnderscores(s: string) {
    forall i | 0 <= i < |s| :: IsDigit(s[i]) || s[i] == '_'
  }

  /**
   * The digit part `int()` accepts: decimal digits, with single underscores
   * allowed between two digits (`1_000`).
   */
  predicate ValidDigits(s: string) {
    && |s| > 0
    && IsDigit(s[0])
    && IsDigit(s[|s| - 1])
    && DigitsOrUnderscores(s)
    && forall i | 0 <= i < |s| - 1 :: !(s[i] == '_' && s[i + 1] == '_')
  }

  /** The number a run of digits denotes, underscores ignored. */
  function DigitsValue(s: string): nat
    requires DigitsOrUnderscores(s)
  {
    if s == [] then 0
    else if s[|s| - 1] == '_' then DigitsValue(s[..|s| - 1])
    else 10 * DigitsValue(s[..|s| - 1]) + DigitValue(s[|s| - 1])
  }

  /**
   * `int(s)` for a string: the surrounding blanks it skips are removed, then
   * an optional sign and a decimal digit run must make up the rest.
   * None stands for the ValueError Python raises.
   */
  function ParseInt(s: string): Option<int> {
    ParseStripped(NumberStrip(s))
  }

  /** `int()` on text whose surrounding whitespace is already gone. */
  function ParseStripped(t: string): (r: Option<int>)
    ensures r.Some? ==> exists i | 0 <= i < |t| :: IsDigit(t[i])
  {
    if |t| > 0 && (t[0] == '-' || t[0] == '+') then
      var body := t[1..];
      if ValidDigits(body) then
        assert t[1] == body[0];
        var v: int := DigitsValue(body);
        Some(if t[0] == '-' then -v else v)
      else None
    else if ValidDigits(t) then
      Some(DigitsValue(t))
    else None
  }

  /** `str(n)` for a natural number: its decimal digits, no leading zero. */
  function NatText(n: nat): (r: string)
    ensures |r| > 0 && forall i | 0 <= i < |r| :: IsDigit(r[i])
    ensures |r| > 1 ==> r[0] != '0'
  {
    if n < 10 then [DigitChar(n)] else NatText(n / 10) + [DigitChar(n % 10)]
  }

  /** `str(n)` for an integer. */
  function IntText(n: int): (r: string)
    ensures |r| > 0 && !IsSpace(r[0]) && !IsSpace(r[|r| - 1])
    ensures forall i | 0 <= i < |r| :: IsDigit(r[i]) || (i == 0 && r[i] == '-')
  {
    if n < 0 then "-" + NatText(-n) else NatText(n)
  }

  lemma {:induction false} NatTextValue(n: nat)
    ensures ValidDigits(NatText(n)) && DigitsValue(NatText(n)) == n
  {
    if n >= 10 {
      NatTextValue(n / 10);
      var r := NatText(n);
      assert r[..|r| - 1] == NatText(n / 10);
    }
  }

  /** A text with no blank at either end is left as it is. */
  lemma StripUnpadded(s: string, b: Blanks)
    requires |s| > 0 && !IsBlank(b, s[0]) && !IsBlank(b, s[|s| - 1])
    ensures RStrip(LStrip(s, b), b) == s
  {
  }

  /** LStrip drops a prefix of blanks in front of a text that starts with a non-blank. */
  lemma {:induction false} LStripPadded(pad: string, s: string, b: Blanks)
    requires AllBlank(b, pad) && |s| > 0 && !IsBlank(b, s[0])
    ensures LStrip(pad + s, b) == s
  {
    if pad != [] {
      assert (pad + s)[1..] == pad[1..] + s;
      LStripPadded(pad[1..], s, b);
    }
  }

  lemma ParseStrippedText(n: int)
    ensures ParseStripped(IntText(n)) == Some(n)
  {
    var r := IntText(n);
    if n < 0 {
      NatTextValue(-n);
      assert r[1..] == NatText(-n);
    } else {
      NatTextValue(n);
      assert r == NatText(n);
      assert IsDigit(r[0]);
    }
  }

  /**
   * `int()` refuses text that starts with something other than a blank it
   * skips, a sign or a digit.
   */
  lemma ParseRejectsWord(t: string)
    requires |t| > 0 && !IsBlank(NumberBlanks, t[0]) && !IsBlank(NumberBlanks, t[|t| - 1])
    requires !IsDigit(t[0]) && t[0] != '-' && t[0] != '+'
    ensures ParseInt(t) == None
  {
    StripUnpadded(t, NumberBlanks);
    StrippedRejectsWord(t);
  }

  /** Without its blanks, text that starts with neither a sign nor a digit is refused. */
  lemma StrippedRejectsWord(t: string)
    requires |t| > 0 && !IsDigit(t[0]) && t[0] != '-' && t[0] != '+'
    ensures ParseStripped(t) == None
  {
    assert !ValidDigits(t);
  }

  /**
   * `int(str(n)) == n`, also after leading blanks that `int()` skips: `str`
   * and `int` are inverse.
   */
  lemma ParseIntText(pad: string, n: int)
    requires AllBlank(NumberBlanks, pad)
    ensures ParseInt(pad + IntText(n)) == Some(n)
  {
    var r := IntText(n);
    LStripPadded(pad, r, NumberBlanks);
    StripUnpadded(r, NumberBlanks);
    ParseStrippedText(n);
  }

  /**
   * The information separator U+001C is whitespace to `str.strip()` but not
   * to `int()`: `"\x1c5".strip()` is "5", while `int("\x1c5")` raises.
   */
  lemma SeparatorIsNotNumberBlank()
    ensures Strip("\U{1c}5") == "5"
    ensures ParseInt("\U{1c}5") == None
  {
    SeparatorStripped();
    SeparatorRefused();
  }

  lemma SeparatorStripped()
    ensures Strip("\U{1c}5") == "5"
  {
    var pad := "\U{1c}";
    assert AllBlank(TextBlanks, pad) && pad + "5" == "\U{1c}5";
    LStripPadded(pad, "5", TextBlanks);
    StripUnpadded("5", TextBlanks);
  }

  lemma SeparatorRefused()
    ensures ParseInt("\U{1c}5") == None
  {
    var s := "\U{1c}5";
    assert !IsBlank(NumberBlanks, s[0]) && !IsBlank(NumberBlanks, s[1]);
    ParseRejectsWord(s);
  }


  /** Distinct numbers have distinct decimal texts. */
  lemma IntTextInjective(m: int, n: int)
    requires IntText(m) == IntText(n)
    ensures m == n
  {
    ParseIntText("", m);
    ParseIntText("", n);
    assert "" + IntText(m) == IntText(m);
    assert "" + IntText(n) == IntText(n);
  }

  /** `s.split(sep)`: the pieces between occurrences of `sep`, always at least one. */
  function Split(s: string, sep: char): (parts: seq<string>)
    ensures |parts| >= 1
    ensures forall i | 0 <= i < |parts| :: sep !in parts[i]
  {
    if s == [] then [""]
    else
      var rest := Split(s[1..], sep);
      if s[0] == sep then [""] + rest else [[s[0]] + rest[0]] + rest[1..]
  }

  /** Appending a text to a text is associative. */
  lemma Assoc(a: string, b: string, c: string)
    ensures a + b + c == a + (b + c)
  {
  }

  /** `s.split(sep)[-1]`: the text after the last separator. */
  function LastSegment(s: string, sep: char): string {
    var parts := Split(s, sep);
    parts[|parts| - 1]
  }

  /** `sep.join(parts)` */
  function Join(parts: seq<string>, sep: char): string
    requires |parts| >= 1
  {
    if |parts| == 1 then parts[0] else parts[0] + [sep] + Join(parts[1..], sep)
  }

  /** Joining the pieces of a split gives back the original text. */
  lemma {:induction false} JoinSplit(s: string, sep: char)
    ensures Join(Split(s, sep), sep) == s
  {
    if s != [] {
      JoinSplit(s[1..], sep);
      var rest := Split(s[1..], sep);
      if s[0] != sep && |rest| > 1 {
        assert Join(rest, sep) == rest[0] + [sep] + Join(rest[1..], sep);
        assert ([[s[0]] + rest[0]] + rest[1..])[1..] == rest[1..];
      }
    }
  }

  /** Splitting at one occurrence of the separator splits both sides independently. */
  lemma {:induction false} SplitAppend(a: string, sep: char, b: string)
    ensures Split(a + [sep] + b, sep) == Split(a, sep) + Split(b, sep)
  {
    if a == [] {
      assert [sep] + b == a + [sep] + b;
      assert ([sep] + b)[1..] == b;
    } else {
      assert (a + [sep] + b)[1..] == a[1..] + [sep] + b;
      SplitAppend(a[1..], sep, b);
    }
  }

  /** A text without the separator splits into itself. */
  lemma {:induction false} SplitNoSep(a: string, sep: char)
    requires sep !in a
    ensures Split(a, sep) == [a]
  {
    if a != [] {
      SplitNoSep(a[1..], sep);
      assert [a[0]] + a[1..] == a;
    }
  }

  /** `s.endswith(suffix)` */
  predicate EndsWith(s: string, suffix: string) {
    |suffix| <= |s| && s[|s| - |suffix|..] == suffix
  }

  /** A text that ends with `t` ends with whatever `t` ends with. */
  lemma EndsWithEnd(s: string, t: string, u: string)
    requires EndsWith(s, t) && EndsWith(t, u)
    ensures EndsWith(s, u)
  {
    assert s[|s| - |u|..] == s[|s| - |t|..][|t| - |u|..];
  }

  /** `sub in s` */
  predicate Contains(s: string, sub: string)
    decreases |s|
  {
    sub <= s || (|s| > 0 && Contains(s[1..], sub))
  }

  /** `sub` occurs in `s` starting at index `i`. */
  predicate OccursAt(s: string, sub: string, i: int) {
    0 <= i <= |s| - |sub| && s[i..i + |sub|] == sub
  }

  /** `sub in s` holds exactly when `sub` occurs at some position of `s`. */
  lemma {:induction false} ContainsAt(s: string, sub: string)
    ensures Contains(s, sub) <==> exists i :: OccursAt(s, sub, i)
    decreases |s|
  {
    if sub <= s {
      assert OccursAt(s, sub, 0);
    } else if |s| > 0 {
      ContainsAt(s[1..], sub);
      if exists i :: OccursAt(s, sub, i) {
        var i :| OccursAt(s, sub, i);
        assert i != 0;
        assert s[1..][i - 1..i - 1 + |sub|] == sub;
        assert OccursAt(s[1..], sub, i - 1);
      }
      if Contains(s[1..], sub) {
        var i :| OccursAt(s[1..], sub, i);
        assert s[i + 1..i + 1 + |sub|] == sub;
        assert OccursAt(s, sub, i + 1);
      }
    } else {
      assert forall i :: !OccursAt(s, sub, i);
    }
  }

  /** `s[:n]`: the first `n` characters, or all of `s` when it is shorter. */
  function Truncate(s: string, n: nat): (r: string)
    ensures r <= s
    ensures |r| == if |s| < n then |s| else n
  {
    if |s| <= n then s else s[..n]
  }
}
