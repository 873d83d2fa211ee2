/** The string operations of Python that the modelled code relies on:
    `str(int)`, `int(str)`, `str.zfill`, `str.split`, `in` on strings,
    `str.strip`, slicing with negative bounds and list indexing.
    Digits and word characters are the ASCII ones (see README, "Left out").
 */
module Text {
  import opened Base

  predicate IsDigit(c: char) {
    '0' <= c <= '9'
  }

  predicate AllDigits(s: string) {
    forall i :: 0 <= i < |s| ==> IsDigit(s[i])
  }

  function DigitChar(d: nat): (c: char)
    requires d < 10
    ensures IsDigit(c)
  {
    ('0' as int + d) as char
  }

  function DigitValue(c: char): (d: nat)
    requires IsDigit(c)
    ensures d < 10 && DigitChar(d) == c
  {
    c as int - '0' as int
  }

  /** Python `str(n)` for a non-negative integer: decimal, no leading zeros. */
  function NatToString(n: nat): (s: string)
    ensures 1 <= |s| && AllDigits(s)
    ensures (|s| == 1) == (n < 10)
    ensures |s| > 1 ==> s[0] != '0'
  {
    if n < 10 then [DigitChar(n)] else NatToString(n / 10) + [DigitChar(n % 10)]
  }

  /** The value of a string of decimal digits, most significant first. */
  function DigitsValue(s: string): nat
    requires AllDigits(s)
  {
    if |s| == 0 then 0 else DigitsValue(s[..|s| - 1]) * 10 + DigitValue(s[|s| - 1])
  }

  function Pow10(k: nat): (r: nat)
    ensures r >= 1
  {
    if k == 0 then 1 else 10 * Pow10(k - 1)
  }

  /** A string of k digits denotes a number below 10^k. */
  lemma {:induction false} DigitsValueBound(s: string)
    requires AllDigits(s)
    ensures DigitsValue(s) < Pow10(|s|)
  {
    if |s| > 0 {
      DigitsValueBound(s[..|s| - 1]);
    }
  }

  lemma {:induction false} DigitsValueOfNatToString(n: nat)
    ensures DigitsValue(NatToString(n)) == n
  {
    if n >= 10 {
      var s := NatToString(n);
      assert s[..|s| - 1] == NatToString(n / 10);
      DigitsValueOfNatToString(n / 10);
    }
  }

  /** Decimal rendering loses nothing: distinct numbers print differently. */
  lemma NatToStringInjective(a: nat, b: nat)
    requires NatToString(a) == NatToString(b)
    ensures a == b
  {
    DigitsValueOfNatToString(a);
    DigitsValueOfNatToString(b);
  }

  /** Python `str(n)` for any integer. */
  function IntToString(n: int): string {
    if n < 0 then "-" + NatToString(-n) else NatToString(n)
  }

  /** The digit run of an `int()` literal: decimal digits, where a single
      underscore may separate two of them (PEP 515 grouping). */
  predicate Grouped(u: string)
    decreases |u|
  {
    |u| > 0 && IsDigit(u[0]) &&
    (|u| == 1 || if u[1] == '_' then Grouped(u[2..]) else Grouped(u[1..]))
  }

  /** The digits of a grouped run with the underscores removed. */
  function Ungroup(u: string): (d: string)
    requires Grouped(u)
    ensures |d| > 0 && AllDigits(d)
    decreases |u|
  {
    if |u| == 1 then u
    else [u[0]] + Ungroup(if u[1] == '_' then u[2..] else u[1..])
  }

  /** The value of an unsigned digit run, or None when it is not one. */
  function GroupedValue(u: string): (r: Option<nat>)
    ensures r.Some? <==> Grouped(u)
  {
    if Grouped(u) then Some(DigitsValue(Ungroup(u))) else None
  }

  /** `int()` of text already stripped of surrounding whitespace: an
      optional sign and a grouped run of decimal digits. */
  function ParseLiteral(t: string): (r: Option<int>)
    ensures r.Some? ==> |t| > 0 && !IsSpace(t[0])
    ensures r.Some? && r.value < 0 ==> t[0] == '-'
  {
    if |t| > 0 && (t[0] == '-' || t[0] == '+') then
      match GroupedValue(t[1..])
      case None => None
      case Some(v) => Some(if t[0] == '-' then 0 - (v as int) else v)
    else GroupedValue(t)
  }

  /** Python `int(s)`: surrounding `IntSpace` whitespace is stripped, then
      an optional sign and a grouped run of decimal digits must make up the
      rest; anything else raises ValueError. */
  function ParseInt(s: string): (r: Option<int>)
    ensures r.Some? ==> |IntStrip(s)| > 0
  {
    ParseLiteral(IntStrip(s))
  }

  /** A plain run of digits is grouped, and ungrouping leaves it alone. */
  lemma {:induction false} UngroupOfDigits(u: string)
    requires |u| > 0 && AllDigits(u)
    ensures Grouped(u) && Ungroup(u) == u
    decreases |u|
  {
    if |u| > 1 {
      assert u[1] != '_';
      UngroupOfDigits(u[1..]);
      assert [u[0]] + u[1..] == u;
    }
  }

  /** An underscore between two digit runs is a valid grouping, and it
      contributes nothing to the digits. */
  lemma {:induction false} UngroupJoin(a: string, b: string)
    requires |a| > 0 && |b| > 0 && AllDigits(a) && AllDigits(b)
    ensures Grouped(a + "_" + b) && Ungroup(a + "_" + b) == a + b
    decreases |a|
  {
    var u := a + "_" + b;
    UngroupOfDigits(b);
    if |a| == 1 {
      assert u[1] == '_' && u[2..] == b;
    } else {
      assert u[1] == a[1];
      assert u[1..] == a[1..] + "_" + b;
      UngroupJoin(a[1..], b);
      assert [a[0]] + (a[1..] + b) == a + b;
    }
  }

  /** A string with no `int()` whitespace at either end is its own strip. */
  lemma StripUntrimmed(s: string)
    requires |s| > 0 && !IntSpace(s[0]) && !IntSpace(s[|s| - 1])
    ensures IntStrip(s) == s
    ensures ParseInt(s) == ParseLiteral(s)
  {
  }

  /** A plain run of decimal digits is grouped and denotes its value. */
  lemma GroupedValueOfDigits(t: string)
    requires |t| > 0 && AllDigits(t)
    ensures GroupedValue(t) == Some(DigitsValue(t))
  {
    UngroupOfDigits(t);
  }

  /** A plain run of decimal digits reads as its value. */
  lemma ParseIntOfDigits(t: string)
    requires |t| > 0 && AllDigits(t)
    ensures ParseInt(t) == Some(DigitsValue(t))
  {
    StripUntrimmed(t);
    UnsignedLiteral(t);
    GroupedValueOfDigits(t);
  }

  /** `int()` ignores one whitespace character on either side. */
  lemma ParseIntIgnoresPadding(s: string, c: char, d: char)
    requires IntSpace(c) && IntSpace(d)
    ensures ParseInt([c] + s + [d]) == ParseInt(s)
  {
    var t := [c] + s + [d];
    assert t[1..] == s + [d];
    assert StripLeft(t, true) == StripLeft(s + [d], true);
    StripLeftAppend(s, [d], true);
    var l := StripLeft(s, true);
    if l == "" {
      assert StripLeft([d], true) == "" by { assert [d][1..] == ""; }
      assert StripLeft(t, true) == "";
      assert IntStrip(t) == "" == IntStrip(s);
    } else {
      var ld := l + [d];
      assert StripLeft(t, true) == ld;
      assert ld[..|ld| - 1] == l && Blank(ld[|ld| - 1], true);
      assert StripRight(ld, true) == StripRight(l, true);
      assert IntStrip(t) == IntStrip(s);
    }
  }

  /** The separator controls U+001C..U+001F are whitespace to `str.strip()`
      but not to `int()`: a leading one makes `int()` raise ValueError. */
  lemma ParseIntRejectsSeparatorControl(s: string, c: char)
    requires '\U{1C}' <= c <= '\U{1F}'
    ensures IsSpace(c) && Strip([c] + s) == Strip(s)
    ensures ParseInt([c] + s) == None
  {
    assert ([c] + s)[1..] == s;
    var l := StripLeft([c] + s, true);
    assert l == [c] + s;
    var r := StripRight(l, true);
    if |r| > 0 {
      assert r[0] == c;
    }
  }

  /** Stripping the front of a concatenation reaches the tail only when the
      head is all whitespace. */
  lemma {:induction false} StripLeftAppend(s: string, tail: string, forInt: bool)
    ensures StripLeft(s + tail, forInt) ==
      if StripLeft(s, forInt) == "" then StripLeft(tail, forInt) else StripLeft(s, forInt) + tail
  {
    if |s| == 0 {
      assert s + tail == tail;
    } else if Blank(s[0], forInt) {
      assert (s + tail)[1..] == s[1..] + tail;
      StripLeftAppend(s[1..], tail, forInt);
    }
  }

  /** An underscore between two digit runs does not change the value. */
  lemma ParseIntIgnoresUnderscore(a: string, b: string)
    requires |a| > 0 && |b| > 0 && AllDigits(a) && AllDigits(b)
    ensures ParseInt(a + "_" + b) == ParseInt(a + b)
  {
    var g := a + "_" + b;
    assert g[0] == a[0] && g[|g| - 1] == b[|b| - 1];
    StripUntrimmed(g);
    UnsignedLiteral(g);
    UngroupUnderscore(a, b);
    assert AllDigits(a + b);
    ParseIntOfDigits(a + b);
  }

  /** A literal that starts with a digit has no sign to read. */
  lemma UnsignedLiteral(g: string)
    requires |g| > 0 && IsDigit(g[0])
    ensures ParseLiteral(g) == GroupedValue(g)
  {
  }

  lemma UngroupUnderscore(a: string, b: string)
    requires |a| > 0 && |b| > 0 && AllDigits(a) && AllDigits(b)
    ensures GroupedValue(a + "_" + b) == Some(DigitsValue(a + b))
  {
    UngroupJoin(a, b);
  }

  lemma ParseIntOfIntToString(n: int)
    ensures ParseInt(IntToString(n)) == Some(n)
  {
    if n < 0 {
      ParseIntOfNegative(n);
    } else {
      ParseIntOfDigits(NatToString(n));
      DigitsValueOfNatToString(n);
    }
  }

  lemma ParseIntOfNegative(n: int)
    requires n < 0
    ensures ParseInt(IntToString(n)) == Some(n)
  {
    var k: nat := -n;
    DigitsValueOfNatToString(k);
    ParseIntOfSigned(IntToString(n), NatToString(k));
  }

  /** `ParseIntOfMinus` for a string already known to be `"-" + t`. */
  lemma ParseIntOfSigned(s: string, t: string)
    requires |t| > 0 && AllDigits(t) && s == "-" + t
    ensures ParseInt(s) == Some(0 - (DigitsValue(t) as int))
  {
    ParseIntOfMinus(t);
  }

  /** A minus sign before a digit run reads as the negated value. */
  lemma ParseIntOfMinus(t: string)
    requires |t| > 0 && AllDigits(t)
    ensures ParseInt("-" + t) == Some(0 - (DigitsValue(t) as int))
  {
    var u := "-" + t;
    GroupedValueOfDigits(t);
    var m: int := DigitsValue(t);
    assert ParseLiteral(u) == Some(0 - m) by {
      ParseLiteralNegated(t);
    }
    SignedUntrimmed(t);
  }

  lemma SignedUntrimmed(t: string)
    requires |t| > 0 && IsDigit(t[|t| - 1])
    ensures ParseInt("-" + t) == ParseLiteral("-" + t)
  {
    var s := "-" + t;
    assert s[|s| - 1] == t[|t| - 1];
    StripUntrimmed(s);
  }

  /** A minus sign negates the value of the digit run after it. */
  lemma ParseLiteralNegated(t: string)
    ensures ParseLiteral("-" + t) ==
      if GroupedValue(t).Some? then Some(0 - (GroupedValue(t).value as int)) else None
  {
    assert ("-" + t)[1..] == t;
  }

  function Zeros(n: nat): (s: string)
    ensures |s| == n && forall i :: 0 <= i < n ==> s[i] == '0'
  {
    if n == 0 then "" else "0" + Zeros(n - 1)
  }

  /** Python `s.zfill(width)`: pad with zeros on the left, after a leading
      sign, up to `width` characters; longer strings are unchanged. */
  function Zfill(s: string, width: nat): (r: string)
    ensures |s| >= width ==> r == s
    ensures |r| == if |s| >= width then |s| else width
  {
    if |s| >= width then s
    else if |s| > 0 && (s[0] == '-' || s[0] == '+') then [s[0]] + Zeros(width - |s|) + s[1..]
    else Zeros(width - |s|) + s
  }

  /** Python `s.split(sep)` for a non-empty separator. */
  function SplitOn(s: string, sep: string): (parts: seq<string>)
    requires |sep| > 0
    ensures |parts| >= 1
    decreases |s|
  {
    if |s| < |sep| then [s]
    else if s[..|sep|] == sep then [""] + SplitOn(s[|sep|..], sep)
    else
      var rest := SplitOn(s[1..], sep);
      [[s[0]] + rest[0]] + rest[1..]
  }

  /** Splitting on a one-character separator that a string lacks yields the
      string itself. */
  lemma {:induction false} SplitOnAbsent(s: string, c: char)
    requires c !in s
    ensures SplitOn(s, [c]) == [s]
    decreases |s|
  {
    if |s| >= 1 {
      assert s[..1] != [c] by { assert s[0] != c; }
      SplitOnAbsent(s[1..], c);
      assert [s[0]] + s[1..] == s;
    }
  }

  /** The first occurrence of a one-character separator ends the first field. */
  lemma {:induction false} SplitOnFirst(a: string, c: char, b: string)
    requires c !in a
    ensures SplitOn(a + [c] + b, [c]) == [a] + SplitOn(b, [c])
    decreases |a|
  {
    var s := a + [c] + b;
    if |a| == 0 {
      assert s[..1] == [c];
      assert s[1..] == b;
    } else {
      assert s[..1] != [c] by { assert s[0] == a[0] && a[0] != c; }
      assert s[1..] == a[1..] + [c] + b;
      SplitOnFirst(a[1..], c, b);
      assert [a[0]] + a[1..] == a;
    }
  }

  /** Python `sub in s`. */
  predicate Contains(s: string, sub: string)
    decreases |s|
  {
    |sub| <= |s| && (s[..|sub|] == sub || Contains(s[1..], sub))
  }

  /** Python `str.isspace()`: the ASCII whitespace and separator controls,
      NEL, the no-break space and the Unicode space separators. */
  predicate IsSpace(c: char) {
    ('\t' <= c <= '\r') || ('\U{1C}' <= c <= ' ') || c == '\U{85}' || c == '\U{A0}'
    || c == '\U{1680}' || ('\U{2000}' <= c <= '\U{200A}') || c == '\U{2028}' || c == '\U{2029}'
    || c == '\U{202F}' || c == '\U{205F}' || c == '\U{3000}'
  }

  /** The whitespace `int()` skips around a literal: ASCII tab, line feed,
      vertical tab, form feed, carriage return and space, and the non-ASCII
      `str.isspace` characters. The separator controls U+001C..U+001F,
      which `str.isspace` accepts, are not among them. */
  predicate IntSpace(c: char) {
    IsSpace(c) && !('\U{1C}' <= c <= '\U{1F}')
  }

  /** The whitespace one strip removes: `int()`'s when `forInt`, else
      `str.strip()`'s. */
  predicate Blank(c: char, forInt: bool) {
    if forInt then IntSpace(c) else IsSpace(c)
  }

  /** Drop the leading blanks. */
  function StripLeft(s: string, forInt: bool): (r: string)
    ensures |r| <= |s| && r == s[|s| - |r|..]
    ensures |r| > 0 ==> !Blank(r[0], forInt)
  {
    if |s| > 0 && Blank(s[0], forInt) then StripLeft(s[1..], forInt) else s
  }

  /** Drop the trailing blanks. */
  function StripRight(s: string, forInt: bool): (r: string)
    ensures |r| <= |s| && r == s[..|r|]
    ensures |r| > 0 ==> !Blank(r[|r| - 1], forInt)
  {
    if |s| > 0 && Blank(s[|s| - 1], forInt) then StripRight(s[..|s| - 1], forInt) else s
  }

  /** Python `s.strip()` with no argument. */
  function Strip(s: string): (r: string)
    ensures |r| <= |s|
    ensures |r| > 0 ==> !IsSpace(r[0]) && !IsSpace(r[|r| - 1])
  {
    StripRight(StripLeft(s, false), false)
  }

  /** The surrounding whitespace `int()` discards before reading a literal. */
  function IntStrip(s: string): (r: string)
    ensures |r| <= |s|
    ensures |r| > 0 ==> !IntSpace(r[0]) && !IntSpace(r[|r| - 1])
  {
    StripRight(StripLeft(s, true), true)
  }

  /** The characters of a regular-expression `\w` (ASCII reading). */
  predicate IsWordChar(c: char) {
    ('a' <= c <= 'z') || ('A' <= c <= 'Z') || IsDigit(c) || c == '_'
  }

  /** The text a greedy `\w*` consumes at the start of `s`. */
  function WordPrefix(s: string): (w: string)
    ensures |w| <= |s| && w == s[..|w|]
    ensures forall i :: 0 <= i < |w| ==> IsWordChar(w[i])
    ensures |w| < |s| ==> !IsWordChar(s[|w|])
  {
    if |s| > 0 && IsWordChar(s[0]) then [s[0]] + WordPrefix(s[1..]) else ""
  }

  /** A Python slice bound: negative counts from the end, then clipped. */
  function SliceBound(len: nat, x: int): (b: nat)
    ensures b <= len
  {
    if x < 0 then (if len + x < 0 then 0 else len + x)
    else if x > len then len else x
  }

  /** Python `s[start:stop]`; pass `|s|` as `stop` for an omitted bound. */
  function PySlice<T>(s: seq<T>, start: int, stop: int): (r: seq<T>)
    ensures |r| <= |s|
    ensures 0 <= start <= stop <= |s| ==> r == s[start..stop]
  {
    var lo := SliceBound(|s|, start);
    var hi := SliceBound(|s|, stop);
    if lo < hi then s[lo..hi] else []
  }

  /** Python `xs[idx]`: negative indices count from the end, anything out of
      range raises IndexError. */
  function PyIndex<T>(xs: seq<T>, idx: int): (r: Result<T>)
    ensures r.Ok? <==> -|xs| <= idx < |xs|
    ensures 0 <= idx < |xs| ==> r == Ok(xs[idx])
    ensures -|xs| <= idx < 0 ==> r == Ok(xs[|xs| + idx])
  {
    if 0 <= idx < |xs| then Ok(xs[idx])
    else if -|xs| <= idx < 0 then Ok(xs[|xs| + idx])
    else Err(IndexError)
  }
}
