/** The JavaScript string built-ins the quoting tool relies on, on `seq<char>`:
    `split` and `join` on one separator character, `trim`, `String(n)` for
    integers, `parseInt` with its default radix, `padStart` and `startsWith`. */
module JsText {
  import opened Types

  /** ECMAScript WhiteSpace and LineTerminator code points: what `trim` strips
      and what `parseInt` skips before the number. */
  predicate IsWhitespace(c: char) {
    c == '\t' || c == '\n' || c == '\U{000B}' || c == '\U{000C}' || c == '\r' || c == ' '
    || c == '\U{00A0}' || c == '\U{1680}' || ('\U{2000}' <= c <= '\U{200A}')
    || c == '\U{2028}' || c == '\U{2029}' || c == '\U{202F}' || c == '\U{205F}'
    || c == '\U{3000}' || c == '\U{FEFF}'
  }

  /** Neither end of `s` is whitespace. */
  predicate IsTrimmed(s: string) {
    s == [] || (!IsWhitespace(s[0]) && !IsWhitespace(s[|s| - 1]))
  }

  /** `s.trimStart()`. */
  function TrimStart(s: string): (r: string)
    ensures |r| <= |s| && r == s[|s| - |r|..]
    ensures r == [] || !IsWhitespace(r[0])
    ensures forall i :: 0 <= i < |s| - |r| ==> IsWhitespace(s[i])
  {
    if s != [] && IsWhitespace(s[0]) then TrimStart(s[1..]) else s
  }

  /** `s.trimEnd()`. */
  function TrimEnd(s: string): (r: string)
    ensures |r| <= |s| && r == s[..|r|]
    ensures r == [] || !IsWhitespace(r[|r| - 1])
    ensures forall i :: |r| <= i < |s| ==> IsWhitespace(s[i])
  {
    if s != [] && IsWhitespace(s[|s| - 1]) then TrimEnd(s[..|s| - 1]) else s
  }

  /** `r` is the slice of `s` starting at `i`, and everything of `s` around it is whitespace. */
  predicate IsTrimSlice(s: string, i: int, r: string) {
    0 <= i <= |s| - |r| && r == s[i..i + |r|]
    && (forall j :: 0 <= j < i ==> IsWhitespace(s[j]))
    && (forall j :: i + |r| <= j < |s| ==> IsWhitespace(s[j]))
  }

  /** `s.trim()`: the middle slice of `s` whose ends are not whitespace, once
      every whitespace character before and after it is dropped. */
  function Trim(s: string): (r: string)
    ensures IsTrimmed(r)
    ensures exists i :: IsTrimSlice(s, i, r)
  {
    TrimSlice(s);
    TrimEnd(TrimStart(s))
  }

  /** Where the trimmed string sits inside `s`. */
  lemma TrimSlice(s: string)
    ensures IsTrimSlice(s, |s| - |TrimStart(s)|, TrimEnd(TrimStart(s)))
  {
    var t := TrimStart(s);
    PrefixOfSuffix(s, t, TrimEnd(t));
  }

  /** A whitespace-bounded prefix `r` of a whitespace-bounded suffix `t` of
      `s` is a trim slice of `s`. */
  lemma PrefixOfSuffix(s: string, t: string, r: string)
    requires |t| <= |s| && t == s[|s| - |t|..]
    requires forall j :: 0 <= j < |s| - |t| ==> IsWhitespace(s[j])
    requires |r| <= |t| && r == t[..|r|]
    requires forall j :: |r| <= j < |t| ==> IsWhitespace(t[j])
    ensures IsTrimSlice(s, |s| - |t|, r)
  {
    var i := |s| - |t|;
    assert r == s[i..i + |r|];
    forall j | i + |r| <= j < |s|
      ensures IsWhitespace(s[j])
    {
      assert s[j] == t[j - i];
    }
  }

  /** Trimming a string whose ends are not whitespace changes nothing. */
  lemma TrimOfTrimmed(s: string)
    requires IsTrimmed(s)
    ensures Trim(s) == s
  {
  }

  /** `s.split(sep)` for a one-character separator: the pieces between
      separators, in order, empty pieces included. */
  function Split(s: string, sep: char): (parts: seq<string>)
    ensures |parts| >= 1
    ensures forall i :: 0 <= i < |parts| ==> sep !in parts[i]
    ensures Join(parts, sep) == s
  {
    if s == [] then [""]
    else
      var rest := Split(s[1..], sep);
      if s[0] == sep then
        assert Join([""] + rest, sep) == [sep] + Join(rest, sep);
        [""] + rest
      else
        JoinFirst(rest, sep, s[0]);
        [[s[0]] + rest[0]] + rest[1..]
  }

  /** `parts.join(sep)`. */
  function Join(parts: seq<string>, sep: char): string {
    if |parts| == 0 then ""
    else if |parts| == 1 then parts[0]
    else parts[0] + [sep] + Join(parts[1..], sep)
  }

  lemma JoinFirst(parts: seq<string>, sep: char, c: char)
    requires |parts| >= 1
    ensures Join([[c] + parts[0]] + parts[1..], sep) == [c] + Join(parts, sep)
  {
    var ps := [[c] + parts[0]] + parts[1..];
    if |parts| > 1 {
      assert ps[1..] == parts[1..];
    }
  }

  /** Splitting text that holds no separator yields the text alone. */
  lemma {:induction false} SplitNoSeparator(s: string, sep: char)
    requires sep !in s
    ensures Split(s, sep) == [s]
  {
    if s != [] {
      SplitNoSeparator(s[1..], sep);
    }
  }

  /** Splitting text with one more character in front: a separator starts a
      new empty piece, any other character joins the first piece. */
  lemma SplitCons(c: char, s: string, sep: char)
    ensures var rest := Split(s, sep);
      Split([c] + s, sep) == if c == sep then [""] + rest else [[c] + rest[0]] + rest[1..]
  {
    assert ([c] + s)[1..] == s;
  }

  /** Splitting `a + sep + b`, where `a` holds no separator, yields `a` and then the pieces of `b`. */
  lemma {:induction false} SplitAtSeparator(a: string, b: string, sep: char)
    requires sep !in a
    ensures Split(a + [sep] + b, sep) == [a] + Split(b, sep)
  {
    if a == [] {
      assert a + [sep] + b == [sep] + b;
      SplitCons(sep, b, sep);
    } else {
      var tail := a[1..] + [sep] + b;
      assert a + [sep] + b == [a[0]] + tail;
      SplitAtSeparator(a[1..], b, sep);
      SplitCons(a[0], tail, sep);
      assert [a[0]] + a[1..] == a;
    }
  }

  /** Joining pieces that hold no separator and splitting again gives the pieces back. */
  lemma {:induction false} SplitJoin(parts: seq<string>, sep: char)
    requires |parts| >= 1
    requires forall i :: 0 <= i < |parts| ==> sep !in parts[i]
    ensures Split(Join(parts, sep), sep) == parts
  {
    if |parts| == 1 {
      SplitNoSeparator(parts[0], sep);
    } else {
      SplitJoin(parts[1..], sep);
      SplitAtSeparator(parts[0], Join(parts[1..], sep), sep);
    }
  }

  /** `s.startsWith(prefix)`. */
  predicate StartsWith(s: string, prefix: string) {
    |prefix| <= |s| && s[..|prefix|] == prefix
  }

  predicate IsDigit(c: char) { '0' <= c <= '9' }

  predicate AllDigits(s: string) {
    forall i :: 0 <= i < |s| ==> IsDigit(s[i])
  }

  function DigitChar(d: nat): (c: char)
    requires d < 10
    ensures IsDigit(c) && c as int - '0' as int == d
  {
    "0123456789"[d]
  }

  /** The value of a string of decimal digits, leading zeros allowed. */
  function DigitsValue(s: string): nat
    requires AllDigits(s)
  {
    if s == [] then 0 else DigitsValue(s[..|s| - 1]) * 10 + (s[|s| - 1] as int - '0' as int)
  }

  /** `String(n)` for a non-negative integer: its decimal digits, no leading zero. */
  function NatToString(n: nat): (s: string)
    ensures |s| >= 1 && AllDigits(s)
    ensures |s| > 1 ==> s[0] != '0'
  {
    if n < 10 then [DigitChar(n)] else NatToString(n / 10) + [DigitChar(n % 10)]
  }

  /** `String(n)` for any integer. */
  function IntToString(n: int): (s: string)
    ensures |s| >= 1 && IsTrimmed(s)
  {
    if n < 0 then "-" + NatToString(-n) else NatToString(n)
  }

  /** The digits of a number read back as that number. */
  lemma {:induction false} NatToStringValue(n: nat)
    ensures DigitsValue(NatToString(n)) == n
  {
    if n >= 10 {
      NatToStringValue(n / 10);
      var s := NatToString(n);
      assert s[..|s| - 1] == NatToString(n / 10);
    }
  }

  /** A leading zero does not change the value of a digit string. */
  lemma {:induction false} LeadingZeroValue(s: string)
    requires AllDigits(s)
    ensures DigitsValue("0" + s) == DigitsValue(s)
  {
    if s != [] {
      LeadingZeroValue(s[..|s| - 1]);
      assert ("0" + s)[..|s|] == "0" + s[..|s| - 1];
    }
  }

  /** `c` repeated `n` times. */
  function Repeat(c: char, n: nat): (r: string)
    ensures |r| == n && forall i :: 0 <= i < n ==> r[i] == c
  {
    if n == 0 then "" else [c] + Repeat(c, n - 1)
  }

  /** `s.padStart(len, c)`: `c` added in front until the length reaches `len`;
      a string already that long is returned whole, never cut. */
  function PadStart(s: string, len: nat, c: char): (r: string)
    ensures |r| == if |s| >= len then |s| else len
    ensures r[|r| - |s|..] == s
    ensures forall i :: 0 <= i < |r| - |s| ==> r[i] == c
  {
    if |s| >= len then s else Repeat(c, len - |s|) + s
  }

  /** Zero padding keeps a digit string's value. */
  lemma {:induction false} ZeroPaddedValue(s: string, len: nat)
    requires AllDigits(s)
    ensures AllDigits(PadStart(s, len, '0'))
    ensures DigitsValue(PadStart(s, len, '0')) == DigitsValue(s)
    decreases len - |s|
  {
    if |s| < len {
      ZeroPaddedValue("0" + s, len);
      LeadingZeroValue(s);
      assert PadStart("0" + s, len, '0') == PadStart(s, len, '0') by {
        assert Repeat('0', len - |s|) == Repeat('0', len - |s| - 1) + "0";
      }
    }
  }

  /** The longest prefix of `s` whose characters all satisfy the digit test of the radix. */
  function DigitPrefix(s: string, hex: bool): (r: string)
    ensures |r| <= |s| && r == s[..|r|]
    ensures forall i :: 0 <= i < |r| ==> IsRadixDigit(r[i], hex)
    ensures |r| < |s| ==> !IsRadixDigit(s[|r|], hex)
  {
    if s != [] && IsRadixDigit(s[0], hex) then [s[0]] + DigitPrefix(s[1..], hex) else ""
  }

  predicate IsRadixDigit(c: char, hex: bool) {
    IsDigit(c) || (hex && (('a' <= c <= 'f') || ('A' <= c <= 'F')))
  }

  function RadixDigitValue(c: char, hex: bool): nat
    requires IsRadixDigit(c, hex)
  {
    if IsDigit(c) then c as int - '0' as int
    else if 'a' <= c <= 'f' then c as int - 'a' as int + 10
    else c as int - 'A' as int + 10
  }

  function RadixValue(s: string, hex: bool): nat
    requires forall i :: 0 <= i < |s| ==> IsRadixDigit(s[i], hex)
  {
    if s == [] then 0
    else RadixValue(s[..|s| - 1], hex) * (if hex then 16 else 10) + RadixDigitValue(s[|s| - 1], hex)
  }

  /** `parseInt(s)` with no radix; `None` stands for `NaN`. Leading whitespace
      is skipped, then one sign is read. */
  function ParseInt(s: string): (r: Option<int>)
    ensures TrimStart(s) == [] ==> r.None?
    ensures r.Some? && r.value < 0 ==> TrimStart(s)[0] == '-'
  {
    var t := TrimStart(s);
    if t != [] && t[0] == '-' then
      match ParseUnsigned(t[1..])
      case None => None
      case Some(v) => Some(-(v as int))
    else if t != [] && t[0] == '+' then ParseUnsigned(t[1..])
    else ParseUnsigned(t)
  }

  /** The number after the sign: a `0x`/`0X` prefix selects base 16, otherwise
      base 10; the longest run of digits is the number and text after it is
      ignored; no digit at all is `NaN`. */
  function ParseUnsigned(u: string): Option<nat> {
    if |u| >= 2 && u[0] == '0' && (u[1] == 'x' || u[1] == 'X') then DigitsOf(u[2..], true)
    else DigitsOf(u, false)
  }

  function DigitsOf(body: string, hex: bool): Option<nat> {
    var digits := DigitPrefix(body, hex);
    if digits == [] then None else Some(RadixValue(digits, hex))
  }

  /** Decimal digits read in base 10 are their decimal value. */
  lemma {:induction false} DecimalRadixValue(s: string)
    requires AllDigits(s)
    ensures RadixValue(s, false) == DigitsValue(s)
  {
    if s != [] {
      DecimalRadixValue(s[..|s| - 1]);
    }
  }

  /** The digits of a non-negative number parse back to it. */
  lemma ParseUnsignedOfNatToString(m: nat)
    ensures ParseUnsigned(NatToString(m)) == Some(m)
  {
    var u := NatToString(m);
    assert !(|u| >= 2 && u[0] == '0');
    AllDigitsPrefix(u);
    DecimalRadixValue(u);
    NatToStringValue(m);
  }

  /** A minus sign followed by a digit: the number after the sign, negated. */
  lemma ParseIntMinus(u: string, v: nat)
    requires u != [] && IsDigit(u[0]) && ParseUnsigned(u) == Some(v)
    ensures ParseInt("-" + u) == Some(-(v as int))
  {
    var s := "-" + u;
    var t := TrimStart(s);
    assert t == s by { assert !IsWhitespace(s[0]); }
    assert t[1..] == u;
    assert t != [] && t[0] == '-';
    assert ParseUnsigned(t[1..]) == Some(v);
  }

  /** `String(n)` of a negative integer parses back to it. */
  lemma ParseIntOfNegative(n: int)
    requires n < 0
    ensures ParseInt(IntToString(n)) == Some(n)
  {
    var m: nat := -n;
    var u := NatToString(m);
    assert IntToString(n) == "-" + u;
    assert IsDigit(u[0]);
    ParseUnsignedOfNatToString(m);
    ParseIntMinus(u, m);
  }

  /** `String(n)` of a non-negative integer parses back to it. */
  lemma ParseIntOfNonNegative(n: int)
    requires n >= 0
    ensures ParseInt(IntToString(n)) == Some(n)
  {
    var s := IntToString(n);
    assert s == NatToString(n);
    assert TrimStart(s) == s by { assert IsDigit(s[0]); }
    assert IsDigit(s[0]);
    ParseUnsignedOfNatToString(n);
  }

  /** `parseInt(String(n)) === n` for every integer. */
  lemma ParseIntOfIntToString(n: int)
    ensures ParseInt(IntToString(n)) == Some(n)
  {
    if n < 0 {
      ParseIntOfNegative(n);
    } else {
      ParseIntOfNonNegative(n);
    }
  }

  /** A string of digits is its own digit prefix. */
  lemma {:induction false} AllDigitsPrefix(s: string)
    requires AllDigits(s)
    ensures DigitPrefix(s, false) == s
  {
    if s != [] {
      AllDigitsPrefix(s[1..]);
    }
  }
}
