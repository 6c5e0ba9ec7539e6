/**
 * The JavaScript string primitives the modelled code relies on:
 * `trim`, `split`/`join` on one character, `indexOf`/`lastIndexOf`,
 * `includes`, `toLowerCase`/`toUpperCase`, `padStart`, `String(n)` and
 * `Number(s)` for integer literals.
 */
module Strings {
  import opened Wrappers

  /** ECMAScript WhiteSpace and LineTerminator code points: what `trim` strips. */
  predicate IsSpace(c: char) {
    || c == ' ' || c == '\t' || c == '\n' || c == '\r'
    || c == '\U{000B}' || c == '\U{000C}' || c == '\U{00A0}' || c == '\U{1680}'
    || ('\U{2000}' <= c <= '\U{200A}')
    || c == '\U{2028}' || c == '\U{2029}' || c == '\U{202F}' || c == '\U{205F}'
    || c == '\U{3000}' || c == '\U{FEFF}'
  }

  /** The characters a regular-expression `.` does not match. */
  predicate IsLineTerminator(c: char) {
    c == '\n' || c == '\r' || c == '\U{2028}' || c == '\U{2029}'
  }

  /** No leading and no trailing white space. */
  predicate Trimmed(s: string) {
    |s| == 0 || (!IsSpace(s[0]) && !IsSpace(s[|s| - 1]))
  }

  predicate AllSpace(s: string) {
    forall i :: 0 <= i < |s| ==> IsSpace(s[i])
  }

  function TrimStart(s: string): (r: string)
    ensures |r| <= |s| && r == s[|s| - |r|..]
    ensures |r| > 0 ==> !IsSpace(r[0])
    ensures forall i :: 0 <= i < |s| - |r| ==> IsSpace(s[i])
  {
    if |s| > 0 && IsSpace(s[0]) then
      var r := TrimStart(s[1..]);
      assert forall i :: 1 <= i < |s| - |r| ==> s[i] == s[1..][i - 1];
      r
    else s
  }

  function TrimEnd(s: string): (r: string)
    ensures |r| <= |s| && r == s[..|r|]
    ensures |r| > 0 ==> !IsSpace(r[|r| - 1])
    ensures forall i :: |r| <= i < |s| ==> IsSpace(s[i])
  {
    if |s| > 0 && IsSpace(s[|s| - 1]) then TrimEnd(s[..|s| - 1]) else s
  }

  /** `s.trim()`: the middle of `s` left when white space is cut from both ends. */
  function Trim(s: string): (r: string)
    ensures Trimmed(r) && |r| <= |s|
    ensures r == "" <==> AllSpace(s)
    ensures Trimmed(s) ==> r == s
  {
    var t := TrimStart(s);
    var r := TrimEnd(t);
    assert |r| > 0 ==> r[0] == t[0];
    r
  }

  /** The trimmed text is a piece of the text with nothing but white space before and after it. */
  lemma TrimIsSlice(s: string)
    ensures exists i, j :: 0 <= i <= j <= |s| && Trim(s) == s[i..j] && AllSpace(s[..i]) && AllSpace(s[j..])
  {
    var t := TrimStart(s);
    var r := TrimEnd(t);
    assert r == Trim(s);
    var i := |s| - |t|;
    SliceBetweenSpaces(s, t, r);
    assert r == s[i..i + |r|] && AllSpace(s[..i]) && AllSpace(s[i + |r|..]);
  }

  /** A suffix of `s` after white space, cut before more white space, is a slice of `s` between white space. */
  lemma SliceBetweenSpaces(s: string, t: string, r: string)
    requires |t| <= |s| && t == s[|s| - |t|..] && forall k :: 0 <= k < |s| - |t| ==> IsSpace(s[k])
    requires |r| <= |t| && r == t[..|r|] && forall k :: |r| <= k < |t| ==> IsSpace(t[k])
    ensures var i := |s| - |t|;
      r == s[i..i + |r|] && AllSpace(s[..i]) && AllSpace(s[i + |r|..])
  {
    var i := |s| - |t|;
    var j := i + |r|;
    assert forall k :: 0 <= k < i ==> s[..i][k] == s[k];
    assert forall k :: 0 <= k < |s| - j ==> s[j..][k] == t[|r| + k];
  }


  lemma TrimIdempotent(s: string)
    ensures Trim(Trim(s)) == Trim(s)
  {
  }

  /** A JavaScript string that is truthy: present and non-empty. */
  predicate Given(s: Option<string>) {
    s.Some? && s.value != ""
  }

  /** `text.trim()` when something is left, otherwise nothing: how the forms send optional fields. */
  function NonBlank(text: string): (r: Option<string>)
    ensures r.Some? <==> Trim(text) != ""
    ensures r.Some? ==> r.value == Trim(text)
  {
    if Trim(text) != "" then Some(Trim(text)) else None
  }

  /** The `toLowerCase` of one character: ASCII letters only. */
  function LowerChar(c: char): char {
    if 'A' <= c <= 'Z' then (c as int + 32) as char else c
  }

  function UpperChar(c: char): char {
    if 'a' <= c <= 'z' then (c as int - 32) as char else c
  }

  function ToLower(s: string): (r: string)
    ensures |r| == |s|
    ensures forall i :: 0 <= i < |s| ==> r[i] == LowerChar(s[i])
  {
    seq(|s|, i requires 0 <= i < |s| => LowerChar(s[i]))
  }

  function ToUpper(s: string): (r: string)
    ensures |r| == |s|
    ensures forall i :: 0 <= i < |s| ==> r[i] == UpperChar(s[i])
  {
    seq(|s|, i requires 0 <= i < |s| => UpperChar(s[i]))
  }

  /** A word of capital letters is already trimmed and upper-case. */
  lemma CapitalsFixed(s: string)
    requires s != "" && forall i :: 0 <= i < |s| ==> 'A' <= s[i] <= 'Z'
    ensures Trimmed(s) && ToUpper(s) == s
  {
    assert !IsSpace(s[0]) && !IsSpace(s[|s| - 1]);
  }

  /** `hay.includes(needle)` */
  predicate Contains(hay: string, needle: string) {
    exists i | 0 <= i <= |hay| :: OccursAt(hay, needle, i)
  }

  /** `needle` appears in `hay` starting at position `i`. */
  predicate OccursAt(hay: string, needle: string, i: int) {
    0 <= i && i + |needle| <= |hay| && hay[i..i + |needle|] == needle
  }

  /** `s.indexOf(c)`: the first position of `c`, or -1. */
  function IndexOf(s: string, c: char): (i: int)
    ensures -1 <= i < |s|
    ensures i == -1 <==> c !in s
    ensures i >= 0 ==> s[i] == c && c !in s[..i]
  {
    if |s| == 0 then -1
    else if s[0] == c then 0
    else
      var j := IndexOf(s[1..], c);
      if j == -1 then -1
      else
        assert s[..j + 1] == [s[0]] + s[1..][..j];
        j + 1
  }

  /** `s.lastIndexOf(c)`: the last position of `c`, or -1. */
  function LastIndexOf(s: string, c: char): (i: int)
    ensures -1 <= i < |s|
    ensures i == -1 <==> c !in s
    ensures i >= 0 ==> s[i] == c && c !in s[i + 1..]
  {
    if |s| == 0 then -1
    else if s[|s| - 1] == c then |s| - 1
    else
      var init := s[..|s| - 1];
      var j := LastIndexOf(init, c);
      assert s == init + [s[|s| - 1]];
      if j == -1 then -1
      else
        assert s[j + 1..] == init[j + 1..] + [s[|s| - 1]];
        j
  }

  /** `s.split(sep)` for a one-character separator. */
  function Split(s: string, sep: char): (parts: seq<string>)
    ensures |parts| >= 1
    ensures forall i :: 0 <= i < |parts| ==> sep !in parts[i]
    decreases |s|
  {
    if sep !in s then [s]
    else
      var i := IndexOf(s, sep);
      [s[..i]] + Split(s[i + 1..], sep)
  }

  /** `parts.join(sep)` for a one-character separator. */
  function Join(parts: seq<string>, sep: char): string {
    if |parts| == 0 then ""
    else if |parts| == 1 then parts[0]
    else parts[0] + [sep] + Join(parts[1..], sep)
  }

  /** The first occurrence of `c` is the one after a prefix without it. */
  lemma IndexOfFirst(first: string, rest: string, c: char)
    requires c !in first
    ensures IndexOf(first + [c] + rest, c) == |first|
  {
    var s := first + [c] + rest;
    assert s[|first|] == c;
    assert forall k :: 0 <= k < |first| ==> s[k] == first[k];
  }

  /** A string holding the separator splits at its first occurrence. */
  lemma SplitStep(s: string, sep: char)
    requires sep in s
    ensures Split(s, sep) == [s[..IndexOf(s, sep)]] + Split(s[IndexOf(s, sep) + 1..], sep)
  {
  }

  /** A join of two or more parts starts with the first part and the separator. */
  lemma JoinStep(first: string, rest: seq<string>, sep: char)
    requires |rest| >= 1
    ensures Join([first] + rest, sep) == first + [sep] + Join(rest, sep)
  {
    assert ([first] + rest)[1..] == rest;
  }

  /** Joining what `split` cut gives the original string back. */
  lemma {:induction false} JoinSplit(s: string, sep: char)
    ensures Join(Split(s, sep), sep) == s
    decreases |s|
  {
    if sep in s {
      var i := IndexOf(s, sep);
      JoinSplit(s[i + 1..], sep);
      SplitStep(s, sep);
      JoinStep(s[..i], Split(s[i + 1..], sep), sep);
      assert s == s[..i] + [sep] + s[i + 1..];
    }
  }

  /** Splitting a join of separator-free parts recovers the parts. */
  lemma {:induction false} SplitJoin(parts: seq<string>, sep: char)
    requires |parts| >= 1
    requires forall i :: 0 <= i < |parts| ==> sep !in parts[i]
    ensures Split(Join(parts, sep), sep) == parts
  {
    if |parts| == 1 {
      assert Join(parts, sep) == parts[0];
    } else {
      var tail := Join(parts[1..], sep);
      var s := parts[0] + [sep] + tail;
      assert Join(parts, sep) == s;
      assert s[|parts[0]|] == sep;
      assert s[..|parts[0]|] == parts[0];
      assert sep in s;
      var i := IndexOf(s, sep);
      assert i == |parts[0]|;
      assert s[i + 1..] == tail;
      SplitJoin(parts[1..], sep);
      assert Split(s, sep) == [parts[0]] + parts[1..];
    }
  }

  /** Two separator-free fields joined by the separator split back apart. */
  lemma SplitTwoFields(a: string, b: string, sep: char)
    requires sep !in a && sep !in b
    ensures Split(a + [sep] + b, sep) == [a, b]
  {
    assert Join([a, b], sep) == a + [sep] + b;
    SplitJoin([a, b], sep);
  }

  /** `s.padStart(width, fill)` */
  function PadStart(s: string, width: nat, fill: char): (r: string)
    ensures |r| == if |s| >= width then |s| else width
    ensures r[|r| - |s|..] == s
    ensures forall i :: 0 <= i < |r| - |s| ==> r[i] == fill
  {
    if |s| >= width then s else seq(width - |s|, _ => fill) + s
  }

  predicate IsDigit(c: char) {
    '0' <= c <= '9'
  }

  predicate AllDigits(s: string) {
    forall i :: 0 <= i < |s| ==> IsDigit(s[i])
  }

  function DigitChar(d: nat): (c: char)
    requires d < 10
    ensures IsDigit(c) && c as int - '0' as int == d
  {
    ('0' as int + d) as char
  }

  /** The value of a string of decimal digits, most significant first. */
  function DigitsValue(s: string): nat
    requires AllDigits(s)
  {
    if |s| == 0 then 0
    else DigitsValue(s[..|s| - 1]) * 10 + (s[|s| - 1] as int - '0' as int)
  }

  /** `String(n)` for a natural number: its shortest decimal form. */
  function NatToString(n: nat): (r: string)
    ensures |r| >= 1 && AllDigits(r)
    ensures DigitsValue(r) == n
    ensures r[0] == '0' ==> r == "0"
  {
    if n < 10 then [DigitChar(n)]
    else
      var prefix := NatToString(n / 10);
      var r := prefix + [DigitChar(n % 10)];
      assert r[..|r| - 1] == prefix;
      r
  }

  /** `String(i)` for an integer. */
  function IntToString(i: int): (r: string)
    ensures |r| >= 1
    ensures i >= 0 ==> r == NatToString(i)
    ensures i < 0 ==> r == "-" + NatToString(-i)
  {
    if i < 0 then "-" + NatToString(-i) else NatToString(i)
  }

  /** Leading zeros do not change a digit string's value. */
  lemma {:induction false} LeadingZeros(z: string, s: string)
    requires AllDigits(s)
    requires forall i :: 0 <= i < |z| ==> z[i] == '0'
    ensures AllDigits(z + s) && DigitsValue(z + s) == DigitsValue(s)
    decreases |s|
  {
    if |s| == 0 {
      ZerosValue(z);
      assert z + s == z;
    } else {
      var init := s[..|s| - 1];
      LeadingZeros(z, init);
      assert (z + s)[..|z + s| - 1] == z + init;
    }
  }

  lemma {:induction false} ZerosValue(z: string)
    requires forall i :: 0 <= i < |z| ==> z[i] == '0'
    ensures AllDigits(z) && DigitsValue(z) == 0
  {
    if |z| > 0 {
      ZerosValue(z[..|z| - 1]);
    }
  }

  /**
   * `Number(s)` restricted to integer literals: white space around the
   * literal is ignored, the empty string reads as 0, and anything that is
   * not an optionally signed run of decimal digits reads as NaN (None).
   */
  function NumberValue(s: string): (r: Option<int>)
    ensures AllSpace(s) ==> r == Some(0)
    ensures |Trim(s)| > 0 && AllDigits(Trim(s)) ==> r == Some(DigitsValue(Trim(s)))
  {
    var t := Trim(s);
    if t == "" then Some(0)
    else if t[0] == '-' && |t| > 1 && AllDigits(t[1..]) then Some(-(DigitsValue(t[1..]) as int))
    else if t[0] == '+' && |t| > 1 && AllDigits(t[1..]) then Some(DigitsValue(t[1..]))
    else if AllDigits(t) then Some(DigitsValue(t))
    else None
  }

  lemma DigitsTrimmed(s: string)
    requires AllDigits(s)
    ensures Trimmed(s)
  {
    if |s| > 0 {
      assert IsDigit(s[0]) && IsDigit(s[|s| - 1]);
    }
  }

  /** `String(i)` is trimmed and made of digits and at most a leading minus sign. */
  lemma IntTextShape(i: int)
    ensures Trimmed(IntToString(i))
    ensures forall k :: 0 <= k < |IntToString(i)| ==> IntToString(i)[k] == '-' || IsDigit(IntToString(i)[k])
  {
    var t := IntToString(i);
    if i < 0 {
      var digits := NatToString(-i);
      assert t[|t| - 1] == digits[|digits| - 1];
      assert forall k :: 1 <= k < |t| ==> t[k] == digits[k - 1];
    }
    assert !IsSpace(t[0]) && !IsSpace(t[|t| - 1]);
  }

  /** `Number(String(i)) == i` for every integer. */
  lemma NumberOfIntToString(i: int)
    ensures NumberValue(IntToString(i)) == Some(i)
  {
    var r := IntToString(i);
    assert Trimmed(r) by {
      assert !IsSpace(r[0]) && !IsSpace(r[|r| - 1]);
    }
    if i < 0 {
      assert r[1..] == NatToString(-i);
    }
  }

  /** A zero-padded decimal form reads back as its value. */
  /** Zero padding keeps a number's digits and its value. */
  lemma PaddedValue(n: nat, width: nat)
    ensures AllDigits(PadStart(NatToString(n), width, '0'))
    ensures DigitsValue(PadStart(NatToString(n), width, '0')) == n
  {
    var s := NatToString(n);
    var p := PadStart(s, width, '0');
    var z := p[..|p| - |s|];
    assert p == z + s;
    LeadingZeros(z, s);
  }

  lemma NumberOfPadded(n: nat, width: nat)
    ensures NumberValue(PadStart(NatToString(n), width, '0')) == Some(n)
  {
    var p := PadStart(NatToString(n), width, '0');
    PaddedValue(n, width);
    DigitsTrimmed(p);
    assert Trim(p) == p;
  }
}
