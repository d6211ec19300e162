/**
 * The JavaScript string operations the application relies on:
 * `split` on one character, `join`, `trim`, `parseInt` (decimal),
 * `String(n)`, `padStart(2, '0')`, `includes`, and stripping non-digits.
 */
module Text {
  import opened Wrappers

  predicate IsDigit(c: char) {
    '0' <= c <= '9'
  }

  function DigitOf(c: char): nat
    requires IsDigit(c)
  {
    (c as int) - ('0' as int)
  }

  function DigitChar(d: nat): (c: char)
    requires d < 10
    ensures IsDigit(c) && DigitOf(c) == d
  {
    (('0' as int) + d) as char
  }

  predicate AllDigits(s: string) {
    forall i :: 0 <= i < |s| ==> IsDigit(s[i])
  }

  /** Only digits and minus signs. */
  predicate Numeral(s: string) {
    forall i :: 0 <= i < |s| ==> IsDigit(s[i]) || s[i] == '-'
  }

  /**
   * White space as `String.prototype.trim` and `parseInt` skip it
   * (WhiteSpace and LineTerminator of section 12.2 and 12.3 of ECMA-262):
   * the ASCII blanks, no-break space, the byte-order mark, the Unicode
   * space separators (category Zs) and the two Unicode line terminators.
   */
  predicate IsSpace(c: char) {
    c == ' ' || c == '\t' || c == '\n' || c == '\r' || c == '\U{000B}' || c == '\U{000C}'
    || c == '\U{00A0}' || c == '\U{FEFF}' || c == '\U{2028}' || c == '\U{2029}'
    || c == '\U{1680}' || ('\U{2000}' <= c <= '\U{200A}')
    || c == '\U{202F}' || c == '\U{205F}' || c == '\U{3000}'
  }

  // ---------------------------------------------------------------------
  // Decimal numerals
  // ---------------------------------------------------------------------

  /** The value of a string of decimal digits (0 for the empty string). */
  function DigitsValue(ds: string): nat
    requires AllDigits(ds)
  {
    if ds == [] then 0
    else DigitsValue(ds[..|ds| - 1]) * 10 + DigitOf(ds[|ds| - 1])
  }

  /** `String(n)` for a non-negative integer: its decimal digits, no leading zero. */
  function NatToString(n: nat): (s: string)
    ensures |s| >= 1 && AllDigits(s)
    ensures n >= 10 <==> |s| >= 2
    ensures s[0] != '0' || n == 0
  {
    if n < 10 then [DigitChar(n)] else NatToString(n / 10) + [DigitChar(n % 10)]
  }

  /** `String(i)` for any integer. */
  function IntToString(i: int): (s: string)
    ensures |s| >= 1 && Numeral(s)
  {
    if i < 0 then "-" + NatToString(-i) else NatToString(i)
  }

  lemma {:induction false} NatToStringValue(n: nat)
    ensures DigitsValue(NatToString(n)) == n
  {
    if n >= 10 {
      NatToStringValue(n / 10);
      var s := NatToString(n);
      assert s[..|s| - 1] == NatToString(n / 10);
    }
  }

  lemma {:induction false} LeadingZero(ds: string)
    requires AllDigits(ds)
    ensures AllDigits("0" + ds) && DigitsValue("0" + ds) == DigitsValue(ds)
  {
    if ds != [] {
      var z := "0" + ds;
      assert z[..|z| - 1] == "0" + ds[..|ds| - 1];
      LeadingZero(ds[..|ds| - 1]);
    }
  }

  /** `String(n).padStart(2, '0')`. */
  function Pad2(n: int): (s: string)
    ensures |s| >= 2 && Numeral(s)
  {
    var t := IntToString(n);
    if |t| < 2 then "0" + t else t
  }

  /** A padded non-negative number is all digits and denotes that number. */
  lemma Pad2Value(n: nat)
    ensures AllDigits(Pad2(n)) && DigitsValue(Pad2(n)) == n
  {
    NatToStringValue(n);
    if n < 10 {
      LeadingZero(NatToString(n));
    }
  }

  // ---------------------------------------------------------------------
  // parseInt (radix 10)
  // ---------------------------------------------------------------------

  function TrimStart(s: string): (r: string)
    ensures |r| <= |s| && r == s[|s| - |r|..]
    ensures r == [] || !IsSpace(r[0])
  {
    if s != [] && IsSpace(s[0]) then TrimStart(s[1..]) else s
  }

  function TrimEnd(s: string): (r: string)
    ensures |r| <= |s| && r == s[..|r|]
    ensures r == [] || !IsSpace(r[|r| - 1])
  {
    if s != [] && IsSpace(s[|s| - 1]) then TrimEnd(s[..|s| - 1]) else s
  }

  /** `s.trim()`. */
  function Trim(s: string): string {
    TrimEnd(TrimStart(s))
  }

  /** The longest prefix of decimal digits. */
  function DigitPrefix(s: string): (r: string)
    ensures |r| <= |s| && AllDigits(r) && r == s[..|r|]
    ensures |r| == |s| || !IsDigit(s[|r|])
  {
    if s != [] && IsDigit(s[0]) then
      var rest := DigitPrefix(s[1..]);
      assert |rest| < |s[1..]| ==> s[1..][|rest|] == s[|rest| + 1];
      assert [s[0]] + rest == s[..|rest| + 1];
      [s[0]] + rest
    else []
  }

  predicate IsHexDigit(c: char) {
    IsDigit(c) || 'a' <= c <= 'f' || 'A' <= c <= 'F'
  }

  function HexOf(c: char): nat
    requires IsHexDigit(c)
  {
    if IsDigit(c) then DigitOf(c)
    else if 'a' <= c <= 'f' then (c as int) - ('a' as int) + 10
    else (c as int) - ('A' as int) + 10
  }

  /** The longest prefix of hexadecimal digits. */
  function HexPrefix(s: string): (r: string)
    ensures |r| <= |s| && r == s[..|r|]
    ensures forall i :: 0 <= i < |r| ==> IsHexDigit(r[i])
  {
    if s != [] && IsHexDigit(s[0]) then
      var rest := HexPrefix(s[1..]);
      assert [s[0]] + rest == s[..|rest| + 1];
      [s[0]] + rest
    else []
  }

  function HexValue(hs: string): nat
    requires forall i :: 0 <= i < |hs| ==> IsHexDigit(hs[i])
  {
    if hs == [] then 0
    else HexValue(hs[..|hs| - 1]) * 16 + HexOf(hs[|hs| - 1])
  }

  /**
   * `parseInt(s)` with no radix: leading white space, an optional sign,
   * then either `0x`/`0X` and the longest run of hexadecimal digits, or
   * the longest run of decimal digits; `None` stands for NaN (no digit).
   */
  function ParseInt(s: string): Option<int> {
    var t := TrimStart(s);
    var negative := t != [] && t[0] == '-';
    var u := if t != [] && (t[0] == '-' || t[0] == '+') then t[1..] else t;
    if |u| >= 2 && u[0] == '0' && (u[1] == 'x' || u[1] == 'X') then
      var hs := HexPrefix(u[2..]);
      if hs == [] then None
      else
        var v: int := HexValue(hs);
        Some(if negative then -v else v)
    else
      var ds := DigitPrefix(u);
      if ds == [] then None
      else
        var v: int := DigitsValue(ds);
        Some(if negative then -v else v)
  }

  /** A non-empty numeral parses to its value. */
  lemma ParseDigits(s: string)
    requires |s| > 0 && AllDigits(s)
    ensures ParseInt(s) == Some(DigitsValue(s))
  {
    assert !IsSpace(s[0]);
    assert TrimStart(s) == s;
    assert s[0] != '-' && s[0] != '+';
    assert |s| >= 2 ==> s[1] != 'x' && s[1] != 'X';
    DigitPrefixAll(s);
  }

  lemma {:induction false} DigitPrefixAll(s: string)
    requires AllDigits(s)
    ensures DigitPrefix(s) == s
  {
    if s != [] {
      assert AllDigits(s[1..]);
      DigitPrefixAll(s[1..]);
    }
  }

  /** A numeral printed by `Pad2` parses back to its number. */
  lemma ParsePad2(n: nat)
    ensures ParseInt(Pad2(n)) == Some(n)
  {
    Pad2Value(n);
    ParseDigits(Pad2(n));
  }

  /** Trimming blanks off the front of a numeral leaves the numeral. */
  lemma TrimDigits(p: string, pre: string)
    requires |p| > 0 && AllDigits(p)
    requires forall i :: 0 <= i < |pre| ==> IsSpace(pre[i])
    ensures Trim(pre + p) == p
  {
    assert !IsSpace(p[0]) && !IsSpace(p[|p| - 1]);
    TrimStartOf(pre, p);
  }

  /** A token led by an ideographic space and a blank reads as its number, " 7" after "\u3000" as 7. */
  lemma WideSpaceToken(p: string)
    requires |p| > 0 && AllDigits(p)
    ensures ParseInt(Trim("\U{3000} " + p)) == Some(DigitsValue(p))
  {
    TrimDigits(p, "\U{3000} ");
    ParseDigits(p);
  }

  lemma {:induction false} TrimStartOf(pre: string, p: string)
    requires |p| > 0 && !IsSpace(p[0])
    requires forall i :: 0 <= i < |pre| ==> IsSpace(pre[i])
    ensures TrimStart(pre + p) == p
  {
    if pre == [] {
      assert pre + p == p;
    } else {
      assert (pre + p)[1..] == pre[1..] + p;
      TrimStartOf(pre[1..], p);
    }
  }

  // ---------------------------------------------------------------------
  // split and join
  // ---------------------------------------------------------------------

  /** The index of the first occurrence of c, if any. */
  function IndexOf(s: string, c: char): (r: Option<nat>)
    ensures r.None? <==> c !in s
    ensures r.Some? ==> r.value < |s| && s[r.value] == c && c !in s[..r.value]
  {
    if s == [] then None
    else if s[0] == c then Some(0)
    else
      match IndexOf(s[1..], c)
      case None => None
      case Some(i) =>
        assert s[..i + 1] == [s[0]] + s[1..][..i];
        Some(i + 1)
  }

  /** `s.split(c)`: the pieces between occurrences of c; never empty. */
  function Split(s: string, c: char): (r: seq<string>)
    decreases |s|
    ensures |r| >= 1
    ensures forall k :: 0 <= k < |r| ==> c !in r[k]
  {
    match IndexOf(s, c)
    case None => [s]
    case Some(i) => [s[..i]] + Split(s[i + 1..], c)
  }

  lemma SplitNoSep(s: string, c: char)
    requires c !in s
    ensures Split(s, c) == [s]
  {
  }

  lemma SplitAt(a: string, c: char, b: string)
    requires c !in a
    ensures Split(a + [c] + b, c) == [a] + Split(b, c)
  {
    var s := a + [c] + b;
    assert s[|a|] == c;
    assert s[..|a|] == a;
    var i := IndexOf(s, c).value;
    assert forall k :: 0 <= k < |a| ==> s[k] == a[k] && s[k] != c;
    assert forall k :: 0 <= k < i ==> s[..i][k] == s[k] && s[k] != c;
    assert i == |a|;
    assert s[|a| + 1..] == b;
  }

  /** A separator-free prefix glues onto the first piece. */
  lemma SplitPrefix(p: string, c: char, x: string)
    requires c !in p
    ensures Split(p + x, c) == [p + Split(x, c)[0]] + Split(x, c)[1..]
  {
    match IndexOf(x, c)
    case None =>
      assert c !in p + x;
    case Some(i) =>
      assert x == x[..i] + [c] + x[i + 1..];
      SplitAt(x[..i], c, x[i + 1..]);
      assert p + x == (p + x[..i]) + [c] + x[i + 1..];
      SplitAt(p + x[..i], c, x[i + 1..]);
  }

  /** `parts.join(sep)`. */
  function Join(parts: seq<string>, sep: string): string {
    if |parts| == 0 then ""
    else if |parts| == 1 then parts[0]
    else parts[0] + sep + Join(parts[1..], sep)
  }

  lemma {:induction false} JoinChars(parts: seq<string>, sep: string, c: char)
    requires forall k :: 0 <= k < |parts| ==> c !in parts[k]
    requires c !in sep
    ensures c !in Join(parts, sep)
  {
    if |parts| > 1 {
      JoinChars(parts[1..], sep, c);
    }
  }

  lemma JoinStep(parts: seq<string>)
    requires |parts| > 1
    ensures Join(parts, ", ") == parts[0] + [','] + (" " + Join(parts[1..], ", "))
  {
    var rest := Join(parts[1..], ", ");
    assert Join(parts, ", ") == parts[0] + ", " + rest;
    assert ", " == [','] + " ";
  }

  /**
   * Splitting a ", "-joined list on ',' gives back the parts, every part
   * after the first carrying the blank that followed its comma.
   */
  lemma {:induction false} SplitJoin(parts: seq<string>)
    requires |parts| >= 1
    requires forall k :: 0 <= k < |parts| ==> ',' !in parts[k]
    ensures |Split(Join(parts, ", "), ',')| == |parts|
    ensures Split(Join(parts, ", "), ',')[0] == parts[0]
    ensures forall k :: 1 <= k < |parts| ==> Split(Join(parts, ", "), ',')[k] == " " + parts[k]
  {
    if |parts| > 1 {
      var rest := Join(parts[1..], ", ");
      SplitJoin(parts[1..]);
      SplitPrefix(" ", ',', rest);
      JoinStep(parts);
      SplitAt(parts[0], ',', " " + rest);
      SpacedShift(parts, Split(rest, ','));
    } else {
      SplitNoSep(parts[0], ',');
    }
  }

  lemma SpacedShift(parts: seq<string>, r: seq<string>)
    requires |parts| > 1 && |r| == |parts| - 1 && r[0] == parts[1]
    requires forall k :: 1 <= k < |r| ==> r[k] == " " + parts[1..][k]
    ensures var w := [parts[0]] + ([" " + r[0]] + r[1..]);
      |w| == |parts| && w[0] == parts[0] &&
      forall k :: 1 <= k < |parts| ==> w[k] == " " + parts[k]
  {
    var w := [parts[0]] + ([" " + r[0]] + r[1..]);
    forall k | 1 <= k < |parts| ensures w[k] == " " + parts[k] {
      if k > 1 {
        assert w[k] == r[k - 1] && parts[1..][k - 1] == parts[k];
      }
    }
  }

  // ---------------------------------------------------------------------
  // includes and digit filtering
  // ---------------------------------------------------------------------

  /** `s.includes(t)`: t occurs in s as a contiguous piece. */
  function Contains(s: string, t: string): bool
    decreases |s|
  {
    if |t| > |s| then false
    else if s[..|t|] == t then true
    else Contains(s[1..], t)
  }

  /** `s.replace(/[^0-9]/g, '')`. */
  function OnlyDigits(s: string): (r: string)
    ensures AllDigits(r) && |r| <= |s|
    ensures multiset(r) <= multiset(s)
    ensures forall c :: c in r <==> c in s && IsDigit(c)
  {
    if s == [] then []
    else
      assert s == [s[0]] + s[1..];
      (if IsDigit(s[0]) then [s[0]] else []) + OnlyDigits(s[1..])
  }

  /** Digits pass through unchanged, so sanitising twice is sanitising once. */
  lemma {:induction false} OnlyDigitsOfDigits(s: string)
    requires AllDigits(s)
    ensures OnlyDigits(s) == s
  {
    if s != [] {
      assert AllDigits(s[1..]);
      OnlyDigitsOfDigits(s[1..]);
    }
  }
}
