/**
 * Lists of lottery numbers as text.  Both the backup import and the
 * fixed-number field read a comma-separated list the same way:
 * `split(',')`, `parseInt(n.trim())` on each piece, and keep the results
 * that are numbers in 1..25.  The backup export writes numbers
 * zero-padded to two digits and joined by ", ".
 */
module NumberList {
  import opened Wrappers
  import opened Seqs
  import opened Text

  /** `.map(n => parseInt(n.trim()))`: None stands for NaN. */
  function ParseEach(tokens: seq<string>): (r: seq<Option<int>>)
    ensures |r| == |tokens|
    ensures forall k :: 0 <= k < |tokens| ==> r[k] == ParseInt(Trim(tokens[k]))
  {
    if tokens == [] then [] else [ParseInt(Trim(tokens[0]))] + ParseEach(tokens[1..])
  }

  predicate InRange(v: Option<int>) {
    v.Some? && 1 <= v.value <= 25
  }

  /** `.filter(n => !isNaN(n) && n >= 1 && n <= 25)`. */
  function KeepInRange(vs: seq<Option<int>>): (r: seq<int>)
    ensures |r| <= |vs|
    ensures AllIn(r, 1, 25)
    ensures forall x :: x in r <==> Some(x) in vs && 1 <= x <= 25
  {
    if vs == [] then []
    else
      assert vs == [vs[0]] + vs[1..];
      (if InRange(vs[0]) then [vs[0].value] else []) + KeepInRange(vs[1..])
  }

  /** Filtering a list of values piece by piece. */
  lemma {:induction false} KeepInRangeConcat(a: seq<Option<int>>, b: seq<Option<int>>)
    ensures KeepInRange(a + b) == KeepInRange(a) + KeepInRange(b)
  {
    if a != [] {
      assert (a + b)[1..] == a[1..] + b;
      KeepInRangeConcat(a[1..], b);
    } else {
      assert a + b == b;
    }
  }

  /** Values that are all numbers in 1..25 survive the filter as they are. */
  lemma {:induction false} KeepAllInRange(vs: seq<Option<int>>, ns: seq<int>)
    requires |vs| == |ns| && AllIn(ns, 1, 25)
    requires forall k :: 0 <= k < |ns| ==> vs[k] == Some(ns[k])
    ensures KeepInRange(vs) == ns
  {
    if ns != [] {
      assert InRange(vs[0]) && vs[0].value == ns[0];
      forall k | 0 <= k < |ns| - 1 ensures vs[1..][k] == Some(ns[1..][k]) {
        assert vs[1..][k] == vs[k + 1] && ns[1..][k] == ns[k + 1];
      }
      KeepAllInRange(vs[1..], ns[1..]);
      assert KeepInRange(vs) == [ns[0]] + KeepInRange(vs[1..]);
    }
  }

  /** The numbers of a comma-separated list. */
  function ParseNumbers(s: string): (r: seq<int>)
    ensures AllIn(r, 1, 25)
    ensures |r| <= |Split(s, ',')|
  {
    KeepInRange(ParseEach(Split(s, ',')))
  }

  /** `n => String(n).padStart(2, '0')` over a list. */
  function PadAll(ns: seq<int>): (r: seq<string>)
    ensures |r| == |ns|
    ensures forall k :: 0 <= k < |ns| ==> r[k] == Pad2(ns[k])
  {
    if ns == [] then [] else [Pad2(ns[0])] + PadAll(ns[1..])
  }

  /** `numeros.map(pad).join(', ')`. */
  function FormatNumeros(ns: seq<int>): (s: string)
    ensures '[' !in s && ']' !in s
    ensures '\n' !in s && '\r' !in s && '\U{2028}' !in s && '\U{2029}' !in s
  {
    var parts := PadAll(ns);
    JoinChars(parts, ", ", '[');
    JoinChars(parts, ", ", ']');
    JoinChars(parts, ", ", '\n');
    JoinChars(parts, ", ", '\r');
    JoinChars(parts, ", ", '\U{2028}');
    JoinChars(parts, ", ", '\U{2029}');
    Join(parts, ", ")
  }

  /** The formatted list has content whenever there is a number. */
  lemma FormatNumerosNonEmpty(ns: seq<int>)
    requires |ns| > 0
    ensures |FormatNumeros(ns)| >= 2
  {
    var parts := PadAll(ns);
    if |parts| > 1 {
      assert Join(parts, ", ") == parts[0] + ", " + Join(parts[1..], ", ");
    }
  }

  /** The pieces of a formatted list each parse back as their number. */
  lemma FormattedTokens(ns: seq<int>)
    requires AllIn(ns, 1, 25) && |ns| > 0
    ensures var ts := Split(Join(PadAll(ns), ", "), ',');
      |ts| == |ns| && forall k :: 0 <= k < |ns| ==> ParseInt(Trim(ts[k])) == Some(ns[k])
  {
    var parts := PadAll(ns);
    forall k | 0 <= k < |parts| ensures ',' !in parts[k] {
      assert Numeral(parts[k]);
    }
    SplitJoin(parts);
    var tokens := Split(Join(parts, ", "), ',');
    forall k | 0 <= k < |ns| ensures ParseInt(Trim(tokens[k])) == Some(ns[k]) {
      if k == 0 {
        PaddedToken(ns[0], "");
        assert tokens[0] == "" + parts[0];
      } else {
        PaddedToken(ns[k], " ");
      }
    }
  }

  /** One padded number, with or without the blank after a comma, parses back. */
  lemma PaddedToken(n: int, pre: string)
    requires 1 <= n <= 25 && (pre == "" || pre == " ")
    ensures ParseInt(Trim(pre + Pad2(n))) == Some(n)
  {
    Pad2Value(n);
    ParsePad2(n);
    TrimDigits(Pad2(n), pre);
  }

  /** Round trip: the formatted numbers in 1..25 read back as the same list. */
  lemma ParseFormatNumeros(ns: seq<int>)
    requires AllIn(ns, 1, 25)
    ensures ParseNumbers(FormatNumeros(ns)) == ns
  {
    if ns == [] {
      assert FormatNumeros(ns) == "";
      assert Split("", ',') == [""];
      assert ParseInt(Trim("")) == None;
    } else {
      var tokens := Split(Join(PadAll(ns), ", "), ',');
      FormattedTokens(ns);
      KeepAllInRange(ParseEach(tokens), ns);
      assert FormatNumeros(ns) == Join(PadAll(ns), ", ");
    }
  }
}
