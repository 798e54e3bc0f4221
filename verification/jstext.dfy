/**
 * The JavaScript string operations the app relies on, stated over `seq<char>`:
 * `trim`, `split` on one character, `length` in UTF-16 code units and the
 * decimal rendering of a non-negative integer inside a template literal.
 */
module JsText {

  /** Characters `String.prototype.trim` removes: ECMAScript WhiteSpace and LineTerminator. */
  predicate IsJsWhitespace(c: char) {
    || c == '\t' || c == '\n' || c == '\U{000B}' || c == '\U{000C}' || c == '\r'
    || c == ' ' || c == '\U{00A0}' || c == '\U{1680}'
    || ('\U{2000}' <= c <= '\U{200A}')
    || c == '\U{2028}' || c == '\U{2029}' || c == '\U{202F}' || c == '\U{205F}'
    || c == '\U{3000}' || c == '\U{FEFF}'
  }

  predicate AllWhitespace(s: string) {
    forall i :: 0 <= i < |s| ==> IsJsWhitespace(s[i])
  }

  /** Removes leading whitespace: the result is the longest suffix not starting with whitespace. */
  function TrimStart(s: string): (r: string)
    ensures |r| <= |s| && r == s[|s| - |r|..]
    ensures AllWhitespace(s[..|s| - |r|])
    ensures r == [] || !IsJsWhitespace(r[0])
  {
    if |s| > 0 && IsJsWhitespace(s[0]) then
      var r := TrimStart(s[1..]);
      assert s[..|s| - |r|] == [s[0]] + s[1..][..|s| - 1 - |r|];
      r
    else s
  }

  /** Removes trailing whitespace: the result is the longest prefix not ending with whitespace. */
  function TrimEnd(s: string): (r: string)
    ensures |r| <= |s| && r == s[..|r|]
    ensures AllWhitespace(s[|r|..])
    ensures r == [] || !IsJsWhitespace(r[|r| - 1])
  {
    if |s| > 0 && IsJsWhitespace(s[|s| - 1]) then
      var r := TrimEnd(s[..|s| - 1]);
      assert s[|r|..] == s[..|s| - 1][|r|..] + [s[|s| - 1]];
      r
    else s
  }

  /** `r` is `s[i..j]`, and everything cut off on either side is whitespace. */
  predicate CutsBlankEnds(s: string, r: string, i: int, j: int) {
    0 <= i <= j <= |s| && r == s[i..j] && AllWhitespace(s[..i]) && AllWhitespace(s[j..])
  }

  /** `s.trim()`: the slice of `s` left after cutting whitespace-only runs from both ends. */
  function Trim(s: string): (r: string)
    ensures |r| <= |s|
    ensures exists i, j :: CutsBlankEnds(s, r, i, j)
    ensures r == [] || (!IsJsWhitespace(r[0]) && !IsJsWhitespace(r[|r| - 1]))
  {
    TrimBothEnds(s);
    TrimEnd(TrimStart(s))
  }

  /** Trimming the start and then the end keeps a slice and cuts only whitespace. */
  lemma TrimBothEnds(s: string)
    ensures exists i, j :: CutsBlankEnds(s, TrimEnd(TrimStart(s)), i, j)
  {
    var t := TrimStart(s);
    var r := TrimEnd(t);
    var i := |s| - |t|;
    TakeOfDrop(s, i, |r|);
    DropOfDrop(s, i, |r|);
    assert r == s[i..i + |r|];
    assert AllWhitespace(s[i + |r|..]);
    assert CutsBlankEnds(s, r, i, i + |r|);
  }

  /** Dropping `i` elements and then taking `k` is the slice from `i` to `i + k`. */
  lemma TakeOfDrop(s: string, i: nat, k: nat)
    requires i + k <= |s|
    ensures s[i..][..k] == s[i..i + k]
  {
  }

  /** Dropping `i` elements and then `k` more drops `i + k`. */
  lemma DropOfDrop(s: string, i: nat, k: nat)
    requires i + k <= |s|
    ensures s[i..][k..] == s[i + k..]
  {
  }

  /** `!s.trim()` holds exactly for strings made only of whitespace, the empty one included. */
  lemma TrimEmptyIff(s: string)
    ensures Trim(s) == [] <==> AllWhitespace(s)
  {
    var t := TrimStart(s);
    if Trim(s) == [] {
      assert t[0..] == t;
      assert t == [];
      assert s[..|s|] == s;
    }
  }

  /** The number of UTF-16 code units of `s`, which is what JavaScript's `length` counts. */
  function Utf16Length(s: string): (n: nat)
    ensures |s| <= n <= 2 * |s|
    ensures (forall i :: 0 <= i < |s| ==> s[i] <= '\U{FFFF}') ==> n == |s|
  {
    if s == [] then 0
    else (if s[0] <= '\U{FFFF}' then 1 else 2) + Utf16Length(s[1..])
  }

  // ---------------------------------------------------------------------------
  // `split` on a single separator character

  /** `s.split(sep)[0]`: the text before the first `sep`, or all of `s`. */
  function BeforeFirst(s: string, sep: char): (r: string)
    ensures r <= s
    ensures sep !in r
    ensures |r| == |s| || s[|r|] == sep
  {
    if s == [] || s[0] == sep then [] else [s[0]] + BeforeFirst(s[1..], sep)
  }

  /** The text after the last `sep`, or all of `s`. */
  function AfterLast(s: string, sep: char): (r: string)
    ensures |r| <= |s| && r == s[|s| - |r|..]
    ensures sep !in r
    ensures |r| == |s| || s[|s| - |r| - 1] == sep
  {
    if s == [] || s[|s| - 1] == sep then []
    else AfterLast(s[..|s| - 1], sep) + [s[|s| - 1]]
  }

  /** Joins parts with `sep` between neighbours: the inverse of `Split`. */
  function Join(parts: seq<string>, sep: char): string
    requires |parts| >= 1
  {
    if |parts| == 1 then parts[0] else parts[0] + [sep] + Join(parts[1..], sep)
  }

  /** `s.split(sep)`: the maximal `sep`-free pieces of `s`, in order. */
  function Split(s: string, sep: char): (parts: seq<string>)
    ensures |parts| >= 1
    ensures forall i :: 0 <= i < |parts| ==> sep !in parts[i]
    decreases |s|
  {
    var head := BeforeFirst(s, sep);
    if |head| == |s| then [s] else [head] + Split(s[|head| + 1..], sep)
  }

  /** Splitting at a first separator: the piece before it, then the pieces of the rest. */
  lemma SplitStep(s: string, sep: char)
    requires |BeforeFirst(s, sep)| < |s|
    ensures var head := BeforeFirst(s, sep);
      Split(s, sep) == [head] + Split(s[|head| + 1..], sep)
  {
  }

  /** Joining the pieces of a split with the separator gives back the original string. */
  lemma {:induction false} SplitJoinRoundTrip(s: string, sep: char)
    ensures Join(Split(s, sep), sep) == s
    decreases |s|
  {
    var head := BeforeFirst(s, sep);
    if |head| < |s| {
      var tail := s[|head| + 1..];
      SplitStep(s, sep);
      SplitJoinRoundTrip(tail, sep);
      assert s == head + [sep] + tail;
    }
  }

  /** Only one prefix of `s` is free of `sep` and ends right before a `sep` or at the end of `s`. */
  lemma BeforeFirstUnique(s: string, sep: char, r: string)
    requires r <= s && sep !in r
    requires |r| == |s| || s[|r|] == sep
    ensures r == BeforeFirst(s, sep)
  {
    var b := BeforeFirst(s, sep);
    if |r| < |b| {
      assert false;
    } else if |b| < |r| {
      assert false;
    }
  }

  /** The first piece of a split is the text before the first separator. */
  lemma SplitFirst(s: string, sep: char)
    ensures Split(s, sep)[0] == BeforeFirst(s, sep)
  {
  }

  /** Only one suffix of `s` is free of `sep` and starts right after a `sep` or at the start of `s`. */
  lemma {:induction false} AfterLastUnique(s: string, sep: char, r: string)
    requires |r| <= |s| && r == s[|s| - |r|..]
    requires sep !in r
    requires |r| == |s| || s[|s| - |r| - 1] == sep
    ensures r == AfterLast(s, sep)
  {
    var a := AfterLast(s, sep);
    if |r| < |a| {
      assert false;
    } else if |a| < |r| {
      assert false;
    }
  }

  /** Dropping everything up to some separator does not change what follows the last one. */
  lemma AfterLastPastSeparator(s: string, sep: char, k: nat)
    requires k < |s| && s[k] == sep
    ensures AfterLast(s[k + 1..], sep) == AfterLast(s, sep)
  {
    var tail := s[k + 1..];
    var r := AfterLast(tail, sep);
    assert r == s[|s| - |r|..];
    if |r| == |tail| {
      assert s[|s| - |r| - 1] == s[k];
    } else {
      assert s[|s| - |r| - 1] == tail[|tail| - |r| - 1];
    }
    AfterLastUnique(s, sep, r);
  }

  /** The last element of a non-empty sequence of pieces. */
  function LastPiece(parts: seq<string>): string
    requires |parts| >= 1
  {
    parts[|parts| - 1]
  }

  /** The last piece of a split is the text after the last separator. */
  lemma {:induction false} SplitLast(s: string, sep: char)
    ensures LastPiece(Split(s, sep)) == AfterLast(s, sep)
    decreases |s|
  {
    var head := BeforeFirst(s, sep);
    var parts := Split(s, sep);
    if |head| == |s| {
      assert head == s;
      assert parts == [s];
      AfterLastUnique(s, sep, s);
      assert LastPiece(parts) == s;
    } else {
      var tail := s[|head| + 1..];
      SplitStep(s, sep);
      var rest := Split(tail, sep);
      assert parts == [head] + rest;
      assert LastPiece(parts) == LastPiece(rest);
      SplitLast(tail, sep);
      AfterLastPastSeparator(s, sep, |head|);
    }
  }

  // ---------------------------------------------------------------------------
  // Decimal rendering of non-negative integers

  predicate IsDigit(c: char) {
    '0' <= c <= '9'
  }

  function DigitChar(d: nat): (c: char)
    requires d < 10
    ensures IsDigit(c)
  {
    ['0', '1', '2', '3', '4', '5', '6', '7', '8', '9'][d]
  }

  function DigitValue(c: char): (d: nat)
    requires IsDigit(c)
    ensures d < 10
  {
    (c as int - '0' as int) as nat
  }

  /** The value a string of decimal digits denotes. */
  function DecimalValue(s: string): nat
    requires forall i :: 0 <= i < |s| ==> IsDigit(s[i])
  {
    if s == [] then 0 else 10 * DecimalValue(s[..|s| - 1]) + DigitValue(s[|s| - 1])
  }

  /** How `${n}` renders a non-negative integer: its digits, most significant first. */
  function NatToDecimal(n: nat): (r: string)
    ensures |r| >= 1
    ensures forall i :: 0 <= i < |r| ==> IsDigit(r[i])
    ensures r[0] == '0' ==> n == 0
  {
    if n < 10 then [DigitChar(n)] else NatToDecimal(n / 10) + [DigitChar(n % 10)]
  }

  /** Reading the rendering back yields the number. */
  lemma {:induction false} DecimalRoundTrip(n: nat)
    ensures DecimalValue(NatToDecimal(n)) == n
  {
    var r := NatToDecimal(n);
    if n < 10 {
      assert DigitValue(DigitChar(n)) == n;
    } else {
      DecimalRoundTrip(n / 10);
      assert r[..|r| - 1] == NatToDecimal(n / 10);
      assert DigitValue(DigitChar(n % 10)) == n % 10;
    }
  }

  /** Distinct numbers render as distinct strings. */
  lemma DecimalInjective(m: nat, n: nat)
    requires NatToDecimal(m) == NatToDecimal(n)
    ensures m == n
  {
    DecimalRoundTrip(m);
    DecimalRoundTrip(n);
  }
}
