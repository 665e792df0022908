/** String helpers shared by the models: ASCII case folding, suffix and
    substring tests, JavaScript whitespace, trimming and splitting, and
    decimal digit strings. */
module Text {

  /** Lower-casing of one character; only the ASCII letters A-Z change. */
  function LowerChar(c: char): char {
    if 'A' <= c <= 'Z' then (c as int + 32) as char else c
  }

  function Lower(s: string): (r: string)
    ensures |r| == |s|
    ensures forall i :: 0 <= i < |s| ==> r[i] == LowerChar(s[i])
  {
    if s == [] then [] else [LowerChar(s[0])] + Lower(s[1..])
  }

  /** Python's str.endswith and JavaScript's String.prototype.endsWith. */
  predicate EndsWith(s: string, suffix: string) {
    |suffix| <= |s| && s[|s| - |suffix|..] == suffix
  }

  /** `needle` occurs in `hay` starting at index i. */
  predicate OccursAt(hay: string, needle: string, i: nat) {
    i + |needle| <= |hay| && hay[i..i + |needle|] == needle
  }

  /** Python's `needle in hay` on two strings. */
  predicate Contains(hay: string, needle: string) {
    exists i: nat :: i <= |hay| && OccursAt(hay, needle, i)
  }

  /** The characters JavaScript's trim() strips and /\s/ matches:
      WhiteSpace and LineTerminator of ECMAScript. */
  predicate IsJsSpace(c: char) {
    var n := c as int;
    n == 0x09 || n == 0x0A || n == 0x0B || n == 0x0C || n == 0x0D || n == 0x20 ||
    n == 0xA0 || n == 0x1680 || (0x2000 <= n <= 0x200A) || n == 0x2028 ||
    n == 0x2029 || n == 0x202F || n == 0x205F || n == 0x3000 || n == 0xFEFF
  }

  /** The number of white-space characters at the head of s. */
  function LeadingSpace(s: string): (n: nat)
    ensures n <= |s|
  {
    if s != [] && IsJsSpace(s[0]) then 1 + LeadingSpace(s[1..]) else 0
  }

  lemma {:induction false} LeadingSpaceSpec(s: string)
    ensures forall k :: 0 <= k < LeadingSpace(s) ==> IsJsSpace(s[k])
    ensures LeadingSpace(s) < |s| ==> !IsJsSpace(s[LeadingSpace(s)])
  {
    if s != [] && IsJsSpace(s[0]) {
      LeadingSpaceSpec(s[1..]);
      assert forall k :: 1 <= k < |s| ==> s[k] == s[1..][k - 1];
    }
  }

  /** The index where the white space at the tail of s begins. */
  function TrailingSpaceStart(s: string): (m: nat)
    ensures m <= |s|
  {
    if s != [] && IsJsSpace(s[|s| - 1]) then TrailingSpaceStart(s[..|s| - 1]) else |s|
  }

  lemma {:induction false} TrailingSpaceStartSpec(s: string)
    ensures forall k :: TrailingSpaceStart(s) <= k < |s| ==> IsJsSpace(s[k])
    ensures TrailingSpaceStart(s) > 0 ==> !IsJsSpace(s[TrailingSpaceStart(s) - 1])
  {
    if s != [] && IsJsSpace(s[|s| - 1]) {
      TrailingSpaceStartSpec(s[..|s| - 1]);
    }
  }

  /** Everything of s outside s[i..j] is white space. */
  predicate StrippedAround(s: string, i: nat, j: nat)
    requires i <= j <= |s|
  {
    (forall k :: 0 <= k < i ==> IsJsSpace(s[k])) && (forall k :: j <= k < |s| ==> IsJsSpace(s[k]))
  }

  /** Where JavaScript's trim() cuts s: the first and one past the last
      character that is not white space (an empty range when there is none). */
  function TrimBounds(s: string): (b: (nat, nat))
    ensures b.0 <= b.1 <= |s|
  {
    var n := LeadingSpace(s);
    if n == |s| then (n, n)
    else
      LeadingSpaceSpec(s);
      TrailingSpaceStartSpec(s);
      (n, TrailingSpaceStart(s))
  }

  /** trim() cuts exactly the white space at both ends. */
  lemma TrimBoundsSpec(s: string)
    ensures var b := TrimBounds(s);
            StrippedAround(s, b.0, b.1) && (b.0 < b.1 ==> !IsJsSpace(s[b.0]) && !IsJsSpace(s[b.1 - 1]))
  {
    LeadingSpaceSpec(s);
    TrailingSpaceStartSpec(s);
  }

  /** JavaScript's String.prototype.trim. */
  function Trim(s: string): string {
    s[TrimBounds(s).0..TrimBounds(s).1]
  }

  /** trim() leaves a string without white space at either end as it is,
      so trimming twice is trimming once. */
  lemma TrimTrimmed(s: string)
    requires s != [] ==> !IsJsSpace(s[0]) && !IsJsSpace(s[|s| - 1])
    ensures Trim(s) == s
  {
    assert s == s[0..|s|];
  }

  /** The text before the first occurrence of `sep`, which is element 0 of
      JavaScript's s.split(sep). */
  function BeforeFirst(s: string, sep: char): (r: string)
    ensures |r| <= |s| && r == s[..|r|]
  {
    if s == [] || s[0] == sep then [] else [s[0]] + BeforeFirst(s[1..], sep)
  }

  /** The cut is at the first `sep`, or at the end when there is none. */
  lemma {:induction false} BeforeFirstSpec(s: string, sep: char)
    ensures sep !in BeforeFirst(s, sep)
    ensures |BeforeFirst(s, sep)| < |s| ==> s[|BeforeFirst(s, sep)|] == sep
  {
    if s != [] && s[0] != sep {
      BeforeFirstSpec(s[1..], sep);
    }
  }

  /** Length of the run of non-space characters at the head of s. */
  function RunLength(s: string): (n: nat)
    ensures n <= |s|
    ensures s != [] && !IsJsSpace(s[0]) ==> n > 0
  {
    if s == [] || IsJsSpace(s[0]) then 0 else 1 + RunLength(s[1..])
  }

  /** JavaScript's s.split(/\s+/).filter(Boolean): the maximal runs of
      non-space characters, in order. */
  function Words(s: string): (r: seq<string>)
    decreases |s|
  {
    if s == [] then []
    else if IsJsSpace(s[0]) then Words(s[1..])
    else
      var n := RunLength(s);
      [s[..n]] + Words(s[n..])
  }

  /** A word without white space, followed by white space or nothing, is
      the first word. */
  lemma {:induction false} WordsOfWord(w: string, rest: string)
    requires w != [] && forall i :: 0 <= i < |w| ==> !IsJsSpace(w[i])
    requires rest != [] ==> IsJsSpace(rest[0])
    ensures Words(w + rest) == [w] + Words(rest)
  {
    RunLengthOfWord(w, rest);
    assert (w + rest)[..|w|] == w && (w + rest)[|w|..] == rest;
  }

  lemma {:induction false} RunLengthOfWord(w: string, rest: string)
    requires forall i :: 0 <= i < |w| ==> !IsJsSpace(w[i])
    requires rest != [] ==> IsJsSpace(rest[0])
    ensures RunLength(w + rest) == |w|
  {
    if w != [] {
      assert (w + rest)[1..] == w[1..] + rest;
      RunLengthOfWord(w[1..], rest);
    } else {
      assert w + rest == rest;
    }
  }

  /** Two words separated by one space split into those two words. */
  lemma WordsOfPair(a: string, b: string)
    requires a != [] && forall i :: 0 <= i < |a| ==> !IsJsSpace(a[i])
    requires b != [] && forall i :: 0 <= i < |b| ==> !IsJsSpace(b[i])
    ensures Words(a + (" " + b)) == [a, b]
  {
    WordsOfWord(a, " " + b);
    assert (" " + b)[1..] == b;
    WordsOfWord(b, "");
    assert b + "" == b;
  }

  predicate IsDigit(c: char) { '0' <= c <= '9' }

  predicate AllDigits(s: string) { forall i :: 0 <= i < |s| ==> IsDigit(s[i]) }

  /** The value of a string of decimal digits, most significant first. */
  function DecimalValue(s: string): nat
    requires AllDigits(s)
  {
    if s == [] then 0 else DecimalValue(s[..|s| - 1]) * 10 + (s[|s| - 1] as int - '0' as int)
  }

  /** The shortest decimal rendering of n. */
  function DecimalString(n: nat): (r: string)
    ensures r != [] && AllDigits(r)
  {
    if n < 10 then [('0' as int + n) as char]
    else DecimalString(n / 10) + [('0' as int + n % 10) as char]
  }

  lemma {:induction false} DecimalRoundTrip(n: nat)
    ensures DecimalValue(DecimalString(n)) == n
  {
    var r := DecimalString(n);
    if n >= 10 {
      DecimalRoundTrip(n / 10);
      assert r[..|r| - 1] == DecimalString(n / 10);
    }
  }

  function Pow10(k: nat): (p: nat)
    ensures p >= 1
  {
    if k == 0 then 1 else 10 * Pow10(k - 1)
  }

  /** A number below 10^w needs at most w digits. */
  lemma {:induction false} DecimalStringLength(n: nat, w: nat)
    ensures 1 <= w && n < Pow10(w) ==> |DecimalString(n)| <= w
  {
    if n >= 10 && 1 <= w && n < Pow10(w) {
      assert w >= 2;
      DecimalStringLength(n / 10, w - 1);
    }
  }

  /** n written with at least `width` digits, padded on the left with '0'. */
  function PadDecimal(n: nat, width: nat): (r: string)
    ensures AllDigits(r) && |r| >= width
    ensures DecimalValue(r) == n
    ensures |r| == if |DecimalString(n)| >= width then |DecimalString(n)| else width
    ensures 1 <= width && n < Pow10(width) ==> |r| == width
    decreases width
  {
    DecimalStringLength(n, width);
    var d := DecimalString(n);
    DecimalRoundTrip(n);
    if |d| >= width then d
    else
      var p := PadDecimal(n, width - 1);
      ZeroPrefixValue(p);
      "0" + p
  }

  lemma {:induction false} ZeroPrefixValue(s: string)
    requires AllDigits(s)
    ensures AllDigits("0" + s) && DecimalValue("0" + s) == DecimalValue(s)
  {
    if s != [] {
      var t := "0" + s;
      assert t[..|t| - 1] == "0" + s[..|s| - 1];
      ZeroPrefixValue(s[..|s| - 1]);
    }
  }
}
