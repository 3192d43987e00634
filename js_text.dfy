/**
  The few operations of JavaScript's String and Array prototypes that the lesson
  planner relies on: `trim`, `startsWith`/`endsWith`, `Array.prototype.join`, and
  the decimal rendering of a non-negative integer in a template literal.
*/
module JsText {

  /** The WhiteSpace and LineTerminator code points of ECMAScript
      (sections 12.2 and 12.3 of ECMA-262): what `String.prototype.trim` removes. */
  predicate IsJsWhitespace(c: char) {
    var n := c as int;
    n == 0x09 || n == 0x0A || n == 0x0B || n == 0x0C || n == 0x0D || n == 0x20
    || n == 0xA0 || n == 0x1680 || (0x2000 <= n <= 0x200A)
    || n == 0x2028 || n == 0x2029 || n == 0x202F || n == 0x205F
    || n == 0x3000 || n == 0xFEFF
  }

  predicate AllWhitespace(s: string) {
    forall i :: 0 <= i < |s| ==> IsJsWhitespace(s[i])
  }

  /** Neither end of `s` is whitespace: the shape of every result of `Trim`. */
  predicate IsTrimmed(s: string) {
    s == [] || (!IsJsWhitespace(s[0]) && !IsJsWhitespace(s[|s| - 1]))
  }

  /** `part` sits in `text` starting at index `i`. */
  predicate OccursAt(text: string, part: string, i: int) {
    0 <= i && i + |part| <= |text| && text[i..i + |part|] == part
  }

  predicate StartsWith(s: string, prefix: string) {
    |prefix| <= |s| && s[..|prefix|] == prefix
  }

  predicate EndsWith(s: string, suffix: string) {
    |suffix| <= |s| && s[|s| - |suffix|..] == suffix
  }

  /** Removes the leading whitespace: `s` is a whitespace run followed by the result. */
  function TrimStart(s: string): (r: string)
    ensures |r| <= |s| && r == s[|s| - |r|..]
    ensures forall k :: 0 <= k < |s| - |r| ==> IsJsWhitespace(s[k])
    ensures r == [] || !IsJsWhitespace(r[0])
  {
    if |s| > 0 && IsJsWhitespace(s[0]) then TrimStart(s[1..]) else s
  }

  /** Removes the trailing whitespace: the result followed by a whitespace run is `s`. */
  function TrimEnd(s: string): (r: string)
    ensures |r| <= |s| && r == s[..|r|]
    ensures forall k :: |r| <= k < |s| ==> IsJsWhitespace(s[k])
    ensures r == [] || !IsJsWhitespace(r[|r| - 1])
  {
    if |s| > 0 && IsJsWhitespace(s[|s| - 1]) then TrimEnd(s[..|s| - 1]) else s
  }

  /** `r` is the piece of `s` at index `i` and everything around it is whitespace. */
  predicate WhitespaceAround(s: string, r: string, i: int) {
    && OccursAt(s, r, i)
    && (forall k :: 0 <= k < i ==> IsJsWhitespace(s[k]))
    && (forall k :: i + |r| <= k < |s| ==> IsJsWhitespace(s[k]))
  }

  /** `String.prototype.trim`: a contiguous piece of `s`, with no whitespace at either end,
      whose margins in `s` are whitespace. */
  function Trim(s: string): (r: string)
    ensures IsTrimmed(r)
    ensures exists i :: WhitespaceAround(s, r, i)
  {
    var front := TrimStart(s);
    var r := TrimEnd(front);
    TrimIsPiece(s, front, r);
    r
  }

  /** The two trimming passes compose: what `TrimEnd` leaves of what `TrimStart` left
      sits in `s` with whitespace on both sides. */
  lemma TrimIsPiece(s: string, front: string, r: string)
    requires |front| <= |s| && front == s[|s| - |front|..]
    requires forall k :: 0 <= k < |s| - |front| ==> IsJsWhitespace(s[k])
    requires front == [] || !IsJsWhitespace(front[0])
    requires |r| <= |front| && r == front[..|r|]
    requires forall k :: |r| <= k < |front| ==> IsJsWhitespace(front[k])
    requires r == [] || !IsJsWhitespace(r[|r| - 1])
    ensures IsTrimmed(r)
    ensures WhitespaceAround(s, r, |s| - |front|)
  {
    var i := |s| - |front|;
    assert r != [] ==> r[0] == front[0];
    assert s[i..i + |r|] == front[..|r|];
    forall k | i + |r| <= k < |s| ensures IsJsWhitespace(s[k]) {
      assert s[k] == front[k - i];
    }
  }

  lemma {:induction false} TrimStartSkipsMargin(a: string, m: string)
    requires AllWhitespace(a)
    requires m == [] || !IsJsWhitespace(m[0])
    ensures TrimStart(a + m) == m
  {
    if a != [] {
      assert (a + m)[1..] == a[1..] + m;
      TrimStartSkipsMargin(a[1..], m);
    }
  }

  lemma {:induction false} TrimEndSkipsMargin(m: string, b: string)
    requires AllWhitespace(b)
    requires m == [] || !IsJsWhitespace(m[|m| - 1])
    ensures TrimEnd(m + b) == m
  {
    if b != [] {
      assert (m + b)[..|m + b| - 1] == m + b[..|b| - 1];
      TrimEndSkipsMargin(m, b[..|b| - 1]);
    }
  }

  /** `Trim` removes exactly the whitespace margins around a trimmed core, and nothing else;
      in particular it is idempotent (take `a` and `b` empty). */
  lemma TrimRemovesMargins(a: string, m: string, b: string)
    requires AllWhitespace(a) && AllWhitespace(b) && IsTrimmed(m)
    ensures Trim(a + m + b) == m
  {
    if m == [] {
      assert a + m + b == a + b;
      assert AllWhitespace(a + b);
      TrimStartSkipsMargin(a + b, []);
      assert a + b + [] == a + b;
    } else {
      assert a + m + b == a + (m + b);
      TrimStartSkipsMargin(a, m + b);
      TrimEndSkipsMargin(m, b);
    }
  }

  /** `Array.prototype.join(sep)` on a list of strings. */
  function Join(items: seq<string>, sep: string): (r: string)
    ensures items == [] ==> r == []
    ensures items != [] ==> StartsWith(r, items[0])
    ensures |items| == 1 ==> r == items[0]
  {
    if |items| == 0 then []
    else if |items| == 1 then items[0]
    else items[0] + sep + Join(items[1..], sep)
  }

  /** Appending an item appends the separator and the item: `Join` puts `sep` between every
      two neighbouring items and nowhere else. */
  lemma {:induction false} JoinAppend(items: seq<string>, x: string, sep: string)
    requires items != []
    ensures Join(items + [x], sep) == Join(items, sep) + sep + x
  {
    var longer := items + [x];
    assert longer[0] == items[0];
    if |items| == 1 {
      assert longer == [items[0], x];
      assert longer[1..] == [x];
    } else {
      assert longer[1..] == items[1..] + [x];
      JoinAppend(items[1..], x, sep);
      calc {
        Join(longer, sep);
        items[0] + sep + Join(items[1..] + [x], sep);
        items[0] + sep + (Join(items[1..], sep) + sep + x);
        (items[0] + sep + Join(items[1..], sep)) + sep + x;
      }
    }
  }

  function DigitChar(d: nat): char
    requires d < 10
  {
    "0123456789"[d]
  }

  /** The decimal form JavaScript prints for a non-negative integer. */
  function NatToDecimal(n: nat): (r: string)
    ensures |r| > 0
    ensures forall i :: 0 <= i < |r| ==> '0' <= r[i] <= '9'
    ensures r[0] == '0' ==> n == 0
  {
    if n < 10 then [DigitChar(n)] else NatToDecimal(n / 10) + [DigitChar(n % 10)]
  }

  /** The integer a string of decimal digits denotes: the reference reading of `NatToDecimal`. */
  function DecimalValue(s: string): nat
    requires forall i :: 0 <= i < |s| ==> '0' <= s[i] <= '9'
  {
    if s == [] then 0 else 10 * DecimalValue(s[..|s| - 1]) + (s[|s| - 1] as int - '0' as int)
  }

  lemma PrefixOfConcat(x: string, y: string)
    ensures StartsWith(x + y, x)
  {
    assert (x + y)[..|x|] == x;
  }

  lemma SuffixOfConcat(x: string, y: string)
    ensures EndsWith(x + y, y)
  {
    assert (x + y)[|x|..] == y;
  }

  lemma {:induction false} DecimalRoundTrip(n: nat)
    ensures DecimalValue(NatToDecimal(n)) == n
  {
    var r := NatToDecimal(n);
    if n >= 10 {
      DecimalRoundTrip(n / 10);
      assert r[..|r| - 1] == NatToDecimal(n / 10);
    }
  }
}
