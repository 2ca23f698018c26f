/** String helpers: the parts of JavaScript's string and array API the model relies on. */
module Text {

  /** Decimal digits of a natural number, most significant first. */
  function NatToString(n: nat): (r: string)
    ensures |r| >= 1
    ensures forall i :: 0 <= i < |r| ==> '0' <= r[i] <= '9'
    decreases n
  {
    if n < 10 then [DigitChar(n)] else NatToString(n / 10) + [DigitChar(n % 10)]
  }

  function DigitChar(d: nat): (c: char)
    requires d < 10
    ensures '0' <= c <= '9'
  {
    ['0', '1', '2', '3', '4', '5', '6', '7', '8', '9'][d]
  }

  /** `String(n)` for an integer `n`. */
  function IntToString(n: int): (r: string)
    ensures n < 0 <==> (|r| > 0 && r[0] == '-')
  {
    if n < 0 then "-" + NatToString(-n) else NatToString(n)
  }

  /** `s.startsWith(p)`. */
  predicate StartsWith(s: string, p: string) {
    |p| <= |s| && s[..|p|] == p
  }

  /** `s.includes(sub)`. */
  predicate Contains(s: string, sub: string)
    decreases |s|
  {
    StartsWith(s, sub) || (s != [] && Contains(s[1..], sub))
  }

  /** An occurrence of `sub` at any position makes `s.includes(sub)` true. */
  lemma {:induction false} ContainsAt(s: string, sub: string, i: nat)
    requires i + |sub| <= |s| && s[i..i + |sub|] == sub
    ensures Contains(s, sub)
    decreases i
  {
    if i > 0 {
      assert s[1..][i - 1..i - 1 + |sub|] == s[i..i + |sub|];
      ContainsAt(s[1..], sub, i - 1);
    } else {
      assert StartsWith(s, sub);
    }
  }

  /** `s.includes(sub)` finds an occurrence. */
  lemma {:induction false} ContainsWitness(s: string, sub: string) returns (i: nat)
    requires Contains(s, sub)
    ensures i + |sub| <= |s| && s[i..i + |sub|] == sub
    decreases |s|
  {
    if StartsWith(s, sub) {
      i := 0;
    } else {
      var j := ContainsWitness(s[1..], sub);
      assert s[1..][j..j + |sub|] == s[j + 1..j + 1 + |sub|];
      i := j + 1;
    }
  }

  /** Appending on either side keeps an occurrence. */
  lemma ContainsAppend(a: string, b: string, sub: string)
    requires Contains(a, sub) || Contains(b, sub)
    ensures Contains(a + b, sub)
  {
    if Contains(a, sub) {
      var i := ContainsWitness(a, sub);
      assert (a + b)[i..i + |sub|] == a[i..i + |sub|];
      ContainsAt(a + b, sub, i);
    } else {
      var i := ContainsWitness(b, sub);
      assert (a + b)[|a| + i..|a| + i + |sub|] == b[i..i + |sub|];
      ContainsAt(a + b, sub, |a| + i);
    }
  }

  /** Index normalisation shared by `slice` on strings and arrays: a negative
      position counts from the end, and the result is clamped to [0, len]. */
  function RelativeIndex(i: int, len: nat): (r: nat)
    ensures r <= len
    ensures 0 <= i <= len ==> r == i
  {
    if i < 0 then (if len + i < 0 then 0 else len + i) else if i > len then len else i
  }

  /** `s.slice(start, end)` with JavaScript's index rules. */
  function JsSlice<T>(s: seq<T>, start: int, end: int): (r: seq<T>)
    ensures 0 <= start <= end <= |s| ==> r == s[start..end]
    ensures |r| <= |s|
  {
    var a := RelativeIndex(start, |s|);
    var b := RelativeIndex(end, |s|);
    if a < b then s[a..b] else []
  }

  /** `s.repeat(count)` for a non-negative count. */
  function Repeat(s: string, count: nat): (r: string)
    ensures |r| == |s| * count
    decreases count
  {
    if count == 0 then "" else s + Repeat(s, count - 1)
  }

  /** `s.repeat(count)` starts with `s` ... */
  lemma RepeatHead(s: string, count: nat, i: nat)
    requires count >= 1 && i < |s|
    ensures i < |Repeat(s, count)| && Repeat(s, count)[i] == s[i]
  {
    assert Repeat(s, count) == s + Repeat(s, count - 1);
  }

  /** ... and repeats itself every |s| characters. */
  lemma {:induction false} RepeatPeriodic(s: string, count: nat, i: nat)
    requires |s| <= i < |Repeat(s, count)|
    ensures Repeat(s, count)[i] == Repeat(s, count)[i - |s|]
    decreases count
  {
    var rest := Repeat(s, count - 1);
    assert Repeat(s, count) == s + rest;
    if i - |s| >= |s| {
      RepeatPeriodic(s, count - 1, i - |s|);
    } else {
      RepeatHead(s, count - 1, i - |s|);
    }
  }

  /**
   * The characters `String.prototype.trim` removes: the WhiteSpace and LineTerminator
   * productions of ECMAScript (section 12.2 and 12.3 of ECMA-262), that is tab, vertical
   * tab, form feed, space, no-break space, the byte order mark, the other space separators
   * of Unicode category Zs, line feed, carriage return and the line and paragraph
   * separators.
   */
  predicate IsWhitespace(c: char) {
    || c == '\t' || c == '\U{B}' || c == '\U{C}' || c == ' ' || c == '\U{A0}' || c == '\U{FEFF}'
    || c == '\U{1680}' || ('\U{2000}' <= c <= '\U{200A}') || c == '\U{202F}' || c == '\U{205F}'
    || c == '\U{3000}'
    || c == '\n' || c == '\r' || c == '\U{2028}' || c == '\U{2029}'
  }

  /** `r` is `s[i..j]` with only whitespace cut off before i and after j. */
  predicate TrimmedAt(s: string, r: string, i: int, j: int) {
    && 0 <= i <= j <= |s|
    && r == s[i..j]
    && (forall k :: 0 <= k < i ==> IsWhitespace(s[k]))
    && (forall k :: j <= k < |s| ==> IsWhitespace(s[k]))
  }

  lemma TrimmedAtCons(s: string, r: string, i: int, j: int)
    requires s != [] && IsWhitespace(s[0]) && TrimmedAt(s[1..], r, i, j)
    ensures TrimmedAt(s, r, i + 1, j + 1)
  {
    assert s[i + 1..j + 1] == s[1..][i..j];
    forall k | 0 <= k < i + 1
      ensures IsWhitespace(s[k])
    {
      if k > 0 { assert s[k] == s[1..][k - 1]; }
    }
    forall k | j + 1 <= k < |s|
      ensures IsWhitespace(s[k])
    {
      assert s[k] == s[1..][k - 1];
    }
  }

  lemma TrimmedAtSnoc(s: string, r: string, i: int, j: int)
    requires s != [] && IsWhitespace(s[|s| - 1]) && TrimmedAt(s[..|s| - 1], r, i, j)
    ensures TrimmedAt(s, r, i, j)
  {
    assert s[i..j] == s[..|s| - 1][i..j];
    forall k | 0 <= k < i
      ensures IsWhitespace(s[k])
    {
      assert s[k] == s[..|s| - 1][k];
    }
    forall k | j <= k < |s|
      ensures IsWhitespace(s[k])
    {
      if k < |s| - 1 { assert s[k] == s[..|s| - 1][k]; }
    }
  }

  /** Neither the first nor the last character of `s` is whitespace. */
  predicate NoEdgeWhitespace(s: string) {
    s != [] ==> !IsWhitespace(s[0]) && !IsWhitespace(s[|s| - 1])
  }

  /**
   * `s.trim()`: the longest infix of `s` cut off only at whitespace, so that neither end of
   * the result is whitespace.
   */
  function Trim(s: string): (r: string)
    ensures |r| <= |s|
    ensures exists i, j :: TrimmedAt(s, r, i, j)
    ensures NoEdgeWhitespace(r)
    decreases |s|
  {
    if s == [] then
      assert TrimmedAt(s, [], 0, 0);
      []
    else if IsWhitespace(s[0]) then
      var r := Trim(s[1..]);
      assert exists i, j :: TrimmedAt(s, r, i, j) by {
        var i, j :| TrimmedAt(s[1..], r, i, j);
        TrimmedAtCons(s, r, i, j);
      }
      r
    else if IsWhitespace(s[|s| - 1]) then
      var r := Trim(s[..|s| - 1]);
      assert exists i, j :: TrimmedAt(s, r, i, j) by {
        var i, j :| TrimmedAt(s[..|s| - 1], r, i, j);
        TrimmedAtSnoc(s, r, i, j);
      }
      r
    else
      assert TrimmedAt(s, s, 0, |s|);
      s
  }
}
