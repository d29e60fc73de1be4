/**
 * String primitives with the JavaScript meaning the application relies on:
 * `\s` whitespace, `trim`, ASCII `toLowerCase`, `includes`, `slice(0, n)`,
 * the `||` default on strings, and decimal rendering of integers.
 */
module Strings {
  import opened Outcomes

  /** ECMAScript WhiteSpace and LineTerminator: the `\s` class and what `trim` removes. */
  predicate IsWs(c: char) {
    var n := c as int;
    (0x09 <= n <= 0x0D) || n == 0x20 || n == 0xA0 || n == 0x1680
    || (0x2000 <= n <= 0x200A) || n == 0x2028 || n == 0x2029
    || n == 0x202F || n == 0x205F || n == 0x3000 || n == 0xFEFF
  }

  predicate AllWs(s: string) {
    forall i | 0 <= i < |s| :: IsWs(s[i])
  }

  predicate NoNewline(s: string) {
    forall i | 0 <= i < |s| :: s[i] != '\n'
  }

  /** No leading and no trailing whitespace. */
  predicate IsTrimmed(s: string) {
    |s| == 0 || (!IsWs(s[0]) && !IsWs(s[|s| - 1]))
  }

  // ---------------------------------------------------------------------------
  // Case folding

  function LowerChar(c: char): (d: char)
    ensures 'A' <= c <= 'Z' ==> d as int == c as int + 32
    ensures !('A' <= c <= 'Z') ==> d == c
  {
    if 'A' <= c <= 'Z' then (c as int + 32) as char else c
  }

  /** `toLowerCase` restricted to ASCII letters. */
  function Lower(s: string): (r: string)
    ensures |r| == |s|
    ensures forall i | 0 <= i < |s| :: r[i] == LowerChar(s[i])
  {
    seq(|s|, i requires 0 <= i < |s| => LowerChar(s[i]))
  }

  lemma LowerIdempotent(s: string)
    ensures Lower(Lower(s)) == Lower(s)
  {
    assert forall i | 0 <= i < |s| :: LowerChar(LowerChar(s[i])) == LowerChar(s[i]);
  }

  lemma LowerSlice(s: string, i: int, j: int)
    requires 0 <= i <= j <= |s|
    ensures Lower(s)[i..j] == Lower(s[i..j])
  {
  }

  // ---------------------------------------------------------------------------
  // Substring search

  predicate IsPrefix(p: string, s: string) {
    |p| <= |s| && s[..|p|] == p
  }

  /** `s.includes(p)`, scanning from the left. */
  predicate Contains(s: string, p: string)
    decreases |s|
  {
    IsPrefix(p, s) || (|s| > 0 && Contains(s[1..], p))
  }

  /** `p` occurs in `s` starting at index `i`. */
  predicate OccursAt(s: string, p: string, i: int) {
    0 <= i && i + |p| <= |s| && s[i..i + |p|] == p
  }

  /** `Contains` means: there is an index where `p` occurs. */
  lemma {:induction false} ContainsIff(s: string, p: string)
    ensures Contains(s, p) <==> exists i :: OccursAt(s, p, i)
    decreases |s|
  {
    if IsPrefix(p, s) {
      assert OccursAt(s, p, 0);
    } else if |s| > 0 {
      ContainsIff(s[1..], p);
      forall i | 0 <= i && i + 1 + |p| <= |s|
        ensures OccursAt(s[1..], p, i) <==> OccursAt(s, p, i + 1)
      {
        assert s[1..][i..i + |p|] == s[i + 1..i + 1 + |p|];
      }
      forall i | OccursAt(s, p, i) ensures i >= 1 && OccursAt(s[1..], p, i - 1) {
        assert i != 0 by { assert s[..|p|] == s[0..0 + |p|]; }
      }
    }
  }

  /** `p` occurs in `s` at index `i` when letters are compared without case. */
  predicate MatchesAtIgnoringCase(s: string, p: string, i: int) {
    0 <= i && i + |p| <= |s|
    && forall k | 0 <= k < |p| :: LowerChar(s[i + k]) == LowerChar(p[k])
  }

  /** A case-insensitive occurrence anywhere in `s`. */
  ghost predicate HasIgnoringCase(s: string, p: string) {
    exists i :: MatchesAtIgnoringCase(s, p, i)
  }

  /** Searching the lower-cased text for a lower-case keyword is a case-insensitive search. */
  lemma ContainsLowerIff(s: string, p: string)
    requires Lower(p) == p
    ensures Contains(Lower(s), p) <==> HasIgnoringCase(s, p)
  {
    ContainsIff(Lower(s), p);
    if Contains(Lower(s), p) {
      var i :| OccursAt(Lower(s), p, i);
      forall k | 0 <= k < |p| ensures LowerChar(s[i + k]) == LowerChar(p[k]) {
        assert Lower(s)[i..i + |p|][k] == Lower(s)[i + k];
        assert LowerChar(p[k]) == Lower(p)[k];
      }
      assert MatchesAtIgnoringCase(s, p, i);
    }
    if HasIgnoringCase(s, p) {
      var i :| MatchesAtIgnoringCase(s, p, i);
      assert Lower(s)[i..i + |p|] == p by {
        forall k | 0 <= k < |p| ensures Lower(s)[i..i + |p|][k] == p[k] {
          assert LowerChar(p[k]) == Lower(p)[k];
        }
      }
      assert OccursAt(Lower(s), p, i);
    }
  }

  /** A keyword one of whose letters is missing from `s` does not occur in `s`. */
  lemma AbsentCharBlocksContains(s: string, p: string, c: char)
    requires c in p
    requires c !in s
    ensures !Contains(s, p)
  {
    ContainsIff(s, p);
  }

  // ---------------------------------------------------------------------------
  // Trimming

  /** `trimStart`: drops the leading whitespace. */
  function TrimStart(s: string): (r: string)
    ensures |r| <= |s| && r == s[|s| - |r|..]
    ensures AllWs(s[..|s| - |r|])
    ensures |r| == 0 || !IsWs(r[0])
    decreases |s|
  {
    if |s| > 0 && IsWs(s[0]) then
      var r := TrimStart(s[1..]);
      assert s[..|s| - |r|] == [s[0]] + s[1..][..|s| - 1 - |r|];
      r
    else s
  }

  /** `trimEnd`: drops the trailing whitespace. */
  function TrimEnd(s: string): (r: string)
    ensures |r| <= |s| && r == s[..|r|]
    ensures AllWs(s[|r|..])
    ensures |r| == 0 || !IsWs(r[|r| - 1])
    decreases |s|
  {
    if |s| > 0 && IsWs(s[|s| - 1]) then
      var r := TrimEnd(s[..|s| - 1]);
      assert s[|r|..] == s[..|s| - 1][|r|..] + [s[|s| - 1]];
      r
    else s
  }

  /** `trim`: the result is the middle of `s` with only whitespace cut from either side. */
  function Trim(s: string): (r: string)
    ensures IsTrimmed(r)
    ensures exists a :: TrimmedAt(s, r, a)
  {
    var m := TrimStart(s);
    var r := TrimEnd(m);
    var a := |s| - |m|;
    assert s[a..a + |r|] == r;
    assert s[a + |r|..] == m[|r|..];
    assert TrimmedAt(s, r, a);
    r
  }

  /** `r` sits at index `a` of `s`, and only whitespace lies before and after it. */
  predicate TrimmedAt(s: string, r: string, a: int) {
    0 <= a && a + |r| <= |s| && s[a..a + |r|] == r && AllWs(s[..a]) && AllWs(s[a + |r|..])
  }

  lemma TrimKeepsNoNewline(s: string)
    requires NoNewline(s)
    ensures NoNewline(Trim(s))
  {
    var r := Trim(s);
    var a :| TrimmedAt(s, r, a);
    SliceKeepsNoNewline(s, a, a + |r|);
  }

  lemma SliceKeepsNoNewline(s: string, i: int, j: int)
    requires 0 <= i <= j <= |s|
    requires NoNewline(s)
    ensures NoNewline(s[i..j])
  {
    assert forall k | 0 <= k < j - i :: s[i..j][k] == s[i + k];
  }

  /** Trimming a string without leading or trailing whitespace changes nothing. */
  lemma TrimOfTrimmed(s: string)
    requires IsTrimmed(s)
    ensures Trim(s) == s
  {
    assert TrimStart(s) == s;
    assert TrimEnd(s) == s;
  }

  /** A string is blank (trims to nothing) exactly when it is all whitespace. */
  lemma TrimEmptyIff(s: string)
    ensures Trim(s) == "" <==> AllWs(s)
  {
    var r := Trim(s);
    var a :| TrimmedAt(s, r, a);
    if r == "" {
      forall i | 0 <= i < |s| ensures IsWs(s[i]) {
        if i < a { assert s[..a][i] == s[i]; } else { assert s[a..][i - a] == s[i]; }
      }
    } else {
      assert !IsWs(r[0]);
      assert r[0] == s[a];
    }
  }

  // ---------------------------------------------------------------------------
  // Slicing, defaults, rendering

  /** `s.slice(0, n)`. */
  function Take(s: string, n: nat): (r: string)
    ensures |r| <= n && IsPrefix(r, s)
    ensures |s| <= n ==> r == s
    ensures |s| > n ==> |r| == n
  {
    if |s| <= n then s else s[..n]
  }

  /** `a || b` on strings: the empty string is falsy. */
  function OrElse(a: string, b: string): string {
    if a != "" then a else b
  }

  /** `a || b` where `a` may also be `null`. */
  function OrElseOpt(a: Option<string>, b: string): string {
    if a.Some? && a.value != "" then a.value else b
  }

  /** `x || null`: the empty string becomes `null`. */
  function Truthy(a: Option<string>): (r: Option<string>)
    ensures r.Some? <==> a.Some? && a.value != ""
    ensures r.Some? ==> r == a
  {
    if a.Some? && a.value != "" then a else None
  }

  function DigitChar(d: nat): (c: char)
    requires d < 10
    ensures '0' <= c <= '9'
  {
    ('0' as int + d) as char
  }

  /** Base-ten digits of a natural number, as `String(n)` renders it. */
  function Decimal(n: nat): (r: string)
    ensures |r| > 0
    ensures forall i | 0 <= i < |r| :: '0' <= r[i] <= '9'
    ensures n >= 10 ==> r[0] != '0'
  {
    if n < 10 then [DigitChar(n)] else Decimal(n / 10) + [DigitChar(n % 10)]
  }

  /** `String(i)` for an integer. */
  function IntText(i: int): string {
    if i < 0 then "-" + Decimal(-i) else Decimal(i)
  }
}
