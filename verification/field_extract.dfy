/**
 * `extractField(text, field)` of app/api/import/route.ts: the first capture
 * of the case-insensitive regular expression `label\s*[:|-]\s*([^\n]+)`,
 * trimmed, or `null` when the expression matches nowhere.
 *
 * `ExtractField` computes the answer directly; `PatternMatch` and
 * `ChosenMatch` state independently which matches the expression admits and
 * which one a backtracking engine reports (the leftmost start, then the
 * longest choice for every greedy quantifier); `ExtractFieldIsRegexMatch`
 * proves the two agree.
 */
module FieldExtract {
  import opened Outcomes
  import opened Strings

  /** The class `[:|-]`. */
  predicate IsSeparator(c: char) {
    c == ':' || c == '|' || c == '-'
  }

  predicate WsBetween(t: string, i: int, j: int)
    requires 0 <= i <= j <= |t|
  {
    forall k | i <= k < j :: IsWs(t[k])
  }

  predicate NoNewlineBetween(t: string, i: int, j: int)
    requires 0 <= i <= j <= |t|
  {
    forall k | i <= k < j :: t[k] != '\n'
  }

  // ---------------------------------------------------------------------------
  // The regular expression's meaning

  /**
   * The expression matches `t` from `p`: the field at `p`, whitespace up to
   * the separator at `s`, whitespace up to `g0`, and the captured group
   * `t[g0..g1]`, non-empty and free of newlines.
   */
  ghost predicate PatternMatch(t: string, field: string, p: int, s: int, g0: int, g1: int) {
    && MatchesAtIgnoringCase(t, field, p)
    && p + |field| <= s < g0 < g1 <= |t|
    && WsBetween(t, p + |field|, s)
    && IsSeparator(t[s])
    && WsBetween(t, s + 1, g0)
    && NoNewlineBetween(t, g0, g1)
  }

  ghost predicate MatchesFrom(t: string, field: string, p: int) {
    exists s, g0, g1 :: PatternMatch(t, field, p, s, g0, g1)
  }

  /** Among the matches from `p`, the one greedy quantifiers pick: latest group start, then longest group. */
  ghost predicate GreediestAt(t: string, field: string, p: int, s: int, g0: int, g1: int) {
    && PatternMatch(t, field, p, s, g0, g1)
    && forall s', g0', g1' | PatternMatch(t, field, p, s', g0', g1') :: g0' < g0 || (g0' == g0 && g1' <= g1)
  }

  /** The match the engine reports: nothing matches further left, and the choices are greediest. */
  ghost predicate ChosenMatch(t: string, field: string, p: int, s: int, g0: int, g1: int) {
    && GreediestAt(t, field, p, s, g0, g1)
    && forall p' | 0 <= p' < p :: !MatchesFrom(t, field, p')
  }

  // ---------------------------------------------------------------------------
  // Scanning

  /** The first index at or after `i` that is not whitespace, or `|t|`. */
  function SkipWs(t: string, i: nat): (j: nat)
    requires i <= |t|
    ensures i <= j <= |t|
    ensures WsBetween(t, i, j)
    ensures j < |t| ==> !IsWs(t[j])
    decreases |t| - i
  {
    if i < |t| && IsWs(t[i]) then SkipWs(t, i + 1) else i
  }

  /** The index of the first newline at or after `i`, or `|t|`. */
  function LineEnd(t: string, i: nat): (j: nat)
    requires i <= |t|
    ensures i <= j <= |t|
    ensures NoNewlineBetween(t, i, j)
    ensures j < |t| ==> t[j] == '\n'
    decreases |t| - i
  {
    if i < |t| && t[i] != '\n' then LineEnd(t, i + 1) else i
  }

  /** The last index in `[lo, hi)` holding something other than a newline, or `lo - 1`. */
  function LastNonNewline(t: string, lo: nat, hi: nat): (k: int)
    requires lo <= hi <= |t|
    ensures lo - 1 <= k < hi
    ensures k >= lo ==> t[k] != '\n'
    ensures forall m | k < m < hi && lo <= m :: t[m] == '\n'
    decreases hi - lo
  {
    if hi == lo then lo - 1
    else if t[hi - 1] != '\n' then hi - 1
    else LastNonNewline(t, lo, hi - 1)
  }

  /**
   * Where the capture starts when the expression matches from `p` with the
   * separator at `s`: the first non-blank character after the separator, or,
   * when only whitespace follows, the last character of it that is not a
   * newline (the engine backtracks into the whitespace).
   */
  function GroupStart(t: string, s: nat): (g0: int)
    requires s < |t|
    ensures s <= g0 < |t|
  {
    var q := SkipWs(t, s + 1);
    if q < |t| then q else
      var k := LastNonNewline(t, s + 1, |t|);
      if k <= s then s else k
  }

  /** The trimmed capture of a match from exactly `p`, if the expression matches there. */
  function MatchAt(t: string, field: string, p: nat): (r: Option<string>)
    requires p <= |t|
    ensures r.Some? ==> IsTrimmed(r.value) && NoNewline(r.value)
  {
    if !MatchesAtIgnoringCase(t, field, p) then None
    else
      var s := SkipWs(t, p + |field|);
      if s == |t| || !IsSeparator(t[s]) then None
      else
        var g0 := GroupStart(t, s);
        if g0 == s then None
        else
          var g1 := LineEnd(t, g0);
          SpanHasNoNewline(t, g0, g1);
          TrimKeepsNoNewline(t[g0..g1]);
          Some(Trim(t[g0..g1]))
  }

  lemma SpanHasNoNewline(t: string, i: int, j: int)
    requires 0 <= i <= j <= |t|
    requires NoNewlineBetween(t, i, j)
    ensures NoNewline(t[i..j])
  {
    assert forall k | 0 <= k < j - i :: t[i..j][k] == t[i + k];
  }

  /** Tries start positions from `p` rightwards and reports the first match. */
  function ExtractFrom(t: string, field: string, p: nat): (r: Option<string>)
    requires p <= |t|
    ensures r.Some? ==> IsTrimmed(r.value) && NoNewline(r.value)
    decreases |t| - p
  {
    var m := MatchAt(t, field, p);
    if m.Some? then m
    else if p == |t| then None
    else ExtractFrom(t, field, p + 1)
  }

  /**
   * `extractField`: a found value is trimmed and holds no newline; it may be
   * the empty string, which callers treat as absent.
   */
  function ExtractField(text: string, field: string): (r: Option<string>)
    ensures r.Some? ==> IsTrimmed(r.value) && NoNewline(r.value)
  {
    ExtractFrom(text, field, 0)
  }

  // ---------------------------------------------------------------------------
  // The scan computes the regular expression's answer

  lemma SeparatorIsNotWs(c: char)
    requires IsSeparator(c)
    ensures !IsWs(c)
  {
  }

  /** Every match from `p` puts its separator where `SkipWs` stops. */
  lemma SeparatorPosition(t: string, field: string, p: nat, s: int, g0: int, g1: int)
    requires p <= |t|
    requires PatternMatch(t, field, p, s, g0, g1)
    ensures s == SkipWs(t, p + |field|)
  {
    SeparatorIsNotWs(t[s]);
  }

  /** Whitespace cannot run past a non-whitespace character. */
  lemma WsStopsAt(t: string, i: int, q: int)
    requires 0 <= i <= q < |t| && !IsWs(t[q])
    ensures forall j | q < j <= |t| :: !WsBetween(t, i, j)
  {
    forall j | q < j <= |t| ensures !WsBetween(t, i, j) {
      assert !IsWs(t[q]);
    }
  }

  /** A newline-free run cannot cross a newline. */
  lemma RunStopsAt(t: string, g: int, e: int)
    requires 0 <= g <= e < |t| && t[e] == '\n'
    ensures forall j | e < j <= |t| :: !NoNewlineBetween(t, g, j)
  {
    forall j | e < j <= |t| ensures !NoNewlineBetween(t, g, j) {
      assert t[e] == '\n';
    }
  }

  /** Nothing but newlines in `t[lo..]` leaves no room for a capture there. */
  lemma NoRunInNewlines(t: string, lo: int)
    requires 0 <= lo <= |t|
    requires forall m | lo <= m < |t| :: t[m] == '\n'
    ensures forall g, j | lo <= g < j <= |t| :: !NoNewlineBetween(t, g, j)
  {
    forall g, j | lo <= g < j <= |t| ensures !NoNewlineBetween(t, g, j) {
      assert t[g] == '\n';
    }
  }

  /** At a start where the field sits, `MatchAt` finds the greediest match, or reports that there is none. */
  lemma MatchAtSpec(t: string, field: string, p: nat)
    requires p <= |t|
    ensures MatchAt(t, field, p).None? <==> !MatchesFrom(t, field, p)
    ensures MatchAt(t, field, p).Some? ==>
              exists s, g0, g1 :: GreediestAt(t, field, p, s, g0, g1)
                                  && MatchAt(t, field, p).value == Trim(t[g0..g1])
  {
    if !MatchesAtIgnoringCase(t, field, p) {
      return;
    }
    var s := SkipWs(t, p + |field|);
    forall s', g0', g1' | PatternMatch(t, field, p, s', g0', g1') ensures s' == s {
      SeparatorPosition(t, field, p, s', g0', g1');
    }
    if s == |t| || !IsSeparator(t[s]) {
      return;
    }
    var q := SkipWs(t, s + 1);
    var g0 := GroupStart(t, s);
    if q < |t| {
      var g1 := LineEnd(t, g0);
      assert g0 == q && t[q] != '\n';
      assert PatternMatch(t, field, p, s, g0, g1);
      WsStopsAt(t, s + 1, q);
      if g1 < |t| {
        RunStopsAt(t, g0, g1);
      }
      forall s', g0', g1' | PatternMatch(t, field, p, s', g0', g1')
        ensures g0' < g0 || (g0' == g0 && g1' <= g1)
      {
      }
      assert GreediestAt(t, field, p, s, g0, g1);
    } else {
      var k := LastNonNewline(t, s + 1, |t|);
      if k <= s {
        NoRunInNewlines(t, s + 1);
        assert !MatchesFrom(t, field, p);
      } else {
        var g1 := LineEnd(t, g0);
        assert g0 == k;
        assert PatternMatch(t, field, p, s, g0, g1);
        NoRunInNewlines(t, k + 1);
        if g1 < |t| {
          RunStopsAt(t, g0, g1);
        }
        forall s', g0', g1' | PatternMatch(t, field, p, s', g0', g1')
          ensures g0' < g0 || (g0' == g0 && g1' <= g1)
        {
        }
        assert GreediestAt(t, field, p, s, g0, g1);
      }
    }
  }

  /** No match can start at `|t|` or later: the separator and the capture need room. */
  lemma NoMatchAtEnd(t: string, field: string, p: int)
    requires p >= |t|
    ensures !MatchesFrom(t, field, p)
  {
  }

  lemma {:induction false} ExtractFromSpec(t: string, field: string, p: nat)
    requires p <= |t|
    requires forall p' | 0 <= p' < p :: !MatchesFrom(t, field, p')
    ensures ExtractFrom(t, field, p).None? <==> forall p' | p <= p' :: !MatchesFrom(t, field, p')
    ensures ExtractFrom(t, field, p).Some? ==>
              exists p', s, g0, g1 :: ChosenMatch(t, field, p', s, g0, g1)
                                      && ExtractFrom(t, field, p).value == Trim(t[g0..g1])
    decreases |t| - p
  {
    MatchAtSpec(t, field, p);
    var m := MatchAt(t, field, p);
    if m.Some? {
      var s, g0, g1 :| GreediestAt(t, field, p, s, g0, g1) && m.value == Trim(t[g0..g1]);
      assert ChosenMatch(t, field, p, s, g0, g1);
    } else if p == |t| {
      forall p' | p <= p' ensures !MatchesFrom(t, field, p') {
        NoMatchAtEnd(t, field, p');
      }
    } else {
      ExtractFromSpec(t, field, p + 1);
    }
  }

  /**
   * `extractField` returns `null` exactly when the expression matches
   * nowhere; otherwise it returns the trimmed capture of the match the
   * engine reports.
   */
  lemma ExtractFieldIsRegexMatch(text: string, field: string)
    ensures ExtractField(text, field).None? <==> forall p :: !MatchesFrom(text, field, p)
    ensures ExtractField(text, field).Some? ==>
              exists p, s, g0, g1 :: ChosenMatch(text, field, p, s, g0, g1)
                                     && ExtractField(text, field).value == Trim(text[g0..g1])
  {
    ExtractFromSpec(text, field, 0);
  }

  // ---------------------------------------------------------------------------
  // Samples

  lemma SalaryFacts(t: string)
    requires t == "Salary: $120k - $150k\nLocation: Remote"
    ensures MatchesAtIgnoringCase(t, "Salary", 0)
    ensures |t| == 38 && t[6] == ':' && IsWs(t[7]) && !IsWs(t[8]) && t[21] == '\n'
    ensures NoNewlineBetween(t, 8, 21)
    ensures t[8..21] == "$120k - $150k"
  {
    assert t == "Salary: " + "$120k - $150k" + "\nLocation: Remote";
  }

  /** The salary line of a posting yields the text after the colon, up to the line break. */
  lemma SalaryExample(t: string)
    requires t == "Salary: $120k - $150k\nLocation: Remote"
    ensures ExtractField(t, "Salary") == Some("$120k - $150k")
  {
    SalaryFacts(t);
    assert SkipWs(t, 6) == 6;
    assert SkipWs(t, 7) == 8 by {
      assert SkipWs(t, 8) == 8;
    }
    assert GroupStart(t, 6) == 8;
    LineEndIs(t, 8, 21);
    TrimOfTrimmed("$120k - $150k");
    assert MatchAt(t, "Salary", 0) == Some("$120k - $150k");
  }

  /** A label followed by a separator and only blanks yields the empty string, not `null`. */
  lemma BlankValueExample(t: string)
    requires t == "Company: "
    ensures ExtractField(t, "Company") == Some("")
  {
    BlankValueSteps(t);
    TrimEmptyIff(" ");
  }

  lemma BlankValueSteps(t: string)
    requires t == "Company: "
    ensures MatchesAtIgnoringCase(t, "Company", 0)
    ensures GroupStart(t, 7) == 8 && LineEnd(t, 8) == 9 && t[8..9] == " "
  {
    assert MatchesAtIgnoringCase(t, "Company", 0);
    assert SkipWs(t, 7) == 7;
    assert SkipWs(t, 8) == 9;
    assert LastNonNewline(t, 8, 9) == 8;
  }

  /** `LineEnd` is the first newline at or after `i`. */
  lemma LineEndIs(t: string, i: nat, j: nat)
    requires i <= j <= |t|
    requires NoNewlineBetween(t, i, j)
    requires j < |t| ==> t[j] == '\n'
    ensures LineEnd(t, i) == j
  {
  }
}
