/**
  The template filler fillTemplate (goweek.go:170-181): three passes of Go's
  strings.ReplaceAll over the template text, one per placeholder.
 */
module Template {
  import opened Calendar
  import opened Decimal
  import opened Week

  const WeekToken := "{{.Week}}"
  const WeekStartToken := "{{.WeekStart}}"
  const WeekEndToken := "{{.WeekEnd}}"

  predicate StartsWith(s: string, p: string) {
    |p| <= |s| && s[..|p|] == p
  }

  predicate OccursAt(s: string, p: string, i: int) {
    0 <= i && i + |p| <= |s| && s[i..i + |p|] == p
  }

  predicate Contains(s: string, p: string) {
    exists i :: 0 <= i <= |s| && OccursAt(s, p, i)
  }

  /** No character of a appears in b. */
  predicate Disjoint(a: string, b: string) {
    forall i, j :: 0 <= i < |a| && 0 <= j < |b| ==> a[i] != b[j]
  }

  /**
    strings.ReplaceAll(s, pattern, replacement): every leftmost, non-overlapping
    occurrence of pattern, scanning left to right, is replaced. An empty pattern
    matches before every character and at the end.
   */
  function ReplaceAll(s: string, pattern: string, replacement: string): string
    decreases |s|
  {
    if pattern == [] then
      if s == [] then replacement
      else replacement + [s[0]] + ReplaceAll(s[1..], pattern, replacement)
    else if |s| < |pattern| then s
    else if s[..|pattern|] == pattern then
      replacement + ReplaceAll(s[|pattern|..], pattern, replacement)
    else [s[0]] + ReplaceAll(s[1..], pattern, replacement)
  }

  // ---------------------------------------------------------------------------
  // One character or one match at a time

  lemma CopyHead(c: char, t: string, p: string, r: string)
    requires p != [] && !StartsWith([c] + t, p)
    ensures ReplaceAll([c] + t, p, r) == [c] + ReplaceAll(t, p, r)
  {
    assert ([c] + t)[1..] == t;
  }

  /** A match at the front puts the replacement at the front of the output. */
  lemma MatchFirst(t: string, p: string, r: string)
    requires p != [] && r != []
    ensures StartsWith(t, p) ==> |ReplaceAll(t, p, r)| > 0 && ReplaceAll(t, p, r)[0] == r[0]
  {
  }

  lemma CopyStep(s: string, p: string, r: string)
    requires p != [] && s != [] && !StartsWith(s, p)
    ensures ReplaceAll(s, p, r) == [s[0]] + ReplaceAll(s[1..], p, r)
  {
  }

  lemma MatchStep(s: string, p: string, r: string)
    requires p != [] && StartsWith(s, p)
    ensures ReplaceAll(s, p, r) == r + ReplaceAll(s[|p|..], p, r)
  {
  }

  lemma DiffersAt(s: string, p: string, j: nat)
    requires j < |s| && j < |p| && s[j] != p[j]
    ensures !StartsWith(s, p)
  {
    if |p| <= |s| {
      assert s[..|p|][j] != p[j];
    }
  }

  /** Text without the pattern's first character is copied through unchanged. */
  lemma {:induction false} SkipInert(x: string, t: string, p: string, r: string)
    requires p != [] && p[0] !in x
    ensures ReplaceAll(x + t, p, r) == x + ReplaceAll(t, p, r)
    decreases |x|
  {
    if x != [] {
      var c, x' := x[0], x[1..];
      assert x == [c] + x';
      assert p[0] !in x';
      assert x + t == [c] + (x' + t);
      DiffersAt([c] + (x' + t), p, 0);
      CopyHead(c, x' + t, p, r);
      SkipInert(x', t, p, r);
      assert ReplaceAll(x + t, p, r) == [c] + (x' + ReplaceAll(t, p, r));
      assert x + ReplaceAll(t, p, r) == [c] + (x' + ReplaceAll(t, p, r));
    } else {
      assert x + t == t;
    }
  }

  /** A pattern-free template comes back unchanged. */
  lemma {:induction false} ReplaceAllAbsent(s: string, p: string, r: string)
    requires p != [] && !Contains(s, p)
    ensures ReplaceAll(s, p, r) == s
    decreases |s|
  {
    if |s| >= |p| {
      if s[..|p|] == p {
        assert OccursAt(s, p, 0);
      } else {
        forall i | OccursAt(s[1..], p, i) ensures OccursAt(s, p, i + 1) {
          assert s[1..][i..i + |p|] == s[i + 1..i + 1 + |p|];
        }
        ReplaceAllAbsent(s[1..], p, r);
      }
    }
  }

  /**
    A prefix of the output that shows no character of the replacement was copied
    from the input as it stands.
   */
  lemma {:induction false} PrefixUnchanged(t: string, p: string, r: string, k: nat)
    requires p != [] && r != []
    requires k <= |ReplaceAll(t, p, r)|
    requires Disjoint(r, ReplaceAll(t, p, r)[..k])
    ensures k <= |t| && ReplaceAll(t, p, r)[..k] == t[..k]
    decreases |t|
  {
    var out := ReplaceAll(t, p, r);
    if |t| >= |p| && k > 0 {
      assert out[..k][0] == out[0];
      MatchFirst(t, p, r);
      if t[..|p|] == p {
        assert false;
      } else {
        var rest := ReplaceAll(t[1..], p, r);
        assert out == [t[0]] + rest;
        assert out[..k] == [t[0]] + rest[..k - 1];
        var head := rest[..k - 1];
        assert Disjoint(r, head) by {
          forall i, j | 0 <= i < |r| && 0 <= j < |head| ensures r[i] != head[j] {
            assert head[j] == out[..k][j + 1];
          }
        }
        PrefixUnchanged(t[1..], p, r, k - 1);
      }
    }
  }

  /** Helper for the copy case: a token cannot start at a copied character by accident. */
  lemma NoNewPrefix(c: char, t: string, p: string, r: string, q: string)
    requires p != [] && r != [] && q != []
    requires Disjoint(r, q[1..])
    requires StartsWith([c] + ReplaceAll(t, p, r), q)
    ensures StartsWith([c] + t, q)
  {
    var out := ReplaceAll(t, p, r);
    var k := |q| - 1;
    assert out[..k] == ([c] + out)[..|q|][1..] == q[1..];
    PrefixUnchanged(t, p, r, k);
    assert ([c] + t)[..|q|] == [c] + t[..k];
  }

  // ---------------------------------------------------------------------------
  // Properties of one pass

  /**
    After a pass, the pattern is gone, when the replacement is non-empty and shares
    no character with the pattern (so that it cannot complete a new occurrence).
   */
  lemma {:induction false} ReplaceAllRemoves(s: string, p: string, r: string)
    requires p != [] && r != [] && Disjoint(r, p)
    ensures !Contains(ReplaceAll(s, p, r), p)
    decreases |s|
  {
    var out := ReplaceAll(s, p, r);
    if |s| >= |p| {
      if s[..|p|] == p {
        var rest := ReplaceAll(s[|p|..], p, r);
        assert out == r + rest;
        ReplaceAllRemoves(s[|p|..], p, r);
        forall i | OccursAt(out, p, i) ensures false {
          if i >= |r| {
            assert rest[i - |r|..i - |r| + |p|] == out[i..i + |p|];
            assert OccursAt(rest, p, i - |r|);
          }
        }
      } else {
        var rest := ReplaceAll(s[1..], p, r);
        assert out == [s[0]] + rest;
        ReplaceAllRemoves(s[1..], p, r);
        forall i | OccursAt(out, p, i) ensures false {
          if i == 0 {
            assert [s[0]] + s[1..] == s;
            assert StartsWith([s[0]] + rest, p);
            assert Disjoint(r, p[1..]);
            NoNewPrefix(s[0], s[1..], p, r, p);
          } else {
            assert rest[i - 1..i - 1 + |p|] == out[i..i + |p|];
            assert OccursAt(rest, p, i - 1);
          }
        }
      }
    }
  }

  /**
    A pass creates no occurrence of another token q when the replacement is non-empty
    and shares no character with q.
   */
  lemma {:induction false} ReplaceAllNoNew(s: string, p: string, r: string, q: string)
    requires p != [] && r != [] && q != [] && Disjoint(r, q)
    ensures Contains(ReplaceAll(s, p, r), q) ==> Contains(s, q)
    decreases |s|
  {
    var out := ReplaceAll(s, p, r);
    if |s| >= |p| && Contains(out, q) {
      var i :| 0 <= i <= |out| && OccursAt(out, q, i);
      assert 0 <= i && i + |q| <= |out| && out[i..i + |q|] == q;
      if s[..|p|] == p {
        var rest := ReplaceAll(s[|p|..], p, r);
        assert out == r + rest;
        assert out[i..i + |q|][0] == out[i] == q[0];
        if i < |r| {
          assert false;
        }
        assert rest[i - |r|..i - |r| + |q|] == out[i..i + |q|];
        assert OccursAt(rest, q, i - |r|);
        ReplaceAllNoNew(s[|p|..], p, r, q);
        var j :| 0 <= j <= |s[|p|..]| && OccursAt(s[|p|..], q, j);
        assert s[|p|..][j..j + |q|] == s[j + |p|..j + |p| + |q|];
        assert OccursAt(s, q, j + |p|);
      } else {
        var rest := ReplaceAll(s[1..], p, r);
        assert out == [s[0]] + rest;
        if i == 0 {
          assert StartsWith([s[0]] + rest, q);
          assert Disjoint(r, q[1..]);
          NoNewPrefix(s[0], s[1..], p, r, q);
          assert [s[0]] + s[1..] == s;
          assert OccursAt(s, q, 0);
        } else {
          assert rest[i - 1..i - 1 + |q|] == out[i..i + |q|];
          assert OccursAt(rest, q, i - 1);
          ReplaceAllNoNew(s[1..], p, r, q);
          var j :| 0 <= j <= |s[1..]| && OccursAt(s[1..], q, j);
          assert s[1..][j..j + |q|] == s[j + 1..j + 1 + |q|];
          assert OccursAt(s, q, j + 1);
        }
      }
    }
  }

  // ---------------------------------------------------------------------------
  // fillTemplate

  /** The three passes of goweek.go:177-179, in their order. */
  function Fill(tpl: string, info: DateInfo): string {
    var t1 := ReplaceAll(tpl, WeekToken, info.week);
    var t2 := ReplaceAll(t1, WeekStartToken, info.weekStart);
    ReplaceAll(t2, WeekEndToken, info.weekEnd)
  }

  /** fillTemplate(tpl, lastWeek), with the clock reading passed in as `today`. */
  function FillTemplate(tpl: string, today: Date, lastWeek: bool): string
    requires ValidDate(today)
  {
    Fill(tpl, GetDateInfo(today, lastWeek))
  }

  /**
    Reference definition: one left-to-right scan that replaces each placeholder where
    it starts and copies every other character.
   */
  function Substitute(s: string, info: DateInfo): string
    decreases |s|
  {
    if s == [] then []
    else if StartsWith(s, WeekToken) then info.week + Substitute(s[|WeekToken|..], info)
    else if StartsWith(s, WeekStartToken) then info.weekStart + Substitute(s[|WeekStartToken|..], info)
    else if StartsWith(s, WeekEndToken) then info.weekEnd + Substitute(s[|WeekEndToken|..], info)
    else [s[0]] + Substitute(s[1..], info)
  }

  /** Text made of digits, '-' and '/': what the rendered dates and week numbers are. */
  predicate Numeric(s: string) {
    forall i :: 0 <= i < |s| ==> IsDigit(s[i]) || s[i] == '-' || s[i] == '/'
  }

  /** Replacement values that cannot form or complete a placeholder. */
  predicate InertValues(info: DateInfo) {
    && info.week != [] && info.weekStart != [] && info.weekEnd != []
    && Numeric(info.week) && Numeric(info.weekStart) && Numeric(info.weekEnd)
  }

  lemma NumericAvoidsTokens(v: string)
    requires Numeric(v)
    ensures Disjoint(v, WeekToken) && Disjoint(v, WeekStartToken) && Disjoint(v, WeekEndToken)
    ensures forall j :: 0 <= j < |v| ==> v[j] != '{'
  {
  }

  lemma NumericConcat(a: string, b: string)
    requires Numeric(a) && Numeric(b)
    ensures Numeric(a + b)
  {
    forall i | 0 <= i < |a + b| ensures IsDigit((a + b)[i]) || (a + b)[i] == '-' || (a + b)[i] == '/' {
      if i >= |a| { assert (a + b)[i] == b[i - |a|]; }
    }
  }

  lemma FormatIntNumeric(x: int, w: nat)
    ensures Numeric(FormatInt(x, w))
  {
    var s := FormatInt(x, w);
    if x < 0 {
      forall i | 1 <= i < |s| ensures IsDigit(s[i]) { assert s[i] == s[1..][i - 1]; }
    }
  }

  /** The values getDateInfo produces are inert. */
  lemma DateInfoInert(today: Date, lastWeek: bool)
    requires ValidDate(today)
    ensures InertValues(GetDateInfo(today, lastWeek))
  {
    var now := ReferenceDay(today, lastWeek);
    FormatIntNumeric(ISOWeek(now).week, 2);
    forall d: Date ensures Numeric(SlashedDate(d)) {
      FormatIntNumeric(d.year, 4);
      FormatIntNumeric(d.month, 2);
      FormatIntNumeric(d.day, 2);
      NumericConcat(FormatInt(d.year, 4), "/");
      NumericConcat(FormatInt(d.year, 4) + "/", FormatInt(d.month, 2));
      NumericConcat(FormatInt(d.year, 4) + "/" + FormatInt(d.month, 2), "/");
      NumericConcat(FormatInt(d.year, 4) + "/" + FormatInt(d.month, 2) + "/", FormatInt(d.day, 2));
    }
  }

  /**
    A token passes unchanged through another token's pass when it differs from that
    token within their common length, also one character in, and holds no '{' after
    its first two characters.
   */
  lemma PassOverToken(q: string, t: string, p: string, r: string)
    requires p != [] && |q| >= 2 && p[0] !in q[2..]
    requires !StartsWith(q + t, p) && !StartsWith(q[1..] + t, p)
    ensures ReplaceAll(q + t, p, r) == q + ReplaceAll(t, p, r)
  {
    var u := q[2..] + t;
    SplitTwo(q, t);
    CopyHead(q[0], [q[1]] + u, p, r);
    CopyHead(q[1], u, p, r);
    SkipInert(q[2..], t, p, r);
    SplitTwo(q, ReplaceAll(t, p, r));
  }

  lemma SplitTwo(q: string, t: string)
    requires |q| >= 2
    ensures q + t == [q[0]] + ([q[1]] + (q[2..] + t))
  {
    assert q == [q[0]] + [q[1]] + q[2..];
  }

  /** Token t followed by anything, with the token made explicit. */
  lemma TokenSplit(s: string, q: string)
    requires StartsWith(s, q)
    ensures s == q + s[|q|..]
  {
  }

  /**
    The three sequential passes equal the single simultaneous substitution: no pass
    disturbs another placeholder, and no replaced value completes a placeholder.
   */
  lemma {:induction false} FillIsSimultaneous(s: string, info: DateInfo)
    requires InertValues(info)
    ensures Fill(s, info) == Substitute(s, info)
    decreases |s|
  {
    if s == [] {
    } else if StartsWith(s, WeekToken) {
      FillIsSimultaneous(s[|WeekToken|..], info);
      FillAtWeek(s, info);
    } else if StartsWith(s, WeekStartToken) {
      FillIsSimultaneous(s[|WeekStartToken|..], info);
      FillAtWeekStart(s, info);
    } else if StartsWith(s, WeekEndToken) {
      FillIsSimultaneous(s[|WeekEndToken|..], info);
      FillAtWeekEnd(s, info);
    } else {
      FillIsSimultaneous(s[1..], info);
      FillAtOther(s, info);
    }
  }

  /** The step of FillIsSimultaneous at a "{{.Week}}". */
  lemma FillAtWeek(s: string, info: DateInfo)
    requires InertValues(info) && StartsWith(s, WeekToken)
    requires Fill(s[|WeekToken|..], info) == Substitute(s[|WeekToken|..], info)
    ensures Fill(s, info) == Substitute(s, info)
  {
    var w, ws, we := info.week, info.weekStart, info.weekEnd;
    NumericAvoidsTokens(w);
    var rest := s[|WeekToken|..];
    MatchStep(s, WeekToken, w);
    var x1 := ReplaceAll(rest, WeekToken, w);
    SkipInert(w, x1, WeekStartToken, ws);
    var x2 := ReplaceAll(x1, WeekStartToken, ws);
    SkipInert(w, x2, WeekEndToken, we);
  }

  /** The step of FillIsSimultaneous at a "{{.WeekStart}}". */
  lemma FillAtWeekStart(s: string, info: DateInfo)
    requires InertValues(info) && StartsWith(s, WeekStartToken)
    requires Fill(s[|WeekStartToken|..], info) == Substitute(s[|WeekStartToken|..], info)
    ensures Fill(s, info) == Substitute(s, info)
  {
    var w, ws, we := info.week, info.weekStart, info.weekEnd;
    NumericAvoidsTokens(ws);
    var rest := s[|WeekStartToken|..];
    TokenSplit(s, WeekStartToken);
    DiffersAt(WeekStartToken + rest, WeekToken, 7);
    assert (WeekStartToken[1..] + rest)[1] == WeekStartToken[2] == '.';
    DiffersAt(WeekStartToken[1..] + rest, WeekToken, 1);
    PassOverToken(WeekStartToken, rest, WeekToken, w);
    var x1 := ReplaceAll(rest, WeekToken, w);
    assert (WeekStartToken + x1)[|WeekStartToken|..] == x1;
    MatchStep(WeekStartToken + x1, WeekStartToken, ws);
    var x2 := ReplaceAll(x1, WeekStartToken, ws);
    SkipInert(ws, x2, WeekEndToken, we);
  }

  /** The step of FillIsSimultaneous at a "{{.WeekEnd}}". */
  lemma FillAtWeekEnd(s: string, info: DateInfo)
    requires InertValues(info) && StartsWith(s, WeekEndToken)
    requires Fill(s[|WeekEndToken|..], info) == Substitute(s[|WeekEndToken|..], info)
    ensures Fill(s, info) == Substitute(s, info)
  {
    var w, ws, we := info.week, info.weekStart, info.weekEnd;
    var rest := s[|WeekEndToken|..];
    TokenSplit(s, WeekEndToken);
    DiffersAt(WeekEndToken + rest, WeekToken, 7);
    assert (WeekEndToken[1..] + rest)[1] == WeekEndToken[2] == '.';
    DiffersAt(WeekEndToken[1..] + rest, WeekToken, 1);
    PassOverToken(WeekEndToken, rest, WeekToken, w);
    var x1 := ReplaceAll(rest, WeekToken, w);
    DiffersAt(WeekEndToken + x1, WeekStartToken, 7);
    assert (WeekEndToken[1..] + x1)[1] == WeekEndToken[2] == '.';
    DiffersAt(WeekEndToken[1..] + x1, WeekStartToken, 1);
    PassOverToken(WeekEndToken, x1, WeekStartToken, ws);
    var x2 := ReplaceAll(x1, WeekStartToken, ws);
    assert (WeekEndToken + x2)[|WeekEndToken|..] == x2;
    MatchStep(WeekEndToken + x2, WeekEndToken, we);
  }

  /** The step of FillIsSimultaneous at a character that starts no placeholder. */
  lemma FillAtOther(s: string, info: DateInfo)
    requires InertValues(info) && s != []
    requires !StartsWith(s, WeekToken) && !StartsWith(s, WeekStartToken) && !StartsWith(s, WeekEndToken)
    requires Fill(s[1..], info) == Substitute(s[1..], info)
    ensures Fill(s, info) == Substitute(s, info)
  {
    var w, ws, we := info.week, info.weekStart, info.weekEnd;
    NumericAvoidsTokens(w);
    NumericAvoidsTokens(ws);
    var c, rest := s[0], s[1..];
    assert s == [c] + rest;
    CopyStep(s, WeekToken, w);
    var x1 := ReplaceAll(rest, WeekToken, w);
    if StartsWith([c] + x1, WeekStartToken) {
      NoNewPrefix(c, rest, WeekToken, w, WeekStartToken);
      assert false;
    }
    CopyStep([c] + x1, WeekStartToken, ws);
    assert ([c] + x1)[1..] == x1;
    var x2 := ReplaceAll(x1, WeekStartToken, ws);
    if StartsWith([c] + x2, WeekEndToken) {
      NoNewPrefix(c, x1, WeekStartToken, ws, WeekEndToken);
      NoNewPrefix(c, rest, WeekToken, w, WeekEndToken);
      assert false;
    }
    CopyStep([c] + x2, WeekEndToken, we);
    assert ([c] + x2)[1..] == x2;
  }

  /** After filling, none of the three placeholders is left in the text. */
  lemma FillRemovesTokens(s: string, info: DateInfo)
    requires InertValues(info)
    ensures var out := Fill(s, info);
            !Contains(out, WeekToken) && !Contains(out, WeekStartToken) && !Contains(out, WeekEndToken)
  {
    NumericAvoidsTokens(info.week);
    NumericAvoidsTokens(info.weekStart);
    NumericAvoidsTokens(info.weekEnd);
    var t1 := ReplaceAll(s, WeekToken, info.week);
    var t2 := ReplaceAll(t1, WeekStartToken, info.weekStart);
    ReplaceAllRemoves(s, WeekToken, info.week);
    ReplaceAllRemoves(t1, WeekStartToken, info.weekStart);
    ReplaceAllNoNew(t1, WeekStartToken, info.weekStart, WeekToken);
    ReplaceAllRemoves(t2, WeekEndToken, info.weekEnd);
    ReplaceAllNoNew(t2, WeekEndToken, info.weekEnd, WeekToken);
    ReplaceAllNoNew(t2, WeekEndToken, info.weekEnd, WeekStartToken);
  }

  /** A template with none of the placeholders comes back unchanged. */
  lemma FillWithoutTokens(s: string, info: DateInfo)
    requires !Contains(s, WeekToken) && !Contains(s, WeekStartToken) && !Contains(s, WeekEndToken)
    ensures Fill(s, info) == s
  {
    ReplaceAllAbsent(s, WeekToken, info.week);
    ReplaceAllAbsent(s, WeekStartToken, info.weekStart);
    ReplaceAllAbsent(s, WeekEndToken, info.weekEnd);
  }

  /** What fillTemplate returns, for any template and any day. */
  lemma FillTemplateMeaning(tpl: string, today: Date, lastWeek: bool)
    requires ValidDate(today)
    ensures var out := FillTemplate(tpl, today, lastWeek);
            && out == Substitute(tpl, GetDateInfo(today, lastWeek))
            && !Contains(out, WeekToken) && !Contains(out, WeekStartToken) && !Contains(out, WeekEndToken)
            && (!Contains(tpl, WeekToken) && !Contains(tpl, WeekStartToken) && !Contains(tpl, WeekEndToken) ==> out == tpl)
  {
    var info := GetDateInfo(today, lastWeek);
    DateInfoInert(today, lastWeek);
    FillIsSimultaneous(tpl, info);
    FillRemovesTokens(tpl, info);
    if !Contains(tpl, WeekToken) && !Contains(tpl, WeekStartToken) && !Contains(tpl, WeekEndToken) {
      FillWithoutTokens(tpl, info);
    }
  }
}
