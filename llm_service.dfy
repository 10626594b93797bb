/**
 * The deterministic parts of bot/services/llm_service.py: the clean-up that
 * `generate_sql` applies to the language model's reply before returning it as
 * SQL, and the mapping `execute_sql` applies to the outcome of running it.
 * The model's reply and the database are outside; their results are inputs.
 */
module LlmService {
  import opened Wrappers

  /**
   * The characters Python's `str.isspace()` accepts; `str.strip()` and the
   * `\s` of a `str` regular expression use the same set.
   */
  predicate IsSpace(c: char) {
    || c == ' '
    || ('\t' <= c <= '\r')
    || ('\U{1C}' <= c <= '\U{1F}')
    || c == '\U{85}' || c == '\U{A0}' || c == '\U{1680}'
    || ('\U{2000}' <= c <= '\U{200A}')
    || c == '\U{2028}' || c == '\U{2029}' || c == '\U{202F}' || c == '\U{205F}' || c == '\U{3000}'
  }

  predicate AllSpace(s: string) {
    forall i :: 0 <= i < |s| ==> IsSpace(s[i])
  }

  /** No whitespace at either end. */
  predicate Trimmed(s: string) {
    s == [] || (!IsSpace(s[0]) && !IsSpace(s[|s| - 1]))
  }

  /** Three backticks at positions `i`, `i + 1` and `i + 2`. */
  predicate FenceAt(s: string, i: int)
    requires 0 <= i && i + 3 <= |s|
  {
    s[i] == '`' && s[i + 1] == '`' && s[i + 2] == '`'
  }

  /** `^```` matches. */
  predicate OpensFence(s: string) {
    |s| >= 3 && FenceAt(s, 0)
  }

  /** `^```sql` matches. */
  predicate OpensSqlFence(s: string) {
    |s| >= 6 && FenceAt(s, 0) && s[3] == 's' && s[4] == 'q' && s[5] == 'l'
  }

  /** "```" ends the string. */
  predicate ClosesFence(s: string) {
    |s| >= 3 && FenceAt(s, |s| - 3)
  }

  /** "```" followed by a final newline ends the string. */
  predicate ClosesFenceBeforeNewline(s: string) {
    |s| >= 4 && FenceAt(s, |s| - 4) && s[|s| - 1] == '\n'
  }

  predicate StartsWithSql(s: string) {
    |s| >= 3 && s[0] == 's' && s[1] == 'q' && s[2] == 'l'
  }

  /** No whitespace at the end. */
  predicate NoTrailingSpace(s: string) {
    s == [] || !IsSpace(s[|s| - 1])
  }

  /** `t` is `s` with a prefix and a suffix removed. */
  predicate IsSliceOf(t: string, s: string) {
    exists i, j :: 0 <= i <= j <= |s| && t == s[i..j]
  }

  /** The length of the whitespace run at the start of `s`. */
  function LeadingSpaces(s: string): (k: nat)
    ensures k <= |s|
    ensures k < |s| ==> !IsSpace(s[k])
  {
    if |s| > 0 && IsSpace(s[0]) then 1 + LeadingSpaces(s[1..]) else 0
  }

  /** The length of the whitespace run at the end of `s`. */
  function TrailingSpaces(s: string): (k: nat)
    ensures k <= |s|
    ensures k < |s| ==> !IsSpace(s[|s| - k - 1])
  {
    if |s| > 0 && IsSpace(s[|s| - 1]) then 1 + TrailingSpaces(s[..|s| - 1]) else 0
  }

  /** `str.lstrip()`. */
  function TrimStart(s: string): string {
    s[LeadingSpaces(s)..]
  }

  /** `str.rstrip()`. */
  function TrimEnd(s: string): string {
    s[..|s| - TrailingSpaces(s)]
  }

  /** `str.strip()`. */
  function Strip(s: string): (r: string)
    ensures Trimmed(r)
  {
    TrimEnd(TrimStart(s))
  }

  /** `re.sub(r'^```sql\s*', '', s)`: `^` anchors at the start only, so at most one match. */
  function DropSqlFence(s: string): string {
    if OpensSqlFence(s) then TrimStart(s[6..]) else s
  }

  /** `re.sub(r'^```\s*', '', s)`. */
  function DropFence(s: string): string {
    if OpensFence(s) then TrimStart(s[3..]) else s
  }

  /**
   * `re.sub(r'\s*```$', '', s)`. `$` matches at the end of the string or just
   * before a newline that ends it, so the match is the fence at the end, or
   * the fence before a final newline (which stays), with the whitespace run
   * in front of it; the leftmost match takes the whole run.
   */
  function DropTrailingFence(s: string): string {
    if ClosesFence(s) then TrimEnd(s[..|s| - 3])
    else if ClosesFenceBeforeNewline(s) then TrimEnd(s[..|s| - 4]) + "\n"
    else s
  }

  /** Lines 68-75 of `generate_sql`: the reply as returned to the caller. */
  function CleanSql(raw: string): (r: string)
    ensures Trimmed(r)
  {
    Strip(DropTrailingFence(DropFence(DropSqlFence(Strip(raw)))))
  }

  // Whitespace runs

  /** Whitespace in front of a string that starts with a non-space is exactly what `lstrip` removes. */
  lemma TrimStartOf(w: string, t: string)
    requires AllSpace(w) && (t == [] || !IsSpace(t[0]))
    ensures TrimStart(w + t) == t
  {
    LeadingSpacesOf(w, t);
    assert (w + t)[|w|..] == t;
  }

  lemma {:induction false} LeadingSpacesOf(w: string, t: string)
    requires AllSpace(w) && (t == [] || !IsSpace(t[0]))
    ensures LeadingSpaces(w + t) == |w|
  {
    if w == [] {
      assert w + t == t;
    } else {
      assert (w + t)[0] == w[0];
      assert (w + t)[1..] == w[1..] + t;
      LeadingSpacesOf(w[1..], t);
    }
  }

  lemma {:induction false} TrailingSpacesOf(t: string, w: string)
    requires AllSpace(w) && (t == [] || !IsSpace(t[|t| - 1]))
    ensures TrailingSpaces(t + w) == |w|
  {
    if w == [] {
      assert t + w == t;
    } else {
      var s := t + w;
      assert s[|s| - 1] == w[|w| - 1];
      assert s[..|s| - 1] == t + w[..|w| - 1];
      TrailingSpacesOf(t, w[..|w| - 1]);
    }
  }

  /** Whitespace after a string that ends with a non-space is exactly what `rstrip` removes. */
  lemma TrimEndOf(t: string, w: string)
    requires AllSpace(w) && (t == [] || !IsSpace(t[|t| - 1]))
    ensures TrimEnd(t + w) == t
  {
    TrailingSpacesOf(t, w);
    assert (t + w)[..|t|] == t;
  }

  /**
   * `strip` removes exactly the whitespace around a trimmed string: the
   * reference description of `Strip`.
   */
  lemma StripOf(w1: string, t: string, w2: string)
    requires AllSpace(w1) && AllSpace(w2) && Trimmed(t)
    ensures Strip(w1 + t + w2) == t
  {
    if t == [] {
      assert w1 + t + w2 == w1 + w2;
      var s := w1 + w2;
      assert AllSpace(s) by {
        forall i | 0 <= i < |s|
          ensures IsSpace(s[i])
        {
          if i < |w1| { assert s[i] == w1[i]; } else { assert s[i] == w2[i - |w1|]; }
        }
      }
      assert s + [] == s;
      LeadingSpacesOf(s, []);
    } else {
      assert w1 + t + w2 == w1 + (t + w2);
      TrimStartOf(w1, t + w2);
      TrimEndOf(t, w2);
    }
  }

  /** `strip` is the identity on a trimmed string. */
  lemma StripTrimmed(t: string)
    requires Trimmed(t)
    ensures Strip(t) == t
  {
    assert [] + t + [] == t;
    StripOf([], t, []);
  }

  /** `strip` keeps a contiguous part of its input. */
  lemma StripSlice(s: string)
    ensures IsSliceOf(Strip(s), s)
  {
    var a := LeadingSpaces(s);
    var u := s[a..];
    var b := |u| - TrailingSpaces(u);
    assert Strip(s) == s[a..a + b];
  }

  /** A prefix removed from a string without trailing whitespace leaves none. */
  lemma SuffixKeepsEnd(s: string, k: nat)
    requires k <= |s| && NoTrailingSpace(s)
    ensures NoTrailingSpace(s[k..])
  {
  }

  /** A slice of a slice is a slice of the original, at the summed offsets. */
  lemma SliceOfSlice(c: string, k: nat, l: nat, i: nat, j: nat)
    requires k <= l <= |c| && i <= j <= l - k
    ensures c[k..l][i..j] == c[k + i..k + j]
  {
    var b := c[k..l];
    assert forall n :: 0 <= n < j - i ==> b[i..j][n] == b[i + n] == c[k + i + n];
  }

  lemma SliceTrans(a: string, b: string, c: string)
    requires IsSliceOf(a, b) && IsSliceOf(b, c)
    ensures IsSliceOf(a, c)
  {
    var i, j :| 0 <= i <= j <= |b| && a == b[i..j];
    var k, l :| 0 <= k <= l <= |c| && b == c[k..l];
    SliceOfSlice(c, k, l, i, j);
    assert 0 <= k + i <= k + j <= |c| && a == c[k + i..k + j];
  }

  /** The run `LeadingSpaces` counts is all whitespace. */
  lemma {:induction false} LeadingRun(s: string)
    ensures AllSpace(s[..LeadingSpaces(s)])
    decreases |s|
  {
    if |s| > 0 && IsSpace(s[0]) {
      LeadingRun(s[1..]);
      assert s[..LeadingSpaces(s)] == [s[0]] + s[1..][..LeadingSpaces(s[1..])];
    }
  }

  /** The run `TrailingSpaces` counts is all whitespace. */
  lemma {:induction false} TrailingRun(s: string)
    ensures AllSpace(s[|s| - TrailingSpaces(s)..])
    decreases |s|
  {
    if |s| > 0 && IsSpace(s[|s| - 1]) {
      var u := s[..|s| - 1];
      TrailingRun(u);
      var t := TrailingSpaces(u);
      assert TrailingSpaces(s) == t + 1;
      var run := s[|s| - (t + 1)..];
      assert forall i :: 0 <= i < t ==> run[i] == u[|u| - t..][i];
      assert run[t] == s[|s| - 1];
    }
  }

  /** `lstrip` removes the longest whitespace prefix and nothing else. */
  lemma TrimStartMatch(s: string)
    ensures var k := |s| - |TrimStart(s)|;
      && 0 <= k && TrimStart(s) == s[k..] && AllSpace(s[..k])
      && (k == |s| || !IsSpace(s[k]))
  {
    LeadingRun(s);
  }

  /** `rstrip` removes the longest whitespace suffix and nothing else. */
  lemma TrimEndMatch(s: string)
    ensures var k := |TrimEnd(s)|;
      && k <= |s| && TrimEnd(s) == s[..k] && AllSpace(s[k..])
      && (k == 0 || !IsSpace(s[k - 1]))
  {
    TrailingRun(s);
  }

  // The steps, one by one

  /**
   * `^```sql\s*` matches only at the start: when the string opens with
   * "```sql", that tag and the longest whitespace run after it are removed;
   * otherwise nothing changes.
   */
  lemma DropSqlFenceMatch(s: string)
    ensures !OpensSqlFence(s) ==> DropSqlFence(s) == s
    ensures OpensSqlFence(s) ==>
      var k := |s| - |DropSqlFence(s)|;
      && 6 <= k && DropSqlFence(s) == s[k..] && AllSpace(s[6..k])
      && (k == |s| || !IsSpace(s[k]))
  {
    if OpensSqlFence(s) {
      var u := s[6..];
      TrimStartMatch(u);
      var j := |u| - |TrimStart(u)|;
      assert u[j..] == s[6 + j..] && u[..j] == s[6..6 + j];
    }
  }

  /** `^```\s*`: an opening "```" and the longest whitespace run after it are removed. */
  lemma DropFenceMatch(s: string)
    ensures !OpensFence(s) ==> DropFence(s) == s
    ensures OpensFence(s) ==>
      var k := |s| - |DropFence(s)|;
      && 3 <= k && DropFence(s) == s[k..] && AllSpace(s[3..k])
      && (k == |s| || !IsSpace(s[k]))
  {
    if OpensFence(s) {
      var u := s[3..];
      TrimStartMatch(u);
      var j := |u| - |TrimStart(u)|;
      assert u[j..] == s[3 + j..] && u[..j] == s[3..3 + j];
    }
  }

  /**
   * `\s*```$`: a closing "```" at the end, or just before a final newline,
   * is removed with the longest whitespace run in front of it; the final
   * newline stays. Otherwise nothing changes.
   */
  lemma DropTrailingFenceMatch(s: string)
    ensures ClosesFence(s) ==>
      var k := |DropTrailingFence(s)|;
      && k <= |s| - 3 && DropTrailingFence(s) == s[..k] && AllSpace(s[k..|s| - 3])
      && (k == 0 || !IsSpace(s[k - 1]))
    ensures !ClosesFence(s) && ClosesFenceBeforeNewline(s) ==>
      var k := |DropTrailingFence(s)| - 1;
      && 0 <= k <= |s| - 4 && DropTrailingFence(s) == s[..k] + "\n" && AllSpace(s[k..|s| - 4])
      && (k == 0 || !IsSpace(s[k - 1]))
    ensures !ClosesFence(s) && !ClosesFenceBeforeNewline(s) ==> DropTrailingFence(s) == s
  {
    if ClosesFence(s) {
      var u := s[..|s| - 3];
      TrimEndMatch(u);
      var j := |TrimEnd(u)|;
      assert u[..j] == s[..j] && u[j..] == s[j..|s| - 3];
    } else if ClosesFenceBeforeNewline(s) {
      var u := s[..|s| - 4];
      TrimEndMatch(u);
      var j := |TrimEnd(u)|;
      assert u[..j] == s[..j] && u[j..] == s[j..|s| - 4];
    }
  }

  lemma DropSqlFenceSlice(s: string)
    ensures IsSliceOf(DropSqlFence(s), s)
    ensures DropSqlFence(s) == s[|s| - |DropSqlFence(s)|..]
  {
    var r := DropSqlFence(s);
    if OpensSqlFence(s) {
      var u := s[6..];
      assert TrimStart(u) == s[6 + LeadingSpaces(u)..];
    }
    assert r == s[|s| - |r|..|s|];
  }

  lemma DropFenceSlice(s: string)
    ensures IsSliceOf(DropFence(s), s)
    ensures DropFence(s) == s[|s| - |DropFence(s)|..]
  {
    var r := DropFence(s);
    if OpensFence(s) {
      var u := s[3..];
      assert TrimStart(u) == s[3 + LeadingSpaces(u)..];
    }
    assert r == s[|s| - |r|..|s|];
  }

  /** On a string without trailing whitespace only the end-of-string reading of `$` can match. */
  lemma DropTrailingFenceSlice(s: string)
    requires NoTrailingSpace(s)
    ensures !ClosesFenceBeforeNewline(s)
    ensures IsSliceOf(DropTrailingFence(s), s)
    ensures DropTrailingFence(s) == s[..|DropTrailingFence(s)|]
  {
    var r := DropTrailingFence(s);
    if ClosesFence(s) {
      var u := s[..|s| - 3];
      assert TrimEnd(u) == s[0..|u| - TrailingSpaces(u)];
    }
    assert r == s[0..|r|];
  }

  /** Removing the tagged opening keeps a string free of trailing whitespace. */
  lemma DropSqlFenceKeepsEnd(s: string)
    requires NoTrailingSpace(s)
    ensures NoTrailingSpace(DropSqlFence(s))
  {
    DropSqlFenceSlice(s);
    SuffixKeepsEnd(s, |s| - |DropSqlFence(s)|);
  }

  /** Removing the plain opening keeps a string free of trailing whitespace. */
  lemma DropFenceKeepsEnd(s: string)
    requires NoTrailingSpace(s)
    ensures NoTrailingSpace(DropFence(s))
  {
    DropFenceSlice(s);
    SuffixKeepsEnd(s, |s| - |DropFence(s)|);
  }

  /**
   * Inside `CleanSql` the fence removal at the end sees a string without
   * trailing whitespace, so the reading of `$` before a final newline never
   * applies there.
   */
  lemma FinalNewlineNeverMatches(raw: string)
    ensures !ClosesFenceBeforeNewline(DropFence(DropSqlFence(Strip(raw))))
  {
    var s0 := Strip(raw);
    var s1 := DropSqlFence(s0);
    var s2 := DropFence(s1);
    DropSqlFenceKeepsEnd(s0);
    DropFenceKeepsEnd(s1);
    DropTrailingFenceSlice(s2);
  }

  /** `CleanSql` after its first `strip`. */
  lemma CleanSqlOfStripped(raw: string, body: string)
    requires Strip(raw) == body
    ensures CleanSql(raw) == Strip(DropTrailingFence(DropFence(DropSqlFence(body))))
  {
  }

  // Properties of CleanSql

  /** Only a prefix and a suffix of the reply are removed; nothing is inserted or rewritten. */
  lemma CleanSqlIsSlice(raw: string)
    ensures IsSliceOf(CleanSql(raw), raw)
  {
    var s0 := Strip(raw);
    var s1 := DropSqlFence(s0);
    var s2 := DropFence(s1);
    var s3 := DropTrailingFence(s2);
    StripSlice(raw);
    DropSqlFenceSlice(s0);
    DropFenceSlice(s1);
    DropSqlFenceKeepsEnd(s0);
    DropFenceKeepsEnd(s1);
    DropTrailingFenceSlice(s2);
    StripSlice(s3);
    SliceTrans(s1, s0, raw);
    SliceTrans(s2, s1, raw);
    SliceTrans(s3, s2, raw);
    SliceTrans(CleanSql(raw), s3, raw);
  }

  /** A reply with no fence at either end, once stripped, is returned stripped. */
  lemma CleanSqlNoFence(raw: string)
    requires !OpensFence(Strip(raw)) && !ClosesFence(Strip(raw))
    ensures CleanSql(raw) == Strip(raw)
  {
    var s := Strip(raw);
    DropTrailingFenceSlice(s);
    StripTrimmed(s);
    CleanSqlOfStripped(raw, s);
  }

  /** `q + w + "```"` does not start with "sql" unless `q` does. */
  lemma NoSqlTag(q: string, w: string)
    requires AllSpace(w) && !StartsWithSql(q)
    ensures !StartsWithSql(q + w + "```")
  {
    var s := q + w + "```";
    assert forall i :: 0 <= i < |q| ==> s[i] == q[i];
    assert |w| > 0 ==> s[|q|] == w[0];
    assert |w| == 0 ==> s[|q|] == '`';
  }

  /** The closing fence after a query that ends with a non-space is removed with the whitespace before it. */
  lemma CloseFence(q: string, w: string)
    requires AllSpace(w) && Trimmed(q)
    ensures DropTrailingFence(q + w + "```") == q
  {
    var s := q + w + "```";
    assert ClosesFence(s);
    assert s[..|s| - 3] == q + w;
    TrimEndOf(q, w);
  }

  /**
   * What follows the opening "```sql" and its whitespace: the query, then the
   * closing fence. A query of one or two backticks glued to the closing fence
   * reads as an opening fence, and removing it leaves the same query.
   */
  lemma AfterSqlFence(q: string, w2: string)
    requires AllSpace(w2) && Trimmed(q) && !OpensFence(q)
    ensures Strip(DropTrailingFence(DropFence(q + w2 + "```"))) == q
  {
    var t := q + w2 + "```";
    assert forall i :: 0 <= i < |q| ==> t[i] == q[i];
    assert |w2| > 0 ==> t[|q|] == w2[0];
    assert forall i :: |q| + |w2| <= i < |t| ==> t[i] == '`';
    if OpensFence(t) {
      assert |q| < 3 && w2 == [];
      assert t[3..] == q;
      assert [] + q == q;
      TrimStartOf([], q);
      StripTrimmed(q);
    } else {
      CloseFence(q, w2);
      StripTrimmed(q);
    }
  }

  /** The part of `CleanSqlFencedSql` after the first `strip`. */
  lemma SqlFencedBody(w1: string, q: string, w2: string)
    requires AllSpace(w1) && AllSpace(w2) && Trimmed(q) && !OpensFence(q)
    ensures Strip(DropTrailingFence(DropFence(DropSqlFence("```sql" + w1 + q + w2 + "```")))) == q
  {
    var body := "```sql" + w1 + q + w2 + "```";
    assert forall i :: 0 <= i < 6 ==> body[i] == "```sql"[i];
    assert OpensSqlFence(body);
    if q == [] {
      assert body[6..] == (w1 + w2) + "```";
      AllSpaceConcat(w1, w2);
      TrimStartOf(w1 + w2, "```");
      assert DropSqlFence(body) == "```";
      assert DropFence("```") == [];
    } else {
      assert body[6..] == w1 + (q + w2 + "```");
      TrimStartOf(w1, q + w2 + "```");
      AfterSqlFence(q, w2);
    }
  }

  lemma AllSpaceConcat(a: string, b: string)
    requires AllSpace(a) && AllSpace(b)
    ensures AllSpace(a + b)
  {
    assert forall i :: 0 <= i < |a + b| ==> (a + b)[i] == if i < |a| then a[i] else b[i - |a|];
  }

  /**
   * "```sql", any whitespace, a query, any whitespace, "```" cleans to the
   * query, whatever whitespace surrounds the reply.
   */
  lemma CleanSqlFencedSql(w0: string, w1: string, q: string, w2: string, w3: string)
    requires AllSpace(w0) && AllSpace(w1) && AllSpace(w2) && AllSpace(w3)
    requires Trimmed(q) && !OpensFence(q)
    ensures CleanSql(w0 + "```sql" + w1 + q + w2 + "```" + w3) == q
  {
    var body := "```sql" + w1 + q + w2 + "```";
    var raw := w0 + "```sql" + w1 + q + w2 + "```" + w3;
    assert raw == w0 + body + w3;
    StripOf(w0, body, w3);
    CleanSqlOfStripped(raw, body);
    SqlFencedBody(w1, q, w2);
  }

  /** An opening "```" not followed by "sql": only the second step removes it. */
  lemma OpensPlainFence(w1: string, q: string, w2: string)
    requires AllSpace(w1) && AllSpace(w2)
    requires |w1| > 0 || !StartsWithSql(q)
    ensures var body := "```" + w1 + q + w2 + "```";
      DropSqlFence(body) == body && DropFence(body) == TrimStart(w1 + (q + w2 + "```"))
  {
    var body := "```" + w1 + q + w2 + "```";
    var rest := w1 + (q + w2 + "```");
    assert body == "```" + rest;
    assert forall i :: 0 <= i < |rest| ==> body[3 + i] == rest[i];
    if |w1| == 0 {
      NoSqlTag(q, w2);
    }
    assert !OpensSqlFence(body);
    assert OpensFence(body);
    assert body[3..] == rest;
  }

  /** The part of `CleanSqlFenced` after the first `strip`. */
  lemma FencedBody(w1: string, q: string, w2: string)
    requires AllSpace(w1) && AllSpace(w2) && Trimmed(q)
    requires |w1| > 0 || !StartsWithSql(q)
    ensures Strip(DropTrailingFence(DropFence(DropSqlFence("```" + w1 + q + w2 + "```")))) == q
  {
    var rest := w1 + (q + w2 + "```");
    OpensPlainFence(w1, q, w2);
    if q == [] {
      assert rest == (w1 + w2) + "```";
      AllSpaceConcat(w1, w2);
      TrimStartOf(w1 + w2, "```");
      CloseFence([], []);
      assert [] + [] + "```" == "```";
    } else {
      TrimStartOf(w1, q + w2 + "```");
      CloseFence(q, w2);
    }
    StripTrimmed(q);
  }

  /**
   * "```", whitespace, a query, whitespace, "```" cleans to the query; the
   * whitespace after the opening fence may be empty when the query does not
   * start with "sql" (as in "```" + q + "\n```").
   */
  lemma CleanSqlFenced(w0: string, w1: string, q: string, w2: string, w3: string)
    requires AllSpace(w0) && AllSpace(w1) && AllSpace(w2) && AllSpace(w3)
    requires Trimmed(q)
    requires |w1| > 0 || !StartsWithSql(q)
    ensures CleanSql(w0 + "```" + w1 + q + w2 + "```" + w3) == q
  {
    var body := "```" + w1 + q + w2 + "```";
    var raw := w0 + "```" + w1 + q + w2 + "```" + w3;
    assert raw == w0 + body + w3;
    StripOf(w0, body, w3);
    CleanSqlOfStripped(raw, body);
    FencedBody(w1, q, w2);
  }

  /** Whitespace-only replies clean to nothing. */
  lemma CleanSqlBlank(w: string)
    requires AllSpace(w)
    ensures CleanSql(w) == ""
  {
    assert w + [] + [] == w;
    StripOf(w, [], []);
    CleanSqlOfStripped(w, []);
  }

  /** A bare fence, a bare "```sql" and an empty fenced block clean to nothing. */
  lemma CleanSqlEmptyFence(raw: string)
    requires raw == "```" || raw == "```sql" || raw == "```sql\n```"
    ensures CleanSql(raw) == ""
  {
    if raw == "```sql\n```" {
      assert AllSpace("\n");
      assert raw == [] + "```sql" + "\n" + [] + [] + "```" + [];
      CleanSqlFencedSql([], "\n", [], [], []);
    } else if raw == "```sql" {
      assert OpensSqlFence(raw) && raw[6..] == [];
      StripTrimmed(raw);
      CleanSqlOfStripped(raw, raw);
      assert DropFence(DropSqlFence(raw)) == [];
    } else {
      assert !OpensSqlFence(raw) && OpensFence(raw) && raw[3..] == [];
      StripTrimmed(raw);
      CleanSqlOfStripped(raw, raw);
      assert DropFence(DropSqlFence(raw)) == [];
    }
  }

  /** Only the lowercase tag is dropped: an uppercase one stays as the first line. */
  lemma CleanSqlUppercaseTag(raw: string)
    requires raw == "```SQL\nSELECT 1\n```"
    ensures CleanSql(raw) == "SQL\nSELECT 1"
  {
    var q := "SQL\nSELECT 1";
    assert AllSpace("\n");
    assert raw == [] + "```" + [] + q + "\n" + "```" + [];
    CleanSqlFenced([], [], q, "\n", []);
  }

  /**
   * An opening "```" with no closing fence (a reply cut short) is removed with
   * the whitespace after it.
   */
  lemma CleanSqlUnclosed(w0: string, w1: string, q: string, w3: string)
    requires AllSpace(w0) && AllSpace(w1) && AllSpace(w3)
    requires Trimmed(q) && q != [] && !ClosesFence(q)
    requires |w1| > 0 || !StartsWithSql(q)
    ensures CleanSql(w0 + "```" + w1 + q + w3) == q
  {
    var body := "```" + w1 + q;
    var raw := w0 + "```" + w1 + q + w3;
    assert raw == w0 + body + w3;
    assert body[|body| - 1] == q[|q| - 1];
    StripOf(w0, body, w3);
    CleanSqlOfStripped(raw, body);
    UnclosedBody(w1, q);
  }

  /** The part of `CleanSqlUnclosed` after the first `strip`. */
  lemma UnclosedBody(w1: string, q: string)
    requires AllSpace(w1) && Trimmed(q) && q != [] && !ClosesFence(q)
    requires |w1| > 0 || !StartsWithSql(q)
    ensures Strip(DropTrailingFence(DropFence(DropSqlFence("```" + w1 + q)))) == q
  {
    var body := "```" + w1 + q;
    var rest := w1 + q;
    assert body == "```" + rest;
    assert forall i :: 0 <= i < |rest| ==> body[3 + i] == rest[i];
    assert |w1| > 0 ==> body[3] == w1[0];
    assert !OpensSqlFence(body) && OpensFence(body);
    assert body[3..] == rest;
    TrimStartOf(w1, q);
    assert DropFence(DropSqlFence(body)) == q;
    DropTrailingFenceSlice(q);
    assert DropTrailingFence(q) == q;
    StripTrimmed(q);
  }

  /**
   * Cleaning is not idempotent: a second pass can remove a fence that the
   * first pass exposed.
   */
  lemma CleanSqlNotIdempotent(raw: string)
    requires raw == "``` ```x"
    ensures CleanSql(raw) == "```x"
    ensures CleanSql(CleanSql(raw)) == "x"
  {
    var q1, q2 := raw[4..], raw[7..];
    NotIdempotentParts(raw, q1, q2);
    CleanSqlUnclosed([], " ", q1, []);
    CleanSqlUnclosed([], [], q2, []);
  }

  lemma NotIdempotentParts(raw: string, q1: string, q2: string)
    requires raw == "``` ```x" && q1 == raw[4..] && q2 == raw[7..]
    ensures AllSpace(" ")
    ensures raw == [] + "```" + " " + q1 + [] && q1 == [] + "```" + [] + q2 + []
    ensures Trimmed(q1) && q1 != [] && !ClosesFence(q1)
    ensures Trimmed(q2) && q2 != [] && !ClosesFence(q2) && !StartsWithSql(q2)
  {
    assert q1 == "```x" && q2 == "x";
  }

  // execute_sql

  /** A row of a query result; SQL rows have at least one column. */
  datatype ResultRow<V> = ResultRow(first: V, rest: seq<V>)

  /** What `conn.execute` does: the result rows, or an exception with its message. */
  datatype Outcome<V> = Rows(rows: seq<ResultRow<V>>) | Raised(message: string)

  /** What `execute_sql` returns: the scalar (`None` included), or the error text. */
  datatype Reply<V> = Scalar(value: Option<V>) | Message(text: string)

  const ErrorPrefix: string := "Error executing SQL: "

  /**
   * `Result.scalar()`, as SQLAlchemy documents it and as taken here: the
   * first column of the first row, `None` when there is no row.
   */
  function ScalarOf<V>(rows: seq<ResultRow<V>>): (r: Option<V>)
    ensures r.None? <==> rows == []
    ensures r.Some? ==> r.value == rows[0].first
  {
    if rows == [] then None else Some(rows[0].first)
  }

  /** Lines 79-84: an exception is turned into a message and never propagates. */
  function ExecuteSql<V>(outcome: Outcome<V>): (r: Reply<V>)
    ensures outcome.Raised? <==> r.Message?
    ensures outcome.Raised? ==> r.text == ErrorPrefix + outcome.message
    ensures outcome.Rows? ==> r == Scalar(ScalarOf(outcome.rows))
  {
    match outcome
    case Rows(rows) => Scalar(ScalarOf(rows))
    case Raised(message) => Message(ErrorPrefix + message)
  }

  /** The exception's message can be read back from the reply. */
  lemma ErrorMessageRecoverable<V>(message: string)
    ensures var r := ExecuteSql<V>(Raised(message));
      |ErrorPrefix| <= |r.text| && r.text[..|ErrorPrefix|] == ErrorPrefix && r.text[|ErrorPrefix|..] == message
  {
  }

  /** Rows after the first and columns after the first do not affect the reply. */
  lemma ExecuteSqlIgnoresExtra<V>(first: V, rest: seq<V>, more: seq<ResultRow<V>>)
    ensures ExecuteSql(Rows([ResultRow(first, rest)] + more)) == Scalar(Some(first))
  {
  }
}
