/** The string operations the program takes from its library. A string is a sequence of characters. */
module Strings {

  /** The white space of Unicode, as the program's library has it. */
  predicate IsSpace(c: char) {
    || c == ' ' || ('\t' <= c <= '\r') || c == '\U{85}' || c == '\U{A0}' || c == '\U{1680}'
    || ('\U{2000}' <= c <= '\U{200A}') || c == '\U{2028}' || c == '\U{2029}' || c == '\U{202F}'
    || c == '\U{205F}' || c == '\U{3000}'
  }

  function NonSpace(s: string): string {
    if s == "" then "" else (if IsSpace(s[0]) then "" else [s[0]]) + NonSpace(s[1..])
  }

  function SkipSpace(s: string): (r: string)
    ensures |r| <= |s| && NonSpace(r) == NonSpace(s) && (r == "" || !IsSpace(r[0]))
  {
    if s != "" && IsSpace(s[0]) then SkipSpace(s[1..]) else s
  }

  function DropSpace(s: string): (r: string)
    ensures |r| <= |s| && r == s[..|r|] && (r == "" || !IsSpace(r[|r| - 1]))
  {
    if s != "" && IsSpace(s[|s| - 1]) then DropSpace(s[..|s| - 1]) else s
  }

  /** The string without the white space at its ends. */
  function TrimSpace(s: string): string { DropSpace(SkipSpace(s)) }

  /** No white space at either end. */
  predicate Trimmed(s: string) {
    s == "" || (!IsSpace(s[0]) && !IsSpace(s[|s| - 1]))
  }

  /**
    A character-wise lower-casing. The program relies on these facts only: doing
    it twice changes nothing, and it neither makes nor loses a space or one of
    the characters that mean something in an address or a path.
  */
  type CaseMap = char -> char

  ghost predicate Folds(lower: CaseMap) {
    && (forall c :: lower(lower(c)) == lower(c))
    && (forall c :: IsSpace(lower(c)) <==> IsSpace(c))
    && (forall c :: lower(c) == '@' <==> c == '@')
    && (forall c :: lower(c) == '/' <==> c == '/')
    && (forall c :: lower(c) == '\\' <==> c == '\\')
  }

  function ToLower(lower: CaseMap, s: string): (r: string)
    ensures |r| == |s| && forall i :: 0 <= i < |s| ==> r[i] == lower(s[i])
  {
    seq(|s|, i requires 0 <= i < |s| => lower(s[i]))
  }

  lemma LowerTwice(lower: CaseMap, s: string)
    requires Folds(lower)
    ensures ToLower(lower, ToLower(lower, s)) == ToLower(lower, s)
  {
  }

  lemma {:induction false} LowerSkip(lower: CaseMap, s: string)
    requires Folds(lower)
    ensures SkipSpace(ToLower(lower, s)) == ToLower(lower, SkipSpace(s))
  {
    if s != "" && IsSpace(s[0]) {
      assert ToLower(lower, s)[1..] == ToLower(lower, s[1..]);
      LowerSkip(lower, s[1..]);
    }
  }

  lemma {:induction false} LowerDrop(lower: CaseMap, s: string)
    requires Folds(lower)
    ensures DropSpace(ToLower(lower, s)) == ToLower(lower, DropSpace(s))
  {
    if s != "" && IsSpace(s[|s| - 1]) {
      assert ToLower(lower, s)[..|s| - 1] == ToLower(lower, s[..|s| - 1]);
      LowerDrop(lower, s[..|s| - 1]);
    }
  }

  /** Lower-casing and trimming may be done in either order. */
  lemma LowerTrim(lower: CaseMap, s: string)
    requires Folds(lower)
    ensures TrimSpace(ToLower(lower, s)) == ToLower(lower, TrimSpace(s))
  {
    LowerSkip(lower, s);
    LowerDrop(lower, SkipSpace(s));
  }

  predicate OccursAt(s: string, p: string, i: int) {
    0 <= i <= |s| - |p| && s[i..i + |p|] == p
  }

  predicate Contains(s: string, p: string) {
    exists i :: 0 <= i <= |s| - |p| && OccursAt(s, p, i)
  }

  predicate HasPrefix(s: string, p: string) { |p| <= |s| && s[..|p|] == p }

  predicate HasSuffix(s: string, p: string) { |p| <= |s| && s[|s| - |p|..] == p }

  lemma CharInside(s: string, p: string, i: int, m: int)
    requires OccursAt(s, p, i) && i <= m < i + |p|
    ensures s[m] in p
  {
  }

  lemma OneSide(a: string, c: char, b: string, p: string, i: int)
    requires c !in p && OccursAt(a + [c] + b, p, i)
    ensures i + |p| <= |a| || i > |a|
  {
    if i <= |a| < i + |p| { CharInside(a + [c] + b, p, i, |a|); }
  }

  lemma OccursWithin(s: string, t: string, p: string, i: int, k: int)
    requires OccursAt(t, p, i) && 0 <= k <= |s| - |t| && s[k..k + |t|] == t
    ensures OccursAt(s, p, k + i)
  {
    forall m | 0 <= m < |p| ensures s[k + i..k + i + |p|][m] == p[m] {
      assert s[k..k + |t|][i + m] == s[k + i + m];
      assert t[i..i + |p|][m] == t[i + m];
    }
  }

  /** A pattern without the separator lies on one side of it. */
  lemma ContainsAcross(a: string, c: char, b: string, p: string)
    requires c !in p
    ensures Contains(a + [c] + b, p) <==> Contains(a, p) || Contains(b, p)
  {
    var s := a + [c] + b;
    assert s[0..|a|] == a && s[|a| + 1..|a| + 1 + |b|] == b;
    if Contains(a, p) {
      var i :| 0 <= i <= |a| - |p| && OccursAt(a, p, i);
      OccursWithin(s, a, p, i, 0);
    }
    if Contains(b, p) {
      var i :| 0 <= i <= |b| - |p| && OccursAt(b, p, i);
      OccursWithin(s, b, p, i, |a| + 1);
    }
    if Contains(s, p) {
      var i :| 0 <= i <= |s| - |p| && OccursAt(s, p, i);
      OneSide(a, c, b, p, i);
      if i + |p| <= |a| { OccursBefore(a, c, b, p, i); } else { OccursAfter(a, c, b, p, i); }
    }
  }

  lemma OccursBefore(a: string, c: char, b: string, p: string, i: int)
    requires OccursAt(a + [c] + b, p, i) && i + |p| <= |a|
    ensures OccursAt(a, p, i)
  {
  }

  lemma OccursAfter(a: string, c: char, b: string, p: string, i: int)
    requires OccursAt(a + [c] + b, p, i) && i > |a|
    ensures OccursAt(b, p, i - |a| - 1)
  {
  }

  lemma TrimFixed(s: string)
    requires Trimmed(s)
    ensures TrimSpace(s) == s
  {
  }

  predicate Blank(s: string) { forall i :: 0 <= i < |s| ==> IsSpace(s[i]) }

  lemma {:induction false} SkipIsExact(s: string) returns (p: string)
    ensures Blank(p) && s == p + SkipSpace(s)
  {
    p := "";
    if s != "" && IsSpace(s[0]) {
      p := SkipIsExact(s[1..]);
      p := [s[0]] + p;
    }
  }

  lemma {:induction false} DropIsExact(s: string) returns (q: string)
    ensures Blank(q) && s == DropSpace(s) + q
  {
    q := "";
    if s != "" && IsSpace(s[|s| - 1]) {
      q := DropIsExact(s[..|s| - 1]);
      q := q + [s[|s| - 1]];
    }
  }

  /** Trimming takes off the white space at both ends, all of it and nothing else. */
  lemma TrimIsExact(s: string) returns (p: string, q: string)
    ensures Blank(p) && Blank(q) && s == p + TrimSpace(s) + q
    ensures TrimSpace(s) != "" ==> !IsSpace(TrimSpace(s)[0]) && !IsSpace(TrimSpace(s)[|TrimSpace(s)| - 1])
  {
    p := SkipIsExact(s);
    q := DropIsExact(SkipSpace(s));
    assert TrimSpace(s) != "" ==> TrimSpace(s)[0] == SkipSpace(s)[0];
  }

  // ---------------------------------------------------------------- sequences

  lemma Regroup<T>(a: seq<T>, b: seq<T>, c: seq<T>)
    ensures a + b + c == a + (b + c)
  {
  }
}
