/** Literal-contains search patterns (dbutil/pagination.go). */
module LikePattern {
  import opened Common

  // -- The patterns ---------------------------------------------------------

  /** Three passes: backslash first, so the later passes' own backslashes stay. */
  function EscapeLike(s: string): string {
    ReplaceAll(ReplaceAll(ReplaceAll(s, "\\", "\\\\"), "%", "\\%"), "_", "\\_")
  }

  /** LikePattern. */
  function Pattern(s: string): string {
    "%" + s + "%"
  }

  // -- LIKE -----------------------------------------------------------------

  /** The LIKE operator of section 9.7.1 of the PostgreSQL manual with its default
      escape character. Letters are compared after `fold`: the identity for LIKE,
      a case folding for ILIKE. A pattern that ends in a lone backslash, an error
      in PostgreSQL, matches nothing. */
  predicate Like(p: string, s: string, fold: char -> char)
    decreases |p| + |s|
  {
    if p == "" then s == ""
    else if p[0] == '%' then Like(p[1..], s, fold) || (s != "" && Like(p, s[1..], fold))
    else if p[0] == '\\' then |p| > 1 && s != "" && fold(p[1]) == fold(s[0]) && Like(p[2..], s[1..], fold)
    else s != "" && (p[0] == '_' || fold(p[0]) == fold(s[0])) && Like(p[1..], s[1..], fold)
  }

  // -- One pass per character -----------------------------------------------

  predicate Special(c: char) {
    c == '\\' || c == '%' || c == '_'
  }

  function EscapeChar(c: char): string {
    if Special(c) then ['\\', c] else [c]
  }

  function Escape(s: string): string {
    if s == "" then "" else EscapeChar(s[0]) + Escape(s[1..])
  }

  lemma OneCharNeedle(s: string, c: char, with: string)
    requires s != ""
    ensures ReplaceAll(s, [c], with) == (if s[0] == c then with else [s[0]]) + ReplaceAll(s[1..], [c], with)
  {
    assert s[..1] == [s[0]];
  }

  lemma {:induction false} ReplaceAllConcat(a: string, b: string, c: char, with: string)
    ensures ReplaceAll(a + b, [c], with) == ReplaceAll(a, [c], with) + ReplaceAll(b, [c], with)
  {
    if a == "" {
      assert a + b == b;
    } else {
      assert (a + b)[1..] == a[1..] + b;
      OneCharNeedle(a + b, c, with);
      OneCharNeedle(a, c, with);
      ReplaceAllConcat(a[1..], b, c, with);
    }
  }

  /** Replaces a whole string of at most two characters. */
  lemma ReplaceShort(s: string, c: char, with: string)
    ensures |s| == 1 ==> ReplaceAll(s, [c], with) == if s[0] == c then with else s
    ensures |s| == 2 ==> ReplaceAll(s, [c], with) == (if s[0] == c then with else [s[0]]) + (if s[1] == c then with else [s[1]])
  {
    if |s| == 1 { assert s == [s[0]] && ReplaceAll(s[1..], [c], with) == ""; }
    if |s| == 2 {
      assert s[1..][1..] == "";
      assert ReplaceAll(s[1..], [c], with) == (if s[1] == c then with else [s[1]]) + "";
    }
  }

  /** The three passes are one per-character escape. */
  lemma {:induction false} ThreePassesAreOne(s: string)
    ensures EscapeLike(s) == Escape(s)
  {
    if s != "" {
      OneCharNeedle(s, '\\', "\\\\");
      TwoMorePasses(if s[0] == '\\' then "\\\\" else [s[0]], ReplaceAll(s[1..], "\\", "\\\\"));
      LaterPassesEscape(s[0]);
      ThreePassesAreOne(s[1..]);
    }
  }

  function LaterPasses(s: string): string {
    ReplaceAll(ReplaceAll(s, "%", "\\%"), "_", "\\_")
  }

  lemma TwoMorePasses(a: string, b: string)
    ensures LaterPasses(a + b) == LaterPasses(a) + LaterPasses(b)
  {
    ReplaceAllConcat(a, b, '%', "\\%");
    ReplaceAllConcat(ReplaceAll(a, "%", "\\%"), ReplaceAll(b, "%", "\\%"), '_', "\\_");
  }

  lemma LaterPassesEscape(c: char)
    ensures LaterPasses(if c == '\\' then "\\\\" else [c]) == EscapeChar(c)
  {
    var a := if c == '\\' then "\\\\" else [c];
    ReplaceShort(a, '%', "\\%");
    ReplaceShort(ReplaceAll(a, "%", "\\%"), '_', "\\_");
  }

  // -- Matching an escaped term ---------------------------------------------

  predicate EqualFolded(a: string, b: string, fold: char -> char) {
    |a| == |b| && forall i :: 0 <= i < |a| ==> fold(a[i]) == fold(b[i])
  }

  /** q occurs in s literally, up to folding. */
  ghost predicate Contains(s: string, q: string, fold: char -> char) {
    exists i :: OccursAt(s, q, i, fold)
  }

  predicate OccursAt(s: string, q: string, i: int, fold: char -> char) {
    0 <= i && i + |q| <= |s| && EqualFolded(q, s[i..i + |q|], fold)
  }

  /** `%` matches every rest. */
  lemma {:induction false} PercentMatchesAll(s: string, fold: char -> char)
    ensures Like("%", s, fold)
  {
    if s != "" { PercentMatchesAll(s[1..], fold); }
    else { assert "%"[1..] == ""; }
  }

  /** An escaped term followed by `%` matches exactly the strings it begins. */
  lemma {:induction false} EscapedMatchesPrefix(q: string, s: string, fold: char -> char)
    ensures Like(Escape(q) + "%", s, fold) <==> |q| <= |s| && EqualFolded(q, s[..|q|], fold)
  {
    if q == "" {
      assert Escape(q) + "%" == "%";
      PercentMatchesAll(s, fold);
    } else {
      var p := Escape(q) + "%";
      assert p == EscapeChar(q[0]) + (Escape(q[1..]) + "%");
      assert p[|EscapeChar(q[0])|..] == Escape(q[1..]) + "%";
      if s != "" {
        EscapedMatchesPrefix(q[1..], s[1..], fold);
        assert Like(p, s, fold) <==> fold(q[0]) == fold(s[0]) && Like(Escape(q[1..]) + "%", s[1..], fold);
        if |q| <= |s| {
          assert forall i :: 0 <= i < |q[1..]| ==> q[1..][i] == q[i + 1] && s[1..][..|q[1..]|][i] == s[..|q|][i + 1];
          if EqualFolded(q[1..], s[1..][..|q[1..]|], fold) && fold(q[0]) == fold(s[0]) {
            forall i | 0 <= i < |q| ensures fold(q[i]) == fold(s[..|q|][i]) {
              if i > 0 { assert fold(q[1..][i - 1]) == fold(s[1..][..|q[1..]|][i - 1]); }
            }
          }
          if EqualFolded(q, s[..|q|], fold) {
            forall i | 0 <= i < |q[1..]| ensures fold(q[1..][i]) == fold(s[1..][..|q[1..]|][i]) {
              assert fold(q[i + 1]) == fold(s[..|q|][i + 1]);
            }
          }
        }
      }
    }
  }

  /** A leading `%` tries every suffix. */
  lemma {:induction false} PercentTriesSuffixes(p: string, s: string, fold: char -> char)
    ensures Like("%" + p, s, fold) <==> exists i :: 0 <= i <= |s| && Like(p, s[i..], fold)
  {
    assert ("%" + p)[1..] == p;
    assert s[0..] == s;
    if s != "" {
      PercentTriesSuffixes(p, s[1..], fold);
      if i :| 0 <= i <= |s| && Like(p, s[i..], fold) {
        if i > 0 { assert s[1..][i - 1..] == s[i..]; }
      }
      if i :| 0 <= i <= |s[1..]| && Like(p, s[1..][i..], fold) {
        assert s[1..][i..] == s[i + 1..];
      }
    } else {
      assert forall i :: 0 <= i <= |s| ==> s[i..] == s;
    }
  }

  /** Searching for q finds exactly the strings that contain q literally: no
      character of q acts as a wildcard. */
  lemma PatternMeansContains(q: string, s: string, fold: char -> char)
    ensures Like(Pattern(EscapeLike(q)), s, fold) <==> Contains(s, q, fold)
  {
    ThreePassesAreOne(q);
    var p := Escape(q) + "%";
    assert Pattern(EscapeLike(q)) == "%" + p;
    PercentTriesSuffixes(p, s, fold);
    forall i | 0 <= i <= |s|
      ensures Like(p, s[i..], fold) <==> OccursAt(s, q, i, fold)
    {
      EscapedMatchesPrefix(q, s[i..], fold);
      if i + |q| <= |s| { assert s[i..][..|q|] == s[i..i + |q|]; }
    }
  }
}
