/**
 Route patterns: from the pattern string to a regular expression, and from there to a decision.

 The regular expression is not anchored.  A path is accepted when the match the regexp package
 prefers (leftmost, and then greedy from left to right) happens to be the whole path.  The theorem
 of this module is that this decides the intended language.
 */
module Patterns {
  import opened Handlers

  /** A literal character, a `:name` parameter, or the wildcard. */
  datatype Token = Lit(c: char) | Param(name: string) | Wild

  // ----- the characters the two groups range over -----

  /** Characters of one path segment. */
  predicate SegmentChar(c: char) {
    c != '/' && c != '#' && c != '?'
  }

  predicate WildChar(c: char) {
    c != '#' && c != '?'
  }

  predicate InGroup(t: Token, c: char) {
    if t.Param? then SegmentChar(c) else t.Wild? && WildChar(c)
  }

  /** The least number of characters a group takes. */
  function Least(t: Token): nat {
    if t.Wild? then 0 else 1
  }

  // ----- the preferred match -----

  /** The end of the longest run of group characters from i. */
  function RunEnd(t: Token, path: string, i: nat): (e: nat)
    requires i <= |path|
    ensures i <= e <= |path|
    ensures forall k :: i <= k < e ==> InGroup(t, path[k])
    ensures e < |path| ==> !InGroup(t, path[e])
    decreases |path| - i
  {
    if i < |path| && InGroup(t, path[i]) then RunEnd(t, path, i + 1) else i
  }

  /** Where the preferred match of the tokens and the optional final slash ends, from position i. */
  function Prefer(ts: seq<Token>, path: string, i: nat): (e: Option<nat>)
    requires i <= |path|
    ensures e.Some? ==> i <= e.value <= |path|
    decreases |ts|, 0
  {
    if ts == [] then Some(if i < |path| && path[i] == '/' then i + 1 else i)
    else if ts[0].Lit? then
      if i < |path| && path[i] == ts[0].c then Prefer(ts[1..], path, i + 1) else None
    else Backtrack(ts, path, i + Least(ts[0]), RunEnd(ts[0], path, i))
  }

  /** A greedy group gives characters back, from j down to the least end, until the rest matches. */
  function Backtrack(ts: seq<Token>, path: string, least: nat, j: nat): (e: Option<nat>)
    requires ts != [] && j <= |path|
    ensures e.Some? ==> least <= e.value <= |path|
    decreases |ts|, 0, j
  {
    if j < least then None
    else
      var e := Prefer(ts[1..], path, j);
      if e.Some? || j == 0 then e else Backtrack(ts, path, least, j - 1)
  }

  /** The leftmost position from i on where the expression matches, and the end of that match. */
  function Search(ts: seq<Token>, path: string, i: nat): (m: Option<(nat, nat)>)
    requires i <= |path|
    ensures m.Some? ==> i <= m.value.0 <= m.value.1 <= |path|
    decreases |path| - i
  {
    var e := Prefer(ts, path, i);
    if e.Some? then Some((i, e.value))
    else if i < |path| then Search(ts, path, i + 1)
    else None
  }

  /** Match: the text of the preferred match is the path itself. */
  predicate Match(ts: seq<Token>, path: string) {
    var m := Search(ts, path, 0);
    m.Some? && path[m.value.0..m.value.1] == path
  }

  // ----- the intended language -----

  /** The first k characters are a piece for a group. */
  ghost predicate Piece(t: Token, text: string, k: nat) {
    Least(t) <= k <= |text| && forall j :: 0 <= j < k ==> InGroup(t, text[j])
  }

  /** The path splits into one piece for each token. */
  ghost predicate Language(ts: seq<Token>, path: string) {
    if ts == [] then path == ""
    else if ts[0].Lit? then path != "" && path[0] == ts[0].c && Language(ts[1..], path[1..])
    else exists k: nat :: Piece(ts[0], path, k) && Language(ts[1..], path[k..])
  }

  /** One final slash more or less makes no difference. */
  ghost predicate Intended(ts: seq<Token>, path: string) {
    || Language(ts, path)
    || (path != "" && path[|path| - 1] == '/' && Language(ts, path[..|path| - 1]))
  }

  /** A match from i to e, by positions, whether or not it is the preferred one. */
  ghost predicate Reaches(ts: seq<Token>, path: string, i: nat, e: nat)
    requires i <= |path|
  {
    if ts == [] then e == i || (i < |path| && path[i] == '/' && e == i + 1)
    else if ts[0].Lit? then i < |path| && path[i] == ts[0].c && Reaches(ts[1..], path, i + 1, e)
    else exists k :: i + Least(ts[0]) <= k <= RunEnd(ts[0], path, i) && Reaches(ts[1..], path, k, e)
  }

  // ----- the preferred match is whole whenever a whole match exists -----

  lemma {:induction false} PreferReaches(ts: seq<Token>, path: string, i: nat)
    requires i <= |path|
    ensures var e := Prefer(ts, path, i); e.Some? ==> Reaches(ts, path, i, e.value)
    decreases |ts|, 0
  {
    if ts != [] {
      if ts[0].Lit? {
        if i < |path| && path[i] == ts[0].c {
          PreferReaches(ts[1..], path, i + 1);
        }
      } else {
        BacktrackReaches(ts, path, i, RunEnd(ts[0], path, i));
      }
    }
  }

  lemma {:induction false} BacktrackReaches(ts: seq<Token>, path: string, i: nat, j: nat)
    requires ts != [] && !ts[0].Lit? && i <= |path| && j <= RunEnd(ts[0], path, i)
    ensures var e := Backtrack(ts, path, i + Least(ts[0]), j); e.Some? ==> Reaches(ts, path, i, e.value)
    decreases |ts|, 0, j
  {
    if i + Least(ts[0]) <= j {
      PreferReaches(ts[1..], path, j);
      if Prefer(ts[1..], path, j).None? && j > 0 {
        BacktrackReaches(ts, path, i, j - 1);
      }
    }
  }

  lemma {:induction false} ReachesForward(ts: seq<Token>, path: string, i: nat, e: nat)
    requires i <= |path| && Reaches(ts, path, i, e)
    ensures i <= e <= |path|
  {
    if ts != [] {
      if ts[0].Lit? {
        ReachesForward(ts[1..], path, i + 1, e);
      } else {
        var k :| i + Least(ts[0]) <= k <= RunEnd(ts[0], path, i) && Reaches(ts[1..], path, k, e);
        ReachesForward(ts[1..], path, k, e);
      }
    }
  }

  /** A run reaches at least as far from a later start inside it. */
  lemma {:induction false} RunEndMonotone(t: Token, path: string, i: nat, j: nat)
    requires i <= |path| && i <= j <= RunEnd(t, path, i)
    ensures RunEnd(t, path, j) == RunEnd(t, path, i)
    decreases j - i
  {
    if i < j {
      RunEndMonotone(t, path, i + 1, j);
    }
  }

  /**
   Two matches cross: a whole match that starts at i, and any match that starts later, at j.  Where
   they cross, the second can change over to the first; so there is a whole match from j as well.
   */
  lemma {:induction false} Cross(ts: seq<Token>, path: string, i: nat, j: nat, e: nat)
    requires i <= j <= |path|
    requires Reaches(ts, path, i, |path|) && Reaches(ts, path, j, e)
    ensures Reaches(ts, path, j, |path|)
  {
    if ts != [] {
      if ts[0].Lit? {
        Cross(ts[1..], path, i + 1, j + 1, e);
      } else {
        var t := ts[0];
        var k :| i + Least(t) <= k <= RunEnd(t, path, i) && Reaches(ts[1..], path, k, |path|);
        var l :| j + Least(t) <= l <= RunEnd(t, path, j) && Reaches(ts[1..], path, l, e);
        if k <= l {
          Cross(ts[1..], path, k, l, e);
        } else {
          RunEndMonotone(t, path, i, j);
        }
      }
    }
  }

  /** Greed never loses a whole match. */
  lemma {:induction false} PreferWhole(ts: seq<Token>, path: string, i: nat)
    requires i <= |path| && Reaches(ts, path, i, |path|)
    ensures Prefer(ts, path, i) == Some(|path|)
    decreases |ts|, 0
  {
    if ts != [] {
      if ts[0].Lit? {
        PreferWhole(ts[1..], path, i + 1);
      } else {
        var k :| i + Least(ts[0]) <= k <= RunEnd(ts[0], path, i) && Reaches(ts[1..], path, k, |path|);
        BacktrackWhole(ts, path, i, k, RunEnd(ts[0], path, i));
      }
    }
  }

  lemma {:induction false} BacktrackWhole(ts: seq<Token>, path: string, i: nat, k: nat, j: nat)
    requires ts != [] && !ts[0].Lit? && i + Least(ts[0]) <= k <= j <= |path|
    requires Reaches(ts[1..], path, k, |path|)
    ensures Backtrack(ts, path, i + Least(ts[0]), j) == Some(|path|)
    decreases |ts|, 0, j
  {
    if Prefer(ts[1..], path, j).Some? {
      PreferReaches(ts[1..], path, j);
      Cross(ts[1..], path, k, j, Prefer(ts[1..], path, j).value);
      PreferWhole(ts[1..], path, j);
    } else {
      if k == j {
        PreferWhole(ts[1..], path, j);
      }
      BacktrackWhole(ts, path, i, k, j - 1);
    }
  }

  // ----- matches by positions are the language -----

  lemma {:induction false} RunEndCovers(t: Token, path: string, i: nat, k: nat)
    requires i <= k <= |path| && forall j :: i <= j < k ==> InGroup(t, path[j])
    ensures k <= RunEnd(t, path, i)
    decreases k - i
  {
    if i < k {
      RunEndCovers(t, path, i + 1, k);
    }
  }

  /** Positions i to e are a match exactly when the text between them is intended. */
  lemma {:induction false} ReachesIsIntended(ts: seq<Token>, path: string, i: nat, e: nat)
    requires i <= e <= |path|
    ensures Reaches(ts, path, i, e) <==> Intended(ts, path[i..e])
    decreases |ts|, 1
  {
    if ts == [] {
    } else if ts[0].Lit? {
      LiteralReaches(ts, path, i, e);
    } else {
      if Reaches(ts, path, i, e) {
        ReachesIntended(ts, path, i, e);
      }
      if Intended(ts, path[i..e]) {
        IntendedReaches(ts, path, i, e);
      }
    }
  }

  lemma {:induction false} LiteralReaches(ts: seq<Token>, path: string, i: nat, e: nat)
    requires i <= e <= |path| && ts != [] && ts[0].Lit?
    ensures Reaches(ts, path, i, e) <==> Intended(ts, path[i..e])
    decreases |ts|, 0
  {
    if i < e {
      ReachesIsIntended(ts[1..], path, i + 1, e);
      LiteralIntended(ts, path[i..e]);
      assert path[i..e][1..] == path[i + 1..e];
    } else if Reaches(ts, path, i, e) {
      ReachesForward(ts[1..], path, i + 1, e);
    }
  }

  lemma {:induction false} ReachesIntended(ts: seq<Token>, path: string, i: nat, e: nat)
    requires i <= e <= |path| && ts != [] && !ts[0].Lit? && Reaches(ts, path, i, e)
    ensures Intended(ts, path[i..e])
    decreases |ts|, 0
  {
    var k := GroupReaches(ts, path, i, e);
    ReachesForward(ts[1..], path, k, e);
    ReachesIsIntended(ts[1..], path, k, e);
    assert path[i..e][k - i..] == path[k..e];
    GroupIntended(ts, path[i..e], k - i);
  }

  lemma {:induction false} IntendedReaches(ts: seq<Token>, path: string, i: nat, e: nat)
    requires i <= e <= |path| && ts != [] && !ts[0].Lit? && Intended(ts, path[i..e])
    ensures Reaches(ts, path, i, e)
    decreases |ts|, 0
  {
    var k := IntendedGroup(ts, path[i..e]);
    assert path[i..e][k..] == path[i + k..e];
    ReachesIsIntended(ts[1..], path, i + k, e);
    RunEndCovers(ts[0], path, i, i + k);
  }

  lemma GroupReaches(ts: seq<Token>, path: string, i: nat, e: nat) returns (k: nat)
    requires ts != [] && !ts[0].Lit? && i <= |path| && Reaches(ts, path, i, e)
    ensures i + Least(ts[0]) <= k <= RunEnd(ts[0], path, i) && Reaches(ts[1..], path, k, e)
  {
    k :| i + Least(ts[0]) <= k <= RunEnd(ts[0], path, i) && Reaches(ts[1..], path, k, e);
  }

  lemma LiteralIntended(ts: seq<Token>, text: string)
    requires ts != [] && ts[0].Lit? && text != ""
    ensures Intended(ts, text) <==> text[0] == ts[0].c && Intended(ts[1..], text[1..])
  {
    var n := |text|;
    if n > 1 {
      assert text[1..][..n - 2] == text[..n - 1][1..];
      assert text[1..][n - 2] == text[n - 1];
    } else {
      assert text[..0] == "";
    }
  }

  lemma GroupIntended(ts: seq<Token>, text: string, k: nat)
    requires ts != [] && !ts[0].Lit? && Piece(ts[0], text, k) && Intended(ts[1..], text[k..])
    ensures Intended(ts, text)
  {
    var n := |text|;
    if !Language(ts[1..], text[k..]) {
      assert text[..n - 1][k..] == text[k..][..n - k - 1];
      assert Language(ts, text[..n - 1]);
    }
  }

  lemma IntendedGroup(ts: seq<Token>, text: string) returns (k: nat)
    requires ts != [] && !ts[0].Lit? && Intended(ts, text)
    ensures Piece(ts[0], text, k) && Intended(ts[1..], text[k..])
  {
    if Language(ts, text) {
      k :| Piece(ts[0], text, k) && Language(ts[1..], text[k..]);
    } else {
      var n := |text|;
      k :| Piece(ts[0], text[..n - 1], k) && Language(ts[1..], text[..n - 1][k..]);
      assert text[k..][..n - k - 1] == text[..n - 1][k..];
    }
  }

  /**
   The whole path is accepted exactly when it, or it without one final slash, is in the pattern's
   language: for any number of parameters and wildcards, backtracking preference never rejects a
   path that some choice of the groups would accept, and the missing anchors never accept one that
   none would.
   */
  lemma MatchDecidesLanguage(ts: seq<Token>, path: string)
    ensures Match(ts, path) <==> Intended(ts, path)
  {
    ReachesIsIntended(ts, path, 0, |path|);
    assert path[0..|path|] == path;
    if Match(ts, path) {
      var m := Search(ts, path, 0);
      assert |path[m.value.0..m.value.1]| == |path|;
      PreferReaches(ts, path, 0);
    }
    if Reaches(ts, path, 0, |path|) {
      PreferWhole(ts, path, 0);
    }
  }
}
