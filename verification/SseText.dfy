/** Lines and white space, as the SSE client reads them. */
module SseText {
  import opened Seqs

  /** ASCII white space. */
  predicate Space(c: char) {
    c == ' ' || c == '\t' || c == '\n' || c == '\r' || c == '\U{0B}' || c == '\U{0C}'
  }

  function TrimLeft(s: string): string {
    if s != "" && Space(s[0]) then TrimLeft(s[1..]) else s
  }

  function TrimRight(s: string): string {
    if s != "" && Space(s[|s| - 1]) then TrimRight(s[..|s| - 1]) else s
  }

  function Trim(s: string): string {
    TrimRight(TrimLeft(s))
  }

  /** A line feed occurs nowhere in the text. */
  predicate OneLine(s: string) {
    forall k :: 0 <= k < |s| ==> s[k] != '\n'
  }

  /** The first line feed at or after position i, or the end. */
  function LineEnd(body: string, i: nat): (e: nat)
    requires i <= |body|
    ensures i <= e <= |body|
    decreases |body| - i
  {
    if i < |body| && body[i] != '\n' then LineEnd(body, i + 1) else i
  }

  lemma TwoLines(first: string, second: string)
    ensures var text := first + "\n" + second;
            text[|first|] == '\n' && text[..|first|] == first && text[|first| + 1..] == second
  {
  }

  /** The lines that are terminated by a line feed; an unterminated tail is no line. */
  function Lines(body: string): (lines: seq<string>)
    decreases |body|
  {
    var e := LineEnd(body, 0);
    if e < |body| then [body[..e]] + Lines(body[e + 1..]) else []
  }

  // ----- lines of a concatenation -----

  lemma {:induction false} LineEndMeans(body: string, i: nat)
    requires i <= |body|
    ensures LineEnd(body, i) < |body| ==> body[LineEnd(body, i)] == '\n'
    ensures forall k :: i <= k < LineEnd(body, i) ==> body[k] != '\n'
    decreases |body| - i
  {
    if i < |body| && body[i] != '\n' {
      LineEndMeans(body, i + 1);
    }
  }

  lemma {:induction false} LineEndIs(body: string, i: nat, e: nat)
    requires i <= e <= |body| && (e < |body| ==> body[e] == '\n')
    requires forall k :: i <= k < e ==> body[k] != '\n'
    ensures LineEnd(body, i) == e
    decreases e - i
  {
    if i < e {
      LineEndIs(body, i + 1, e);
    }
  }

  lemma LinesFirst(line: string, rest: string)
    requires OneLine(line)
    ensures Lines(line + "\n" + rest) == [line] + Lines(rest)
  {
    var body := line + "\n" + rest;
    LineEndIs(body, 0, |line|);
    assert body[..|line|] == line;
    assert body[|line| + 1..] == rest;
  }

  lemma LinesSplit(body: string, e: nat)
    requires e < |body| && body[e] == '\n' && forall k :: 0 <= k < e ==> body[k] != '\n'
    ensures Lines(body) == [body[..e]] + Lines(body[e + 1..])
  {
    LineEndIs(body, 0, e);
  }

  /** The lines from position pos on: the one up to the next line feed, and the rest. */
  lemma LinesAt(body: string, pos: nat)
    requires pos <= |body|
    ensures var e := LineEnd(body, pos);
            Lines(body[pos..]) == if e < |body| then [body[pos..e]] + Lines(body[e + 1..]) else []
  {
    var e, tail := LineEnd(body, pos), body[pos..];
    LineEndMeans(body, pos);
    LineEndFrom(body, pos, 0);
    assert tail[..e - pos] == body[pos..e];
    assert e < |body| ==> tail[e - pos + 1..] == body[e + 1..];
  }

  lemma {:induction false} LineEndFrom(body: string, pos: nat, i: nat)
    requires pos + i <= |body|
    ensures LineEnd(body[pos..], i) == LineEnd(body, pos + i) - pos
    decreases |body| - pos - i
  {
    if pos + i < |body| && body[pos + i] != '\n' {
      LineEndFrom(body, pos, i + 1);
    }
  }

  /** Text that ends with a line feed contributes its own lines, whatever follows. */
  lemma {:induction false} LinesConcat(a: string, b: string)
    requires a == "" || a[|a| - 1] == '\n'
    ensures Lines(a + b) == Lines(a) + Lines(b)
    decreases |a|
  {
    if a == "" {
      assert a + b == b;
    } else {
      var e := LineEnd(a, 0);
      LineEndMeans(a, 0);
      LinesSplit(a + b, e);
      assert (a + b)[..e] == a[..e] && (a + b)[e + 1..] == a[e + 1..] + b;
      LinesConcat(a[e + 1..], b);
      Assoc([a[..e]], Lines(a[e + 1..]), Lines(b));
    }
  }

  /** What has arrived so far has a prefix of the lines. */
  lemma {:induction false} LinesPrefix(body: string, k: nat)
    requires k <= |body|
    ensures Lines(body[..k]) <= Lines(body)
    decreases |body|
  {
    var e := LineEnd(body[..k], 0);
    LineEndMeans(body[..k], 0);
    if e < k {
      LinesSplit(body, e);
      assert body[..k][..e] == body[..e];
      assert body[..k][e + 1..] == body[e + 1..][..k - e - 1];
      LinesPrefix(body[e + 1..], k - e - 1);
    }
  }

  // ----- trimming -----

  lemma {:induction false} TrimRightKeeps(a: string, b: string)
    requires a != "" && !Space(a[|a| - 1])
    ensures TrimRight(a + b) == a + TrimRight(b)
    decreases |b|
  {
    if b == "" {
      assert a + b == a;
    } else {
      assert (a + b)[|a + b| - 1] == b[|b| - 1];
      if Space(b[|b| - 1]) {
        assert (a + b)[..|a + b| - 1] == a + b[..|b| - 1];
        TrimRightKeeps(a, b[..|b| - 1]);
      }
    }
  }

  lemma {:induction false} TrimRightShape(s: string)
    ensures TrimRight(s) <= s
    ensures TrimRight(s) == "" || !Space(TrimRight(s)[|TrimRight(s)| - 1])
    ensures forall k :: |TrimRight(s)| <= k < |s| ==> Space(s[k])
  {
    if s != "" && Space(s[|s| - 1]) {
      TrimRightShape(s[..|s| - 1]);
    }
  }

  lemma {:induction false} TrimRightIs(s: string, t: string)
    requires t <= s && (t == "" || !Space(t[|t| - 1]))
    requires forall k :: |t| <= k < |s| ==> Space(s[k])
    ensures TrimRight(s) == t
  {
    if |t| < |s| {
      TrimRightIs(s[..|s| - 1], t);
    }
  }

  /** Trimming twice is trimming once, also when the first time trims on the right only. */
  lemma TrimAfterRight(s: string)
    ensures Trim(TrimRight(s)) == Trim(s)
  {
    TrimCommutes(s);
    TrimRightTwice(TrimLeft(s));
  }

  lemma {:induction false} TrimRightTwice(s: string)
    ensures TrimRight(TrimRight(s)) == TrimRight(s)
  {
    TrimRightShape(s);
  }

  lemma {:induction false} TrimCommutes(s: string)
    ensures TrimLeft(TrimRight(s)) == TrimRight(TrimLeft(s))
  {
    if s != "" && Space(s[0]) {
      TrimCommutes(s[1..]);
      TrimRightOfSpace(s[0], s[1..]);
      assert [s[0]] + s[1..] == s;
    } else if s != "" {
      TrimRightKeeps(s[..1], s[1..]);
      assert s[..1] + s[1..] == s;
    }
  }

  lemma TrimRightOfSpace(c: char, s: string)
    requires Space(c)
    ensures TrimRight([c] + s) == if TrimRight(s) == "" then "" else [c] + TrimRight(s)
  {
    TrimRightShape(s);
    var t := TrimRight(s);
    TrimRightIs([c] + s, if t == "" then "" else [c] + t);
  }

  lemma {:induction false} TrimLeftShrinks(s: string)
    ensures |TrimLeft(s)| <= |s|
  {
    if s != "" && Space(s[0]) {
      TrimLeftShrinks(s[1..]);
    }
  }

  lemma TrimShrinks(s: string)
    ensures |Trim(s)| <= |TrimRight(s)| <= |s|
  {
    TrimCommutes(s);
    TrimLeftShrinks(TrimRight(s));
    TrimRightShape(s);
  }

  lemma SpacesTrimAway(s: string, spaces: string)
    requires forall k :: 0 <= k < |spaces| ==> Space(spaces[k])
    ensures TrimRight(s + spaces) == TrimRight(s) && Trim(s + spaces) == Trim(s)
  {
    TrimRightShape(s);
    TrimRightIs(s + spaces, TrimRight(s));
    TrimAfterRight(s);
    TrimAfterRight(s + spaces);
  }

  /** Trimming a text leaves at least what trimming its parts leaves. */
  lemma {:induction false} TrimAdds(a: string, b: string)
    ensures |Trim(a + b)| >= |Trim(a)| + |Trim(b)|
  {
    if a == "" {
      assert a + b == b;
    } else if Space(a[0]) {
      TrimAdds(a[1..], b);
      assert (a + b)[1..] == a[1..] + b;
    } else {
      TrimRightShape(a);
      TrimRightShape(b);
      TrimShrinks(b);
      if TrimRight(b) == "" {
        SpacesTrimAway(a, b);
      } else {
        TrimRightIs(a + b, a + TrimRight(b));
      }
    }
  }

  /** The first line of a text that has more than one. */
  lemma FirstLine(text: string) returns (i: nat)
    requires !OneLine(text)
    ensures i < |text| && text[i] == '\n' && OneLine(text[..i])
    ensures text == text[..i] + "\n" + text[i + 1..]
  {
    i := LineEnd(text, 0);
    LineEndMeans(text, 0);
  }
}
