/**
 Pattern strings: how `:name` and `**` are found in them, and what a version prefix does.

 Only plain patterns are compiled here: literals without regexp metacharacters, parameters with
 valid and distinct group names, and wildcards.  What the regexp package does with any other string
 is a parameter.
 */
module PatternText {
  import opened Handlers
  import opened Patterns
  import opened Seqs

  /** Characters with a meaning of their own in a regular expression. */
  predicate Meta(c: char) {
    c in "\\.+*?()|[]{}^$"
  }

  /** Characters a parameter name runs over. */
  predicate NameChar(c: char) {
    c !in "/#?().\\"
  }

  predicate WordChar(c: char) {
    'a' <= c <= 'z' || 'A' <= c <= 'Z' || '0' <= c <= '9' || c == '_'
  }

  /** A group name the regexp package accepts, and not one of those given to the wildcards. */
  predicate ValidName(name: string) {
    && name != ""
    && (forall k :: 0 <= k < |name| ==> WordChar(name[k]))
    && (name[0] == '_' ==> exists k :: 1 <= k < |name| && !('0' <= name[k] <= '9'))
  }

  function NameLength(p: string): (n: nat)
    ensures n <= |p|
  {
    if p != "" && NameChar(p[0]) then 1 + NameLength(p[1..]) else 0
  }

  /** The tokens of a pattern, left to right. */
  function Tokens(p: string): Option<seq<Token>> {
    if p == "" then Some([])
    else if p[0] == ':' && NameLength(p[1..]) > 0 then
      var n := NameLength(p[1..]);
      Cons(Param(p[1..n + 1]), ValidName(p[1..n + 1]), Tokens(p[n + 1..]))
    else if |p| > 1 && p[0] == '*' && p[1] == '*' then Cons(Wild, true, Tokens(p[2..]))
    else Cons(Lit(p[0]), !Meta(p[0]), Tokens(p[1..]))
  }

  function Cons(t: Token, plain: bool, rest: Option<seq<Token>>): Option<seq<Token>> {
    if plain && rest.Some? then Some([t] + rest.value) else None
  }

  predicate DistinctNames(ts: seq<Token>) {
    forall j, k :: 0 <= j < k < |ts| && ts[j].Param? && ts[k].Param? ==> ts[j].name != ts[k].name
  }

  function Compile(p: string): Option<seq<Token>> {
    var ts := Tokens(p);
    if ts.Some? && DistinctNames(ts.value) then ts else None
  }

  /** The regexp package's verdicts on the patterns outside the plain fragment. */
  datatype Regexp = Regexp(compiles: string -> bool, accepts: (string, string) -> bool)

  predicate Compiles(re: Regexp, p: string) {
    Compile(p).Some? || re.compiles(p)
  }

  predicate Accepts(re: Regexp, p: string, path: string) {
    match Compile(p)
    case Some(ts) => Match(ts, path)
    case None => re.accepts(p, path)
  }

  // ----- version prefixes -----

  /** Text that stands for itself in a pattern. */
  predicate PlainText(v: string) {
    forall k :: 0 <= k < |v| ==> !Meta(v[k]) && v[k] != ':'
  }

  function Literals(v: string): seq<Token> {
    seq(|v|, k requires 0 <= k < |v| => Lit(v[k]))
  }

  lemma {:induction false} TokensPrefixed(v: string, p: string)
    requires PlainText(v) && Tokens(p).Some?
    ensures Tokens(v + p) == Some(Literals(v) + Tokens(p).value)
  {
    if v == "" {
      assert v + p == p;
      assert Literals(v) + Tokens(p).value == Tokens(p).value;
    } else {
      TokensPrefixed(v[1..], p);
      assert (v + p)[1..] == v[1..] + p;
      assert [Lit(v[0])] + (Literals(v[1..]) + Tokens(p).value) == Literals(v) + Tokens(p).value;
    }
  }

  lemma {:induction false} LanguagePrefixed(v: string, ts: seq<Token>, path: string)
    ensures Language(Literals(v) + ts, path) <==> v <= path && Language(ts, path[|v|..])
  {
    if v == "" {
      assert Literals(v) + ts == ts;
    } else {
      var all := Literals(v) + ts;
      assert all[1..] == Literals(v[1..]) + ts;
      if path != "" {
        LanguagePrefixed(v[1..], ts, path[1..]);
        assert v <= path <==> v[0] == path[0] && v[1..] <= path[1..] by {
          assert v == [v[0]] + v[1..] && path == [path[0]] + path[1..];
        }
        if v <= path {
          assert path[1..][|v| - 1..] == path[|v|..];
        }
      }
    }
  }

  lemma IntendedPrefixed(v: string, ts: seq<Token>, path: string)
    ensures Intended(Literals(v) + ts, path) <==> v <= path && Intended(ts, path[|v|..])
  {
    LanguagePrefixed(v, ts, path);
    if path != "" {
      var n := |path|;
      LanguagePrefixed(v, ts, path[..n - 1]);
      if v <= path[..n - 1] {
        assert path[..n - 1][|v|..] == path[|v|..][..n - 1 - |v|];
      }
    }
  }

  /**
   A version prefix decomposes: v + p accepts exactly the paths made of v and a path p accepts.
   */
  lemma VersionDecomposes(re: Regexp, v: string, p: string, path: string)
    requires PlainText(v) && Compile(p).Some?
    ensures Accepts(re, v + p, path) <==> v <= path && Accepts(re, p, path[|v|..])
  {
    var ts := Compile(p).value;
    TokensPrefixed(v, p);
    assert forall k :: |v| <= k < |v| + |ts| ==> (Literals(v) + ts)[k] == ts[k - |v|];
    MatchDecidesLanguage(Literals(v) + ts, path);
    IntendedPrefixed(v, ts, path);
    if v <= path {
      MatchDecidesLanguage(ts, path[|v|..]);
    }
  }

  /** Two versions, neither a prefix of the other, never accept the same path. */
  lemma VersionsAreDisjoint(re: Regexp, v: string, w: string, p: string, q: string, path: string)
    requires PlainText(v) && PlainText(w) && Compile(p).Some? && Compile(q).Some?
    requires !(v <= w) && !(w <= v)
    ensures !(Accepts(re, v + p, path) && Accepts(re, w + q, path))
  {
    VersionDecomposes(re, v, p, path);
    VersionDecomposes(re, w, q, path);
  }

  // ----- the three documented kinds of pattern -----

  /** Text without parameters and wildcards accepts itself, with or without a final slash. */
  lemma LiteralPatterns(re: Regexp, v: string, path: string)
    requires PlainText(v)
    ensures Accepts(re, v, path) <==> path == v || path == v + "/"
  {
    VersionDecomposes(re, v, "", path);
    assert v + "" == v;
    if v <= path {
      assert path == v + path[|v|..];
      MatchDecidesLanguage([], path[|v|..]);
    }
  }

  ghost predicate Segment(seg: string) {
    seg != "" && forall k :: 0 <= k < |seg| ==> SegmentChar(seg[k])
  }

  ghost predicate WildText(text: string) {
    forall k :: 0 <= k < |text| ==> WildChar(text[k])
  }

  /** `v:name` accepts v and one segment, with or without a final slash. */
  lemma ParamPatterns(re: Regexp, v: string, name: string, path: string)
    requires PlainText(v) && ValidName(name)
    ensures Accepts(re, v + (":" + name), path) <==>
            v <= path && (Segment(path[|v|..])
                          || (|v| < |path| && path[|path| - 1] == '/' && Segment(path[|v|..|path| - 1])))
  {
    ParamTokens(name);
    VersionDecomposes(re, v, ":" + name, path);
    if v <= path {
      OneGroupIntended(Param(name), path[|v|..]);
      if |v| < |path| {
        assert path[|v|..][..|path| - |v| - 1] == path[|v|..|path| - 1];
      }
    }
  }

  /** `v**` accepts v and anything without `#` and `?`. */
  lemma WildPatterns(re: Regexp, v: string, path: string)
    requires PlainText(v)
    ensures Accepts(re, v + "**", path) <==> v <= path && WildText(path[|v|..])
  {
    WildTokens();
    VersionDecomposes(re, v, "**", path);
    if v <= path {
      var rest := path[|v|..];
      OneGroupIntended(Wild, rest);
      if rest != "" && rest[|rest| - 1] == '/' && WildText(rest[..|rest| - 1]) {
        assert forall k :: 0 <= k < |rest| - 1 ==> rest[k] == rest[..|rest| - 1][k];
      }
    }
  }

  lemma ParamTokens(name: string)
    requires ValidName(name)
    ensures Tokens(":" + name) == Some([Param(name)])
  {
    var p := ":" + name;
    NameRuns(name);
    assert p[1..] == name && p[1..|name| + 1] == name && p[|name| + 1..] == "";
    assert [Param(name)] + [] == [Param(name)];
  }

  lemma WildTokens()
    ensures Tokens("**") == Some([Wild])
  {
    var p := "**";
    assert p[2..] == "" && p[0] == '*' && p[1] == '*';
    assert [Wild] + [] == [Wild];
  }

  lemma OneGroupIntended(t: Token, text: string)
    requires !t.Lit?
    ensures Match([t], text) <==>
            Piece(t, text, |text|)
            || (text != "" && text[|text| - 1] == '/' && Piece(t, text[..|text| - 1], |text| - 1))
  {
    MatchDecidesLanguage([t], text);
    OneGroup(t, text);
    if text != "" {
      OneGroup(t, text[..|text| - 1]);
    }
  }

  lemma OneGroup(t: Token, text: string)
    requires !t.Lit?
    ensures Language([t], text) <==> Piece(t, text, |text|)
  {
    assert [t][1..] == [];
    if Language([t], text) {
      var k: nat :| Piece(t, text, k) && Language([t][1..], text[k..]);
      assert text[k..] == "" && k == |text|;
    }
    if Piece(t, text, |text|) {
      assert text[|text|..] == "" && Language([t][1..], text[|text|..]);
    }
  }

  lemma {:induction false} NameRuns(name: string)
    requires forall k :: 0 <= k < |name| ==> WordChar(name[k])
    ensures NameLength(name) == |name|
  {
    if name != "" {
      NameRuns(name[1..]);
    }
  }

  // ----- groups anywhere in a pattern -----

  /** A group takes a piece of the text and leaves the rest to what follows it. */
  lemma GroupDecomposes(t: Token, ts: seq<Token>, text: string)
    requires !t.Lit?
    ensures Match([t] + ts, text) <==> exists k: nat :: Piece(t, text, k) && Match(ts, text[k..])
  {
    var all := [t] + ts;
    assert all[1..] == ts;
    MatchDecidesLanguage(all, text);
    if Intended(all, text) {
      var k := IntendedGroup(all, text);
      MatchDecidesLanguage(ts, text[k..]);
    }
    if k: nat :| Piece(t, text, k) && Match(ts, text[k..]) {
      MatchDecidesLanguage(ts, text[k..]);
      GroupIntended(all, text, k);
    }
  }

  /** The group in front of pattern q, if it is compiled with it. */
  lemma GroupInFront(re: Regexp, t: Token, p: string, q: string, text: string)
    requires !t.Lit? && Compile(q).Some? && Tokens(p) == Some([t] + Tokens(q).value)
    requires t !in Compile(q).value || t.Wild?
    ensures Compile(p).Some?
    ensures Accepts(re, p, text) <==> exists k: nat :: Piece(t, text, k) && Accepts(re, q, text[k..])
  {
    var ts := Compile(q).value;
    assert forall j :: 1 <= j < |[t] + ts| ==> ([t] + ts)[j] == ts[j - 1];
    assert DistinctNames([t] + ts);
    GroupDecomposes(t, ts, text);
  }

  /** After n characters the group takes those up to k, and the rest of the path goes to pattern q. */
  ghost predicate Takes(re: Regexp, t: Token, q: string, path: string, n: nat, k: nat) {
    n <= k <= |path| && Piece(t, path[n..], k - n) && Accepts(re, q, path[k..])
  }

  lemma TakesShifted(re: Regexp, t: Token, q: string, path: string, n: nat, k: nat)
    requires n + k <= |path|
    ensures Takes(re, t, q, path, n, n + k) <==> Piece(t, path[n..], k) && Accepts(re, q, path[n..][k..])
  {
    assert path[n..][k..] == path[n + k..];
  }

  lemma GroupAfterText(re: Regexp, v: string, t: Token, p: string, q: string, path: string)
    requires PlainText(v) && !t.Lit? && Compile(q).Some? && Tokens(p) == Some([t] + Tokens(q).value)
    requires t !in Compile(q).value || t.Wild?
    ensures Accepts(re, v + p, path) <==> v <= path && exists k: nat :: Takes(re, t, q, path, |v|, k)
  {
    GroupInFront(re, t, p, q, path);
    VersionDecomposes(re, v, p, path);
    if v <= path {
      GroupAfter(re, t, p, q, path, |v|);
    }
  }

  lemma GroupAfter(re: Regexp, t: Token, p: string, q: string, path: string, n: nat)
    requires !t.Lit? && Compile(q).Some? && Tokens(p) == Some([t] + Tokens(q).value) && n <= |path|
    requires t !in Compile(q).value || t.Wild?
    ensures Accepts(re, p, path[n..]) <==> exists k: nat :: Takes(re, t, q, path, n, k)
  {
    GroupInFront(re, t, p, q, path[n..]);
    if Accepts(re, p, path[n..]) {
      var k: nat :| Piece(t, path[n..], k) && Accepts(re, q, path[n..][k..]);
      TakesShifted(re, t, q, path, n, k);
    }
    if k: nat :| Takes(re, t, q, path, n, k) {
      TakesShifted(re, t, q, path, n, k - n);
    }
  }

  /** The pieces, character by character. */
  lemma PieceSpelled(t: Token, path: string, n: nat, k: nat)
    requires n <= k <= |path|
    ensures t.Param? ==> (Piece(t, path[n..], k - n) <==>
              n < k && forall j :: n <= j < k ==> path[j] != '/' && path[j] != '#' && path[j] != '?')
    ensures t.Wild? ==> (Piece(t, path[n..], k - n) <==> forall j :: n <= j < k ==> path[j] != '#' && path[j] != '?')
  {
    assert forall j :: n <= j < k ==> path[j] == path[n..][j - n];
    assert forall j :: 0 <= j < k - n ==> path[n..][j] == path[n + j];
  }

  /**
   A parameter anywhere: after the text v it takes one or more characters other than `/`, `#` and `?`,
   and the rest of the path goes to the rest of the pattern, whatever other groups that has.
   */
  lemma ParamInside(re: Regexp, v: string, name: string, q: string, path: string)
    requires PlainText(v) && ValidName(name) && Compile(q).Some?
    requires (q == "" || q[0] == '/') && Param(name) !in Compile(q).value
    ensures Accepts(re, v + ((":" + name) + q), path) <==>
            v <= path &&
            exists k: nat ::
              && |v| < k <= |path|
              && (forall j :: |v| <= j < k ==> path[j] != '/' && path[j] != '#' && path[j] != '?')
              && Accepts(re, q, path[k..])
  {
    NameRunsInto(name, q);
    ParamInFront(name, q);
    GroupAfterText(re, v, Param(name), (":" + name) + q, q, path);
    forall k: nat | |v| <= k <= |path|
      ensures Takes(re, Param(name), q, path, |v|, k) <==>
              && |v| < k
              && (forall j :: |v| <= j < k ==> path[j] != '/' && path[j] != '#' && path[j] != '?')
              && Accepts(re, q, path[k..])
    {
      PieceSpelled(Param(name), path, |v|, k);
    }
  }

  /** The wildcard anywhere: any number of characters other than `#` and `?`. */
  lemma WildInside(re: Regexp, v: string, q: string, path: string)
    requires PlainText(v) && Compile(q).Some?
    ensures Accepts(re, v + ("**" + q), path) <==>
            v <= path &&
            exists k: nat ::
              && |v| <= k <= |path|
              && (forall j :: |v| <= j < k ==> path[j] != '#' && path[j] != '?')
              && Accepts(re, q, path[k..])
  {
    var p := "**" + q;
    assert p[2..] == q && p[0] == '*' && p[1] == '*';
    GroupAfterText(re, v, Wild, p, q, path);
    forall k: nat | |v| <= k <= |path|
      ensures Takes(re, Wild, q, path, |v|, k) <==>
              (forall j :: |v| <= j < k ==> path[j] != '#' && path[j] != '?') && Accepts(re, q, path[k..])
    {
      PieceSpelled(Wild, path, |v|, k);
    }
  }

  lemma ParamInFront(name: string, q: string)
    requires ValidName(name) && NameLength(q) == 0 && NameLength(name + q) == |name| && Tokens(q).Some?
    ensures Tokens((":" + name) + q) == Some([Param(name)] + Tokens(q).value)
  {
    var p := (":" + name) + q;
    assert p[1..] == name + q && p[1..|name| + 1] == name && p[|name| + 1..] == q;
  }

  lemma {:induction false} NameRunsInto(name: string, q: string)
    requires (forall k :: 0 <= k < |name| ==> WordChar(name[k])) && (q == "" || q[0] == '/' || q[0] == '#')
    ensures NameLength(q) == 0 && NameLength(name + q) == |name|
  {
    if name == "" {
      assert name + q == q;
    } else {
      NameRunsInto(name[1..], q);
      assert (name + q)[1..] == name[1..] + q;
    }
  }

  /** For example: text on both sides of a parameter, and any segment in its place. */
  lemma ParamBetween(re: Regexp, v: string, name: string, q: string, seg: string)
    requires PlainText(v) && ValidName(name) && PlainText(q) && q != "" && q[0] == '/'
    requires seg != "" && forall j :: 0 <= j < |seg| ==> seg[j] != '/' && seg[j] != '#' && seg[j] != '?'
    ensures Accepts(re, v + ((":" + name) + q), v + seg + q)
  {
    var path, k := v + seg + q, |v| + |seg|;
    PlainCompiles(q);
    ParamInside(re, v, name, q, path);
    LiteralPatterns(re, q, q);
    assert path[k..] == q;
    assert forall j :: |v| <= j < k ==> path[j] == seg[j - |v|];
  }

  lemma PlainCompiles(v: string)
    requires PlainText(v)
    ensures Compile(v) == Some(Literals(v))
  {
    TokensPrefixed(v, "");
    Unit(v);
    Unit(Literals(v));
  }

  // ----- tokens lose nothing of the pattern -----

  function Show(ts: seq<Token>): string {
    if ts == [] then ""
    else ShowToken(ts[0]) + Show(ts[1..])
  }

  function ShowToken(t: Token): string {
    match t
    case Lit(c) => [c]
    case Param(name) => ":" + name
    case Wild => "**"
  }

  lemma ShowCons(t: Token, ts: seq<Token>, p: string, n: nat)
    requires n <= |p| && ShowToken(t) == p[..n] && Show(ts) == p[n..]
    ensures Show([t] + ts) == p
  {
    assert ([t] + ts)[1..] == ts;
    assert p == p[..n] + p[n..];
  }

  /** How long the first token of a pattern is. */
  function TokenLength(p: string): (n: nat)
    requires p != ""
    ensures 0 < n <= |p|
  {
    if p[0] == ':' && NameLength(p[1..]) > 0 then NameLength(p[1..]) + 1
    else if |p| > 1 && p[0] == '*' && p[1] == '*' then 2
    else 1
  }

  /** The first token, and those of the rest. */
  lemma FirstToken(p: string) returns (t: Token)
    requires p != "" && Tokens(p).Some?
    ensures var rest := p[TokenLength(p)..];
            Tokens(rest).Some? && Tokens(p).value == [t] + Tokens(rest).value
    ensures ShowToken(t) == p[..TokenLength(p)]
  {
    var n := TokenLength(p);
    if p[0] == ':' && NameLength(p[1..]) > 0 {
      t := Param(p[1..n]);
      assert ":" + p[1..n] == p[..n];
    } else if |p| > 1 && p[0] == '*' && p[1] == '*' {
      t := Wild;
      assert p[..2] == "**";
    } else {
      t := Lit(p[0]);
    }
  }

  lemma {:induction false} ShowTokens(p: string)
    requires Tokens(p).Some?
    ensures Show(Tokens(p).value) == p
    decreases |p|
  {
    if p != "" {
      var n := TokenLength(p);
      var t := FirstToken(p);
      ShowTokens(p[n..]);
      ShowCons(t, Tokens(p[n..]).value, p, n);
    }
  }

  // ----- and the tokens are the only ones that print so -----

  /** Nothing here can lengthen a name that stands in front. */
  predicate EndsName(ts: seq<Token>) {
    ts == [] || (ts[0].Lit? && (ts[0].c == '/' || ts[0].c == '#'))
  }

  /** Tokens as they can stand in a pattern. */
  predicate Standing(ts: seq<Token>) {
    ts == [] ||
    (&& Standing(ts[1..])
     && match ts[0]
        case Lit(c) => !Meta(c) && (c == ':' ==> EndsName(ts[1..]))
        case Param(name) => ValidName(name) && EndsName(ts[1..])
        case Wild => true)
  }

  lemma {:induction false} NameStops(p: string)
    ensures NameLength(p[NameLength(p)..]) == 0
  {
    if p != "" && NameChar(p[0]) {
      NameStops(p[1..]);
      assert p[NameLength(p)..] == p[1..][NameLength(p[1..])..];
    }
  }

  lemma StopEndsName(p: string)
    requires Tokens(p).Some? && NameLength(p) == 0
    ensures EndsName(Tokens(p).value)
  {
  }

  lemma {:induction false} TokensStand(p: string)
    requires Tokens(p).Some?
    ensures Standing(Tokens(p).value)
    decreases |p|
  {
    if p != "" {
      var n := TokenLength(p);
      var t := FirstToken(p);
      var rest := p[n..];
      TokensStand(rest);
      assert ([t] + Tokens(rest).value)[1..] == Tokens(rest).value;
      if p[0] == ':' {
        NameStops(p[1..]);
        assert NameLength(p[1..]) > 0 ==> p[1..][NameLength(p[1..])..] == rest;
        StopEndsName(rest);
      }
    }
  }

  lemma {:induction false} StandingTokens(ts: seq<Token>)
    requires Standing(ts)
    ensures Tokens(Show(ts)) == Some(ts)
  {
    if ts != [] {
      var t, rest := ts[0], Show(ts[1..]);
      StandingTokens(ts[1..]);
      assert [t] + ts[1..] == ts;
      var p := ShowToken(t) + rest;
      if t.Param? {
        EndsNameShown(ts[1..]);
        NameRunsInto(t.name, rest);
        ParamInFront(t.name, rest);
      } else if t.Wild? {
        assert p[2..] == rest && p[0] == '*' && p[1] == '*';
      } else {
        assert p[1..] == rest && p[0] == t.c;
        if t.c == ':' {
          EndsNameShown(ts[1..]);
        }
      }
    }
  }

  lemma EndsNameShown(ts: seq<Token>)
    requires EndsName(ts)
    ensures Show(ts) == "" || Show(ts)[0] == '/' || Show(ts)[0] == '#'
  {
  }

  /**
   A pattern is read exactly one way: its tokens are the only ones that print as the pattern and can
   stand where they stand, a name being followed by a slash, a hash sign or nothing.
   */
  lemma {:induction false} ReadOneWay(p: string, ts: seq<Token>)
    ensures Tokens(p) == Some(ts) <==> Show(ts) == p && Standing(ts)
  {
    if Tokens(p) == Some(ts) {
      ShowTokens(p);
      TokensStand(p);
    } else if Show(ts) == p && Standing(ts) {
      StandingTokens(ts);
    }
  }

  /** So every pattern within the documented syntax accepts the paths that its tokens, read one by one, intend. */
  lemma PatternMeans(re: Regexp, ts: seq<Token>, path: string)
    requires Standing(ts) && DistinctNames(ts)
    ensures Compiles(re, Show(ts))
    ensures Accepts(re, Show(ts), path) <==> Intended(ts, path)
  {
    StandingTokens(ts);
    MatchDecidesLanguage(ts, path);
  }
}
