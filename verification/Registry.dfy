/**
 The route registry on values: for each verb a list of items in registration order, and an API
 version that is prefixed to the patterns registered while it is set.
 */
module Registry {
  import opened Handlers
  import opened PatternText
  import opened Seqs
  import M = Machine

  datatype RouteItem = RouteItem(version: string, pattern: string, chain: seq<Handler>, final: Endpoint) {
    predicate Is(version: string, pattern: string) {
      this.version == version && this.pattern == pattern
    }

    predicate Matches(re: Regexp, path: string) {
      Accepts(re, version + pattern, path)
    }
  }

  datatype Registry = Registry(version: string, routes: map<string, seq<RouteItem>>) {
    /** The list of a method, empty for a method never registered. */
    function Of(verb: string): seq<RouteItem> {
      if verb in routes then routes[verb] else []
    }

    ghost predicate Has(version: string, pattern: string, verb: string) {
      Holds(Of(verb), version, pattern)
    }

    /** The same registry with another list for a method. */
    function With(verb: string, items: seq<RouteItem>): Registry {
      this.(routes := routes[verb := items])
    }
  }

  ghost predicate Holds(items: seq<RouteItem>, version: string, pattern: string) {
    exists k :: 0 <= k < |items| && items[k].Is(version, pattern)
  }

  /** A call returns, or panics and leaves the registry as it was. */
  datatype Verdict = Ok | Duplicate | NoSuchMethod | BadPattern

  function Find(items: seq<RouteItem>, version: string, pattern: string): (i: nat)
    ensures i <= |items|
    ensures i < |items| ==> items[i].Is(version, pattern)
    ensures forall k :: 0 <= k < i ==> !items[k].Is(version, pattern)
  {
    if items == [] || items[0].Is(version, pattern) then 0 else 1 + Find(items[1..], version, pattern)
  }

  function Without(items: seq<RouteItem>, i: nat): seq<RouteItem>
    requires i < |items|
  {
    items[..i] + items[i + 1..]
  }

  datatype Step = Step(next: Registry, verdict: Verdict)

  function Add(re: Regexp, s: Registry, verb: string, pattern: string, chain: seq<Handler>, final: Endpoint): Step {
    var items := s.Of(verb);
    if Find(items, s.version, pattern) < |items| then Step(s, Duplicate)
    else if !Compiles(re, s.version + pattern) then Step(s, BadPattern)
    else
      var item := RouteItem(s.version, pattern, chain, final);
      Step(s.With(verb, items + [item]), Ok)
  }

  /** Removing a pattern that is not in the list of a known method empties that list. */
  function Remove(s: Registry, verb: string, pattern: string): Step {
    if verb !in s.routes then Step(s, NoSuchMethod)
    else
      var items := s.routes[verb];
      var i := Find(items, s.version, pattern);
      Step(s.With(verb, if i < |items| then Without(items, i) else []), Ok)
  }

  function SetVersion(s: Registry, version: string): Step {
    Step(s.(version := version), Ok)
  }

  // ----- dispatch -----

  function Upper(c: char): char {
    if 'a' <= c <= 'z' then c - 'a' + 'A' else c
  }

  function ToUpper(s: string): string {
    if s == "" then "" else [Upper(s[0])] + ToUpper(s[1..])
  }

  /** The first item of a list that matches a path. */
  function First(re: Regexp, items: seq<RouteItem>, path: string): (i: nat)
    ensures i <= |items|
    ensures i < |items| ==> items[i].Matches(re, path)
    ensures forall k :: 0 <= k < i ==> !items[k].Matches(re, path)
  {
    if items == [] || items[0].Matches(re, path) then 0 else 1 + First(re, items[1..], path)
  }

  /** The winner of a path in a list. */
  function Best(re: Regexp, items: seq<RouteItem>, path: string): Option<RouteItem> {
    var i := First(re, items, path);
    if i < |items| then Some(items[i]) else None
  }

  /** The winner of a request. */
  function Winner(re: Regexp, s: Registry, verb: string, path: string): Option<RouteItem> {
    Best(re, s.Of(ToUpper(verb)), path)
  }

  /** What Handle runs for a path, with the list of the request's method. */
  function ResolveIn(re: Regexp, items: seq<RouteItem>, path: string): M.Target {
    var i := First(re, items, path);
    if i < |items| then M.Routed(items[i].chain, items[i].final) else M.Unrouted
  }

  // ----- histories -----

  datatype Op =
    | AddRoute(verb: string, pattern: string, chain: seq<Handler>, final: Endpoint)
    | RemoveRoute(verb: string, pattern: string)
    | SetApiVersion(version: string)

  function Apply(re: Regexp, s: Registry, op: Op): Step {
    match op
    case AddRoute(verb, pattern, chain, final) => Add(re, s, verb, pattern, chain, final)
    case RemoveRoute(verb, pattern) => Remove(s, verb, pattern)
    case SetApiVersion(version) => SetVersion(s, version)
  }

  function Play(re: Regexp, s: Registry, ops: seq<Op>): Registry
    decreases |ops|
  {
    if ops == [] then s else Play(re, Apply(re, s, ops[0]).next, ops[1..])
  }

  const EMPTY := Registry("", map[])

  /** No two items of a list have the same version and pattern. */
  ghost predicate Distinct(items: seq<RouteItem>) {
    forall j, k :: 0 <= j < k < |items| ==> !(items[j].version == items[k].version && items[j].pattern == items[k].pattern)
  }

  ghost predicate Valid(s: Registry) {
    forall verb :: verb in s.routes ==> Distinct(s.routes[verb])
  }

  /** Every history keeps the lists free of duplicates. */
  lemma {:induction false} HistoryValid(re: Regexp, s: Registry, ops: seq<Op>)
    requires Valid(s)
    ensures Valid(Play(re, s, ops))
    decreases |ops|
  {
    if ops != [] {
      StepValid(re, s, ops[0]);
      HistoryValid(re, Apply(re, s, ops[0]).next, ops[1..]);
    }
  }

  lemma {:induction false} StepValid(re: Regexp, s: Registry, op: Op)
    requires Valid(s)
    ensures Valid(Apply(re, s, op).next)
  {
  }

  /**
   Add registers its own version and pattern and nothing else, or panics without effect: exactly when
   the pair is there already or the pattern does not compile.
   */
  lemma {:induction false} AddEffect(re: Regexp, s: Registry, verb: string, pattern: string, chain: seq<Handler>, final: Endpoint)
    ensures var step := Add(re, s, verb, pattern, chain, final);
            && (step.verdict.Ok? <==> !s.Has(s.version, pattern, verb) && Compiles(re, s.version + pattern))
            && (step.verdict.Duplicate? <==> s.Has(s.version, pattern, verb))
            && (!step.verdict.Ok? ==> step.next == s)
            && (step.verdict.Ok? ==> forall v, p, m ::
                  step.next.Has(v, p, m) <==> s.Has(v, p, m) || (v == s.version && p == pattern && m == verb))
  {
    var step := Add(re, s, verb, pattern, chain, final);
    if step.verdict.Ok? {
      var items := s.Of(verb);
      forall v, p, m
        ensures step.next.Has(v, p, m) <==> s.Has(v, p, m) || (v == s.version && p == pattern && m == verb)
      {
        if m == verb {
          AppendHolds(items, RouteItem(s.version, pattern, chain, final), v, p);
        }
      }
    }
  }

  lemma {:induction false} AppendHolds(items: seq<RouteItem>, item: RouteItem, v: string, p: string)
    ensures Holds(items + [item], v, p) <==> Holds(items, v, p) || item.Is(v, p)
  {
    assert (items + [item])[|items|] == item;
    assert forall k :: 0 <= k < |items| ==> (items + [item])[k] == items[k];
  }

  /**
   Removing a registered pattern removes that one item; every other pattern, under whatever version
   and method, stays registered, and the others keep their order.
   */
  lemma {:induction false} RemoveEffect(s: Registry, verb: string, pattern: string)
    requires Valid(s) && s.Has(s.version, pattern, verb)
    ensures var step := Remove(s, verb, pattern);
            && step.verdict.Ok?
            && (exists i :: 0 <= i < |s.Of(verb)| && s.Of(verb)[i].Is(s.version, pattern)
                            && step.next.Of(verb) == Without(s.Of(verb), i))
            && (forall m :: m != verb ==> step.next.Of(m) == s.Of(m))
            && (forall v, p, m :: step.next.Has(v, p, m)
                  <==> s.Has(v, p, m) && !(v == s.version && p == pattern && m == verb))
  {
    var step, items := Remove(s, verb, pattern), s.Of(verb);
    var i := Find(items, s.version, pattern);
    assert step.next.Of(verb) == Without(items, i);
    forall v, p, m
      ensures step.next.Has(v, p, m) <==> s.Has(v, p, m) && !(v == s.version && p == pattern && m == verb)
    {
      if m == verb {
        WithoutHolds(items, i, v, p);
      }
    }
  }

  lemma WithoutHolds(items: seq<RouteItem>, i: nat, v: string, p: string)
    requires i < |items| && Distinct(items)
    ensures Holds(Without(items, i), v, p) <==> Holds(items, v, p) && !items[i].Is(v, p)
  {
    var rest := Without(items, i);
    if k :| 0 <= k < |rest| && rest[k].Is(v, p) {
      assert items[if k < i then k else k + 1].Is(v, p);
    }
    if k :| 0 <= k < |items| && items[k].Is(v, p) && !items[i].Is(v, p) {
      assert rest[if k < i then k else k - 1].Is(v, p);
    }
  }

  /**
   Removing a pattern leaves the other patterns registered if and only if the pattern was registered
   under the current version, or there was nothing to lose: removing an unregistered pattern empties
   the method's list.
   */
  lemma {:induction false} RemoveKeepsOthers(s: Registry, verb: string, pattern: string)
    requires Valid(s)
    ensures (forall v, p, m :: !(v == s.version && p == pattern && m == verb)
                               ==> (Remove(s, verb, pattern).next.Has(v, p, m) <==> s.Has(v, p, m)))
            <==> s.Has(s.version, pattern, verb) || s.Of(verb) == []
  {
    if s.Has(s.version, pattern, verb) {
      RemoveEffect(s, verb, pattern);
    } else if s.Of(verb) != [] {
      var lost := s.Of(verb)[0];
      assert lost.Is(lost.version, lost.pattern);
      assert s.Has(lost.version, lost.pattern, verb);
      assert Remove(s, verb, pattern).next.Of(verb) == [];
    }
  }

  /** For example: one route, and the removal of another pattern. */
  lemma {:induction false} RemovingAnotherLoses(re: Regexp, verb: string, a: string, b: string, chain: seq<Handler>, final: Endpoint)
    requires PlainText(a) && a != b
    ensures var add, remove := AddRoute(verb, a, chain, final), RemoveRoute(verb, b);
            && Play(re, EMPTY, [add]).Has("", a, verb)
            && !Play(re, EMPTY, [add, remove]).Has("", a, verb)
  {
    var add, remove := AddRoute(verb, a, chain, final), RemoveRoute(verb, b);
    PlainMatches(re, a, chain, final);
    Unit(a);
    var one, item := Apply(re, EMPTY, add).next, RouteItem("", a, chain, final);
    assert one.Of(verb) == [item] && item.Is("", a);
    PlayOne(re, EMPTY, add);
    assert Find([item], "", b) == 1 by {
      assert [item][1..] == [];
    }
    assert Apply(re, one, remove).next.Of(verb) == [];
    PlayOne(re, one, remove);
    var both := [add, remove];
    assert both[1..] == [remove];
  }

  lemma {:induction false} PlayOne(re: Regexp, s: Registry, op: Op)
    ensures Play(re, s, [op]) == Apply(re, s, op).next
  {
    assert [op][1..] == [];
  }

  // ----- winners -----

  lemma {:induction false} FirstAppended(re: Regexp, items: seq<RouteItem>, item: RouteItem, path: string)
    ensures First(re, items, path) < |items| ==> First(re, items + [item], path) == First(re, items, path)
  {
    if First(re, items, path) < |items| {
      FirstIs(re, items + [item], path, First(re, items, path));
    }
  }

  /** The first match is the only match with none before it. */
  lemma {:induction false} FirstIs(re: Regexp, items: seq<RouteItem>, path: string, n: nat)
    requires n <= |items| && (n < |items| ==> items[n].Matches(re, path))
    requires forall k :: 0 <= k < n ==> !items[k].Matches(re, path)
    ensures First(re, items, path) == n
  {
  }

  /** The first match in a list without its i-th item. */
  lemma {:induction false} FirstWithout(re: Regexp, items: seq<RouteItem>, i: nat, path: string)
    requires i < |items| && First(re, items, path) != i
    ensures var f, f' := First(re, items, path), First(re, Without(items, i), path);
            if f < |items| then f' < |items| - 1 && Without(items, i)[f'] == items[f] else f' == |items| - 1
  {
    var f, rest := First(re, items, path), Without(items, i);
    var n := if f < i then f else f - 1;
    forall k | 0 <= k < n
      ensures !rest[k].Matches(re, path)
    {
      assert rest[k] == items[if k < i then k else k + 1];
    }
    FirstIs(re, rest, path, n);
  }

  lemma {:induction false} AddWinner(re: Regexp, s: Registry, op: Op, verb: string, path: string)
    requires op.AddRoute? && Winner(re, s, verb, path).Some?
    ensures Winner(re, Apply(re, s, op).next, verb, path) == Winner(re, s, verb, path)
  {
    if op.verb == ToUpper(verb) {
      FirstAppended(re, s.Of(op.verb), RouteItem(s.version, op.pattern, op.chain, op.final), path);
    }
  }

  lemma {:induction false} BestWithout(re: Regexp, items: seq<RouteItem>, i: nat, path: string)
    requires i < |items| && First(re, items, path) != i
    ensures Best(re, Without(items, i), path) == Best(re, items, path)
  {
    FirstWithout(re, items, i, path);
  }

  lemma {:induction false} RemoveWinner(re: Regexp, s: Registry, op: Op, verb: string, path: string)
    requires op.RemoveRoute? && s.Has(s.version, op.pattern, op.verb)
    requires var w := Winner(re, s, verb, path);
             !(w.Some? && op.verb == ToUpper(verb) && w.value.Is(s.version, op.pattern))
    ensures Winner(re, Apply(re, s, op).next, verb, path) == Winner(re, s, verb, path)
  {
    if op.verb == ToUpper(verb) {
      var items := s.Of(op.verb);
      var i := Find(items, s.version, op.pattern);
      BestWithout(re, items, i, path);
    }
  }

  /** What one operation can do to the winner of a request. */
  lemma {:induction false} StepWinner(re: Regexp, s: Registry, op: Op, verb: string, path: string)
    requires op.RemoveRoute? ==> s.Has(s.version, op.pattern, op.verb)
    ensures var w, w' := Winner(re, s, verb, path), Winner(re, Apply(re, s, op).next, verb, path);
            && (op.AddRoute? && w.Some? ==> w' == w)
            && (op.SetApiVersion? ==> w' == w)
            && (op.RemoveRoute? && !(w.Some? && op.verb == ToUpper(verb) && w.value.Is(s.version, op.pattern)) ==> w' == w)
  {
    var w := Winner(re, s, verb, path);
    if op.AddRoute? && w.Some? {
      AddWinner(re, s, op, verb, path);
    } else if op.RemoveRoute? && !(w.Some? && op.verb == ToUpper(verb) && w.value.Is(s.version, op.pattern)) {
      RemoveWinner(re, s, op, verb, path);
    }
  }

  /** The removals of a history hit registered patterns, and never the item `kept`. */
  ghost predicate Spares(re: Regexp, s: Registry, ops: seq<Op>, verb: string, kept: RouteItem)
    decreases |ops|
  {
    ops == [] ||
    (&& (ops[0].RemoveRoute? ==>
           && s.Has(s.version, ops[0].pattern, ops[0].verb)
           && !(ops[0].verb == verb && kept.Is(s.version, ops[0].pattern)))
     && Spares(re, Apply(re, s, ops[0]).next, ops[1..], verb, kept))
  }

  /**
   Over any history of additions, version changes and removals of other registered patterns, the
   route that wins a request goes on winning it.
   */
  lemma {:induction false} WinnerIsStable(re: Regexp, s: Registry, ops: seq<Op>, verb: string, path: string)
    requires Winner(re, s, verb, path).Some?
    requires Spares(re, s, ops, ToUpper(verb), Winner(re, s, verb, path).value)
    ensures Winner(re, Play(re, s, ops), verb, path) == Winner(re, s, verb, path)
    decreases |ops|
  {
    if ops != [] {
      StepWinner(re, s, ops[0], verb, path);
      WinnerIsStable(re, Apply(re, s, ops[0]).next, ops[1..], verb, path);
    }
  }

  // ----- what runs for a request -----

  /** In a list with a match, the earliest match runs: its handlers and its own handler. */
  lemma {:induction false} EarliestRuns(re: Regexp, items: seq<RouteItem>, path: string, n: nat)
    requires n < |items| && items[n].Matches(re, path)
    requires forall k :: 0 <= k < n ==> !items[k].Matches(re, path)
    ensures ResolveIn(re, items, path) == M.Routed(items[n].chain, items[n].final)
  {
    FirstIs(re, items, path, n);
  }

  /** Without one, and only then, nothing runs. */
  lemma {:induction false} NothingRuns(re: Regexp, items: seq<RouteItem>, path: string)
    ensures ResolveIn(re, items, path) == M.Unrouted <==> forall k :: 0 <= k < |items| ==> !items[k].Matches(re, path)
  {
  }

  /** What runs is the winner. */
  lemma {:induction false} WinnerRuns(re: Regexp, s: Registry, verb: string, path: string)
    ensures var w, target := Winner(re, s, verb, path), ResolveIn(re, s.Of(ToUpper(verb)), path);
            && (w.Some? ==> target == M.Routed(w.value.chain, w.value.final))
            && (w.None? <==> target == M.Unrouted)
  {
  }

  /**
   A route that is added runs for the requests that its version and pattern accept, when no route of
   the method accepted them before; and it goes on running for them over any later history that
   spares it.
   */
  lemma {:induction false} AddedRuns(
    re: Regexp, s: Registry, version: string, op: Op, later: seq<Op>, requested: string, path: string)
    requires op.AddRoute? && ToUpper(requested) == op.verb
    requires Compiles(re, version + op.pattern) && Accepts(re, version + op.pattern, path)
    requires forall k :: 0 <= k < |s.Of(op.verb)| ==> !s.Of(op.verb)[k].Matches(re, path)
    ensures Apply(re, SetVersion(s, version).next, op).verdict.Ok?
    ensures var added := Play(re, s, [SetApiVersion(version), op]);
            && ResolveIn(re, added.Of(ToUpper(requested)), path) == M.Routed(op.chain, op.final)
            && (Spares(re, added, later, op.verb, RouteItem(version, op.pattern, op.chain, op.final)) ==>
                  ResolveIn(re, Play(re, added, later).Of(ToUpper(requested)), path) == M.Routed(op.chain, op.final))
  {
    var items, item := s.Of(op.verb), RouteItem(version, op.pattern, op.chain, op.final);
    var added := Play(re, s, [SetApiVersion(version), op]);
    NewPair(re, items, version, op.pattern, path);
    PlayTwo(re, s, SetApiVersion(version), op);
    assert added.Of(op.verb) == items + [item];
    NewWinner(re, items, item, path);
    WinnerRuns(re, added, requested, path);
    if Spares(re, added, later, op.verb, item) {
      WinnerIsStable(re, added, later, requested, path);
      WinnerRuns(re, Play(re, added, later), requested, path);
    }
  }

  lemma {:induction false} NewPair(re: Regexp, items: seq<RouteItem>, version: string, pattern: string, path: string)
    requires Accepts(re, version + pattern, path) && forall k :: 0 <= k < |items| ==> !items[k].Matches(re, path)
    ensures Find(items, version, pattern) == |items|
  {
  }

  lemma {:induction false} NewWinner(re: Regexp, items: seq<RouteItem>, item: RouteItem, path: string)
    requires item.Matches(re, path) && forall k :: 0 <= k < |items| ==> !items[k].Matches(re, path)
    ensures Best(re, items + [item], path) == Some(item)
  {
    FirstIs(re, items + [item], path, |items|);
  }

  lemma {:induction false} PlayTwo(re: Regexp, s: Registry, a: Op, b: Op)
    ensures Play(re, s, [a, b]) == Apply(re, Apply(re, s, a).next, b).next
  {
    assert [a, b][1..] == [b];
    PlayOne(re, Apply(re, s, a).next, b);
  }

  // ----- the method of a route -----

  /** The letters a to z become A to Z, and everything else stays. */
  lemma {:induction false} UpperLetters(s: string)
    ensures |ToUpper(s)| == |s|
    ensures forall k :: 0 <= k < |s| ==>
              ToUpper(s)[k] as int == if 97 <= s[k] as int <= 122 then s[k] as int - 32 else s[k] as int
  {
    if s != "" {
      UpperLetters(s[1..]);
    }
  }

  /** For example: a request `get` asks for the routes under GET. */
  lemma {:induction false} GetIsGet()
    ensures ToUpper("get") == "GET" && ToUpper("GET") == "GET"
  {
    UpperLetters("get");
    UpperLetters("GET");
  }

  lemma {:induction false} UpperTwice(s: string)
    ensures ToUpper(ToUpper(s)) == ToUpper(s)
  {
    if s != "" {
      UpperTwice(s[1..]);
    }
  }

  /** A plain pattern matches itself. */
  lemma {:induction false} PlainMatches(re: Regexp, v: string, chain: seq<Handler>, final: Endpoint)
    requires PlainText(v)
    ensures Compiles(re, v) && RouteItem("", v, chain, final).Matches(re, v)
  {
    Unit(v);
    TokensPrefixed(v, "");
    Unit(Literals(v));
    LiteralPatterns(re, v, v);
  }

  function Silent(): Endpoint {
    Endpoint(0, (seen: seq<Core>) => Return)
  }

  /**
   Lookup upper-cases the verb of the request, registration does not: whatever is registered under a
   method makes no difference to any request in any registry if and only if that method is not written
   in upper case.
   */
  lemma {:induction false} ReachableMethods(re: Regexp, verb: string)
    ensures (forall s: Registry, items: seq<RouteItem>, requested: string, path: string ::
               Winner(re, s.With(verb, items), requested, path) == Winner(re, s, requested, path))
            <==> ToUpper(verb) != verb
  {
    if ToUpper(verb) != verb {
      forall s: Registry, items: seq<RouteItem>, requested: string, path: string
        ensures Winner(re, s.With(verb, items), requested, path) == Winner(re, s, requested, path)
      {
        UpperTwice(requested);
      }
    } else {
      var item := RouteItem("", "/", [], Silent());
      PlainMatches(re, "/", [], Silent());
      assert Winner(re, EMPTY.With(verb, [item]), verb, "/") == Some(item);
      assert Winner(re, EMPTY, verb, "/") == None;
    }
  }
}
