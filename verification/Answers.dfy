/**
 Whole requests whose middlewares only pass them on: the answer is exactly what is at the end of the
 chain, whatever the middlewares do with the context and whether or not they call Next.
 */
module Answers {
  import opened Handlers
  import opened Machine
  import opened Logs
  import opened Accounting
  import opened Onion
  import opened Seqs
  import opened Responses
  import D = DefaultChain
  import R = Registry
  import P = PatternText

  /** A script that neither writes nor panics, and calls Next at most once. */
  ghost predicate Passes(script: Script) {
    Mute(script) && NextAtMostOnce(script)
  }

  ghost predicate AllPass(chain: seq<Handler>) {
    forall k :: 0 <= k < |chain| ==> Passes(chain[k].body)
  }

  /** The same response: the two cores differ in the context at most. */
  predicate Same(c: Core, c': Core) {
    c'.(ctx := c.ctx) == c
  }

  // ----- what a log says apart from the order of the handlers -----

  function Deed(ev: Event): seq<Event> {
    match ev
    case Enter(_, _, _) => []
    case Called(_, _, _, _) => []
    case Updated(_, _) => []
    case Dispatch(_) => [Dispatch(map[])]
    case Final(_) => [Final(map[])]
    case _ => [ev]
  }

  /** All events but entries, calls of Next and updates, with the contexts left out. */
  function Deeds(log: seq<Event>): seq<Event> {
    if log == [] then [] else Deed(log[0]) + Deeds(log[1..])
  }

  lemma {:induction false} DeedsConcat(a: seq<Event>, b: seq<Event>)
    ensures Deeds(a + b) == Deeds(a) + Deeds(b)
  {
    if a == [] {
      assert a + b == b;
      Unit(Deeds(b));
    } else {
      DeedsConcat(a[1..], b);
      assert (a + b)[1..] == a[1..] + b;
      Assoc(Deed(a[0]), Deeds(a[1..]), Deeds(b));
    }
  }

  lemma DeedsCons(ev: Event, log: seq<Event>)
    ensures Deeds([ev] + log) == Deed(ev) + Deeds(log)
  {
    assert ([ev] + log)[1..] == log;
  }

  /** Events that are deeds themselves. */
  lemma {:induction false} DeedsOf(log: seq<Event>)
    requires forall k :: 0 <= k < |log| ==> log[k].Head? || log[k].Body? || log[k].NoContent? || log[k].RegistryNotFound? || log[k].EngineNotFound?
    ensures Deeds(log) == log
  {
    if log != [] {
      DeedsOf(log[1..]);
      assert [log[0]] + log[1..] == log;
    }
  }

  // ----- a chain that passes the request on -----

  /** What a request gets: a response, and what was done for it. */
  ghost predicate Gets(r: Result, c1: Core, deeds: seq<Event>) {
    r.out.Returned? && Same(c1, r.st.core) && Deeds(r.log) == deeds
  }

  /** From index n and response c0 on, the chain answers c1, with these deeds, whatever the context is. */
  ghost predicate Ends(e: Engine, n: nat, c0: Core, c1: Core, deeds: seq<Event>) {
    && n <= |e.chain| && !c0.Written() && c1.Written()
    && forall s: State :: s.index == n && Same(c0, s.core) ==> Gets(Run(e, s), c1, deeds)
  }

  ghost predicate PassBefore(e: Engine, n: nat) {
    n <= |e.chain| && forall k :: 0 <= k < n ==> Passes(e.chain[k].body)
  }

  /** Nothing has been done yet, or the end of the chain has answered. */
  ghost predicate Passed(c0: Core, c1: Core, deeds: seq<Event>, s: State, r: Result) {
    if r.st.Written() then Gets(r, c1, deeds) else r.st.index == s.index && Gets(r, c0, [])
  }

  lemma {:induction false} GetsThen(before: seq<Event>, r: Result, c1: Core, deeds: seq<Event>)
    requires Deeds(before) == [] && Gets(r, c1, deeds)
    ensures Gets(r.After(before), c1, deeds)
  {
    DeedsConcat(before, r.log);
    Unit(Deeds(r.log));
  }

  lemma {:induction false} ThenGets(first: Result, r: Result, c1: Core, deeds: seq<Event>)
    requires Gets(r, c1, []) && Deeds(first.log) == deeds
    ensures Gets(r.After(first.log), c1, deeds)
  {
    DeedsConcat(first.log, r.log);
    Unit(deeds);
  }

  /** Events of the handlers' order, and updates. */
  lemma NoDeed(ev: Event)
    requires ev.Enter? || ev.Called? || ev.Updated?
    ensures Deeds([ev]) == []
  {
    DeedsCons(ev, []);
    Unit([ev]);
  }

  /** After its call of Next such a script may update the context, and nothing else. */
  lemma {:induction false} ExecAfterNext(e: Engine, who: nat, script: Script, seen: seq<Core>, s: State, c1: Core)
    requires Passes(script) && |seen| >= 1 && CalledBefore(script, seen) && Same(c1, s.core)
    ensures Gets(Exec(e, who, script, seen, s), c1, [])
    decreases script.bound - |seen|
  {
    if !(|seen| > script.bound || script.act(seen).Return?) {
      var w := Step(e.Level(), s.core, script.act(seen));
      var s' := s.(core := w.core);
      CalledStays(script, seen, w.core);
      ExecAfterNext(e, who, script, seen + [w.core], s', c1);
      NoDeed(w.log[0]);
      GetsThen(w.log, Exec(e, who, script, seen + [w.core], s'), c1, []);
    }
  }

  lemma {:induction false} CallNextPasses(e: Engine, who: nat, s: State, n: nat, c0: Core, c1: Core, deeds: seq<Event>)
    requires PassBefore(e, n) && s.index < n && Ends(e, n, c0, c1, deeds) && Same(c0, s.core)
    ensures Gets(CallNext(e, who, s), c1, deeds)
    decreases 2 * e.Left(s.index + 1), 3
  {
    var s' := s.(index := s.index + 1);
    var called := Called(e.Level(), who, s.index, s.Written());
    RunPasses(e, s', n, c0, c1, deeds);
    NoDeed(called);
    GetsThen([called], Run(e, s'), c1, deeds);
  }

  lemma {:induction false} ExecPasses(
    e: Engine, who: nat, script: Script, seen: seq<Core>, s: State, n: nat, c0: Core, c1: Core, deeds: seq<Event>)
    requires PassBefore(e, n) && s.index < n && Passes(script) && |seen| >= 1 && Ends(e, n, c0, c1, deeds) && Same(c0, s.core)
    ensures Passed(c0, c1, deeds, s, Exec(e, who, script, seen, s))
    decreases e.Measure(s.index), 0, script.bound - |seen|
  {
    if !(|seen| > script.bound || script.act(seen).Return?) {
      var a := script.act(seen);
      if a.Next? {
        var r := CallNext(e, who, s);
        CallNextPasses(e, who, s, n, c0, c1, deeds);
        CalledStays(script, seen, r.st.core);
        ExecAfterNext(e, who, script, seen + [r.st.core], r.st, c1);
        ThenGets(r, Exec(e, who, script, seen + [r.st.core], r.st), c1, deeds);
      } else {
        var w := Step(e.Level(), s.core, a);
        var s' := s.(core := w.core);
        var r := Exec(e, who, script, seen + [w.core], s');
        ExecPasses(e, who, script, seen + [w.core], s', n, c0, c1, deeds);
        NoDeed(w.log[0]);
        GetsThen(w.log, r, if r.st.Written() then c1 else c0, if r.st.Written() then deeds else []);
      }
    }
  }

  /** One handler entered by the loop. */
  lemma {:induction false} EnteredPasses(e: Engine, s: State, n: nat, c0: Core, c1: Core, deeds: seq<Event>)
    requires PassBefore(e, n) && s.index < n && Ends(e, n, c0, c1, deeds) && Same(c0, s.core)
    ensures Passed(c0, c1, deeds, s, Entered(e, s))
    decreases e.Measure(s.index), 1
  {
    var h, enter := e.chain[s.index], Enter(e.Level(), s.index, s.Written());
    var r := Exec(e, s.index, h.body, [s.core], s);
    ExecPasses(e, s.index, h.body, [s.core], s, n, c0, c1, deeds);
    assert r == Invoke(e, s.index, h, s);
    NoDeed(enter);
    GetsThen([enter], r, if r.st.Written() then c1 else c0, if r.st.Written() then deeds else []);
  }

  function Entered(e: Engine, s: State): Result
    requires s.index < |e.chain|
  {
    Invoke(e, s.index, e.chain[s.index], s).After([Enter(e.Level(), s.index, s.Written())])
  }

  /** The loop's next turn. */
  lemma {:induction false} LoopGoesOn(e: Engine, s: State)
    requires s.index < |e.chain| && Entered(e, s).out.Returned?
    ensures var r := Entered(e, s);
            var s' := r.st.(index := r.st.index + 1);
            Run(e, s) == if s'.Written() then Result(Returned, s', r.log) else Run(e, s').After(r.log)
  {
  }

  /** Handlers that pass the request on answer exactly as what comes behind them. */
  lemma {:induction false} RunPasses(e: Engine, s: State, n: nat, c0: Core, c1: Core, deeds: seq<Event>)
    requires PassBefore(e, n) && s.index <= n && Ends(e, n, c0, c1, deeds) && Same(c0, s.core)
    ensures Gets(Run(e, s), c1, deeds)
    decreases 2 * e.Left(s.index), 2
  {
    if s.index < n {
      var r := Entered(e, s);
      EnteredPasses(e, s, n, c0, c1, deeds);
      LoopGoesOn(e, s);
      if !r.st.Written() {
        var s' := r.st.(index := r.st.index + 1);
        RunPasses(e, s', n, c0, c1, deeds);
        GetsThen(r.log, Run(e, s'), c1, deeds);
      }
    }
  }

  /** Past the last handler only the end of the chain is left. */
  lemma {:induction false} LoopEnds(e: Engine, s: State)
    requires s.index == |e.chain|
    ensures Run(e, s) == Tail(e, s)
  {
  }

  // ----- the ends -----

  ghost predicate AnswersOnly(log: seq<Event>) {
    forall k :: 0 <= k < |log| ==> log[k].Head? || log[k].Body?
  }

  /** A route's own handler, whatever the context is. */
  ghost predicate ServesAs(final: Endpoint, c0: Core, c1: Core, log: seq<Event>) {
    && AnswersOnly(log)
    && forall c: Core :: Same(c0, c) ==> ExecEndpoint(final, [c], c) == Reaction(Returned, c1.(ctx := c.ctx), log)
  }

  /** A route's end is its handler. */
  lemma {:induction false} RouteEnds(chain: seq<Handler>, final: Endpoint, c0: Core, c1: Core, log: seq<Event>)
    requires !c0.Written() && c1.Written() && ServesAs(final, c0, c1, log)
    ensures Ends(RouteEngine(chain, final), |chain|, c0, c1, [Final(map[])] + log)
  {
    forall s: State | s.index == |chain| && Same(c0, s.core)
      ensures Gets(Run(RouteEngine(chain, final), s), c1, [Final(map[])] + log)
    {
      LoopEnds(RouteEngine(chain, final), s);
      RouteEnd(RouteEngine(chain, final), s, c1.(ctx := s.core.ctx), log);
    }
  }

  lemma {:induction false} RouteEnd(e: Engine, s: State, c1: Core, log: seq<Event>)
    requires e.RouteEngine? && !s.Written() && c1.Written() && AnswersOnly(log)
    requires ExecEndpoint(e.final, [s.core], s.core) == Reaction(Returned, c1, log)
    ensures Gets(Tail(e, s), c1, [Final(map[])] + log)
  {
    DeedsOf(log);
    DeedsCons(Final(s.core.ctx), log);
  }

  /** A silent one is answered for with 204. */
  lemma {:induction false} SilentRouteEnds(chain: seq<Handler>, final: Endpoint, c0: Core)
    requires !c0.Written() && ServesAs(final, c0, c0, [])
    ensures Ends(RouteEngine(chain, final), |chain|, c0, c0.(status := 204, sent := 204), [Final(map[]), NoContent(0), Head(204)])
  {
    forall s: State | s.index == |chain| && Same(c0, s.core)
      ensures Gets(Run(RouteEngine(chain, final), s), c0.(status := 204, sent := 204),
                   [Final(map[]), NoContent(0), Head(204)])
    {
      LoopEnds(RouteEngine(chain, final), s);
      SilentRouteEnd(RouteEngine(chain, final), s);
    }
  }

  lemma {:induction false} SilentRouteEnd(e: Engine, s: State)
    requires e.RouteEngine? && !s.Written() && ExecEndpoint(e.final, [s.core], s.core) == Reaction(Returned, s.core, [])
    ensures Gets(Tail(e, s), s.core.(status := 204, sent := 204), [Final(map[]), NoContent(0), Head(204)])
  {
    Nothing(s.core);
    var final, rest := Final(s.core.ctx), [NoContent(0), Head(204)];
    DeedsOf(rest);
    DeedsCons(final, rest);
    assert Tail(e, s).log == [final] + [] + [NoContent(0)] + [Head(204)];
    assert [final] + [] + [NoContent(0)] + [Head(204)] == [final] + rest;
    assert [Final(map[])] + rest == [Final(map[]), NoContent(0), Head(204)];
  }

  /** http.Error with 204: the code goes out, its text does not. */
  lemma Nothing(c: Core)
    requires !c.Written()
    ensures HttpError(c, "", 204) == Reaction(Returned, c.(status := 204, sent := 204), [Head(204)])
  {
    var c' := c.(status := 204, sent := 204);
    HeaderSends(c, 204);
    WriteSends(c', "" + "\n");
    Unit([Head(204)]);
  }

  /** http.NotFound: 404 and a line of text. */
  lemma NotFound(c: Core)
    requires !c.Written()
    ensures HttpNotFound(c) == Reaction(Returned, Missed(c), Missing())
  {
    var c' := c.(status := 404, sent := 404);
    var text := "404 page not found" + "\n";
    HeaderSends(c, 404);
    WriteSends(c', text);
    assert text == "404 page not found\n" && |text| == 19;
    assert [Head(404)] + [Body(text)] == [Head(404), Body(text)];
  }

  function Missed(c: Core): Core {
    c.(status := 404, sent := 404, size := c.size + 19)
  }

  function Missing(): seq<Event> {
    [Head(404), Body("404 page not found\n")]
  }

  /** Dispatch to a route whose handlers pass the request on ends as the route does. */
  lemma {:induction false} RoutedEnds(
    chain: seq<Handler>, inner: seq<Handler>, final: Endpoint, c0: Core, c1: Core, deeds: seq<Event>)
    requires AllPass(inner) && Ends(RouteEngine(inner, final), |inner|, c0, c1, deeds)
    ensures Ends(RequestEngine(chain, Routed(inner, final)), |chain|, c0, c1, [Dispatch(map[])] + deeds)
  {
    var e, route := RequestEngine(chain, Routed(inner, final)), RouteEngine(inner, final);
    forall s: State | s.index == |chain| && Same(c0, s.core)
      ensures Gets(Run(e, s), c1, [Dispatch(map[])] + deeds)
    {
      var r := Run(route, State(0, s.core));
      LoopEnds(e, s);
      RunPasses(route, State(0, s.core), |inner|, c0, c1, deeds);
      DeedsCons(Dispatch(s.core.ctx), r.log);
      assert Handle(e.target, s.core) == Reaction(Returned, r.st.core.(ctx := s.core.ctx), [Dispatch(s.core.ctx)] + r.log);
    }
  }

  /** What is done for a request without a route, or without a registry. */
  function Miss(target: Target): seq<Event> {
    if target.Unrouted? then [Dispatch(map[]), RegistryNotFound] + Missing() else [EngineNotFound] + Missing()
  }

  lemma {:induction false} UnroutedEnds(chain: seq<Handler>, target: Target, c0: Core)
    requires !c0.Written() && (target.Unrouted? || target.NoRegistry?)
    ensures Ends(RequestEngine(chain, target), |chain|, c0, Missed(c0), Miss(target))
  {
    forall s: State | s.index == |chain| && Same(c0, s.core)
      ensures Gets(Run(RequestEngine(chain, target), s), Missed(c0), Miss(target))
    {
      LoopEnds(RequestEngine(chain, target), s);
      UnroutedEnd(RequestEngine(chain, target), s);
    }
  }

  lemma {:induction false} UnroutedEnd(e: Engine, s: State)
    requires e.RequestEngine? && !s.Written() && (e.target.Unrouted? || e.target.NoRegistry?)
    ensures Gets(Tail(e, s), Missed(s.core), Miss(e.target))
  {
    NotFound(s.core);
    MissDeeds(s.core.ctx);
  }

  lemma {:induction false} MissDeeds(ctx: Ctx)
    ensures Deeds([Dispatch(ctx), RegistryNotFound] + Missing()) == Miss(Unrouted)
    ensures Deeds([EngineNotFound] + Missing()) == Miss(NoRegistry)
  {
    DeedsOf(Missing());
    MarkedDeeds(ctx, Missing());
  }

  lemma MarkedDeeds(ctx: Ctx, said: seq<Event>)
    requires Deeds(said) == said
    ensures Deeds([Dispatch(ctx), RegistryNotFound] + said) == [Dispatch(map[]), RegistryNotFound] + said
    ensures Deeds([EngineNotFound] + said) == [EngineNotFound] + said
  {
    DeedsCons(EngineNotFound, said);
    DeedsCons(RegistryNotFound, said);
    DeedsCons(Dispatch(ctx), [RegistryNotFound] + said);
    Paired(Dispatch(ctx), RegistryNotFound, said);
    Paired(Dispatch(map[]), RegistryNotFound, said);
  }

  lemma Paired(x: Event, y: Event, rest: seq<Event>)
    ensures [x, y] + rest == [x] + ([y] + rest)
  {
  }

  /** Another registry than the repository's own is asked once, and what it sends is the answer. */
  lemma {:induction false} CustomEnds(chain: seq<Handler>, handle: Endpoint, c0: Core, c1: Core, log: seq<Event>)
    requires !c0.Written() && c1.Written() && ServesAs(handle, c0, c1, log)
    ensures Ends(RequestEngine(chain, Custom(handle)), |chain|, c0, c1, [Dispatch(map[])] + log)
  {
    var e := RequestEngine(chain, Custom(handle));
    forall s: State | s.index == |chain| && Same(c0, s.core)
      ensures Gets(Run(e, s), c1, [Dispatch(map[])] + log)
    {
      LoopEnds(e, s);
      CustomEnd(e, s, c1.(ctx := s.core.ctx), log);
    }
  }

  lemma {:induction false} CustomEnd(e: Engine, s: State, c1: Core, log: seq<Event>)
    requires e.RequestEngine? && e.target.Custom? && !s.Written() && c1.Written() && AnswersOnly(log)
    requires ExecEndpoint(e.target.handle, [s.core], s.core) == Reaction(Returned, c1, log)
    ensures Gets(Tail(e, s), c1, [Dispatch(map[])] + log)
  {
    DeedsOf(log);
    DeedsCons(Dispatch(s.core.ctx), log);
  }

  /** A middleware that only replies, as a route's own handler would. */
  ghost predicate Plays(script: Script, h: Endpoint) {
    script.bound == h.bound && forall seen: seq<Core> :: script.act(seen) == h.act(seen)
  }

  lemma {:induction false} ExecPlays(e: Engine, who: nat, script: Script, h: Endpoint, seen: seq<Core>, s: State)
    requires Plays(script, h)
    ensures var w := ExecEndpoint(h, seen, s.core);
            Exec(e, who, script, seen, s) == Result(w.out, s.(core := w.core), w.log)
    decreases script.bound - |seen|
  {
    if !(|seen| > script.bound || script.act(seen).Return?) {
      var w := Respond(s.core, h.act(seen));
      if w.out.Returned? {
        ExecPlays(e, who, script, h, seen + [w.core], s.(core := w.core));
      }
    }
  }

  /** If it answers, the chain ends there. */
  lemma {:induction false} AnswererEnds(e: Engine, n: nat, h: Endpoint, c0: Core, c1: Core, log: seq<Event>)
    requires n < |e.chain| && Plays(e.chain[n].body, h)
    requires !c0.Written() && c1.Written() && ServesAs(h, c0, c1, log)
    ensures Ends(e, n, c0, c1, log)
  {
    forall s: State | s.index == n && Same(c0, s.core)
      ensures Gets(Run(e, s), c1, log)
    {
      var enter := Enter(e.Level(), n, s.Written());
      ExecPlays(e, n, e.chain[n].body, h, [s.core], s);
      assert ExecEndpoint(h, [s.core], s.core) == Reaction(Returned, c1.(ctx := s.core.ctx), log);
      assert Entered(e, s) == Result(Returned, s.(core := c1.(ctx := s.core.ctx)), [enter] + log);
      LoopGoesOn(e, s);
      DeedsOf(log);
      DeedsCons(enter, log);
      Unit(log);
    }
  }

  /**
   Next after the last handler, on a response already written: a route leaves it alone, the server adds
   its 404 to what was sent.
   */
  lemma {:induction false} LateEnd(e: Engine, s: State)
    requires s.Written() && WithBody(s.core.sent)
    ensures e.RouteEngine? ==> Tail(e, s) == Result(Returned, s, [])
    ensures e.RequestEngine? ==>
              Tail(e, s) == Result(Returned, s.(core := s.core.(status := 404, size := s.core.size + 19)),
                                   [EngineNotFound] + Missing())
  {
    var text := "404 page not found" + "\n";
    assert text == "404 page not found\n" && |text| == 19;
    HeaderSends(s.core, 404);
    WriteSends(s.core.(status := 404), text);
    assert [Head(404)] + [Body(text)] == Missing();
  }

  // ----- the answers -----

  /**
   A route's handler that sends a code and some texts, behind handlers that only pass the request on: it
   is called exactly once, the recorded status is that code, the size that of all the texts, and they
   went out in order.
   */
  lemma {:induction false} RouteAnswers(
    chain: seq<Handler>, inner: seq<Handler>, final: Endpoint, code: int, texts: seq<string>, c: Core)
    requires AllPass(chain) && AllPass(inner) && !c.Written()
    requires Says(final, [Action.WriteHeader(code)] + Writes(texts)) && WithBody(code)
    ensures Gets(Run(RequestEngine(chain, Routed(inner, final)), State(0, c)),
                 c.(status := code, sent := code, size := c.size + Total(texts)),
                 [Dispatch(map[]), Final(map[]), Head(code)] + Bodies(texts))
  {
    HeaderServes(final, code, texts, c);
    RouteSends(chain, inner, final, code, texts, c);
  }

  /**
   A middleware, of the server or of a route, that sends a code and some texts, behind handlers that pass
   the request on: that is the answer, and nothing behind it is called.
   */
  lemma {:induction false} MiddlewareAnswers(e: Engine, n: nat, h: Endpoint, code: int, texts: seq<string>, c: Core)
    requires PassBefore(e, n) && n < |e.chain| && Plays(e.chain[n].body, h) && !c.Written()
    requires Says(h, [Action.WriteHeader(code)] + Writes(texts)) && WithBody(code)
    ensures Gets(Run(e, State(0, c)), c.(status := code, sent := code, size := c.size + Total(texts)),
                 [Head(code)] + Bodies(texts))
  {
    HeaderServes(h, code, texts, c);
    AnswererEnds(e, n, h, c, Sending(c, code, texts), [Head(code)] + Bodies(texts));
    RunPasses(e, State(0, c), n, c, Sending(c, code, texts), [Head(code)] + Bodies(texts));
  }

  /** The same for a registry that is not the repository's own. */
  lemma {:induction false} CustomAnswers(
    chain: seq<Handler>, handle: Endpoint, code: int, texts: seq<string>, c: Core)
    requires AllPass(chain) && !c.Written()
    requires Says(handle, [Action.WriteHeader(code)] + Writes(texts)) && WithBody(code)
    ensures Gets(Run(RequestEngine(chain, Custom(handle)), State(0, c)),
                 c.(status := code, sent := code, size := c.size + Total(texts)),
                 [Dispatch(map[])] + ([Head(code)] + Bodies(texts)))
  {
    var log := [Head(code)] + Bodies(texts);
    HeaderServes(handle, code, texts, c);
    CustomEnds(chain, handle, c, Sending(c, code, texts), log);
    RunPasses(RequestEngine(chain, Custom(handle)), State(0, c), |chain|, c, Sending(c, code, texts), [Dispatch(map[])] + log);
  }

  lemma {:induction false} HeaderServes(h: Endpoint, code: int, texts: seq<string>, c: Core)
    requires Says(h, [Action.WriteHeader(code)] + Writes(texts)) && WithBody(code) && !c.Written()
    ensures ServesAs(h, c, Sending(c, code, texts), [Head(code)] + Bodies(texts))
  {
    BodiesAreBodies(texts);
    forall c': Core | Same(c, c')
      ensures ExecEndpoint(h, [c'], c')
              == Reaction(Returned, Sending(c, code, texts).(ctx := c'.ctx), [Head(code)] + Bodies(texts))
    {
      HeaderThenBodies(h, code, texts, c');
    }
  }

  lemma {:induction false} WritesServe(h: Endpoint, texts: seq<string>, c: Core)
    requires Says(h, Writes(texts)) && texts != [] && !c.Written()
    ensures ServesAs(h, c, Sending(c, 200, texts), [Head(200)] + Bodies(texts))
  {
    BodiesAreBodies(texts);
    forall c': Core | Same(c, c')
      ensures ExecEndpoint(h, [c'], c')
              == Reaction(Returned, Sending(c, 200, texts).(ctx := c'.ctx), [Head(200)] + Bodies(texts))
    {
      BodiesAlone(h, texts, c');
    }
  }

  function Sending(c: Core, code: int, texts: seq<string>): Core {
    c.(status := code, sent := code, size := c.size + Total(texts))
  }

  lemma {:induction false} BodiesAreBodies(texts: seq<string>)
    ensures forall k :: 0 <= k < |Bodies(texts)| ==> Bodies(texts)[k].Body?
  {
    if texts != [] {
      BodiesAreBodies(texts[1..]);
    }
  }

  lemma {:induction false} RouteSends(
    chain: seq<Handler>, inner: seq<Handler>, final: Endpoint, code: int, texts: seq<string>, c: Core)
    requires AllPass(chain) && AllPass(inner) && !c.Written() && code != 0
    requires ServesAs(final, c, Sending(c, code, texts), [Head(code)] + Bodies(texts))
    ensures Gets(Run(RequestEngine(chain, Routed(inner, final)), State(0, c)), Sending(c, code, texts),
                 [Dispatch(map[]), Final(map[]), Head(code)] + Bodies(texts))
  {
    var c1, log := Sending(c, code, texts), [Head(code)] + Bodies(texts);
    RouteEnds(inner, final, c, c1, log);
    RoutedEnds(chain, inner, final, c, c1, [Final(map[])] + log);
    RunPasses(RequestEngine(chain, Routed(inner, final)), State(0, c), |chain|, c, c1, [Dispatch(map[])] + ([Final(map[])] + log));
    Joined(Dispatch(map[]), Final(map[]), Head(code), Bodies(texts));
  }

  lemma Joined(x: Event, y: Event, z: Event, rest: seq<Event>)
    ensures [x] + ([y] + ([z] + rest)) == [x, y, z] + rest
  {
  }

  /** The same for a handler that only writes: the status is 200. */
  lemma {:induction false} RouteWrites(chain: seq<Handler>, inner: seq<Handler>, final: Endpoint, texts: seq<string>, c: Core)
    requires AllPass(chain) && AllPass(inner) && !c.Written()
    requires Says(final, Writes(texts)) && texts != []
    ensures Gets(Run(RequestEngine(chain, Routed(inner, final)), State(0, c)),
                 c.(status := 200, sent := 200, size := c.size + Total(texts)),
                 [Dispatch(map[]), Final(map[]), Head(200)] + Bodies(texts))
  {
    WritesServe(final, texts, c);
    RouteSends(chain, inner, final, 200, texts, c);
  }

  /** And for one that says nothing: it is called once, and the route answers 204 without a body. */
  lemma {:induction false} RouteIsSilent(chain: seq<Handler>, inner: seq<Handler>, final: Endpoint, c: Core)
    requires AllPass(chain) && AllPass(inner) && !c.Written() && Says(final, [])
    ensures Gets(Run(RequestEngine(chain, Routed(inner, final)), State(0, c)),
                 c.(status := 204, sent := 204),
                 [Dispatch(map[]), Final(map[]), NoContent(0), Head(204)])
  {
    var c1, deeds := c.(status := 204, sent := 204), [Final(map[]), NoContent(0), Head(204)];
    SilentRouteEnds(inner, final, c);
    RoutedEnds(chain, inner, final, c, c1, deeds);
    RunPasses(RequestEngine(chain, Routed(inner, final)), State(0, c), |chain|, c, c1, [Dispatch(map[])] + deeds);
  }

  /** Without a matching route, or without a registry: 404 and its line of text, from whoever is asked last. */
  lemma {:induction false} NobodyAnswers(chain: seq<Handler>, target: Target, c: Core)
    requires AllPass(chain) && !c.Written() && (target.Unrouted? || target.NoRegistry?)
    ensures Gets(Run(RequestEngine(chain, target), State(0, c)),
                 c.(status := 404, sent := 404, size := c.size + 19),
                 (if target.Unrouted? then [Dispatch(map[]), RegistryNotFound] else [EngineNotFound])
                 + [Head(404), Body("404 page not found\n")])
  {
    UnroutedEnds(chain, target, c);
    RunPasses(RequestEngine(chain, target), State(0, c), |chain|, c, Missed(c), Miss(target));
  }

  /** Logger and recovery pass requests on; so does every server whose other handlers do. */
  lemma ServerPasses(message: string, handlers: seq<Handler>)
    requires AllPass(handlers)
    ensures AllPass(D.Chain(message, handlers))
  {
    assert Passes(Logger().body) && Passes(Recovery(message).body);
  }

  lemma {:induction false} DeedsCount(log: seq<Event>, mark: Mark)
    ensures Count(Deeds(log), mark) == Count(log, mark)
  {
    if log != [] {
      DeedsCount(log[1..], mark);
      CountConcat(Deed(log[0]), Deeds(log[1..]), mark);
      assert Deed(log[0]) == [] || Deed(log[0])[1..] == [];
    }
  }

  /** What a response has become: its code, its size, and how often it was served. */
  ghost predicate Answered(r: Result, code: int, size: int) {
    && r.out.Returned? && r.st.core.status == code && r.st.core.sent == code && r.st.core.size == size
    && Count(r.log, Dispatches) == 1 && Count(r.log, Finals) == 1 && Count(r.log, Fallbacks) == 0
  }

  lemma {:induction false} ServedOnce(r: Result, c1: Core, code: int, texts: seq<string>)
    requires Gets(r, c1, [Dispatch(map[]), Final(map[]), Head(code)] + Bodies(texts)) && c1.status == c1.sent == code
    ensures Answered(r, code, c1.size)
  {
    var deeds := [Dispatch(map[]), Final(map[]), Head(code)];
    BodiesAreBodies(texts);
    forall mark: Mark
      ensures Count(r.log, mark) == Count(deeds, mark)
    {
      DeedsCount(r.log, mark);
      CountConcat(deeds, Bodies(texts), mark);
      CountNone(Bodies(texts), mark);
    }
    CountThree(Dispatch(map[]), Final(map[]), Head(code));
  }

  lemma CountThree(x: Event, y: Event, z: Event)
    ensures forall mark :: Count([x, y, z], mark) == Count([x], mark) + Count([y], mark) + Count([z], mark)
    ensures forall mark :: Count([x], mark) == if Marks(mark, x) then 1 else 0
    ensures forall mark :: Count([y], mark) == if Marks(mark, y) then 1 else 0
    ensures forall mark :: Count([z], mark) == if Marks(mark, z) then 1 else 0
  {
    assert [x, y, z][1..] == [y, z] && [y, z][1..] == [z];
    assert [x][1..] == [] && [y][1..] == [] && [z][1..] == [];
    assert forall mark :: Count([y, z], mark) == Count([y], mark) + Count([z], mark);
  }

  /**
   Every request of a server whose other handlers only pass it on, to a route whose handlers do so too:
   what the route's own handler sends is what is recorded, and it is called once.
   */
  lemma {:induction false} ServerAnswers(
    message: string, handlers: seq<Handler>, inner: seq<Handler>, final: Endpoint, code: int, texts: seq<string>, ctx: Ctx)
    requires AllPass(handlers) && AllPass(inner)
    requires || (Says(final, [Action.WriteHeader(code)] + Writes(texts)) && WithBody(code))
             || (Says(final, Writes(texts)) && texts != [] && code == 200)
    ensures Answered(Run(RequestEngine(D.Chain(message, handlers), Routed(inner, final)), State(0, Core(ctx, 0, 0, 0))),
                     code, Total(texts))
  {
    var chain, c := D.Chain(message, handlers), Core(ctx, 0, 0, 0);
    ServerPasses(message, handlers);
    if Says(final, Writes(texts)) && texts != [] && code == 200 {
      RouteWrites(chain, inner, final, texts, c);
    } else {
      RouteAnswers(chain, inner, final, code, texts, c);
    }
    ServedOnce(Run(RequestEngine(chain, Routed(inner, final)), State(0, c)), Sending(c, code, texts), code, texts);
  }

  /**
   From registration to answer: a route that is added under a version answers the requests that the
   version and its pattern accept, when no route of the method did so before.
   */
  lemma {:induction false} RegisteredAnswers(
    re: P.Regexp, s: R.Registry, version: string, op: R.Op, requested: string, path: string,
    message: string, handlers: seq<Handler>, code: int, texts: seq<string>, ctx: Ctx)
    requires op.AddRoute? && R.ToUpper(requested) == op.verb
    requires P.Compiles(re, version + op.pattern) && P.Accepts(re, version + op.pattern, path)
    requires forall k :: 0 <= k < |s.Of(op.verb)| ==> !s.Of(op.verb)[k].Matches(re, path)
    requires AllPass(handlers) && AllPass(op.chain)
    requires || (Says(op.final, [Action.WriteHeader(code)] + Writes(texts)) && WithBody(code))
             || (Says(op.final, Writes(texts)) && texts != [] && code == 200)
    ensures var added := R.Play(re, s, [R.SetApiVersion(version), op]);
            var target := R.ResolveIn(re, added.Of(R.ToUpper(requested)), path);
            Answered(Run(RequestEngine(D.Chain(message, handlers), target), State(0, Core(ctx, 0, 0, 0))), code, Total(texts))
  {
    R.AddedRuns(re, s, version, op, [], requested, path);
    ServerAnswers(message, handlers, op.chain, op.final, code, texts, ctx);
  }
}
