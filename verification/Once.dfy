/**
 Dispatch happens at most once per request.

 A recovering handler that leaves the response unwritten makes the loop go on, and the registry is
 asked a second time.  The registry is asked at most once exactly when every function that recovers
 gets an unanswered request answered, or panics again, before it returns or calls Next.
 */
module Once {
  import opened Handlers
  import opened Machine
  import opened Logs
  import opened Order
  import opened Accounting

  /**
   With `c` to go on with, the handler gets the response written, or panics, before it returns or calls
   Next; if it panics and defers a function of its own, then that function does.
   */
  predicate Settles(h: Handler, seen: seq<Core>, c: Core)
    decreases h, h.body.bound - |seen|
  {
    c.Written() ||
    (|seen| <= h.body.bound &&
     var a := h.body.act(seen);
     !a.Return? && !a.Next? &&
     var w := Step(1, c, a);
     if w.out.Panicked? then h.rescue.Some? ==> Settles(h.rescue.value, [w.core], w.core)
     else Settles(h, seen + [w.core], w.core))
  }

  /** A recovering function that leaves no request unanswered, unless it panics again. */
  ghost predicate Answers(rescue: Handler) {
    forall c: Core :: Settles(rescue, [c], c)
  }

  ghost predicate AllAnswer(chain: seq<Handler>) {
    forall k :: 0 <= k < |chain| && chain[k].rescue.Some? ==> Answers(chain[k].rescue.value)
  }

  /** The condition on a request's handlers, and on those of the route it matches. */
  ghost predicate Answering(e: Engine) {
    && AllAnswer(e.chain)
    && (e.RequestEngine? && e.target.Routed? ==> AllAnswer(e.target.chain))
  }

  /** A registry of this repository, or none, is bound. */
  predicate OwnRegistry(e: Engine) {
    e.RequestEngine? ==> !e.target.Custom?
  }

  /** Dispatches depend on the request's own handlers only, 204 fallbacks on none. */
  ghost predicate Guarded(e: Engine, mark: Mark) {
    match mark
    case Dispatches => AllAnswer(e.chain)
    case Finals => Answering(e)
    case Fallbacks => OwnRegistry(e)
  }

  /** At most one service, none if the response still is not written. */
  ghost predicate AtMostOne(mark: Mark, r: Result) {
    && Count(r.log, mark) <= (if mark.Fallbacks? then 0 else 1)
    && (r.out.Returned? && !r.st.Written() ==> Count(r.log, mark) == 0)
  }

  lemma UnservedCountsNone(log: seq<Event>, mark: Mark)
    requires Unserved(log) && !mark.Fallbacks?
    ensures Count(log, mark) == 0
  {
    CountNone(log, mark);
  }

  lemma {:induction false} WrittenCountsNone(e: Engine, who: nat, script: Script, seen: seq<Core>, s: State, mark: Mark)
    requires s.Written() && !mark.Fallbacks?
    ensures Count(Exec(e, who, script, seen, s).log, mark) == 0
  {
    WrittenServesNothing(e, who, script, seen, s);
    UnservedCountsNone(Exec(e, who, script, seen, s).log, mark);
  }

  lemma {:induction false} ExecOnce(e: Engine, who: nat, script: Script, seen: seq<Core>, s: State, mark: Mark)
    requires Guarded(e, mark)
    ensures AtMostOne(mark, Exec(e, who, script, seen, s))
    decreases e.Level(), e.Measure(s.index), 0, script.bound - |seen|
  {
    if !(|seen| > script.bound || script.act(seen).Return?) {
      var a := script.act(seen);
      if a.Next? {
        CallNextOnce(e, who, s, mark);
        var r := CallNext(e, who, s);
        if r.out.Returned? {
          ExecOnce(e, who, script, seen + [r.st.core], r.st, mark);
          AfterNext(e, who, script, seen + [r.st.core], r, mark);
        }
      } else {
        var w := Step(e.Level(), s.core, a);
        CountNone(w.log, mark);
        if w.out.Returned? {
          var s' := s.(core := w.core);
          ExecOnce(e, who, script, seen + [s'.core], s', mark);
          CountConcat(w.log, Exec(e, who, script, seen + [s'.core], s').log, mark);
        }
      }
    }
  }

  /** What follows a call of Next that returned adds nothing. */
  lemma {:induction false} AfterNext(e: Engine, who: nat, script: Script, seen: seq<Core>, r: Result, mark: Mark)
    requires r.st.Written()
    requires mark.Fallbacks? ==> AtMostOne(mark, Exec(e, who, script, seen, r.st))
    ensures Count(r.log + Exec(e, who, script, seen, r.st).log, mark) == Count(r.log, mark)
  {
    CountConcat(r.log, Exec(e, who, script, seen, r.st).log, mark);
    if !mark.Fallbacks? {
      WrittenCountsNone(e, who, script, seen, r.st, mark);
    }
  }

  lemma {:induction false} CallNextOnce(e: Engine, who: nat, s: State, mark: Mark)
    requires Guarded(e, mark)
    ensures AtMostOne(mark, CallNext(e, who, s))
    decreases e.Level(), 2 * e.Left(s.index + 1), 3
  {
    var s' := s.(index := s.index + 1);
    RunOnce(e, s', mark);
    var call := [Called(e.Level(), who, s.index, s.Written())];
    CountNone(call, mark);
    CountConcat(call, Run(e, s').log, mark);
  }

  /** A body that settles the request serves nothing any more, and hands a panic on to one that does. */
  lemma {:induction false} SettledExec(e: Engine, who: nat, h: Handler, seen: seq<Core>, s: State, mark: Mark)
    requires Settles(h, seen, s.core) && !mark.Fallbacks?
    ensures var r := Exec(e, who, h.body, seen, s);
            && Count(r.log, mark) == 0
            && (r.out.Returned? ==> r.st.Written())
            && (r.out.Panicked? && h.rescue.Some? ==> Settles(h.rescue.value, [r.st.core], r.st.core))
    decreases h.body.bound - |seen|
  {
    if s.Written() {
      WrittenCountsNone(e, who, h.body, seen, s, mark);
    } else {
      var w := Step(e.Level(), s.core, h.body.act(seen));
      CountNone(w.log, mark);
      if w.out.Returned? {
        var s' := s.(core := w.core);
        SettledExec(e, who, h, seen + [s'.core], s', mark);
        CountConcat(w.log, Exec(e, who, h.body, seen + [s'.core], s').log, mark);
      }
    }
  }

  /** A function that settles an unanswered request serves nothing any more. */
  lemma {:induction false} SettledInvoke(e: Engine, who: nat, h: Handler, s: State, mark: Mark)
    requires Settles(h, [s.core], s.core) && !mark.Fallbacks?
    ensures var r := Invoke(e, who, h, s);
            Count(r.log, mark) == 0 && (r.out.Returned? ==> r.st.Written())
    decreases h
  {
    SettledExec(e, who, h, [s.core], s, mark);
    var r := Exec(e, who, h.body, [s.core], s);
    if r.out.Panicked? && h.rescue.Some? {
      SettledInvoke(e, who, h.rescue.value, r.st, mark);
      CaughtCounts(e, who, r.log, Invoke(e, who, h.rescue.value, r.st).log, mark);
    }
  }

  lemma {:induction false} CaughtCounts(e: Engine, who: nat, a: seq<Event>, b: seq<Event>, mark: Mark)
    ensures Count(a + [Caught(e.Level(), who)] + b, mark) == Count(a, mark) + Count(b, mark)
  {
    var caught := [Caught(e.Level(), who)];
    CountNone(caught, mark);
    CountConcat(a, caught, mark);
    CountConcat(a + caught, b, mark);
  }

  lemma {:induction false} InvokeOnce(e: Engine, who: nat, h: Handler, s: State, mark: Mark)
    requires Guarded(e, mark) && (h.rescue.Some? && !mark.Fallbacks? ==> Answers(h.rescue.value))
    ensures AtMostOne(mark, Invoke(e, who, h, s))
    decreases e.Level(), e.Measure(s.index), 1, h
  {
    var r := Exec(e, who, h.body, [s.core], s);
    ExecOnce(e, who, h.body, [s.core], s, mark);
    if r.out.Panicked? && h.rescue.Some? {
      CaughtCounts(e, who, r.log, Invoke(e, who, h.rescue.value, r.st).log, mark);
      if mark.Fallbacks? {
        InvokeOnce(e, who, h.rescue.value, r.st, mark);
      } else {
        SettledInvoke(e, who, h.rescue.value, r.st, mark);
      }
    }
  }

  /** One run of the engine, and everything nested in it, serves at most once. */
  lemma {:induction false} RunOnce(e: Engine, s: State, mark: Mark)
    requires Guarded(e, mark)
    ensures AtMostOne(mark, Run(e, s))
    decreases e.Level(), 2 * e.Left(s.index), 2
  {
    if s.index < |e.chain| {
      var enter := [Enter(e.Level(), s.index, s.Written())];
      var r := Invoke(e, s.index, e.chain[s.index], s);
      InvokeOnce(e, s.index, e.chain[s.index], s, mark);
      CountNone(enter, mark);
      CountConcat(enter, r.log, mark);
      if r.out.Returned? && !r.st.Written() {
        var s' := r.st.(index := r.st.index + 1);
        RunOnce(e, s', mark);
        CountConcat(enter + r.log, Run(e, s').log, mark);
      }
    } else {
      TailOnce(e, s, mark);
    }
  }

  lemma {:induction false} TailOnce(e: Engine, s: State, mark: Mark)
    requires Guarded(e, mark)
    ensures AtMostOne(mark, Tail(e, s))
    decreases e.Level(), 0, 1
  {
    if e.RouteEngine? {
      RouteTailOnce(e, s, mark);
    } else if s.Written() || e.target.NoRegistry? {
      CountNone(Tail(e, s).log, mark);
    } else {
      var w := Handle(e.target, s.core);
      HandleOnce(e.target, s.core, mark);
      if w.out.Returned? && !w.core.Written() {
        FallbackOnce(w, mark);
      }
    }
  }

  lemma FallbackOnce(w: Reaction, mark: Mark)
    requires !mark.Fallbacks?
    ensures Count(w.log + [NoContent(1)] + HttpError(w.core, "", 204).log, mark) == Count(w.log, mark)
  {
    var n := HttpError(w.core, "", 204);
    CountConcat(w.log + [NoContent(1)], n.log, mark);
    CountConcat(w.log, [NoContent(1)], mark);
    CountNone(n.log, mark);
    CountNone([NoContent(1)], mark);
  }

  lemma {:induction false} RouteTailOnce(e: Engine, s: State, mark: Mark)
    requires e.RouteEngine?
    ensures AtMostOne(mark, Tail(e, s))
  {
    var log := Tail(e, s).log;
    if !s.Written() {
      EndpointIsPlain(e.final, [s.core], s.core);
      assert log[0] == Final(s.core.ctx);
      CountNone(log[1..], mark);
    }
  }

  /** registry.Handle returns with the response written, so the 204 after it is never sent. */
  lemma {:induction false} HandleOnce(target: Target, c: Core, mark: Mark)
    requires !target.NoRegistry?
    requires mark.Fallbacks? ==> !target.Custom?
    requires mark.Finals? && target.Routed? ==> AllAnswer(target.chain)
    ensures var w := Handle(target, c);
            && Count(w.log, mark) <= (if mark.Fallbacks? then 0 else 1)
            && (w.out.Returned? && !target.Custom? ==> w.core.Written())
    decreases 1, 0, 0
  {
    var w := Handle(target, c);
    HandleOnRoute(target, c);
    assert w.log == [w.log[0]] + w.log[1..];
    CountConcat([w.log[0]], w.log[1..], mark);
    if target.Routed? && mark.Finals? {
      var e := RouteEngine(target.chain, target.final);
      RunOnce(e, State(0, c), mark);
      assert w.log[1..] == Run(e, State(0, c)).log;
    } else if target.Routed? {
      CountNone(w.log[1..], mark);
    } else {
      if target.Custom? {
        EndpointIsPlain(target.handle, [c], c);
      }
      CountNone(w.log[1..], mark);
    }
  }

  /**
   A request is dispatched at most once when its own handlers answer what they recover from; it
   reaches at most one route handler when the route's handlers do so too; and with the repository's
   own registry the fallback 204 after dispatch is never sent, whatever the handlers do.
   */
  lemma {:induction false} ServedAtMostOnce(e: Engine, s: State)
    requires e.RequestEngine?
    ensures AllAnswer(e.chain) ==> Count(Run(e, s).log, Dispatches) <= 1
    ensures Answering(e) ==> Count(Run(e, s).log, Finals) <= 1
    ensures OwnRegistry(e) ==> Count(Run(e, s).log, Fallbacks) == 0
  {
    if OwnRegistry(e) {
      RunOnce(e, s, Fallbacks);
    }
    if AllAnswer(e.chain) {
      RunOnce(e, s, Dispatches);
    }
    if Answering(e) {
      RunOnce(e, s, Finals);
    }
  }

  // ----- the condition is necessary -----

  /** All handlers of the request, and of its route, that recover do it with this function. */
  ghost predicate RecoversWith(e: Engine, rescue: Handler)
    decreases e.Level()
  {
    && (forall k :: 0 <= k < |e.chain| && e.chain[k].rescue.Some? ==> e.chain[k].rescue.value == rescue)
    && (e.RequestEngine? && e.target.Routed? ==> RecoversWith(RouteEngine(e.target.chain, e.target.final), rescue))
  }

  /** A middleware that calls Next and recovers with this function. */
  function Around(rescue: Handler): Handler {
    Handler(Script(1, (seen: seq<Core>) => Next), Some(rescue))
  }

  function Crash(): Endpoint {
    Endpoint(1, (seen: seq<Core>) => Panic)
  }

  /** Such a middleware in front of a route that panics at once. */
  function Crashing(rescue: Handler): Engine {
    RequestEngine([Around(rescue)], Routed([], Crash()))
  }

  lemma {:induction false} CrashTail(e: Engine, s: State, mark: Mark)
    requires e.RequestEngine? && e.target == Routed([], Crash()) && !s.Written()
    ensures Tail(e, s) == Result(Panicked, s, [Dispatch(s.core.ctx), Final(s.core.ctx), Raise])
    ensures !mark.Fallbacks? ==> Count(Tail(e, s).log, mark) == 1
  {
    var c := s.core;
    assert ExecEndpoint(Crash(), [c], c) == Reaction(Panicked, c, [Raise]);
    assert Run(RouteEngine([], Crash()), State(0, c)) == Result(Panicked, State(0, c), [Final(c.ctx), Raise]);
    assert Handle(e.target, c) == Reaction(Panicked, c, [Dispatch(c.ctx), Final(c.ctx), Raise]);
    ServedCounts(c.ctx, mark);
  }

  lemma ServedCounts(ctx: Ctx, mark: Mark)
    ensures !mark.Fallbacks? ==> Count([Dispatch(ctx), Final(ctx), Raise], mark) == 1
  {
    var log := [Dispatch(ctx), Final(ctx), Raise];
    assert log[1..] == [Final(ctx), Raise] && [Final(ctx), Raise][1..] == [Raise] && [Raise][1..] == [];
    assert Count([Raise], mark) == 0;
    assert Count([Final(ctx), Raise], mark) == if mark.Finals? then 1 else 0;
  }

  lemma {:induction false} CrashNext(rescue: Handler, s: State, mark: Mark)
    requires !s.Written() && !mark.Fallbacks?
    ensures var r := CallNext(Crashing(rescue), 0, s);
            r.out.Panicked? && r.st == s.(index := s.index + 1) && Count(r.log, mark) == 1
  {
    var e, s' := Crashing(rescue), s.(index := s.index + 1);
    CrashTail(e, s', mark);
    var call := [Called(1, 0, s.index, false)];
    assert Run(e, s') == Tail(e, s');
    CountConcat(call, Run(e, s').log, mark);
    CountNone(call, mark);
  }

  /** A body that does not settle the request goes on to the registry, returns, or leaves it to one that does not. */
  lemma {:induction false} UnsettledExec(rescue: Handler, h: Handler, seen: seq<Core>, s: State, mark: Mark)
    requires !Settles(h, seen, s.core) && s.index >= 1 && !mark.Fallbacks?
    ensures var r := Exec(Crashing(rescue), 0, h.body, seen, s);
            || Count(r.log, mark) >= 1
            || (r.out.Returned? && !r.st.Written())
            || (r.out.Panicked? && h.rescue.Some? && !Settles(h.rescue.value, [r.st.core], r.st.core))
    decreases h.body.bound - |seen|
  {
    var e := Crashing(rescue);
    if !(|seen| > h.body.bound || h.body.act(seen).Return?) {
      var a := h.body.act(seen);
      if a.Next? {
        CrashNext(rescue, s, mark);
      } else {
        var w := Step(1, s.core, a);
        if w.out.Returned? {
          var s' := s.(core := w.core);
          UnsettledExec(rescue, h, seen + [s'.core], s', mark);
          CountConcat(w.log, Exec(e, 0, h.body, seen + [s'.core], s').log, mark);
        }
      }
    }
  }

  lemma {:induction false} UnsettledRescue(rescue: Handler, h: Handler, s: State, mark: Mark)
    requires !Settles(h, [s.core], s.core) && s.index >= 1 && !mark.Fallbacks?
    ensures var r := Invoke(Crashing(rescue), 0, h, s);
            Count(r.log, mark) >= 1 || (r.out.Returned? && !r.st.Written())
    decreases h
  {
    var e := Crashing(rescue);
    UnsettledExec(rescue, h, [s.core], s, mark);
    var r := Exec(e, 0, h.body, [s.core], s);
    if r.out.Panicked? && h.rescue.Some? {
      CaughtCounts(e, 0, r.log, Invoke(e, 0, h.rescue.value, r.st).log, mark);
      if Count(r.log, mark) == 0 {
        UnsettledRescue(rescue, h.rescue.value, r.st, mark);
      }
    }
  }

  /** The call of Next runs into the route's panic, and the recovering function takes over. */
  lemma {:induction false} UnsettledInvoke(rescue: Handler, c: Core, mark: Mark)
    requires !Settles(rescue, [c], c) && !mark.Fallbacks?
    ensures var r := Invoke(Crashing(rescue), 0, Around(rescue), State(0, c));
            Count(r.log, mark) >= 2
            || (Count(r.log, mark) >= 1 && r.st.index >= 1 && r.out.Returned? && !r.st.Written())
  {
    var e, h := Crashing(rescue), Around(rescue);
    CrashNext(rescue, State(0, c), mark);
    var r := Exec(e, 0, h.body, [c], State(0, c));
    assert r == CallNext(e, 0, State(0, c));
    UnsettledRescue(rescue, rescue, State(1, c), mark);
    CaughtCounts(e, 0, r.log, Invoke(e, 0, rescue, State(1, c)).log, mark);
  }

  /** A middleware that recovers without settling: the request is served twice. */
  lemma {:induction false} UnsettledServesTwice(rescue: Handler, c: Core, mark: Mark)
    requires !Settles(rescue, [c], c) && !mark.Fallbacks?
    ensures Count(Run(Crashing(rescue), State(0, c)).log, mark) >= 2
  {
    var e, enter := Crashing(rescue), [Enter(1, 0, false)];
    UnsettledInvoke(rescue, c, mark);
    var r := Invoke(e, 0, Around(rescue), State(0, c));
    CountConcat(enter, r.log, mark);
    if r.out.Returned? && !r.st.Written() {
      var s' := r.st.(index := r.st.index + 1);
      CrashTail(e, s', mark);
      assert Run(e, s') == Tail(e, s');
      CountConcat(enter + r.log, Run(e, s').log, mark);
    }
  }

  lemma {:induction false} RecoveringAnswers(e: Engine, rescue: Handler)
    requires e.RequestEngine? && RecoversWith(e, rescue) && Answers(rescue)
    ensures AllAnswer(e.chain) && Answering(e)
  {
    if e.target.Routed? {
      assert RecoversWith(RouteEngine(e.target.chain, e.target.final), rescue);
    }
  }

  /**
   Exactly which functions may recover from a panic: every request whose handlers recover with this
   function, if at all, is dispatched at most once, and reaches a route's handler at most once, if and
   only if the function settles whatever unanswered request it is left with.
   */
  lemma {:induction false} RescuesThatServeOnce(rescue: Handler, mark: Mark)
    requires !mark.Fallbacks?
    ensures (forall e: Engine, c: Core :: e.RequestEngine? && RecoversWith(e, rescue) && !c.Written()
                                          ==> Count(Run(e, State(0, c)).log, mark) <= 1)
            <==> Answers(rescue)
  {
    if Answers(rescue) {
      forall e: Engine, c: Core | e.RequestEngine? && RecoversWith(e, rescue)
        ensures Count(Run(e, State(0, c)).log, mark) <= 1
      {
        RecoveringAnswers(e, rescue);
        ServedAtMostOnce(e, State(0, c));
      }
    } else {
      var c: Core :| !Settles(rescue, [c], c);
      UnsettledServesTwice(rescue, c, mark);
      assert RecoversWith(Crashing(rescue), rescue);
    }
  }

  function Swallow(): Handler {
    Handler(Script(0, (seen: seq<Core>) => Return), None)
  }

  /** For example, a middleware that swallows a panic without answering. */
  lemma {:induction false} SwallowingDispatchesTwice(c: Core)
    requires !c.Written()
    ensures Count(Run(Crashing(Swallow()), State(0, c)).log, Dispatches) >= 2
  {
    UnsettledServesTwice(Swallow(), c, Dispatches);
  }

  /** The usual recovering functions are fine: answer at once, answer if nothing is written, or panic again. */
  lemma UsualRescues(code: int, message: string)
    requires ValidCode(code)
    ensures Answers(Recovery(message).rescue.value)
    ensures Answers(Handler(Script(1, (seen: seq<Core>) => if seen != [] && seen[0].Written() then Return else WriteHeader(code)), None))
    ensures Answers(Handler(Script(1, (seen: seq<Core>) => Panic), None))
  {
  }
}
