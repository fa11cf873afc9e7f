/**
 Contexts nest: each middleware that derives a context around Next and restores the one it found
 gives the route the composition of all of them, and leaves nothing behind.

 A panic that is recovered further out unwinds such middlewares before they restore the context, so
 what is said here ends where the first panic is caught.
 */
module Nesting {
  import opened Handlers
  import opened Machine
  import opened Logs
  import opened Order
  import opened Accounting
  import opened Once
  import opened Seqs
  import D = DefaultChain

  /** A middleware of a nesting chain: it derives a context, or leaves the context alone and may recover. */
  datatype Middle = Derive(f: Ctx -> Ctx) | Leave(script: Script, rescue: Option<Handler>) {
    function Build(): Handler {
      if Derive? then Bracket(f) else Handler(script, rescue)
    }
  }

  /** A body that never updates the context. */
  ghost predicate Quiet(m: Middle) {
    m.Leave? ==> forall seen: seq<Core> :: !m.script.act(seen).Update?
  }

  ghost predicate AllQuiet(ms: seq<Middle>) {
    forall k :: 0 <= k < |ms| ==> Quiet(ms[k])
  }

  function BuildAll(ms: seq<Middle>): (chain: seq<Handler>)
    ensures |chain| == |ms|
    ensures forall k :: 0 <= k < |ms| ==> chain[k] == ms[k].Build()
  {
    seq(|ms|, k requires 0 <= k < |ms| => ms[k].Build())
  }

  /** The context below the middlewares from i on, for a context c above them. */
  function Compose(ms: seq<Middle>, i: nat, c: Ctx): Ctx
    decreases |ms| - i
  {
    if i >= |ms| then c
    else Compose(ms, i + 1, if ms[i].Derive? then ms[i].f(c) else c)
  }

  /** A chain of such middlewares; a matched route's own chain is of that kind too. */
  datatype Setup = Setup(ms: seq<Middle>, inner: seq<Middle>, e: Engine) {
    ghost predicate Valid() {
      && AllQuiet(ms) && AllQuiet(inner)
      && e.chain == BuildAll(ms)
      && (e.RequestEngine? && e.target.Routed? ==> e.target.chain == BuildAll(inner))
    }

    /** What a route's handler gets, when the registry is asked with context x. */
    function Route(x: Ctx): Ctx {
      if e.RequestEngine? then Compose(inner, 0, x) else x
    }
  }

  // ----- what is served before the first panic is caught -----

  /** Until something is caught, the registry gets context x, and the route's handler context y. */
  ghost predicate Delivered(log: seq<Event>, x: Ctx, y: Ctx) {
    log == [] || log[0].Caught? ||
    (&& (log[0].Dispatch? ==> log[0].ctx == x)
     && (log[0].Final? ==> log[0].ctx == y)
     && Delivered(log[1..], x, y))
  }

  ghost predicate NothingCaught(log: seq<Event>) {
    forall k :: 0 <= k < |log| ==> !log[k].Caught?
  }

  lemma {:induction false} DeliveredConcat(a: seq<Event>, b: seq<Event>, x: Ctx, y: Ctx)
    requires Delivered(a, x, y) && (!NothingCaught(a) || Delivered(b, x, y))
    ensures Delivered(a + b, x, y)
  {
    if a == [] {
      assert a + b == b;
    } else if !a[0].Caught? {
      assert NothingCaught(a[1..]) ==> NothingCaught(a) by {
        assert a == [a[0]] + a[1..];
      }
      DeliveredConcat(a[1..], b, x, y);
      assert (a + b)[1..] == a[1..] + b;
    }
  }

  lemma {:induction false} UnservedDelivered(log: seq<Event>, x: Ctx, y: Ctx)
    requires Unserved(log)
    ensures Delivered(log, x, y)
  {
    if log != [] {
      assert !Serves(log[0]);
      assert forall k :: 0 <= k < |log[1..]| ==> log[1..][k] == log[k + 1];
      UnservedDelivered(log[1..], x, y);
    }
  }

  /** A route's run is not dispatched itself. */
  lemma {:induction false} RouteDelivered(log: seq<Event>, x: Ctx, x': Ctx, y: Ctx)
    requires OnRoute(log) && Delivered(log, x, y)
    ensures Delivered(log, x', y)
  {
    if log != [] && !log[0].Caught? {
      assert RouteLevel(log[0]);
      assert forall k :: 0 <= k < |log[1..]| ==> log[1..][k] == log[k + 1];
      RouteDelivered(log[1..], x, x', y);
    }
  }

  /** Delivered, read as a statement about all the events of a log. */
  lemma {:induction false} DeliveredMeans(log: seq<Event>, x: Ctx, y: Ctx)
    requires Delivered(log, x, y)
    ensures forall k :: 0 <= k < |log| && NothingCaught(log[..k]) ==>
              (log[k].Dispatch? ==> log[k].ctx == x) && (log[k].Final? ==> log[k].ctx == y)
  {
    if log != [] {
      if !log[0].Caught? {
        DeliveredMeans(log[1..], x, y);
      }
      forall k | 1 <= k < |log| && NothingCaught(log[..k])
        ensures (log[k].Dispatch? ==> log[k].ctx == x) && (log[k].Final? ==> log[k].ctx == y)
      {
        assert log[..k][0] == log[0];
        assert log[1..][..k - 1] == log[..k][1..];
        assert log[1..][k - 1] == log[k];
      }
    }
  }

  // ----- one run -----

  /**
   From s, r serves what context x calls for, and ends with the context of s, until something is caught.
   */
  ghost predicate Nested(u: Setup, s: State, x: Ctx, r: Result) {
    Restores(u, s, r) && Delivered(r.log, x, u.Route(x))
  }

  lemma {:induction false} NestedMark(u: Setup, s: State, x: Ctx, mark: Event, r: Result)
    requires Nested(u, s, x, r) && (mark.Enter? || mark.Called? || mark.Updated?)
    ensures Nested(u, s, x, r.After([mark]))
  {
    DeliveredConcat([mark], r.log, x, u.Route(x));
    AnyConcat(Catches(u.e.Level()), [mark], r.log);
    AnyOne(Catches(u.e.Level()), mark);
  }

  lemma {:induction false} NestedThen(u: Setup, s: State, x: Ctx, r: Result, r': Result)
    requires Nested(u, s, x, r) && r.out.Returned?
    requires Any(Catches(u.e.Level()), r.log) || Nested(u, s, x, r')
    ensures Nested(u, s, x, r'.After(r.log))
  {
    DeliveredConcat(r.log, r'.log, x, u.Route(x));
    AnyConcat(Catches(u.e.Level()), r.log, r'.log);
  }

  lemma {:induction false} WrittenDelivered(u: Setup, who: nat, script: Script, seen: seq<Core>, s: State, x: Ctx)
    requires s.Written()
    ensures Delivered(Exec(u.e, who, script, seen, s).log, x, u.Route(x))
  {
    WrittenServesNothing(u.e, who, script, seen, s);
    UnservedDelivered(Exec(u.e, who, script, seen, s).log, x, u.Route(x));
  }

  ghost predicate Restores(u: Setup, s: State, r: Result) {
    r.out.Returned? && !Any(Catches(u.e.Level()), r.log) ==> r.st.core.ctx == s.core.ctx
  }

  lemma {:induction false} RestoresThen(u: Setup, s: State, r: Result, r': Result)
    requires r.out.Returned? && Restores(u, s, r) && Restores(u, r.st, r')
    ensures Restores(u, s, r'.After(r.log))
  {
    AnyConcat(Catches(u.e.Level()), r.log, r'.log);
  }

  /** The body of a middleware that leaves the context alone does so, with all that Next does. */
  lemma {:induction false} QuietRestores(u: Setup, who: nat, seen: seq<Core>, s: State)
    requires u.Valid() && who < |u.ms| && u.ms[who].Leave?
    ensures Restores(u, s, Exec(u.e, who, u.ms[who].script, seen, s))
    decreases u.e.Level(), u.e.Measure(s.index), 0, u.ms[who].script.bound - |seen|
  {
    var e, script := u.e, u.ms[who].script;
    if !(|seen| > script.bound || script.act(seen).Return?) {
      var a := script.act(seen);
      assert !a.Update?;
      if a.Next? {
        var r := CallNext(e, who, s);
        NextNested(u, who, s);
        if r.out.Returned? {
          QuietRestores(u, who, seen + [r.st.core], r.st);
          RestoresThen(u, s, r, Exec(e, who, script, seen + [r.st.core], r.st));
        }
      } else {
        var w := Step(e.Level(), s.core, a);
        if w.out.Returned? {
          var s' := s.(core := w.core);
          QuietRestores(u, who, seen + [s'.core], s');
          assert Restores(u, s, Result(Returned, s', w.log));
          RestoresThen(u, s, Result(Returned, s', w.log), Exec(e, who, script, seen + [s'.core], s'));
        }
      }
    }
  }

  lemma {:induction false} NextNested(u: Setup, who: nat, s: State)
    requires u.Valid()
    ensures Nested(u, s, Compose(u.ms, s.index + 1, s.core.ctx), CallNext(u.e, who, s))
    decreases u.e.Level(), 2 * u.e.Left(s.index + 1), 3
  {
    var s' := s.(index := s.index + 1);
    RunNested(u, s');
    NestedMark(u, s, Compose(u.ms, s'.index, s.core.ctx), Called(u.e.Level(), who, s.index, s.Written()), Run(u.e, s'));
  }

  /** Such a body, running at its own index on an unanswered request, hands on the context it found. */
  lemma {:induction false} QuietDelivers(u: Setup, who: nat, seen: seq<Core>, s: State, x: Ctx)
    requires u.Valid() && who < |u.ms| && u.ms[who].Leave?
    requires !s.Written() && s.index == who && x == Compose(u.ms, who + 1, s.core.ctx)
    ensures var r := Exec(u.e, who, u.ms[who].script, seen, s);
            && Delivered(r.log, x, u.Route(x))
            && (r.st.Written() || r.out.Panicked? || r.st.index == who)
    decreases u.e.Level(), u.e.Measure(s.index), 0, u.ms[who].script.bound - |seen|
  {
    var e, script, y := u.e, u.ms[who].script, u.Route(x);
    if !(|seen| > script.bound || script.act(seen).Return?) {
      var a := script.act(seen);
      assert !a.Update?;
      if a.Next? {
        var r := CallNext(e, who, s);
        NextNested(u, who, s);
        if r.out.Returned? {
          WrittenDelivered(u, who, script, seen + [r.st.core], r.st, x);
          DeliveredConcat(r.log, Exec(e, who, script, seen + [r.st.core], r.st).log, x, y);
        }
      } else {
        var w := Step(e.Level(), s.core, a);
        UnservedDelivered(w.log, x, y);
        if w.out.Returned? {
          var s' := s.(core := w.core);
          WrittenDelivered(u, who, script, seen + [s'.core], s', x);
          DeliveredConcat(w.log, Exec(e, who, script, seen + [s'.core], s').log, x, y);
        }
      }
    }
  }

  /** The body of such a middleware, called by the loop. */
  lemma {:induction false} QuietNested(u: Setup, s: State)
    requires u.Valid() && s.index < |u.ms| && u.ms[s.index].Leave?
    ensures var r := Exec(u.e, s.index, u.ms[s.index].script, [s.core], s);
            && Nested(u, s, Compose(u.ms, s.index, s.core.ctx), r)
            && (r.st.Written() || r.out.Panicked? || r.st.index == s.index)
    decreases u.e.Level(), u.e.Measure(s.index), 1, 0
  {
    var x := Compose(u.ms, s.index, s.core.ctx);
    QuietRestores(u, s.index, [s.core], s);
    if s.Written() {
      WrittenDelivered(u, s.index, u.ms[s.index].script, [s.core], s, x);
    } else {
      QuietDelivers(u, s.index, [s.core], s, x);
    }
  }

  /** Bracket, run: derive, run the inner chain and, if that returns, restore. */
  lemma {:induction false} BracketRun(e: Engine, who: nat, f: Ctx -> Ctx, s: State)
    ensures var c, d := s.core.ctx, f(s.core.ctx);
            var r := CallNext(e, who, s.(core := s.core.(ctx := d)));
            Invoke(e, who, Bracket(f), s)
            == if r.out.Panicked? then r.After([Updated(e.Level(), d)])
               else Result(Returned, r.st.(core := r.st.core.(ctx := c)),
                           [Updated(e.Level(), d)] + (r.log + [Updated(e.Level(), c)]))
  {
    var script, c0 := Bracket(f).body, s.core;
    var s1 := s.(core := c0.(ctx := f(c0.ctx)));
    var r := CallNext(e, who, s1);
    assert [c0] + [s1.core] == [c0, s1.core];
    assert Exec(e, who, script, [c0], s)
           == Exec(e, who, script, [c0, s1.core], s1).After([Updated(e.Level(), s1.core.ctx)]);
    if r.out.Returned? {
      var s3 := r.st.(core := r.st.core.(ctx := c0.ctx));
      assert [c0, s1.core] + [r.st.core] == [c0, s1.core, r.st.core];
      assert [c0, s1.core, r.st.core] + [s3.core] == [c0, s1.core, r.st.core, s3.core];
      assert Exec(e, who, script, [c0, s1.core, r.st.core, s3.core], s3) == Result(Returned, s3, []);
      Unit([Updated(e.Level(), c0.ctx)]);
      assert Exec(e, who, script, [c0, s1.core, r.st.core], r.st) == Result(Returned, s3, [Updated(e.Level(), c0.ctx)]);
    }
  }

  lemma {:induction false} BracketNested(u: Setup, s: State)
    requires u.Valid() && s.index < |u.ms| && u.ms[s.index].Derive?
    ensures var r := Invoke(u.e, s.index, u.e.chain[s.index], s);
            Nested(u, s, Compose(u.ms, s.index, s.core.ctx), r) && (r.out.Returned? ==> r.st.Written())
    decreases u.e.Level(), u.e.Measure(s.index), 1, 0
  {
    var e, i, x := u.e, s.index, Compose(u.ms, s.index, s.core.ctx);
    var d := u.ms[i].f(s.core.ctx);
    var s1 := s.(core := s.core.(ctx := d));
    BracketRun(e, i, u.ms[i].f, s);
    NextNested(u, i, s1);
    var r := CallNext(e, i, s1);
    if r.out.Returned? {
      var back := Updated(e.Level(), s.core.ctx);
      UnservedDelivered([back], x, u.Route(x));
      DeliveredConcat(r.log, [back], x, u.Route(x));
      var whole := Result(Returned, r.st.(core := r.st.core.(ctx := s.core.ctx)), r.log + [back]);
      NestedMark(u, s, x, Updated(e.Level(), d), whole);
    } else {
      NestedMark(u, s, x, Updated(e.Level(), d), r);
    }
  }

  lemma {:induction false} LeaveNested(u: Setup, s: State)
    requires u.Valid() && s.index < |u.ms| && u.ms[s.index].Leave?
    ensures var r := Invoke(u.e, s.index, u.e.chain[s.index], s);
            && Nested(u, s, Compose(u.ms, s.index, s.core.ctx), r)
            && (r.out.Returned? ==> r.st.Written() || r.st.index == s.index || Any(Catches(u.e.Level()), r.log))
    decreases u.e.Level(), u.e.Measure(s.index), 1, 1
  {
    var e, i, x := u.e, s.index, Compose(u.ms, s.index, s.core.ctx);
    var h := e.chain[i];
    QuietNested(u, s);
    var r := Exec(e, i, h.body, [s.core], s);
    if r.out.Panicked? && h.rescue.Some? {
      var caught := Caught(e.Level(), i);
      var rest := Invoke(e, i, h.rescue.value, r.st).log;
      AnyOne(Catches(e.Level()), caught);
      AnyConcat(Catches(e.Level()), r.log, [caught]);
      AnyConcat(Catches(e.Level()), r.log + [caught], rest);
      DeliveredConcat(r.log, [caught], x, u.Route(x));
      assert (r.log + [caught])[|r.log|].Caught?;
      DeliveredConcat(r.log + [caught], rest, x, u.Route(x));
    }
  }

  lemma {:induction false} InvokeNested(u: Setup, s: State)
    requires u.Valid() && s.index < |u.ms|
    ensures var r := Invoke(u.e, s.index, u.e.chain[s.index], s);
            && Nested(u, s, Compose(u.ms, s.index, s.core.ctx), r)
            && (r.out.Returned? ==> r.st.Written() || Any(Catches(u.e.Level()), r.log)
                                    || (r.st.index == s.index && u.ms[s.index].Leave?))
    decreases u.e.Level(), u.e.Measure(s.index), 1, 2
  {
    if u.ms[s.index].Derive? {
      BracketNested(u, s);
    } else {
      LeaveNested(u, s);
    }
  }

  /**
   One run of such a chain: the registry is asked with the composition of the updates, and the context
   ends as it began, until a panic is caught.
   */
  lemma {:induction false} RunNested(u: Setup, s: State)
    requires u.Valid()
    ensures Nested(u, s, Compose(u.ms, s.index, s.core.ctx), Run(u.e, s))
    decreases u.e.Level(), 2 * u.e.Left(s.index), 2
  {
    var e, i, x := u.e, s.index, Compose(u.ms, s.index, s.core.ctx);
    if i < |e.chain| {
      var enter := Enter(e.Level(), i, s.Written());
      InvokeNested(u, s);
      var r := Invoke(e, i, e.chain[i], s);
      NestedMark(u, s, x, enter, r);
      if r.out.Returned? && !r.st.Written() {
        var s' := r.st.(index := r.st.index + 1);
        AnyConcat(Catches(e.Level()), [enter], r.log);
        RunNested(u, s');
        NestedThen(u, s, x, r.After([enter]), Run(e, s'));
      }
    } else {
      TailNested(u, s);
    }
  }

  lemma {:induction false} TailNested(u: Setup, s: State)
    requires u.Valid() && |u.ms| <= s.index
    ensures Nested(u, s, s.core.ctx, Tail(u.e, s))
    decreases u.e.Level(), 0, 1
  {
    var e, x := u.e, s.core.ctx;
    if e.RouteEngine? && !s.Written() {
      EndpointIsPlain(e.final, [s.core], s.core);
      var f := ExecEndpoint(e.final, [s.core], s.core);
      UnservedDelivered(f.log, x, x);
      assert ([Final(x)] + f.log)[1..] == f.log;
      FallbackDelivered(f.(log := [Final(x)] + f.log), 0, x, x);
    } else if e.RequestEngine? && !s.Written() && !e.target.NoRegistry? {
      HandleNested(u, s);
      FallbackDelivered(Handle(e.target, s.core), 1, x, u.Route(x));
    } else {
      UnservedDelivered(Tail(e, s).log, x, u.Route(x));
    }
  }

  lemma {:induction false} FallbackDelivered(w: Reaction, level: nat, x: Ctx, y: Ctx)
    requires Delivered(w.log, x, y)
    ensures Delivered(w.log + [NoContent(level)] + HttpError(w.core, "", 204).log, x, y)
  {
    var n := HttpError(w.core, "", 204).log;
    UnservedDelivered(n, x, y);
    DeliveredConcat(w.log, [NoContent(level)], x, y);
    assert Delivered([NoContent(level)] + n, x, y) by {
      UnservedDelivered([NoContent(level)] + n, x, y);
    }
    DeliveredConcat(w.log, [NoContent(level)] + n, x, y);
    assert w.log + ([NoContent(level)] + n) == w.log + [NoContent(level)] + n;
  }

  lemma {:induction false} HandleNested(u: Setup, s: State)
    requires u.Valid() && u.e.RequestEngine? && !u.e.target.NoRegistry?
    ensures Delivered(Handle(u.e.target, s.core).log, s.core.ctx, u.Route(s.core.ctx))
    decreases u.e.Level(), 0, 0
  {
    var target, x, y := u.e.target, s.core.ctx, u.Route(s.core.ctx);
    var log := Handle(target, s.core).log;
    HandleOnRoute(target, s.core);
    if target.Routed? {
      var route := RouteEngine(target.chain, target.final);
      RunNested(Setup(u.inner, [], route), State(0, s.core));
      RunOnRoute(route, State(0, s.core));
      RouteDelivered(Run(route, State(0, s.core)).log, y, x, y);
      assert log[1..] == Run(route, State(0, s.core)).log;
    } else {
      if target.Custom? {
        EndpointIsPlain(target.handle, [s.core], s.core);
      }
      UnservedDelivered(log[1..], x, y);
    }
  }

  // ----- a request -----

  /** Before anything is caught, dispatch sees context x and the route's handler context y. */
  ghost predicate Serving(log: seq<Event>, x: Ctx, y: Ctx) {
    forall k :: 0 <= k < |log| && NothingCaught(log[..k]) ==>
      (log[k].Dispatch? ==> log[k].ctx == x) && (log[k].Final? ==> log[k].ctx == y)
  }

  /**
   For a request through such a chain, to a route with such a chain of its own: the request is
   dispatched with the composition of the chain's updates, the route's handler gets the composition of
   the route's updates on top of that, as long as no panic has been caught; and Run ends with the
   context it started with unless a handler of the request caught one.
   */
  lemma {:induction false} ContextsNest(ms: seq<Middle>, inner: seq<Middle>, final: Endpoint, c: Core)
    requires AllQuiet(ms) && AllQuiet(inner)
    ensures var e := RequestEngine(BuildAll(ms), Routed(BuildAll(inner), final));
            var r, x := Run(e, State(0, c)), Compose(ms, 0, c.ctx);
            && Serving(r.log, x, Compose(inner, 0, x))
            && (r.out.Returned? && !Any(Catches(1), r.log) ==> r.st.core.ctx == c.ctx)
  {
    var e := RequestEngine(BuildAll(ms), Routed(BuildAll(inner), final));
    var u, x := Setup(ms, inner, e), Compose(ms, 0, c.ctx);
    RunNested(u, State(0, c));
    DeliveredMeans(Run(e, State(0, c)).log, x, u.Route(x));
  }

  /** Logger and recovery, as middlewares that leave the context alone. */
  function Front(message: string): seq<Middle> {
    [Leave(Logger().body, None), Leave(Recovery(message).body, Recovery(message).rescue)]
  }

  lemma {:induction false} ComposeBehind(front: seq<Middle>, ms: seq<Middle>, i: nat, c: Ctx)
    ensures Compose(front + ms, |front| + i, c) == Compose(ms, i, c)
    decreases |ms| - i
  {
    if i < |ms| {
      ComposeBehind(front, ms, i + 1, if ms[i].Derive? then ms[i].f(c) else c);
    }
  }

  /** The same behind logger and recovery, as in every server. */
  lemma {:induction false} ServerContextsNest(message: string, ms: seq<Middle>, inner: seq<Middle>, final: Endpoint, c: Core)
    requires AllQuiet(ms) && AllQuiet(inner)
    ensures var e := D.Engine(message, BuildAll(ms), Routed(BuildAll(inner), final));
            var r, x := Run(e, State(0, c)), Compose(ms, 0, c.ctx);
            && Serving(r.log, x, Compose(inner, 0, x))
            && (r.out.Returned? && !Any(Catches(1), r.log) ==> r.st.core.ctx == c.ctx)
  {
    var all := Front(message) + ms;
    assert D.Chain(message, BuildAll(ms)) == BuildAll(all);
    ContextsNest(all, inner, final, c);
    ComposeBehind(Front(message), ms, 0, c.ctx);
    assert Compose(all, 0, c.ctx) == Compose(all, 1, c.ctx) == Compose(all, 2, c.ctx);
  }

  /** A panic under a derived context: recovery answers, but the context is not restored any more. */
  lemma {:induction false} PanicSkipsRestore(message: string, f: Ctx -> Ctx, c: Core)
    requires !c.Written()
    ensures Run(D.Engine(message, [Bracket(f)], Routed([], Crash())), State(0, c)).st.core.ctx == f(c.ctx)
  {
    var e := D.Engine(message, [Bracket(f)], Routed([], Crash()));
    var c' := c.(ctx := f(c.ctx));
    D.AlwaysAnswers(message, [Bracket(f)], e.target, c);
    BracketRun(e, 2, f, State(2, c));
    CrashTail(e, State(3, c'), Dispatches);
    assert Run(e, State(3, c')) == Tail(e, State(3, c'));
    assert CallNext(e, 2, State(2, c')).st == State(3, c');
  }
}
