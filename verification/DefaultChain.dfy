/**
 The chain every server starts with: logger, then recovery, then what the application adds.

 Panics unwind any number of nested frames of Run; recovery is the frame that stops them.
 */
module DefaultChain {
  import opened Handlers
  import opened Machine
  import opened Logs
  import opened Seqs

  function Chain(message: string, handlers: seq<Handler>): seq<Handler> {
    [Logger(), Recovery(message)] + handlers
  }

  function Engine(message: string, handlers: seq<Handler>, target: Target): Machine.Engine {
    RequestEngine(Chain(message, handlers), target)
  }

  /** The events of logger and recovery before anything below recovery happens. */
  function Prologue(): seq<Event> {
    [Enter(1, 0, false), Called(1, 0, 0, false), Enter(1, 1, false), Called(1, 1, 1, false)]
  }

  /** What recovery adds when it catches a panic. */
  function Apology(c: Core, message: string): seq<Event> {
    [Caught(1, 1)] + Apologised(c, message).log
  }

  /** The outcome of a request, in terms of what happened below recovery. */
  function Answered(below: Result, message: string): Core {
    if below.out.Returned? then below.st.core else Apologised(below.st.core, message).core
  }

  /**
   The answer of recovery: WriteHeader(500), then the message.  If nothing has been sent before, that
   is what goes out.
   */
  function Apologised(c: Core, message: string): (w: Reaction)
    ensures w.core.status == 500 && w.core.ctx == c.ctx
    ensures Sent(c) == 0 ==> w.core.sent == 500 && w.core.size == c.size + |message|
                             && w.log == [Head(500), Body(message)]
  {
    var w := Machine.Write(Machine.WriteHeader(c, 500).core, message);
    w.(log := [Head(500)] + w.log)
  }

  function Epilogue(below: Result, message: string): seq<Event> {
    if below.out.Returned? then [] else Apology(below.st.core, message)
  }

  lemma {:induction false} RecoveryRun(e: Machine.Engine, message: string, c: Core)
    requires e.RequestEngine? && |e.chain| >= 2 && e.chain[1] == Recovery(message) && !c.Written()
    ensures var below, r := Run(e, State(2, c)), Invoke(e, 1, Recovery(message), State(1, c));
            && r.out.Returned? && r.st.Written()
            && r.st == below.st.(core := Answered(below, message))
            && r.log == [Called(1, 1, 1, false)] + below.log + Epilogue(below, message)
  {
    var h := Recovery(message);
    var below := Run(e, State(2, c));
    var call := CallNext(e, 1, State(1, c));
    assert call.log == [Called(1, 1, 1, false)] + below.log;
    var body := Exec(e, 1, h.body, [c], State(1, c));
    if below.out.Returned? {
      assert Exec(e, 1, h.body, [c, call.st.core], call.st) == Result(Returned, call.st, []);
      assert [c] + [call.st.core] == [c, call.st.core];
      assert body == Result(Returned, below.st, call.log);
    } else {
      assert body == call;
      RescueRun(e, message, below.st);
      var rescue := Invoke(e, 1, h.rescue.value, below.st);
      assert call.log + [Caught(1, 1)] + rescue.log == call.log + Apology(below.st.core, message);
    }
  }

  lemma {:induction false} RescueRun(e: Machine.Engine, message: string, s: State)
    ensures var w := Apologised(s.core, message);
            Invoke(e, 1, Recovery(message).rescue.value, s) == Result(Returned, s.(core := w.core), w.log)
  {
    var rescue := Recovery(message).rescue.value.body;
    var c1 := Machine.WriteHeader(s.core, 500).core;
    var w := Machine.Write(c1, message);
    var s1, s2 := s.(core := c1), s.(core := w.core);
    assert [s.core] + [c1] == [s.core, c1];
    assert [s.core, c1] + [w.core] == [s.core, c1, w.core];
    assert Exec(e, 1, rescue, [s.core, c1, w.core], s2) == Result(Returned, s2, []);
    Unit(w.log);
    assert Exec(e, 1, rescue, [s.core, c1], s1) == Result(Returned, s2, w.log);
    assert Exec(e, 1, rescue, [s.core], s) == Result(Returned, s2, [Head(500)] + w.log);
  }

  /** The logger adds its own call of Next, and nothing else. */
  lemma {:induction false} LoggerRun(e: Machine.Engine, c: Core)
    requires e.RequestEngine? && e.chain != [] && e.chain[0] == Logger() && !c.Written()
    requires Run(e, State(1, c)).out.Returned?
    ensures var r, inner := Run(e, State(0, c)), Run(e, State(1, c));
            && r.out.Returned? && r.st.core == inner.st.core
            && r.log == [Enter(1, 0, false)] + ([Called(1, 0, 0, false)] + inner.log)
  {
    var call := CallNext(e, 0, State(0, c));
    assert call == Run(e, State(1, c)).After([Called(1, 0, 0, false)]);
    assert [c] + [call.st.core] == [c, call.st.core];
    assert Exec(e, 0, Logger().body, [c, call.st.core], call.st) == Result(Returned, call.st, []);
    assert Exec(e, 0, Logger().body, [c], State(0, c)) == Result(Returned, call.st, call.log + []);
    Unit(call.log);
    assert Invoke(e, 0, Logger(), State(0, c)) == Result(Returned, call.st, call.log);
  }

  lemma PrologueJoins(below: seq<Event>, end: seq<Event>)
    ensures [Enter(1, 0, false)] + ([Called(1, 0, 0, false)] + ([Enter(1, 1, false)] + ([Called(1, 1, 1, false)] + below + end)))
            == Prologue() + below + end
  {
  }

  /**
   Whatever the handlers and the route do, and wherever they panic: the request returns normally
   with the response written.  If a panic gets as far as recovery, the recorded status is 500, and
   recovery's answer is the last thing that happens; otherwise the response is what the handlers made.
   */
  lemma {:induction false} AlwaysAnswers(message: string, handlers: seq<Handler>, target: Target, c: Core)
    requires !c.Written()
    ensures var e := Engine(message, handlers, target);
            var r, below := Run(e, State(0, c)), Run(e, State(2, c));
            && r.out.Returned? && r.st.Written()
            && r.st.core == Answered(below, message)
            && r.log == Prologue() + below.log + Epilogue(below, message)
            && (below.out.Panicked? ==> r.st.core.status == 500)
  {
    var e := Engine(message, handlers, target);
    var below := Run(e, State(2, c));
    RecoveryRun(e, message, c);
    var inner := Invoke(e, 1, Recovery(message), State(1, c));
    assert Run(e, State(1, c)) == Result(Returned, inner.st.(index := inner.st.index + 1), [Enter(1, 1, false)] + inner.log);
    LoggerRun(e, c);
    PrologueJoins(below.log, Epilogue(below, message));
  }

  // ----- when nothing but recovery recovers -----

  ghost predicate NoRescue(chain: seq<Handler>) {
    forall k :: 0 <= k < |chain| ==> chain[k].rescue.None?
  }

  ghost predicate NobodyRecovers(e: Machine.Engine, from: nat) {
    && (forall k :: from <= k < |e.chain| ==> e.chain[k].rescue.None?)
    && (e.RequestEngine? && e.target.Routed? ==> NoRescue(e.target.chain))
  }

  lemma {:induction false} EndpointRaises(h: Endpoint, seen: seq<Core>, c: Core)
    ensures var w := ExecEndpoint(h, seen, c); w.out.Panicked? <==> Any(Raises, w.log)
    decreases h.bound - |seen|
  {
    if !(|seen| > h.bound || h.act(seen).Return?) {
      RespondRaises(c, h.act(seen));
      var w := Respond(c, h.act(seen));
      if w.out.Returned? {
        EndpointRaises(h, seen + [w.core], w.core);
        AnyConcat(Raises, w.log, ExecEndpoint(h, seen + [w.core], w.core).log);
      }
    }
  }

  lemma RespondRaises(c: Core, a: Reply)
    ensures var w := Respond(c, a); w.out.Panicked? <==> Any(Raises, w.log)
  {
    var w := Respond(c, a);
    if w.out.Panicked? {
      assert w.log[0].Raise?;
    }
  }

  lemma StepRaises(level: nat, c: Core, a: Action)
    requires !a.Next?
    ensures var w := Step(level, c, a); w.out.Panicked? <==> Any(Raises, w.log)
  {
    if !a.Update? {
      RespondRaises(c, a);
    }
  }

  lemma {:induction false} ExecRaises(e: Machine.Engine, from: nat, who: nat, script: Script, seen: seq<Core>, s: State)
    requires NobodyRecovers(e, from) && from <= s.index
    ensures var r := Exec(e, who, script, seen, s); r.out.Panicked? <==> Any(Raises, r.log)
    decreases e.Level(), e.Measure(s.index), 0, script.bound - |seen|
  {
    if !(|seen| > script.bound || script.act(seen).Return?) {
      var a := script.act(seen);
      if a.Next? {
        var r := CallNext(e, who, s);
        RunRaises(e, from, s.(index := s.index + 1));
        AnyConcat(Raises, [Called(e.Level(), who, s.index, s.Written())], Run(e, s.(index := s.index + 1)).log);
        if r.out.Returned? {
          ExecRaises(e, from, who, script, seen + [r.st.core], r.st);
          AnyConcat(Raises, r.log, Exec(e, who, script, seen + [r.st.core], r.st).log);
        }
      } else {
        StepRaises(e.Level(), s.core, a);
        var w := Step(e.Level(), s.core, a);
        if w.out.Returned? {
          var s' := s.(core := w.core);
          ExecRaises(e, from, who, script, seen + [s'.core], s');
          AnyConcat(Raises, w.log, Exec(e, who, script, seen + [s'.core], s').log);
        }
      }
    }
  }

  lemma {:induction false} RunRaises(e: Machine.Engine, from: nat, s: State)
    requires NobodyRecovers(e, from) && from <= s.index
    ensures var r := Run(e, s); r.out.Panicked? <==> Any(Raises, r.log)
    decreases e.Level(), 2 * e.Left(s.index), 2
  {
    if s.index < |e.chain| {
      var enter := [Enter(e.Level(), s.index, s.Written())];
      ExecRaises(e, from, s.index, e.chain[s.index].body, [s.core], s);
      var r := Invoke(e, s.index, e.chain[s.index], s);
      AnyConcat(Raises, enter, r.log);
      if r.out.Returned? && !r.st.Written() {
        var s' := r.st.(index := r.st.index + 1);
        RunRaises(e, from, s');
        AnyConcat(Raises, enter + r.log, Run(e, s').log);
      }
    } else {
      TailRaises(e, from, s);
    }
  }

  lemma {:induction false} TailRaises(e: Machine.Engine, from: nat, s: State)
    requires NobodyRecovers(e, from)
    ensures var r := Tail(e, s); r.out.Panicked? <==> Any(Raises, r.log)
    decreases e.Level(), 0, 1
  {
    if e.RouteEngine? {
      if !s.Written() {
        EndpointRaises(e.final, [s.core], s.core);
        var f := ExecEndpoint(e.final, [s.core], s.core);
        AnyConcat(Raises, [Final(s.core.ctx)], f.log);
        AnyConcat(Raises, [Final(s.core.ctx)] + f.log, [NoContent(0)]);
        AnyConcat(Raises, [Final(s.core.ctx)] + f.log + [NoContent(0)], HttpError(f.core, "", 204).log);
      }
    } else if !s.Written() && e.target.Custom? {
      EndpointRaises(e.target.handle, [s.core], s.core);
      var f := ExecEndpoint(e.target.handle, [s.core], s.core);
      AnyConcat(Raises, [Dispatch(s.core.ctx)], f.log);
      AnyConcat(Raises, [Dispatch(s.core.ctx)] + f.log, [NoContent(1)]);
      AnyConcat(Raises, [Dispatch(s.core.ctx)] + f.log + [NoContent(1)], HttpError(f.core, "", 204).log);
    } else if !s.Written() && e.target.Routed? {
      var route := RouteEngine(e.target.chain, e.target.final);
      RunRaises(route, 0, State(0, s.core));
      AnyConcat(Raises, [Dispatch(s.core.ctx)], Run(route, State(0, s.core)).log);
      var w := Handle(e.target, s.core);
      AnyConcat(Raises, w.log, [NoContent(1)]);
      AnyConcat(Raises, w.log + [NoContent(1)], HttpError(w.core, "", 204).log);
    }
  }

  /**
   When only the recovery middleware recovers: a panic anywhere below it, at whatever depth, gives a
   recorded status of 500, and the last thing that happens is recovery's answer.
   */
  lemma {:induction false} PanicGives500(message: string, handlers: seq<Handler>, target: Target, c: Core)
    requires !c.Written() && NoRescue(handlers) && (target.Routed? ==> NoRescue(target.chain))
    ensures var e := Engine(message, handlers, target);
            var r, below := Run(e, State(0, c)), Run(e, State(2, c));
            && r.out.Returned?
            && (Any(Raises, r.log) ==>
                  && below.out.Panicked? && r.st.core.status == 500
                  && r.log == Prologue() + below.log + Apology(below.st.core, message))
            && (!Any(Raises, r.log) ==> r.st.core == below.st.core)
  {
    var e := Engine(message, handlers, target);
    AlwaysAnswers(message, handlers, target, c);
    var below := Run(e, State(2, c));
    RunRaises(e, 2, State(2, c));
    AnyConcat(Raises, Prologue(), below.log);
    AnyConcat(Raises, Prologue() + below.log, Epilogue(below, message));
  }
}
