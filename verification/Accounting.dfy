/**
 What the response writer records, over whole runs: Status is the last code that reached the wrapped
 writer, whoever sent it, and Size is the total of all bodies.  A request is dispatched, and a
 route's handler is called, only while that record is empty.
 */
module Accounting {
  import opened Handlers
  import opened Machine
  import opened Logs
  import opened Order
  import opened Seqs
  import M = Machine

  function LastHead(log: seq<Event>, before: int): int {
    if log == [] then before
    else LastHead(log[1..], if log[0].Head? then log[0].code else before)
  }

  function Bytes(log: seq<Event>): nat {
    if log == [] then 0 else (if log[0].Body? then |log[0].data| else 0) + Bytes(log[1..])
  }

  lemma {:induction false} LastHeadConcat(a: seq<Event>, b: seq<Event>, before: int)
    ensures LastHead(a + b, before) == LastHead(b, LastHead(a, before))
    decreases |a|
  {
    if a == [] {
      assert a + b == b;
    } else {
      LastHeadConcat(a[1..], b, if a[0].Head? then a[0].code else before);
      assert (a + b)[1..] == a[1..] + b;
    }
  }

  lemma {:induction false} BytesConcat(a: seq<Event>, b: seq<Event>)
    ensures Bytes(a + b) == Bytes(a) + Bytes(b)
  {
    if a == [] {
      assert a + b == b;
    } else {
      BytesConcat(a[1..], b);
      assert (a + b)[1..] == a[1..] + b;
    }
  }

  predicate Serves(ev: Event) {
    ev.Dispatch? || ev.Final?
  }

  ghost predicate Unserved(log: seq<Event>) {
    forall k :: 0 <= k < |log| ==> !Serves(log[k])
  }

  /** From status `before` on, codes are not 0 and nothing is served on a written response. */
  ghost predicate Timely(log: seq<Event>, before: int) {
    log == [] ||
    (&& (Serves(log[0]) ==> before == 0)
     && (log[0].Head? ==> log[0].code != 0)
     && Timely(log[1..], if log[0].Head? then log[0].code else before))
  }

  lemma {:induction false} TimelyConcat(a: seq<Event>, b: seq<Event>, before: int)
    requires Timely(a, before) && Timely(b, LastHead(a, before))
    ensures Timely(a + b, before)
    decreases |a|
  {
    if a == [] {
      assert a + b == b;
    } else {
      TimelyConcat(a[1..], b, if a[0].Head? then a[0].code else before);
      assert (a + b)[1..] == a[1..] + b;
    }
  }

  /** Timely, read as a statement about all the events of a log. */
  lemma {:induction false} TimelyMeans(log: seq<Event>, before: int)
    requires Timely(log, before)
    ensures forall k :: 0 <= k < |log| && Serves(log[k]) ==> before == 0
    ensures forall j, k :: 0 <= j < k < |log| && Serves(log[k]) ==> !log[j].Head?
  {
    if log != [] {
      TimelyMeans(log[1..], if log[0].Head? then log[0].code else before);
      assert forall k :: 0 < k < |log| ==> log[k] == log[1..][k - 1];
    }
  }

  /** From core `c` to core `c'`, through these events. */
  ghost predicate Recorded(c: Core, log: seq<Event>, c': Core) {
    c'.status == LastHead(log, c.status) && c'.size == c.size + Bytes(log) && Timely(log, c.status)
  }

  lemma RecordedThen(c: Core, a: seq<Event>, c1: Core, b: seq<Event>, c2: Core)
    requires Recorded(c, a, c1) && Recorded(c1, b, c2)
    ensures Recorded(c, a + b, c2)
  {
    LastHeadConcat(a, b, c.status);
    BytesConcat(a, b);
    TimelyConcat(a, b, c.status);
  }

  /** A mark of the engine in front of some events. */
  lemma RecordedMark(c: Core, mark: Event, log: seq<Event>, c': Core)
    requires !mark.Head? && !mark.Body? && (Serves(mark) ==> !c.Written()) && Recorded(c, log, c')
    ensures Recorded(c, [mark] + log, c')
  {
    assert ([mark] + log)[1..] == log;
  }

  lemma HeadRecorded(c: Core, code: int, sent: int)
    requires code != 0
    ensures Recorded(c, [Head(code)], c.(status := code, sent := sent))
  {
    assert [Head(code)][1..] == [];
  }

  lemma BodyRecorded(c: Core, data: string)
    ensures Recorded(c, [Body(data)], c.(size := c.size + |data|))
  {
    assert [Body(data)][1..] == [];
  }

  lemma WriteRecorded(c: Core, data: string)
    ensures Recorded(c, M.Write(c, data).log, M.Write(c, data).core)
  {
    var w := M.Write(c, data);
    var c' := w.core.(size := c.size);
    var head, body := if c.Written() then [] else [Head(200)], if AdmitsBody(c'.sent) then [Body(data)] else [];
    if !c.Written() {
      HeadRecorded(c, 200, c'.sent);
    }
    BodyRecorded(c', data);
    RecordedThen(c, head, c', body, w.core);
    Unit(head);
  }

  lemma RespondRecorded(c: Core, a: Reply)
    ensures var w := Respond(c, a); Recorded(c, w.log, w.core)
  {
    if a.Write? {
      WriteRecorded(c, a.data);
    } else if a.WriteHeader? && a.code != 0 {
      HeadRecorded(c, a.code, M.WriteHeader(c, a.code).core.sent);
    }
  }

  lemma StepRecorded(level: nat, c: Core, a: Action)
    requires !a.Next?
    ensures var w := Step(level, c, a); Recorded(c, w.log, w.core)
  {
    if a.Update? {
      RecordedMark(c, Updated(level, a.ctx), [], c.(ctx := a.ctx));
    } else {
      RespondRecorded(c, a);
    }
  }

  lemma ErrorRecorded(c: Core, text: string, code: int)
    requires ValidCode(code)
    ensures var w := HttpError(c, text, code); Recorded(c, w.log, w.core) && w.core.status == code
  {
    var c1 := M.WriteHeader(c, code).core;
    var w := M.Write(c1, text + "\n");
    WriteRecorded(c1, text + "\n");
    HeadRecorded(c, code, c1.sent);
    RecordedThen(c, [Head(code)], c1, w.log, w.core);
  }

  lemma {:induction false} EndpointRecorded(h: Endpoint, seen: seq<Core>, c: Core)
    ensures var w := ExecEndpoint(h, seen, c); Recorded(c, w.log, w.core)
    decreases h.bound - |seen|
  {
    if !(|seen| > h.bound || h.act(seen).Return?) {
      RespondRecorded(c, h.act(seen));
      var w := Respond(c, h.act(seen));
      if w.out.Returned? {
        EndpointRecorded(h, seen + [w.core], w.core);
        var rest := ExecEndpoint(h, seen + [w.core], w.core);
        RecordedThen(c, w.log, w.core, rest.log, rest.core);
      }
    }
  }

  lemma {:induction false} ExecRecorded(e: Engine, who: nat, script: Script, seen: seq<Core>, s: State)
    ensures var r := Exec(e, who, script, seen, s); Recorded(s.core, r.log, r.st.core)
    decreases e.Level(), e.Measure(s.index), 0, script.bound - |seen|
  {
    if !(|seen| > script.bound || script.act(seen).Return?) {
      var a := script.act(seen);
      if a.Next? {
        CallNextRecorded(e, who, s);
        var r := CallNext(e, who, s);
        if r.out.Returned? {
          ExecRecorded(e, who, script, seen + [r.st.core], r.st);
          var rest := Exec(e, who, script, seen + [r.st.core], r.st);
          RecordedThen(s.core, r.log, r.st.core, rest.log, rest.st.core);
        }
      } else {
        StepRecorded(e.Level(), s.core, a);
        var w := Step(e.Level(), s.core, a);
        if w.out.Returned? {
          var s' := s.(core := w.core);
          ExecRecorded(e, who, script, seen + [s'.core], s');
          var rest := Exec(e, who, script, seen + [s'.core], s');
          RecordedThen(s.core, w.log, w.core, rest.log, rest.st.core);
        }
      }
    }
  }

  lemma {:induction false} CallNextRecorded(e: Engine, who: nat, s: State)
    ensures var r := CallNext(e, who, s); Recorded(s.core, r.log, r.st.core)
    decreases e.Level(), 2 * e.Left(s.index + 1), 3
  {
    var s' := s.(index := s.index + 1);
    RunRecorded(e, s');
    RecordedMark(s.core, Called(e.Level(), who, s.index, s.Written()), Run(e, s').log, Run(e, s').st.core);
  }

  lemma {:induction false} InvokeRecorded(e: Engine, who: nat, h: Handler, s: State)
    ensures var r := Invoke(e, who, h, s); Recorded(s.core, r.log, r.st.core)
    decreases e.Level(), e.Measure(s.index), 1, h
  {
    ExecRecorded(e, who, h.body, [s.core], s);
    var r := Exec(e, who, h.body, [s.core], s);
    if r.out.Panicked? && h.rescue.Some? {
      InvokeRecorded(e, who, h.rescue.value, r.st);
      var rest := Invoke(e, who, h.rescue.value, r.st);
      var caught := Caught(e.Level(), who);
      RecordedMark(r.st.core, caught, rest.log, rest.st.core);
      RecordedThen(s.core, r.log, r.st.core, [caught] + rest.log, rest.st.core);
      assert r.log + ([caught] + rest.log) == (r.log + [caught]) + rest.log;
    }
  }

  /** Status and size are those of the events, over any run of any handlers. */
  lemma {:induction false} RunRecorded(e: Engine, s: State)
    ensures var r := Run(e, s); Recorded(s.core, r.log, r.st.core)
    decreases e.Level(), 2 * e.Left(s.index), 2
  {
    if s.index < |e.chain| {
      var enter := Enter(e.Level(), s.index, s.Written());
      InvokeRecorded(e, s.index, e.chain[s.index], s);
      var r := Invoke(e, s.index, e.chain[s.index], s);
      RecordedMark(s.core, enter, r.log, r.st.core);
      if r.out.Returned? && !r.st.Written() {
        var s' := r.st.(index := r.st.index + 1);
        RunRecorded(e, s');
        RecordedThen(s.core, [enter] + r.log, r.st.core, Run(e, s').log, Run(e, s').st.core);
      }
    } else {
      TailRecorded(e, s);
    }
  }

  lemma {:induction false} TailRecorded(e: Engine, s: State)
    ensures var r := Tail(e, s); Recorded(s.core, r.log, r.st.core)
    decreases e.Level(), 0, 1
  {
    if e.RouteEngine? {
      if !s.Written() {
        EndpointRecorded(e.final, [s.core], s.core);
        var f := ExecEndpoint(e.final, [s.core], s.core);
        RecordedMark(s.core, Final(s.core.ctx), f.log, f.core);
        FallbackRecorded(s.core, [Final(s.core.ctx)] + f.log, f.core, 0);
      }
    } else if !s.Written() && !e.target.NoRegistry? {
      HandleRecorded(e.target, s.core);
      var w := Handle(e.target, s.core);
      FallbackRecorded(s.core, w.log, w.core, 1);
    } else {
      ErrorRecorded(s.core, "404 page not found", 404);
      var n := HttpNotFound(s.core);
      RecordedMark(s.core, EngineNotFound, n.log, n.core);
    }
  }

  lemma FallbackRecorded(c: Core, log: seq<Event>, c': Core, level: nat)
    requires Recorded(c, log, c')
    ensures var n := HttpError(c', "", 204);
            Recorded(c, log + [NoContent(level)] + n.log, n.core)
  {
    ErrorRecorded(c', "", 204);
    var n := HttpError(c', "", 204);
    RecordedMark(c', NoContent(level), n.log, n.core);
    RecordedThen(c, log, c', [NoContent(level)] + n.log, n.core);
    assert log + ([NoContent(level)] + n.log) == log + [NoContent(level)] + n.log;
  }

  lemma {:induction false} HandleRecorded(target: Target, c: Core)
    requires !target.NoRegistry? && !c.Written()
    ensures var w := Handle(target, c); Recorded(c, w.log, w.core)
    decreases 1, 0, 0
  {
    match target
    case Unrouted =>
      ErrorRecorded(c, "404 page not found", 404);
      var n := HttpNotFound(c);
      RecordedMark(c, RegistryNotFound, n.log, n.core);
      RecordedMark(c, Dispatch(c.ctx), [RegistryNotFound] + n.log, n.core);
      assert [Dispatch(c.ctx)] + ([RegistryNotFound] + n.log) == [Dispatch(c.ctx), RegistryNotFound] + n.log;
    case Routed(chain, final) =>
      var e := RouteEngine(chain, final);
      RunRecorded(e, State(0, c));
      var r := Run(e, State(0, c));
      RecordedMark(c, Dispatch(c.ctx), r.log, r.st.core);
    case Custom(handle) =>
      EndpointRecorded(handle, [c], c);
      var w := ExecEndpoint(handle, [c], c);
      RecordedMark(c, Dispatch(c.ctx), w.log, w.core);
  }

  /**
   Whatever the handlers do: when a request is dispatched or a route's handler is called, no answer
   has been sent before, by anybody.
   */
  lemma {:induction false} ServedUnanswered(e: Engine, s: State)
    ensures var log := Run(e, s).log;
            && (forall k :: 0 <= k < |log| && Serves(log[k]) ==> !s.Written())
            && (forall j, k :: 0 <= j < k < |log| && Serves(log[k]) ==> !log[j].Head?)
  {
    RunRecorded(e, s);
    TimelyMeans(Run(e, s).log, s.core.status);
  }

  /** A handler that goes on after the response is written causes no service any more. */
  lemma {:induction false} WrittenServesNothing(e: Engine, who: nat, script: Script, seen: seq<Core>, s: State)
    requires s.Written()
    ensures Unserved(Exec(e, who, script, seen, s).log)
  {
    ExecRecorded(e, who, script, seen, s);
    TimelyMeans(Exec(e, who, script, seen, s).log, s.core.status);
  }

  // ----- when nobody else answers -----

  /** Such code neither writes nor panics. */
  ghost predicate Mute(script: Script) {
    forall seen: seq<Core> :: var a := script.act(seen); a.Return? || a.Next? || a.Update?
  }

  ghost predicate AllMute(chain: seq<Handler>) {
    forall k :: 0 <= k < |chain| ==> Mute(chain[k].body)
  }

  ghost predicate Silence(e: Engine)
    decreases e.Level()
  {
    && AllMute(e.chain)
    && (e.RouteEngine? ==> forall seen: seq<Core> :: e.final.act(seen).Return?)
    && (e.RequestEngine? ==> !e.target.Custom?)
    && (e.RequestEngine? && e.target.Routed? ==> Silence(RouteEngine(e.target.chain, e.target.final)))
  }

  /** What the engine answers itself the first time: 404, or 204 when a route was found. */
  function OwnCode(e: Engine): int {
    if e.RequestEngine? && !e.target.Routed? then 404 else 204
  }

  /** The status is the engine's own: 404 as soon as Next has been called too late. */
  ghost predicate Own(e: Engine, s: State, r: Result) {
    && r.out.Returned?
    && r.st.core.status == if Any(EngineMisses, r.log) then 404
                           else if s.Written() then s.core.status
                           else if r.st.Written() then OwnCode(e) else 0
  }

  lemma {:induction false} OwnThen(e: Engine, s: State, r: Result, s': State, r': Result)
    requires Own(e, s, r) && s'.core.status == r.st.core.status && Own(e, s', r')
    requires r.st.Written() ==> r'.st.Written()
    ensures Own(e, s, r'.After(r.log))
  {
    AnyConcat(EngineMisses, r.log, r'.log);
  }

  lemma {:induction false} OwnMark(e: Engine, s: State, mark: Event, r: Result)
    requires !mark.EngineNotFound? && Own(e, s, r)
    ensures Own(e, s, r.After([mark]))
  {
    AnyConcat(EngineMisses, [mark], r.log);
    AnyOne(EngineMisses, mark);
  }

  lemma {:induction false} ExecOwn(e: Engine, who: nat, script: Script, seen: seq<Core>, s: State)
    requires Silence(e) && Mute(script)
    ensures Own(e, s, Exec(e, who, script, seen, s))
    decreases e.Level(), e.Measure(s.index), 0, script.bound - |seen|
  {
    if !(|seen| > script.bound || script.act(seen).Return?) {
      var a := script.act(seen);
      if a.Update? {
        var w := Step(e.Level(), s.core, a);
        var s' := s.(core := w.core);
        ExecOwn(e, who, script, seen + [s'.core], s');
        OwnMark(e, s, w.log[0], Exec(e, who, script, seen + [s'.core], s'));
      } else {
        var s' := s.(index := s.index + 1);
        RunOwn(e, s');
        OwnMark(e, s', Called(e.Level(), who, s.index, s.Written()), Run(e, s'));
        var r := CallNext(e, who, s);
        ExecOwn(e, who, script, seen + [r.st.core], r.st);
        OwnThen(e, s, r, r.st, Exec(e, who, script, seen + [r.st.core], r.st));
      }
    }
  }

  /**
   When no handler writes or panics, the engine answers: 404 without a registry or a matching route,
   204 for a route, and 404 once more if somebody called Next after that.
   */
  lemma {:induction false} RunOwn(e: Engine, s: State)
    requires Silence(e)
    ensures Own(e, s, Run(e, s))
    decreases e.Level(), 2 * e.Left(s.index), 2
  {
    if s.index < |e.chain| {
      var h := e.chain[s.index];
      ExecOwn(e, s.index, h.body, [s.core], s);
      var r := Invoke(e, s.index, h, s);
      var enter := Enter(e.Level(), s.index, s.Written());
      OwnMark(e, s, enter, r);
      if !r.st.Written() {
        var s' := r.st.(index := r.st.index + 1);
        RunOwn(e, s');
        OwnThen(e, s, r.After([enter]), s', Run(e, s'));
      }
    } else {
      TailOwn(e, s);
    }
  }

  lemma {:induction false} TailOwn(e: Engine, s: State)
    requires Silence(e)
    ensures Own(e, s, Tail(e, s))
    decreases e.Level(), 0, 1
  {
    if e.RequestEngine? && !s.Written() && e.target.Routed? {
      var route := RouteEngine(e.target.chain, e.target.final);
      RunOwn(route, State(0, s.core));
      RunOnRoute(route, State(0, s.core));
      OwnMark(route, State(0, s.core), Dispatch(s.core.ctx), Run(route, State(0, s.core)));
    } else if e.RequestEngine? && (s.Written() || e.target.NoRegistry?) {
      assert Tail(e, s).log[0].EngineNotFound?;
    }
  }

  /** The answer to a request that no handler answers. */
  lemma {:induction false} OwnAnswers(e: Engine, c: Core)
    requires Silence(e) && !c.Written()
    ensures var r := Run(e, State(0, c));
            && r.out.Returned?
            && r.st.core.status == if Any(EngineMisses, r.log) then 404 else OwnCode(e)
  {
    RunOwn(e, State(0, c));
  }
}
