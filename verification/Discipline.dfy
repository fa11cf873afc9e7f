/**
 What calling Next too late does.

 The design document says that the chain stops once a response is written.  The loop checks this
 only after a handler returns; Next does not check it.  So the claim holds exactly when no handler
 calls Next on a written response with a handler left to run, and under that discipline the engine
 runs a gap-free prefix of the chain.
 */
module Discipline {
  import opened Handlers
  import opened Machine
  import opened Logs
  import opened Order
  import opened Seqs

  // ----- exactly when the chain stops at the first answer -----

  /** The two equivalences, for a piece of a run that starts with `enters` / `misses` already due. */
  ghost predicate Accounted(e: Engine, log: seq<Event>, enters: bool, misses: bool) {
    && (Any(LateEnters(e.Level()), log) <==> Any(LateCalls(e), log) || enters)
    && (e.RequestEngine? && !e.target.NoRegistry? ==> (Any(EngineMisses, log) <==> Any(LateLastCalls(e), log) || misses))
  }

  /** The questions about lateness, asked of two logs in a row. */
  lemma {:induction false} LateConcat(e: Engine, a: seq<Event>, b: seq<Event>)
    ensures Any(LateEnters(e.Level()), a + b) <==> Any(LateEnters(e.Level()), a) || Any(LateEnters(e.Level()), b)
    ensures Any(LateCalls(e), a + b) <==> Any(LateCalls(e), a) || Any(LateCalls(e), b)
    ensures Any(LateLastCalls(e), a + b) <==> Any(LateLastCalls(e), a) || Any(LateLastCalls(e), b)
    ensures Any(EngineMisses, a + b) <==> Any(EngineMisses, a) || Any(EngineMisses, b)
  {
    AnyConcat(LateEnters(e.Level()), a, b);
    AnyConcat(LateCalls(e), a, b);
    AnyConcat(LateLastCalls(e), a, b);
    AnyConcat(EngineMisses, a, b);
  }

  lemma {:induction false} AccountedConcat(e: Engine, a: seq<Event>, b: seq<Event>, x: bool, y: bool, x': bool, y': bool)
    requires Accounted(e, a, x, y) && Accounted(e, b, x', y')
    ensures Accounted(e, a + b, x || x', y || y')
  {
    LateConcat(e, a, b);
  }

  lemma {:induction false} ExecAccounted(e: Engine, who: nat, script: Script, seen: seq<Core>, s: State)
    ensures Accounted(e, Exec(e, who, script, seen, s).log, false, false)
    decreases e.Measure(s.index), 0, script.bound - |seen|
  {
    if !(|seen| > script.bound || script.act(seen).Return?) {
      var a := script.act(seen);
      if a.Next? {
        CallNextAccounted(e, who, s);
        var r := CallNext(e, who, s);
        if r.out.Returned? {
          ExecAccounted(e, who, script, seen + [r.st.core], r.st);
          AccountedConcat(e, r.log, Exec(e, who, script, seen + [r.st.core], r.st).log, false, false, false, false);
        }
      } else {
        var w := Step(e.Level(), s.core, a);
        assert Accounted(e, w.log, false, false);
        if w.out.Returned? {
          var s' := s.(core := w.core);
          ExecAccounted(e, who, script, seen + [s'.core], s');
          AccountedConcat(e, w.log, Exec(e, who, script, seen + [s'.core], s').log, false, false, false, false);
        }
      }
    }
  }

  lemma {:induction false} CallNextAccounted(e: Engine, who: nat, s: State)
    ensures Accounted(e, CallNext(e, who, s).log, false, false)
    decreases 2 * e.Left(s.index + 1), 3
  {
    var s' := s.(index := s.index + 1);
    RunAccounted(e, s');
    var call := [Called(e.Level(), who, s.index, s.Written())];
    assert Asks(LateCalls(e), call[0]) <==> s.Written() && s'.index < |e.chain|;
    assert Asks(LateLastCalls(e), call[0]) <==> s.Written() && |e.chain| <= s'.index;
    LateConcat(e, call, Run(e, s').log);
  }

  lemma {:induction false} InvokeAccounted(e: Engine, who: nat, h: Handler, s: State)
    ensures Accounted(e, Invoke(e, who, h, s).log, false, false)
    decreases e.Measure(s.index), 1, h
  {
    ExecAccounted(e, who, h.body, [s.core], s);
    var r := Exec(e, who, h.body, [s.core], s);
    if r.out.Panicked? && h.rescue.Some? {
      InvokeAccounted(e, who, h.rescue.value, r.st);
      var caught := [Caught(e.Level(), who)];
      assert Accounted(e, caught, false, false);
      AccountedConcat(e, r.log, caught, false, false, false, false);
      AccountedConcat(e, r.log + caught, Invoke(e, who, h.rescue.value, r.st).log, false, false, false, false);
    }
  }

  lemma {:induction false} RunAccounted(e: Engine, s: State)
    ensures Accounted(e, Run(e, s).log, s.Written() && s.index < |e.chain|, s.Written() && |e.chain| <= s.index)
    decreases 2 * e.Left(s.index), 2
  {
    if s.index < |e.chain| {
      var enter := [Enter(e.Level(), s.index, s.Written())];
      assert Asks(LateEnters(e.Level()), enter[0]) <==> s.Written();
      assert Accounted(e, enter, s.Written(), false);
      InvokeAccounted(e, s.index, e.chain[s.index], s);
      var r := Invoke(e, s.index, e.chain[s.index], s);
      AccountedConcat(e, enter, r.log, s.Written(), false, false, false);
      if r.out.Returned? && !r.st.Written() {
        var s' := r.st.(index := r.st.index + 1);
        RunAccounted(e, s');
        AccountedConcat(e, enter + r.log, Run(e, s').log, s.Written(), false, false, false);
      }
    } else {
      TailAccounted(e, s);
    }
  }

  lemma {:induction false} TailAccounted(e: Engine, s: State)
    requires |e.chain| <= s.index
    ensures Accounted(e, Tail(e, s).log, false, s.Written())
  {
    if e.RequestEngine? ==> !s.Written() && !e.target.NoRegistry? {
      TailBelow(e, s);
    } else {
      assert Asks(EngineMisses, Tail(e, s).log[0]);
    }
  }

  /**
   The documented claim, exactly: no handler is started on a written response if and only if no
   handler called Next on a written response while a handler was left to run.  The engine's own 404,
   when a registry is bound, comes only from such a late call past the last handler.
   */
  lemma {:induction false} StopsWhenWritten(e: Engine, s: State)
    requires !s.Written()
    ensures !Any(LateEnters(e.Level()), Run(e, s).log) <==> !Any(LateCalls(e), Run(e, s).log)
    ensures e.RequestEngine? && !e.target.NoRegistry?
            ==> (Any(EngineMisses, Run(e, s).log) <==> Any(LateLastCalls(e), Run(e, s).log))
  {
    RunAccounted(e, s);
  }

  /** A handler that answers and then calls Next. */
  function AnswersThenNext(data: string): Handler {
    Handler(Script(2, (seen: seq<Core>) => if |seen| == 1 then Write(data) else Next), None)
  }

  /** Behind such a handler, the next one is started although the response is written. */
  lemma {:induction false} AnswersThenNextGoesOn(data: string, next: Handler, target: Target, c: Core)
    requires !c.Written()
    ensures Any(LateEnters(1), Run(RequestEngine([AnswersThenNext(data), next], target), State(0, c)).log)
  {
    var h := AnswersThenNext(data);
    var e, s := RequestEngine([h, next], target), State(0, c);
    var s' := s.(core := Respond(c, Write(data)).core);
    assert Respond(c, Write(data)).log == [Head(200), Body(data)];
    assert [c] + [s'.core] == [c, s'.core];
    var called, rest := Called(1, 0, 0, true), Exec(e, 0, h.body, [c, s'.core], s');
    assert CallNext(e, 0, s').log[0] == called;
    assert rest.log[0] == called;
    assert Invoke(e, 0, h, s).log == [Head(200), Body(data)] + rest.log;
    assert Run(e, s).log[3] == called;
    assert Asks(LateCalls(e), called);
    StopsWhenWritten(e, s);
  }

  // ----- under the discipline: a gap-free prefix -----

  /** No handler of this level called Next on a written response. */
  ghost predicate Disciplined(log: seq<Event>, e: Engine) {
    !Any(LateCalls(e), log) && !Any(LateLastCalls(e), log)
  }

  lemma {:induction false} DisciplinedConcat(e: Engine, a: seq<Event>, b: seq<Event>)
    ensures Disciplined(a + b, e) <==> Disciplined(a, e) && Disciplined(b, e)
  {
    LateConcat(e, a, b);
  }

  /** The script calls Next only while the response, as it last saw it, is not written. */
  ghost predicate Polite(script: Script) {
    forall seen: seq<Core> | seen != [] && |seen| <= script.bound && script.act(seen).Next? ::
      !seen[|seen| - 1].Written()
  }

  ghost predicate PoliteHandler(h: Handler) {
    Polite(h.body) && (h.rescue.Some? ==> PoliteHandler(h.rescue.value))
  }

  ghost predicate AllPolite(chain: seq<Handler>) {
    forall k :: 0 <= k < |chain| ==> PoliteHandler(chain[k])
  }

  /** An event that is no late call, in front of a log. */
  lemma {:induction false} DisciplinedMark(e: Engine, mark: Event, log: seq<Event>)
    requires (mark.Called? ==> !mark.written) && Disciplined(log, e)
    ensures Disciplined([mark] + log, e)
  {
    AnyOne(LateCalls(e), mark);
    AnyOne(LateLastCalls(e), mark);
    DisciplinedConcat(e, [mark], log);
  }

  lemma {:induction false} StepDisciplined(e: Engine, c: Core, a: Action)
    requires !a.Next?
    ensures Disciplined(Step(e.Level(), c, a).log, e)
  {
  }

  lemma {:induction false} TailDisciplined(e: Engine, s: State)
    ensures Disciplined(Tail(e, s).log, e)
  {
    if e.RequestEngine? ==> !s.Written() && !e.target.NoRegistry? {
      TailBelow(e, s);
    }
  }

  lemma {:induction false} ExecPolite(e: Engine, who: nat, script: Script, seen: seq<Core>, s: State)
    requires AllPolite(e.chain) && Polite(script) && seen != [] && seen[|seen| - 1] == s.core
    ensures Disciplined(Exec(e, who, script, seen, s).log, e)
    decreases e.Measure(s.index), 0, script.bound - |seen|
  {
    if !(|seen| > script.bound || script.act(seen).Return?) {
      var a := script.act(seen);
      if a.Next? {
        CallNextPolite(e, who, s);
        var r := CallNext(e, who, s);
        if r.out.Returned? {
          ExecPolite(e, who, script, seen + [r.st.core], r.st);
          DisciplinedConcat(e, r.log, Exec(e, who, script, seen + [r.st.core], r.st).log);
        }
      } else {
        var w := Step(e.Level(), s.core, a);
        StepDisciplined(e, s.core, a);
        if w.out.Returned? {
          var s' := s.(core := w.core);
          ExecPolite(e, who, script, seen + [s'.core], s');
          DisciplinedConcat(e, w.log, Exec(e, who, script, seen + [s'.core], s').log);
        }
      }
    }
  }

  lemma {:induction false} CallNextPolite(e: Engine, who: nat, s: State)
    requires AllPolite(e.chain) && !s.Written()
    ensures Disciplined(CallNext(e, who, s).log, e)
    decreases 2 * e.Left(s.index + 1), 3
  {
    var s' := s.(index := s.index + 1);
    RunPolite(e, s');
    DisciplinedMark(e, Called(e.Level(), who, s.index, false), Run(e, s').log);
  }

  lemma {:induction false} InvokePolite(e: Engine, who: nat, h: Handler, s: State)
    requires AllPolite(e.chain) && PoliteHandler(h)
    ensures Disciplined(Invoke(e, who, h, s).log, e)
    decreases e.Measure(s.index), 1, h
  {
    ExecPolite(e, who, h.body, [s.core], s);
    var r := Exec(e, who, h.body, [s.core], s);
    if r.out.Panicked? && h.rescue.Some? {
      var caught, rest := Caught(e.Level(), who), Invoke(e, who, h.rescue.value, r.st).log;
      InvokePolite(e, who, h.rescue.value, r.st);
      DisciplinedMark(e, caught, rest);
      DisciplinedConcat(e, r.log, [caught] + rest);
      Assoc(r.log, [caught], rest);
    }
  }

  /** Handlers that look before they call Next keep the discipline, whatever else they do. */
  lemma {:induction false} RunPolite(e: Engine, s: State)
    requires AllPolite(e.chain)
    ensures Disciplined(Run(e, s).log, e)
    decreases 2 * e.Left(s.index), 2
  {
    if s.index < |e.chain| {
      var enter := Enter(e.Level(), s.index, s.Written());
      var r := Invoke(e, s.index, e.chain[s.index], s);
      InvokePolite(e, s.index, e.chain[s.index], s);
      DisciplinedMark(e, enter, r.log);
      if r.out.Returned? && !r.st.Written() {
        var s' := r.st.(index := r.st.index + 1);
        RunPolite(e, s');
        DisciplinedConcat(e, [enter] + r.log, Run(e, s').log);
      }
    } else {
      TailDisciplined(e, s);
    }
  }

  /** `r` enters lo, lo+1, ... and, while nothing is written, the index is at the last one entered. */
  ghost predicate Contiguous(e: Engine, lo: nat, r: Result) {
    var reach := Reach(r.log, Entries(e.Level()), lo);
    reach.Some? && (r.st.Written() || r.st.index + 1 == reach.value || |e.chain| <= r.st.index)
  }

  lemma {:induction false} ContiguousThen(e: Engine, lo: nat, r: Result, r': Result)
    requires Contiguous(e, lo, r) && !r.st.Written()
    requires Contiguous(e, r.st.index + 1, r') && Ordered(e, r.st.index + 1, r') && r.st.index <= r'.st.index
    ensures Contiguous(e, lo, r'.After(r.log))
  {
    var kind := Entries(e.Level());
    ReachConcat(r.log, r'.log, kind, lo);
    if r.st.index + 1 != Reach(r.log, kind, lo).value {
      RisingEmpty(r'.log, kind, r.st.index + 1, e.Cap(r'.st.index));
      ReachSilent(r'.log, kind, Reach(r.log, kind, lo).value);
    }
  }

  lemma {:induction false} ContiguousSilent(e: Engine, lo: nat, r: Result, r': Result)
    requires Contiguous(e, lo, r) && r'.st.Written()
    requires Silent(r'.log, Entries(e.Level()))
    ensures Contiguous(e, lo, r'.After(r.log))
  {
    ReachConcat(r.log, r'.log, Entries(e.Level()), lo);
    ReachSilent(r'.log, Entries(e.Level()), Reach(r.log, Entries(e.Level()), lo).value);
  }

  lemma {:induction false} SilentContiguous(e: Engine, lo: nat, before: seq<Event>, r: Result)
    requires Silent(before, Entries(e.Level()))
    requires Contiguous(e, lo, r) || (Silent(r.log, Entries(e.Level())) && r.st.Written())
    ensures Contiguous(e, lo, r.After(before))
  {
    if Silent(r.log, Entries(e.Level())) {
      ReachSilent(r.log, Entries(e.Level()), lo);
    }
    ReachSilent(before, Entries(e.Level()), lo);
    ReachConcat(before, r.log, Entries(e.Level()), lo);
  }

  lemma {:induction false} ExecContiguous(e: Engine, who: nat, script: Script, seen: seq<Core>, s: State)
    requires Disciplined(Exec(e, who, script, seen, s).log, e)
    ensures s.Written() ==> Silent(Exec(e, who, script, seen, s).log, Entries(e.Level()))
    ensures !s.Written() ==> Contiguous(e, s.index + 1, Exec(e, who, script, seen, s))
    decreases e.Measure(s.index), 0, script.bound - |seen|
  {
    if !(|seen| > script.bound || script.act(seen).Return?) {
      var a := script.act(seen);
      if a.Next? {
        var r := CallNext(e, who, s);
        if r.out.Returned? {
          DisciplinedConcat(e, r.log, Exec(e, who, script, seen + [r.st.core], r.st).log);
        }
        CallNextContiguous(e, who, s);
        if r.out.Returned? {
          ExecContiguous(e, who, script, seen + [r.st.core], r.st);
          ContiguousSilent(e, s.index + 1, r, Exec(e, who, script, seen + [r.st.core], r.st));
        }
      } else {
        var w := Step(e.Level(), s.core, a);
        var s' := s.(core := w.core);
        if w.out.Returned? {
          var r := Exec(e, who, script, seen + [s'.core], s');
          DisciplinedConcat(e, w.log, r.log);
          ExecContiguous(e, who, script, seen + [s'.core], s');
          SilentContiguous(e, s.index + 1, w.log, r);
        }
      }
    }
  }

  lemma {:induction false} CallNextContiguous(e: Engine, who: nat, s: State)
    requires Disciplined(CallNext(e, who, s).log, e)
    ensures !s.Written()
    ensures Contiguous(e, s.index + 1, CallNext(e, who, s))
    decreases 2 * e.Left(s.index + 1), 3
  {
    var s' := s.(index := s.index + 1);
    var call := [Called(e.Level(), who, s.index, s.Written())];
    DisciplinedConcat(e, call, Run(e, s').log);
    assert !Asks(LateCalls(e), call[0]) && !Asks(LateLastCalls(e), call[0]);
    RunContiguous(e, s');
    SilentContiguous(e, s.index + 1, call, Run(e, s'));
  }

  lemma {:induction false} InvokeContiguous(e: Engine, who: nat, h: Handler, s: State)
    requires Disciplined(Invoke(e, who, h, s).log, e)
    ensures s.Written() ==> Silent(Invoke(e, who, h, s).log, Entries(e.Level()))
    ensures !s.Written() ==> Contiguous(e, s.index + 1, Invoke(e, who, h, s))
    decreases e.Measure(s.index), 1, h
  {
    var r := Exec(e, who, h.body, [s.core], s);
    if r.out.Panicked? && h.rescue.Some? {
      var caught := [Caught(e.Level(), who)];
      var r' := Invoke(e, who, h.rescue.value, r.st);
      DisciplinedConcat(e, r.log + caught, r'.log);
      DisciplinedConcat(e, r.log, caught);
      ExecContiguous(e, who, h.body, [s.core], s);
      InvokeContiguous(e, who, h.rescue.value, r.st);
      if !s.Written() {
        RescueContiguous(e, who, s.index + 1, r, h.rescue.value);
      }
    } else {
      ExecContiguous(e, who, h.body, [s.core], s);
    }
  }

  lemma {:induction false} RescueContiguous(e: Engine, who: nat, lo: nat, r: Result, rescue: Handler)
    requires Contiguous(e, lo, r)
    requires var r' := Invoke(e, who, rescue, r.st);
             if r.st.Written() then Silent(r'.log, Entries(e.Level()))
             else Contiguous(e, r.st.index + 1, r')
    ensures Contiguous(e, lo, Invoke(e, who, rescue, r.st).After(r.log + [Caught(e.Level(), who)]))
  {
    var caught := [Caught(e.Level(), who)];
    var r' := Invoke(e, who, rescue, r.st);
    ReachConcat(r.log, caught, Entries(e.Level()), lo);
    ReachSilent(caught, Entries(e.Level()), Reach(r.log, Entries(e.Level()), lo).value);
    if r.st.Written() {
      ContiguousSilent(e, lo, r.(log := r.log + caught), r');
    } else {
      InvokeOrdered(e, who, rescue, r.st);
      ContiguousThen(e, lo, r.(log := r.log + caught), r');
    }
  }

  lemma {:induction false} RunContiguous(e: Engine, s: State)
    requires Disciplined(Run(e, s).log, e) && !s.Written()
    ensures Contiguous(e, s.index, Run(e, s))
    decreases 2 * e.Left(s.index), 2
  {
    if s.index < |e.chain| {
      var enter := [Enter(e.Level(), s.index, s.Written())];
      var r := Invoke(e, s.index, e.chain[s.index], s);
      var s' := r.st.(index := r.st.index + 1);
      if r.out.Returned? && !r.st.Written() {
        DisciplinedConcat(e, enter + r.log, Run(e, s').log);
      }
      DisciplinedConcat(e, enter, r.log);
      InvokeContiguous(e, s.index, e.chain[s.index], s);
      EnterContiguous(e, s.index, r);
      if r.out.Returned? && !r.st.Written() {
        RunContiguous(e, s');
        RunOrdered(e, s');
        ContiguousThen(e, s.index, r.After(enter), Run(e, s'));
      }
    } else {
      TailIsSilent(e, s, Entries(e.Level()));
      ReachSilent(Tail(e, s).log, Entries(e.Level()), s.index);
    }
  }

  lemma {:induction false} EnterContiguous(e: Engine, lo: nat, r: Result)
    requires Contiguous(e, lo + 1, r)
    ensures Contiguous(e, lo, r.After([Enter(e.Level(), lo, false)]))
  {
    var enter := [Enter(e.Level(), lo, false)];
    assert Reach(enter, Entries(e.Level()), lo) == Reach([], Entries(e.Level()), lo + 1);
    ReachConcat(enter, r.log, Entries(e.Level()), lo);
  }

  // ----- under the discipline: each handler calls Next at most once -----

  /** Disciplined, and no panic was recovered. */
  ghost predicate Tame(log: seq<Event>, e: Engine) {
    Disciplined(log, e) && !Any(Catches(e.Level()), log)
  }

  lemma {:induction false} TameConcat(e: Engine, a: seq<Event>, b: seq<Event>)
    ensures Tame(a + b, e) <==> Tame(a, e) && Tame(b, e)
  {
    DisciplinedConcat(e, a, b);
    AnyConcat(Catches(e.Level()), a, b);
  }

  /** The handlers that call Next in `r` rise strictly from `lo`. */
  ghost predicate OneCallEach(e: Engine, lo: nat, r: Result) {
    Rising(r.log, Calls(e.Level()), lo, r.st.index)
  }

  lemma {:induction false} CallsSilent(e: Engine, lo: nat, before: seq<Event>, r: Result)
    requires Silent(before, Calls(e.Level())) && OneCallEach(e, lo, r)
    ensures OneCallEach(e, lo, r.After(before))
  {
    RisingSilent(before, Calls(e.Level()), lo, -1);
    RisingConcat(before, r.log, Calls(e.Level()), lo, -1, lo, r.st.index);
  }

  lemma {:induction false} CallsThen(e: Engine, lo: nat, r: Result, r': Result)
    requires OneCallEach(e, lo, r) && Silent(r'.log, Calls(e.Level()))
    requires lo <= r.st.index <= r'.st.index
    ensures OneCallEach(e, lo, r'.After(r.log))
  {
    RisingSilent(r'.log, Calls(e.Level()), r.st.index + 1, r'.st.index);
    RisingConcat(r.log, r'.log, Calls(e.Level()), lo, r.st.index, r.st.index + 1, r'.st.index);
  }

  /** The calls of Next of a handler in state `s`: none if the response is written. */
  ghost predicate CallsFrom(e: Engine, lo: nat, s: State, r: Result) {
    if s.Written() then Silent(r.log, Calls(e.Level())) else OneCallEach(e, lo, r)
  }

  lemma {:induction false} CallsAfterReply(e: Engine, lo: nat, s: State, reply: seq<Event>, s': State, r: Result)
    requires Silent(reply, Calls(e.Level())) && (s.Written() ==> s'.Written()) && CallsFrom(e, lo, s', r)
    ensures CallsFrom(e, lo, s, r.After(reply))
  {
    if !s.Written() {
      if s'.Written() {
        RisingSilent(r.log, Calls(e.Level()), lo, r.st.index);
      }
      CallsSilent(e, lo, reply, r);
    }
  }

  lemma {:induction false} RescueIsCaught(e: Engine, who: nat, h: Handler, s: State)
    ensures Exec(e, who, h.body, [s.core], s).out.Panicked? && h.rescue.Some?
            ==> Any(Catches(e.Level()), Invoke(e, who, h, s).log)
  {
    var r := Exec(e, who, h.body, [s.core], s);
    if r.out.Panicked? && h.rescue.Some? {
      var log := Invoke(e, who, h, s).log;
      assert log[|r.log|] == Caught(e.Level(), who);
    }
  }

  lemma {:induction false} ExecCalls(e: Engine, who: nat, script: Script, seen: seq<Core>, s: State)
    requires s.Written() || who == s.index
    requires Tame(Exec(e, who, script, seen, s).log, e)
    ensures CallsFrom(e, who, s, Exec(e, who, script, seen, s))
    decreases e.Measure(s.index), 0, script.bound - |seen|
  {
    if !(|seen| > script.bound || script.act(seen).Return?) {
      var a := script.act(seen);
      if a.Next? {
        var r := CallNext(e, who, s);
        if r.out.Returned? {
          var r' := Exec(e, who, script, seen + [r.st.core], r.st);
          TameConcat(e, r.log, r'.log);
          CallNextCalls(e, who, s);
          ExecCalls(e, who, script, seen + [r.st.core], r.st);
          CallsThen(e, who, r, r');
        } else {
          CallNextCalls(e, who, s);
        }
      } else {
        var w := Step(e.Level(), s.core, a);
        if w.out.Returned? {
          var s' := s.(core := w.core);
          var r := Exec(e, who, script, seen + [s'.core], s');
          TameConcat(e, w.log, r.log);
          ExecCalls(e, who, script, seen + [s'.core], s');
          CallsAfterReply(e, who, s, w.log, s', r);
        }
      }
    }
  }

  lemma {:induction false} CallNextCalls(e: Engine, who: nat, s: State)
    requires s.Written() || who == s.index
    requires Tame(CallNext(e, who, s).log, e)
    ensures !s.Written()
    ensures OneCallEach(e, who, CallNext(e, who, s))
    decreases 2 * e.Left(s.index + 1), 3
  {
    var s' := s.(index := s.index + 1);
    var call := [Called(e.Level(), who, s.index, s.Written())];
    TameConcat(e, call, Run(e, s').log);
    assert !Asks(LateCalls(e), call[0]) && !Asks(LateLastCalls(e), call[0]);
    RunCalls(e, s');
    assert Rising(call, Calls(e.Level()), who, who);
    RisingConcat(call, Run(e, s').log, Calls(e.Level()), who, who, who + 1, Run(e, s').st.index);
  }

  lemma {:induction false} InvokeCalls(e: Engine, h: Handler, s: State)
    requires !s.Written()
    requires Tame(Invoke(e, s.index, h, s).log, e)
    ensures OneCallEach(e, s.index, Invoke(e, s.index, h, s))
    decreases e.Measure(s.index), 1
  {
    RescueIsCaught(e, s.index, h, s);
    ExecCalls(e, s.index, h.body, [s.core], s);
  }

  lemma {:induction false} RunCalls(e: Engine, s: State)
    requires !s.Written()
    requires Tame(Run(e, s).log, e)
    ensures OneCallEach(e, s.index, Run(e, s))
    decreases 2 * e.Left(s.index), 2
  {
    var kind := Calls(e.Level());
    if s.index < |e.chain| {
      var enter := [Enter(e.Level(), s.index, s.Written())];
      var r := Invoke(e, s.index, e.chain[s.index], s);
      var s' := r.st.(index := r.st.index + 1);
      if r.out.Returned? && !r.st.Written() {
        TameConcat(e, enter + r.log, Run(e, s').log);
      }
      TameConcat(e, enter, r.log);
      InvokeCalls(e, e.chain[s.index], s);
      CallsSilent(e, s.index, enter, r);
      if r.out.Returned? {
        if s'.Written() {
          RisingWiden(enter + r.log, kind, s.index, r.st.index, s.index, s'.index);
        } else {
          RunCalls(e, s');
          RisingConcat(enter + r.log, Run(e, s').log, kind, s.index, r.st.index, s'.index, Run(e, s').st.index);
        }
      }
    } else {
      TailIsSilent(e, s, kind);
      RisingSilent(Tail(e, s).log, kind, s.index, s.index);
    }
  }

  /** No two calls to Next at this level come from the same handler. */
  ghost predicate EachCallsOnce(log: seq<Event>, level: nat) {
    forall j, k :: 0 <= j < k < |log| && Names(Calls(level), log[j]) && Names(Calls(level), log[k])
                   ==> log[j].who != log[k].who
  }

  /**
   When no handler calls Next on a written response: the handlers entered are 0, 1, ... with no gap,
   none is started on a written response, with a registry bound the engine's own 404 is never
   produced, and if no panic was recovered at this level each handler called Next at most once.
   */
  lemma {:induction false} DisciplinedRun(e: Engine, core: Core)
    requires !core.Written() && Disciplined(Run(e, State(0, core)).log, e)
    ensures var r := Run(e, State(0, core));
            && (exists n: nat :: n <= |e.chain| && Indices(r.log, Entries(e.Level())) == Range(0, n))
            && !Any(LateEnters(e.Level()), r.log)
            && (e.RequestEngine? && !e.target.NoRegistry? ==> !Any(EngineMisses, r.log))
            && (!Any(Catches(e.Level()), r.log) ==> EachCallsOnce(r.log, e.Level()))
  {
    var s := State(0, core);
    var r := Run(e, s);
    StopsWhenWritten(e, s);
    RunContiguous(e, s);
    ReachMeans(r.log, Entries(e.Level()), 0);
    RunOrdered(e, s);
    RisingWiden(r.log, Entries(e.Level()), 0, e.Cap(r.st.index), 0, |e.chain| - 1);
    ReachWithin(r.log, Entries(e.Level()), 0, 0, |e.chain|);
    if !Any(Catches(e.Level()), r.log) {
      RunCalls(e, s);
      RisingMeans(r.log, Calls(e.Level()), 0, r.st.index);
    }
  }

  lemma {:induction false} ReachWithin(log: seq<Event>, kind: Kind, lo: nat, from: nat, n: nat)
    requires Reach(log, kind, lo).Some? && lo <= n
    requires Rising(log, kind, from, n - 1)
    ensures Reach(log, kind, lo).value <= n
  {
    if log != [] {
      if Names(kind, log[0]) {
        ReachWithin(log[1..], kind, lo + 1, lo + 1, n);
      } else {
        ReachWithin(log[1..], kind, lo, from, n);
      }
    }
  }
}
