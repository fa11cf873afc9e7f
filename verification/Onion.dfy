/**
 The engine without an index.

 `Layer` is how middleware is usually explained: handler i is wrapped around the chain from i + 1,
 Next runs that inner chain, and when handler i returns without an answer the chain goes on at
 i + 1.  There is no index in it to share.  A run that is `clean` (no handler calls Next a second
 time, none swallows a panic of the inner chain without answering) is a run of the engine.
 */
module Onion {
  import opened Handlers
  import opened Machine
  import opened Logs
  import opened Once
  import D = DefaultChain

  /** `used`: the handler has called Next; `clean`: nobody used Next twice or swallowed a panic. */
  datatype Layered = Layered(out: Outcome, core: Core, log: seq<Event>, used: bool, clean: bool) {
    function After(earlier: seq<Event>): Layered {
      this.(log := earlier + log)
    }
  }

  function ExecLayer(e: Engine, who: nat, script: Script, seen: seq<Core>, c: Core, used: bool): Layered
    requires who < |e.chain|
    decreases e.Level(), e.Left(who), 0, script.bound - |seen|
  {
    if |seen| > script.bound || script.act(seen).Return? then Layered(Returned, c, [], used, true)
    else
      var a := script.act(seen);
      if a.Next? then
        if used then Layered(Returned, c, [], true, false)
        else
          var r := Layer(e, who + 1, c).After([Called(e.Level(), who, who, c.Written())]);
          if r.out.Panicked? || !r.clean then r.(used := true)
          else ExecLayer(e, who, script, seen + [r.core], r.core, true).After(r.log)
      else
        var w := Step(e.Level(), c, a);
        if w.out.Panicked? then Layered(Panicked, w.core, w.log, used, true)
        else ExecLayer(e, who, script, seen + [w.core], w.core, used).After(w.log)
  }

  /** Handler number `who`, or a function that it defers. */
  function InvokeLayer(e: Engine, who: nat, h: Handler, c: Core, used: bool): Layered
    requires who < |e.chain|
    decreases e.Level(), e.Left(who), 1, h
  {
    var r := ExecLayer(e, who, h.body, [c], c, used);
    if r.out.Returned? || h.rescue.None? || !r.clean then r
    else InvokeLayer(e, who, h.rescue.value, r.core, r.used).After(r.log + [Caught(e.Level(), who)])
  }

  /** The chain from handler i on. */
  function Layer(e: Engine, i: nat, c: Core): Layered
    decreases e.Level(), e.Left(i), 2
  {
    if i < |e.chain| then
      var r := InvokeLayer(e, i, e.chain[i], c, false).After([Enter(e.Level(), i, c.Written())]);
      if r.out.Panicked? || !r.clean then r
      else if r.core.Written() then r
      else if r.used then r.(clean := false)
      else Layer(e, i + 1, r.core).After(r.log)
    else Centre(e, c)
  }

  /** The innermost layer: the registry for a request, the route's own handler for a route. */
  function Centre(e: Engine, c: Core): Layered
    decreases e.Level(), 0, 1
  {
    match e
    case RequestEngine(_, target) =>
      if c.Written() || target.NoRegistry? then
        var n := HttpNotFound(c);
        Layered(Returned, n.core, [EngineNotFound] + n.log, false, true)
      else if target.Unrouted? then
        var n := HttpNotFound(c);
        Layered(Returned, n.core, [Dispatch(c.ctx), RegistryNotFound] + n.log, false, true)
      else if target.Custom? then
        var f := ExecEndpoint(target.handle, [c], c);
        var log := [Dispatch(c.ctx)] + f.log;
        if f.out.Panicked? || f.core.Written() then Layered(f.out, f.core, log, false, true)
        else
          var n := HttpError(f.core, "", 204);
          Layered(Returned, n.core, log + [NoContent(1)] + n.log, false, true)
      else
        var r := Layer(RouteEngine(target.chain, target.final), 0, c).After([Dispatch(c.ctx)]);
        r.(core := r.core.(ctx := c.ctx))
    case RouteEngine(_, final) =>
      if c.Written() then Layered(Returned, c, [], false, true)
      else
        var f := ExecEndpoint(final, [c], c);
        if f.out.Panicked? || f.core.Written() then Layered(f.out, f.core, [Final(c.ctx)] + f.log, false, true)
        else
          var n := HttpError(f.core, "", 204);
          Layered(Returned, n.core, [Final(c.ctx)] + f.log + [NoContent(0)] + n.log, false, true)
  }

  // ----- the engine and the onion agree -----

  ghost predicate Agree(r: Result, l: Layered) {
    r.out == l.out && r.st.core == l.core && r.log == l.log
  }

  lemma {:induction false} ExecAgrees(e: Engine, who: nat, script: Script, seen: seq<Core>, s: State, used: bool)
    requires who < |e.chain| && (!used ==> s.index == who)
    requires ExecLayer(e, who, script, seen, s.core, used).clean
    ensures var r, l := Exec(e, who, script, seen, s), ExecLayer(e, who, script, seen, s.core, used);
            Agree(r, l) && (!l.used ==> r.st.index == who)
    decreases e.Level(), e.Left(who), 0, script.bound - |seen|
  {
    if !(|seen| > script.bound || script.act(seen).Return?) {
      var a := script.act(seen);
      if a.Next? {
        RunAgrees(e, s.(index := who + 1));
        var r := CallNext(e, who, s);
        if r.out.Returned? {
          ExecAgrees(e, who, script, seen + [r.st.core], r.st, true);
        }
      } else {
        var w := Step(e.Level(), s.core, a);
        if w.out.Returned? {
          var s' := s.(core := w.core);
          ExecAgrees(e, who, script, seen + [s'.core], s', used);
        }
      }
    }
  }

  lemma {:induction false} InvokeAgrees(e: Engine, who: nat, h: Handler, s: State, used: bool)
    requires who < |e.chain| && (!used ==> s.index == who)
    requires InvokeLayer(e, who, h, s.core, used).clean
    ensures var r, l := Invoke(e, who, h, s), InvokeLayer(e, who, h, s.core, used);
            Agree(r, l) && (!l.used ==> r.st.index == who)
    decreases e.Level(), e.Left(who), 1, h
  {
    ExecAgrees(e, who, h.body, [s.core], s, used);
    var r, l := Exec(e, who, h.body, [s.core], s), ExecLayer(e, who, h.body, [s.core], s.core, used);
    if r.out.Panicked? && h.rescue.Some? {
      InvokeAgrees(e, who, h.rescue.value, r.st, l.used);
    }
  }

  /** A clean run of the onion is the run of the engine: same outcome, response, context and events. */
  lemma {:induction false} RunAgrees(e: Engine, s: State)
    requires Layer(e, s.index, s.core).clean
    ensures Agree(Run(e, s), Layer(e, s.index, s.core))
    decreases e.Level(), e.Left(s.index), 2
  {
    if s.index < |e.chain| {
      InvokeAgrees(e, s.index, e.chain[s.index], s, false);
      var r := Invoke(e, s.index, e.chain[s.index], s);
      if r.out.Returned? && !r.st.Written() {
        RunAgrees(e, r.st.(index := r.st.index + 1));
      }
    } else {
      CentreAgrees(e, s);
    }
  }

  lemma {:induction false} CentreAgrees(e: Engine, s: State)
    requires Centre(e, s.core).clean
    ensures Agree(Tail(e, s), Centre(e, s.core))
    decreases e.Level(), 0, 1
  {
    if e.RequestEngine? && !s.Written() && e.target.Routed? {
      RunAgrees(RouteEngine(e.target.chain, e.target.final), State(0, s.core));
      HandleOnce(e.target, s.core, Fallbacks);
    }
  }

  // ----- handlers for which every run is clean -----

  /** Whatever it sees before it has to stop, the script calls Next at most once. */
  ghost predicate NextAtMostOnce(script: Script) {
    forall seen: seq<Core>, k | 1 <= k < |seen| <= script.bound ::
      script.act(seen[..k]).Next? ==> !script.act(seen).Next?
  }

  ghost predicate NeverNext(script: Script) {
    forall seen: seq<Core> | |seen| <= script.bound :: !script.act(seen).Next?
  }

  ghost predicate NobodyNext(h: Handler) {
    NeverNext(h.body) && (h.rescue.Some? ==> NobodyNext(h.rescue.value))
  }

  /**
   Calls Next at most once.  If it recovers, then by a function that calls Next no more and leaves no
   request unanswered; or it is that function that makes the only call of Next.
   */
  ghost predicate Courteous(h: Handler) {
    && NextAtMostOnce(h.body)
    && (h.rescue.Some? ==>
          || (NobodyNext(h.rescue.value) && Answers(h.rescue.value))
          || (NeverNext(h.body) && Courteous(h.rescue.value)))
  }

  ghost predicate AllCourteous(e: Engine) {
    && (forall k :: 0 <= k < |e.chain| ==> Courteous(e.chain[k]))
    && (e.RequestEngine? && e.target.Routed?
        ==> forall k :: 0 <= k < |e.target.chain| ==> Courteous(e.target.chain[k]))
  }

  ghost predicate CalledBefore(script: Script, seen: seq<Core>) {
    exists k :: 1 <= k < |seen| && script.act(seen[..k]).Next?
  }

  lemma {:induction false} CalledStays(script: Script, seen: seq<Core>, c: Core)
    requires |seen| >= 1
    ensures CalledBefore(script, seen) || script.act(seen).Next? ==> CalledBefore(script, seen + [c])
  {
    if CalledBefore(script, seen) {
      var k :| 1 <= k < |seen| && script.act(seen[..k]).Next?;
      assert (seen + [c])[..k] == seen[..k];
    } else if script.act(seen).Next? {
      assert (seen + [c])[..|seen|] == seen;
    }
  }

  lemma {:induction false} ExecClean(e: Engine, who: nat, script: Script, seen: seq<Core>, c: Core, used: bool)
    requires who < |e.chain| && AllCourteous(e) && |seen| >= 1
    requires NeverNext(script) || (NextAtMostOnce(script) && (used ==> CalledBefore(script, seen)))
    ensures var l := ExecLayer(e, who, script, seen, c, used);
            && l.clean
            && (l.used && !used && l.out.Returned? ==> l.core.Written())
            && (NeverNext(script) ==> l.used == used)
    decreases e.Level(), e.Left(who), 0, script.bound - |seen|
  {
    if !(|seen| > script.bound || script.act(seen).Return?) {
      var a := script.act(seen);
      if a.Next? {
        assert !used;
        LayerClean(e, who + 1, c);
        RunAgrees(e, State(who + 1, c));
        var r := Layer(e, who + 1, c);
        if r.out.Returned? {
          CalledStays(script, seen, r.core);
          ExecClean(e, who, script, seen + [r.core], r.core, true);
          ExecAgrees(e, who, script, seen + [r.core], State(who, r.core), true);
        }
      } else {
        var w := Step(e.Level(), c, a);
        if w.out.Returned? {
          CalledStays(script, seen, w.core);
          ExecClean(e, who, script, seen + [w.core], w.core, used);
        }
      }
    }
  }

  /** A recovering function that calls Next no more, and settles the request. */
  lemma {:induction false} RescueClean(e: Engine, who: nat, h: Handler, c: Core, used: bool)
    requires who < |e.chain| && AllCourteous(e) && NobodyNext(h) && Settles(h, [c], c)
    ensures var l := InvokeLayer(e, who, h, c, used);
            l.clean && l.used == used && (l.out.Returned? ==> l.core.Written())
    decreases e.Level(), e.Left(who), 1, h
  {
    ExecClean(e, who, h.body, [c], c, used);
    var r := ExecLayer(e, who, h.body, [c], c, used);
    var s := State(who, c);
    ExecAgrees(e, who, h.body, [c], s, used);
    SettledExec(e, who, h, [c], s, Dispatches);
    if r.out.Panicked? && h.rescue.Some? {
      RescueClean(e, who, h.rescue.value, r.core, used);
    }
  }

  lemma {:induction false} InvokeClean(e: Engine, who: nat, h: Handler, c: Core)
    requires who < |e.chain| && AllCourteous(e) && Courteous(h)
    ensures var l := InvokeLayer(e, who, h, c, false); l.clean && (l.used && l.out.Returned? ==> l.core.Written())
    decreases e.Level(), e.Left(who), 1, h
  {
    ExecClean(e, who, h.body, [c], c, false);
    var r := ExecLayer(e, who, h.body, [c], c, false);
    if r.out.Panicked? && h.rescue.Some? {
      if NobodyNext(h.rescue.value) && Answers(h.rescue.value) {
        RescueClean(e, who, h.rescue.value, r.core, r.used);
      } else {
        InvokeClean(e, who, h.rescue.value, r.core);
      }
    }
  }

  lemma {:induction false} LayerClean(e: Engine, i: nat, c: Core)
    requires AllCourteous(e)
    ensures Layer(e, i, c).clean
    decreases e.Level(), e.Left(i), 2
  {
    if i < |e.chain| {
      InvokeClean(e, i, e.chain[i], c);
      var r := InvokeLayer(e, i, e.chain[i], c, false);
      if r.out.Returned? && !r.core.Written() {
        LayerClean(e, i + 1, r.core);
      }
    } else if e.RequestEngine? && e.target.Routed? {
      LayerClean(RouteEngine(e.target.chain, e.target.final), 0, c);
    }
  }

  /**
   For all handlers that call Next at most once, and recover, if they do, without leaving a request
   unanswered that they have passed on: the engine's shared index computes the onion, with the same
   outcome, response, context and sequence of events.
   */
  lemma {:induction false} EngineIsOnion(e: Engine, c: Core)
    requires AllCourteous(e)
    ensures Agree(Run(e, State(0, c)), Layer(e, 0, c))
  {
    LayerClean(e, 0, c);
    RunAgrees(e, State(0, c));
  }

  /** Logger and recovery are of that kind, so every server is an onion if the added handlers are. */
  lemma {:induction false} ServerIsOnion(message: string, handlers: seq<Handler>, target: Target, c: Core)
    requires forall k :: 0 <= k < |handlers| ==> Courteous(handlers[k])
    requires target.Routed? ==> forall k :: 0 <= k < |target.chain| ==> Courteous(target.chain[k])
    ensures var e := D.Engine(message, handlers, target);
            Agree(Run(e, State(0, c)), Layer(e, 0, c))
  {
    UsualRescues(500, message);
    assert Courteous(Logger()) && Courteous(Recovery(message));
    EngineIsOnion(D.Engine(message, handlers, target), c);
  }
}
