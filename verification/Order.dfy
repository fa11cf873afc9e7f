/**
 Order and uniqueness for arbitrary handlers: whatever the handlers do with Next, and whatever
 panics are raised or recovered, the engine enters handlers in registration order, each at most
 once, although the index is shared by all the nested frames of Run.
 */
module Order {
  import opened Handlers
  import opened Machine
  import opened Logs

  // ----- a route's run leaves no trace of the request level -----

  ghost predicate RouteLevel(ev: Event) {
    match ev
    case Enter(level, _, _) => level == 0
    case Called(level, _, _, _) => level == 0
    case Caught(level, _) => level == 0
    case NoContent(level) => level == 0
    case Updated(level, _) => level == 0
    case Dispatch(_) => false
    case RegistryNotFound => false
    case EngineNotFound => false
    case _ => true
  }

  ghost predicate OnRoute(log: seq<Event>) {
    forall k :: 0 <= k < |log| ==> RouteLevel(log[k])
  }

  lemma {:induction false} ExecOnRoute(e: Engine, who: nat, script: Script, seen: seq<Core>, s: State)
    requires e.RouteEngine?
    ensures OnRoute(Exec(e, who, script, seen, s).log)
    decreases e.Measure(s.index), 0, script.bound - |seen|
  {
    if !(|seen| > script.bound || script.act(seen).Return?) {
      var a := script.act(seen);
      if a.Next? {
        RunOnRoute(e, s.(index := s.index + 1));
        var r := CallNext(e, who, s);
        if r.out.Returned? {
          ExecOnRoute(e, who, script, seen + [r.st.core], r.st);
        }
      } else {
        var w := Step(e.Level(), s.core, a);
        if w.out.Returned? {
          var s' := s.(core := w.core);
          ExecOnRoute(e, who, script, seen + [s'.core], s');
        }
      }
    }
  }

  lemma {:induction false} InvokeOnRoute(e: Engine, who: nat, h: Handler, s: State)
    requires e.RouteEngine?
    ensures OnRoute(Invoke(e, who, h, s).log)
    decreases e.Measure(s.index), 1, h
  {
    ExecOnRoute(e, who, h.body, [s.core], s);
    var r := Exec(e, who, h.body, [s.core], s);
    if r.out.Panicked? && h.rescue.Some? {
      InvokeOnRoute(e, who, h.rescue.value, r.st);
    }
  }

  /** A route's chain and its handler produce route-level events only. */
  lemma {:induction false} RunOnRoute(e: Engine, s: State)
    requires e.RouteEngine?
    ensures OnRoute(Run(e, s).log)
    decreases 2 * e.Left(s.index), 2
  {
    if s.index < |e.chain| {
      InvokeOnRoute(e, s.index, e.chain[s.index], s);
      var r := Invoke(e, s.index, e.chain[s.index], s);
      if r.out.Returned? && !r.st.Written() {
        RunOnRoute(e, r.st.(index := r.st.index + 1));
      }
    } else if !s.Written() {
      EndpointIsPlain(e.final, [s.core], s.core);
    }
  }

  /** registry.Handle adds its own mark to what the route produces. */
  lemma {:induction false} HandleOnRoute(target: Target, c: Core)
    requires !target.NoRegistry?
    ensures var log := Handle(target, c).log;
            log != [] && log[0] == Dispatch(c.ctx)
            && forall k :: 1 <= k < |log| ==> log[k] == RegistryNotFound || RouteLevel(log[k])
  {
    if target.Routed? {
      var r := Run(RouteEngine(target.chain, target.final), State(0, c));
      RunOnRoute(RouteEngine(target.chain, target.final), State(0, c));
      assert Handle(target, c).log == [Dispatch(c.ctx)] + r.log;
    } else if target.Custom? {
      EndpointIsPlain(target.handle, [c], c);
    }
  }

  /** An event that no handler of this level, and not the end of its chain either, can cause. */
  ghost predicate Below(level: nat, ev: Event) {
    match ev
    case Enter(l, _, _) => l < level
    case Called(l, _, _, _) => l < level
    case Caught(l, _) => l < level
    case Updated(l, _) => l < level
    case EngineNotFound => false
    case _ => true
  }

  ghost predicate AllBelow(level: nat, log: seq<Event>) {
    forall k :: 0 <= k < |log| ==> Below(level, log[k])
  }

  lemma BelowConcat(level: nat, a: seq<Event>, b: seq<Event>)
    requires AllBelow(level, a) && AllBelow(level, b)
    ensures AllBelow(level, a + b)
  {
  }

  lemma FallbackBelow(level: nat, w: Reaction)
    requires AllBelow(level, w.log)
    ensures AllBelow(level, w.log + [NoContent(level)] + HttpError(w.core, "", 204).log)
  {
    BelowConcat(level, w.log, [NoContent(level)]);
    BelowConcat(level, w.log + [NoContent(level)], HttpError(w.core, "", 204).log);
  }

  /** What follows the last handler, except the engine's own 404, comes from below. */
  lemma {:induction false} TailBelow(e: Engine, s: State)
    requires e.RequestEngine? ==> !s.Written() && !e.target.NoRegistry?
    ensures AllBelow(e.Level(), Tail(e, s).log)
  {
    if e.RequestEngine? {
      HandleOnRoute(e.target, s.core);
      FallbackBelow(1, Handle(e.target, s.core));
    } else if s.Written() {
      FallbackBelow(0, Reaction(Returned, s.core, []));
    } else {
      EndpointIsPlain(e.final, [s.core], s.core);
      var f := ExecEndpoint(e.final, [s.core], s.core);
      BelowConcat(0, [Final(s.core.ctx)], f.log);
      FallbackBelow(0, f.(log := [Final(s.core.ctx)] + f.log));
    }
  }

  /** After the last handler nobody is entered, and nobody calls Next, at this level any more. */
  lemma {:induction false} TailIsSilent(e: Engine, s: State, kind: Kind)
    requires kind.level == e.Level()
    ensures Silent(Tail(e, s).log, kind)
  {
    if e.RequestEngine? ==> !s.Written() && !e.target.NoRegistry? {
      TailBelow(e, s);
    }
  }

  // ----- strictly rising indices -----

  /** The handlers entered by `r` rise strictly, start at `lo` or later, and none is past the index. */
  ghost predicate Ordered(e: Engine, lo: nat, r: Result) {
    Rising(r.log, Entries(e.Level()), lo, e.Cap(r.st.index))
  }

  lemma {:induction false} OrderedSilent(e: Engine, lo: nat, before: seq<Event>, r: Result)
    requires Silent(before, Entries(e.Level()))
    requires Ordered(e, lo, r)
    ensures Ordered(e, lo, r.After(before))
  {
    var kind := Entries(e.Level());
    RisingSilent(before, kind, lo, -1);
    RisingConcat(before, r.log, kind, lo, -1, lo, e.Cap(r.st.index));
  }

  lemma {:induction false} OrderedAfter(e: Engine, lo: nat, r: Result, lo': nat, r': Result)
    requires Ordered(e, lo, r) && Ordered(e, lo', r')
    requires lo <= lo' && r.st.index < lo' && r.st.index <= r'.st.index
    ensures Ordered(e, lo, r'.After(r.log))
  {
    RisingConcat(r.log, r'.log, Entries(e.Level()), lo, e.Cap(r.st.index), lo', e.Cap(r'.st.index));
  }

  lemma {:induction false} ExecOrdered(e: Engine, who: nat, script: Script, seen: seq<Core>, s: State)
    ensures Ordered(e, s.index + 1, Exec(e, who, script, seen, s))
    decreases e.Measure(s.index), 0, script.bound - |seen|
  {
    if !(|seen| > script.bound || script.act(seen).Return?) {
      var a := script.act(seen);
      if a.Next? {
        CallNextOrdered(e, who, s);
        var r := CallNext(e, who, s);
        if r.out.Returned? {
          ExecOrdered(e, who, script, seen + [r.st.core], r.st);
          OrderedAfter(e, s.index + 1, r, r.st.index + 1, Exec(e, who, script, seen + [r.st.core], r.st));
        }
      } else {
        var w := Step(e.Level(), s.core, a);
        if w.out.Returned? {
          var s' := s.(core := w.core);
          ExecOrdered(e, who, script, seen + [s'.core], s');
          OrderedSilent(e, s.index + 1, w.log, Exec(e, who, script, seen + [s'.core], s'));
        }
      }
    }
  }

  lemma {:induction false} CallNextOrdered(e: Engine, who: nat, s: State)
    ensures Ordered(e, s.index + 1, CallNext(e, who, s))
    decreases 2 * e.Left(s.index + 1), 3
  {
    RunOrdered(e, s.(index := s.index + 1));
    OrderedSilent(e, s.index + 1, [Called(e.Level(), who, s.index, s.Written())], Run(e, s.(index := s.index + 1)));
  }

  lemma {:induction false} InvokeOrdered(e: Engine, who: nat, h: Handler, s: State)
    ensures Ordered(e, s.index + 1, Invoke(e, who, h, s))
    decreases e.Measure(s.index), 1, h
  {
    ExecOrdered(e, who, h.body, [s.core], s);
    var r := Exec(e, who, h.body, [s.core], s);
    if r.out.Panicked? && h.rescue.Some? {
      InvokeOrdered(e, who, h.rescue.value, r.st);
      RescueOrdered(e, who, s.index + 1, r, Invoke(e, who, h.rescue.value, r.st));
    }
  }

  lemma {:induction false} RescueOrdered(e: Engine, who: nat, lo: nat, r: Result, r': Result)
    requires Ordered(e, lo, r) && Ordered(e, r.st.index + 1, r')
    requires lo <= r.st.index + 1 && r.st.index <= r'.st.index
    ensures Ordered(e, lo, r'.After(r.log + [Caught(e.Level(), who)]))
  {
    var caught, kind := [Caught(e.Level(), who)], Entries(e.Level());
    RisingSilent(caught, kind, r.st.index + 1, -1);
    RisingConcat(r.log, caught, kind, lo, e.Cap(r.st.index), r.st.index + 1, e.Cap(r.st.index));
    OrderedAfter(e, lo, r.(log := r.log + caught), r.st.index + 1, r');
  }

  lemma {:induction false} EnterOrdered(e: Engine, s: State, r: Result)
    requires s.index < |e.chain| && s.index <= r.st.index && Ordered(e, s.index + 1, r)
    ensures Ordered(e, s.index, r.After([Enter(e.Level(), s.index, s.Written())]))
  {
    var enter := [Enter(e.Level(), s.index, s.Written())];
    assert Rising(enter, Entries(e.Level()), s.index, s.index);
    RisingConcat(enter, r.log, Entries(e.Level()), s.index, s.index, s.index + 1, e.Cap(r.st.index));
  }

  /**
   For all handlers: over one Run and every frame nested in it, the handlers entered have strictly
   rising indices, from the index Run started at.
   */
  lemma {:induction false} RunOrdered(e: Engine, s: State)
    ensures Ordered(e, s.index, Run(e, s))
    decreases 2 * e.Left(s.index), 2
  {
    if s.index < |e.chain| {
      var r := Invoke(e, s.index, e.chain[s.index], s);
      InvokeOrdered(e, s.index, e.chain[s.index], s);
      EnterOrdered(e, s, r);
      if r.out.Returned? {
        var s' := r.st.(index := r.st.index + 1);
        var first := r.After([Enter(e.Level(), s.index, s.Written())]);
        if s'.Written() {
          RisingWiden(first.log, Entries(e.Level()), s.index, e.Cap(r.st.index), s.index, e.Cap(s'.index));
        } else {
          RunOrdered(e, s');
          OrderedAfter(e, s.index, first, s'.index, Run(e, s'));
        }
      }
    } else {
      TailIsSilent(e, s, Entries(e.Level()));
      RisingSilent(Tail(e, s).log, Entries(e.Level()), s.index, e.Cap(s.index));
    }
  }

  /** Each handler of a chain is entered at most once in a run, in registration order. */
  lemma {:induction false} EnteredInOrder(e: Engine, s: State)
    ensures var log := Run(e, s).log;
            && (forall k :: 0 <= k < |log| && Names(Entries(e.Level()), log[k])
                            ==> s.index <= log[k].index < |e.chain|)
            && (forall j, k :: 0 <= j < k < |log|
                               && Names(Entries(e.Level()), log[j]) && Names(Entries(e.Level()), log[k])
                               ==> log[j].index < log[k].index)
  {
    RunOrdered(e, s);
    RisingMeans(Run(e, s).log, Entries(e.Level()), s.index, e.Cap(Run(e, s).st.index));
  }
}
