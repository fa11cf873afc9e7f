/**
 The context a run ends with, whatever the handlers do: the one of the last Update at its level.  A
 panic changes nothing about that, so what is caught further out finds the context in force when the
 panic was raised.
 */
module Contexts {
  import opened Handlers
  import opened Machine
  import opened Logs
  import opened Order
  import opened Seqs
  import D = DefaultChain

  /** The context after these events, at one level. */
  function LastUpdate(log: seq<Event>, level: nat, before: Ctx): Ctx {
    if log == [] then before
    else LastUpdate(log[1..], level, if log[0].Updated? && log[0].level == level then log[0].ctx else before)
  }

  lemma {:induction false} LastUpdateConcat(a: seq<Event>, b: seq<Event>, level: nat, before: Ctx)
    ensures LastUpdate(a + b, level, before) == LastUpdate(b, level, LastUpdate(a, level, before))
    decreases |a|
  {
    if a == [] {
      assert a + b == b;
    } else {
      LastUpdateConcat(a[1..], b, level, if a[0].Updated? && a[0].level == level then a[0].ctx else before);
      assert (a + b)[1..] == a[1..] + b;
    }
  }

  ghost predicate NoUpdates(log: seq<Event>, level: nat) {
    forall k :: 0 <= k < |log| ==> !(log[k].Updated? && log[k].level == level)
  }

  lemma {:induction false} NoUpdatesKeep(log: seq<Event>, level: nat, before: Ctx)
    requires NoUpdates(log, level)
    ensures LastUpdate(log, level, before) == before
  {
    if log != [] {
      assert forall k :: 0 <= k < |log[1..]| ==> log[1..][k] == log[k + 1];
      NoUpdatesKeep(log[1..], level, before);
    }
  }

  /** The context is that of the last Update, and a panic is the last event of the run that it ends. */
  ghost predicate Leads(level: nat, c: Core, r: Result) {
    && r.st.core.ctx == LastUpdate(r.log, level, c.ctx)
    && (r.out.Panicked? ==> r.log != [] && r.log[|r.log| - 1].Raise?)
  }

  lemma {:induction false} LeadsAfter(level: nat, c: Core, log: seq<Event>, c': Core, r: Result)
    requires c'.ctx == LastUpdate(log, level, c.ctx) && Leads(level, c', r)
    ensures Leads(level, c, r.After(log))
  {
    LastUpdateConcat(log, r.log, level, c.ctx);
  }

  /** An event that is no Update, in front. */
  lemma {:induction false} LeadsMark(level: nat, c: Core, mark: Event, r: Result)
    requires !mark.Updated? && Leads(level, c, r)
    ensures Leads(level, c, r.After([mark]))
  {
    assert [mark][1..] == [];
    LeadsAfter(level, c, [mark], c, r);
  }

  lemma StepLeads(level: nat, c: Core, a: Action, index: nat)
    requires !a.Next?
    ensures var w := Step(level, c, a); Leads(level, c, Result(w.out, State(index, w.core), w.log))
  {
    var w := Step(level, c, a);
    if a.Update? {
      assert w.log[1..] == [];
    } else {
      NoUpdatesKeep(w.log, level, c.ctx);
    }
  }

  lemma {:induction false} ExecLeads(e: Engine, who: nat, script: Script, seen: seq<Core>, s: State)
    ensures Leads(e.Level(), s.core, Exec(e, who, script, seen, s))
    decreases e.Level(), e.Measure(s.index), 0, script.bound - |seen|
  {
    if !(|seen| > script.bound || script.act(seen).Return?) {
      var a := script.act(seen);
      if a.Next? {
        CallNextLeads(e, who, s);
        var r := CallNext(e, who, s);
        if r.out.Returned? {
          ExecLeads(e, who, script, seen + [r.st.core], r.st);
          LeadsAfter(e.Level(), s.core, r.log, r.st.core, Exec(e, who, script, seen + [r.st.core], r.st));
        }
      } else {
        var w := Step(e.Level(), s.core, a);
        StepLeads(e.Level(), s.core, a, s.index);
        if w.out.Returned? {
          var s' := s.(core := w.core);
          ExecLeads(e, who, script, seen + [s'.core], s');
          LeadsAfter(e.Level(), s.core, w.log, s'.core, Exec(e, who, script, seen + [s'.core], s'));
        }
      }
    }
  }

  lemma {:induction false} CallNextLeads(e: Engine, who: nat, s: State)
    ensures Leads(e.Level(), s.core, CallNext(e, who, s))
    decreases e.Level(), 2 * e.Left(s.index + 1), 3
  {
    var s' := s.(index := s.index + 1);
    RunLeads(e, s');
    LeadsMark(e.Level(), s.core, Called(e.Level(), who, s.index, s.Written()), Run(e, s'));
  }

  lemma {:induction false} InvokeLeads(e: Engine, who: nat, h: Handler, s: State)
    ensures Leads(e.Level(), s.core, Invoke(e, who, h, s))
    decreases e.Level(), e.Measure(s.index), 1, h
  {
    ExecLeads(e, who, h.body, [s.core], s);
    var r := Exec(e, who, h.body, [s.core], s);
    if r.out.Panicked? && h.rescue.Some? {
      var caught, rest := Caught(e.Level(), who), Invoke(e, who, h.rescue.value, r.st);
      InvokeLeads(e, who, h.rescue.value, r.st);
      LeadsMark(e.Level(), r.st.core, caught, rest);
      LeadsAfter(e.Level(), s.core, r.log, r.st.core, rest.After([caught]));
      Assoc(r.log, [caught], rest.log);
    }
  }

  /** For all handlers, recovering or not: the context is that of the last Update at the engine's level. */
  lemma {:induction false} RunLeads(e: Engine, s: State)
    ensures Leads(e.Level(), s.core, Run(e, s))
    decreases e.Level(), 2 * e.Left(s.index), 2
  {
    if s.index < |e.chain| {
      var enter := Enter(e.Level(), s.index, s.Written());
      InvokeLeads(e, s.index, e.chain[s.index], s);
      var r := Invoke(e, s.index, e.chain[s.index], s);
      LeadsMark(e.Level(), s.core, enter, r);
      if r.out.Returned? && !r.st.Written() {
        var s' := r.st.(index := r.st.index + 1);
        RunLeads(e, s');
        LeadsAfter(e.Level(), s.core, [enter] + r.log, s'.core, Run(e, s'));
      }
    } else {
      TailLeads(e, s);
    }
  }

  lemma {:induction false} EndpointPanics(h: Endpoint, seen: seq<Core>, c: Core)
    ensures var w := ExecEndpoint(h, seen, c); w.out.Panicked? ==> w.log != [] && w.log[|w.log| - 1].Raise?
    decreases h.bound - |seen|
  {
    if !(|seen| > h.bound || h.act(seen).Return?) {
      var w := Respond(c, h.act(seen));
      if w.out.Returned? {
        EndpointPanics(h, seen + [w.core], w.core);
      }
    }
  }

  lemma {:induction false} TailLeads(e: Engine, s: State)
    ensures Leads(e.Level(), s.core, Tail(e, s))
    decreases e.Level(), 0, 1
  {
    TailPanics(e, s);
    if e.RequestEngine? ==> !s.Written() && !e.target.NoRegistry? {
      TailBelow(e, s);
    }
    NoUpdatesKeep(Tail(e, s).log, e.Level(), s.core.ctx);
  }

  lemma {:induction false} TailPanics(e: Engine, s: State)
    ensures var r := Tail(e, s); r.out.Panicked? ==> r.log != [] && r.log[|r.log| - 1].Raise?
    decreases e.Level(), 0, 0
  {
    if e.RouteEngine? {
      EndpointPanics(e.final, [s.core], s.core);
    } else if e.target.Custom? {
      EndpointPanics(e.target.handle, [s.core], s.core);
    } else if e.target.Routed? {
      RunLeads(RouteEngine(e.target.chain, e.target.final), State(0, s.core));
    }
  }

  /**
   In every server whose other handlers do not recover: after a panic, recovery's answer is the last
   thing that happens, and the request ends with the context in force when the panic was raised.
   */
  lemma {:induction false} PanicKeepsContext(message: string, handlers: seq<Handler>, target: Target, c: Core)
    requires !c.Written() && D.NoRescue(handlers) && (target.Routed? ==> D.NoRescue(target.chain))
    ensures var r := Run(D.Engine(message, handlers, target), State(0, c));
            Any(Raises, r.log) ==>
              exists k, c' :: && 0 <= k < |r.log| && r.log[k].Raise?
                              && r.log[k + 1..] == D.Apology(c', message)
                              && r.st.core.ctx == LastUpdate(r.log[..k], 1, c.ctx)
  {
    var e := D.Engine(message, handlers, target);
    var r, below := Run(e, State(0, c)), Run(e, State(2, c));
    D.PanicGives500(message, handlers, target, c);
    RunLeads(e, State(0, c));
    RunLeads(e, State(2, c));
    if Any(Raises, r.log) {
      var c' := below.st.core;
      var k := PanicAt(D.Prologue() + below.log, D.Apology(c', message), c.ctx);
      assert r.log[k].Raise? && r.log[k + 1..] == D.Apology(c', message);
    }
  }

  /** Events that end with a panic, and others after it that update nothing. */
  lemma PanicAt(a: seq<Event>, b: seq<Event>, before: Ctx) returns (k: nat)
    requires a != [] && a[|a| - 1].Raise? && NoUpdates(b, 1)
    ensures k < |a + b| && (a + b)[k].Raise? && (a + b)[k + 1..] == b
    ensures LastUpdate(a + b, 1, before) == LastUpdate((a + b)[..k], 1, before)
  {
    k := |a| - 1;
    assert (a + b)[..k] == a[..k] && (a + b)[k + 1..] == b;
    assert a + b == a[..k] + ([a[k]] + b);
    LastUpdateConcat(a[..k], [a[k]] + b, 1, before);
    NoUpdatesKeep([a[k]] + b, 1, LastUpdate(a[..k], 1, before));
  }
}
