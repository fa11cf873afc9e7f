/**
 The engine as the objects of the source: a response writer shared by a request's context and its
 route's context, each context with its own index and context value, and handlers that call back
 into the context that is running them.  Every method is proved to do what module Machine says.
 */
module ChainContexts {
  import opened Handlers
  import opened Seqs
  import M = Machine
  import Responses

  class ResponseWriter {
    var status: int
    var size: int
    /** The code the wrapped net/http writer has put on the wire, 0 for none. */
    var sent: int
    /** All that happened to the request since this writer was made. */
    ghost var history: seq<M.Event>

    constructor ()
      ensures status == 0 && size == 0 && sent == 0 && history == []
    {
      status, size, sent, history := 0, 0, 0, [];
    }

    predicate Written()
      reads this
    {
      status != 0
    }

    function View(ctx: Ctx): Core
      reads this
    {
      Core(ctx, status, size, sent)
    }

    ghost method Note(ev: M.Event)
      modifies this`history
      ensures history == old(history) + [ev]
    {
      history := history + [ev];
    }

    /** What net/http makes of WriteHeader: a code goes out, or is ignored after another, or it panics. */
    method Send(code: int) returns (out: M.Outcome)
      modifies this`sent
      ensures forall ctx :: var w := M.WriteHeader(old(View(ctx)), code); out == w.out && sent == w.core.sent
    {
      if status != 0 && sent != 0 && code != 0 {
        return M.Returned;
      }
      if !(100 <= code <= 999) {
        return M.Panicked;
      }
      sent := if 100 <= code <= 199 && code != 101 then 0 else code;
      return M.Returned;
    }

    method WriteHeader(code: int) returns (out: M.Outcome)
      modifies this
      ensures forall ctx :: var w := M.WriteHeader(old(View(ctx)), code);
                            out == w.out && View(ctx) == w.core && history == old(history) + w.log
    {
      out := Send(code);
      if out.Panicked? {
        Note(M.Raise);
        return;
      }
      Note(M.Head(code));
      status := code;
    }

    method Write(data: string)
      modifies this
      ensures forall ctx :: var w := M.Write(old(View(ctx)), data);
                            View(ctx) == w.core && history == old(history) + w.log
      ensures old(status) == 0 ==> status == 200 && sent == 200 && size == old(size) + |data|
                                   && history == old(history) + [M.Head(200), M.Body(data)]
      ensures old(status) != 0 ==> status == old(status)
    {
      ghost var before := View(map[]);
      Responses.WriteSends(before, data);
      if !Written() {
        var _ := WriteHeader(200);
      }
      if sent == 0 {
        sent := 200;
      }
      if M.AdmitsBody(sent) {
        Note(M.Body(data));
        size := size + |data|;
      }
      assert View(map[]) == M.Write(before, data).core;
    }
  }

  /** http.Error */
  method HttpError(rw: ResponseWriter, text: string, code: int)
    requires M.ValidCode(code)
    modifies rw
    ensures forall ctx :: var w := M.HttpError(old(rw.View(ctx)), text, code);
                          rw.View(ctx) == w.core && rw.history == old(rw.history) + w.log
  {
    var _ := rw.WriteHeader(code);
    rw.Write(text + "\n");
  }

  method HttpNotFound(rw: ResponseWriter)
    modifies rw
    ensures forall ctx :: var w := M.HttpNotFound(old(rw.View(ctx)));
                          rw.View(ctx) == w.core && rw.history == old(rw.history) + w.log
  {
    HttpError(rw, "404 page not found", 404);
  }

  /** The answer of an engine whose innermost layer returned without one. */
  method NoContent(rw: ResponseWriter, ghost level: nat)
    modifies rw
    ensures forall ctx :: var w := M.HttpError(old(rw.View(ctx)), "", 204);
                          rw.View(ctx) == w.core && rw.history == old(rw.history) + [M.NoContent(level)] + w.log
  {
    rw.Note(M.NoContent(level));
    HttpError(rw, "", 204);
  }

  /** A reply of a handler, carried out on the response writer. */
  method Respond(rw: ResponseWriter, a: Reply) returns (out: M.Outcome)
    modifies rw
    ensures forall ctx :: var w := M.Respond(old(rw.View(ctx)), a);
                          out == w.out && rw.View(ctx) == w.core && rw.history == old(rw.history) + w.log
  {
    match a
    case Return =>
      out := M.Returned;
    case Panic =>
      rw.Note(M.Raise);
      out := M.Panicked;
    case WriteHeader(code) =>
      out := rw.WriteHeader(code);
    case Write(data) =>
      rw.Write(data);
      out := M.Returned;
  }

  /** A route's own handler. */
  method ExecEndpoint(h: Endpoint, ctx: Ctx, rw: ResponseWriter) returns (out: M.Outcome)
    modifies rw
    ensures var w := M.ExecEndpoint(h, [old(rw.View(ctx))], old(rw.View(ctx)));
            out == w.out && rw.View(ctx) == w.core && rw.history == old(rw.history) + w.log
  {
    var seen := [rw.View(ctx)];
    ghost var whole := M.ExecEndpoint(h, seen, rw.View(ctx));
    while |seen| <= h.bound && !h.act(seen).Return?
      invariant var rest := M.ExecEndpoint(h, seen, rw.View(ctx));
                whole.out == rest.out && whole.core == rest.core
                && old(rw.history) + whole.log == rw.history + rest.log
      decreases h.bound - |seen|
    {
      ghost var before, core := rw.history, rw.View(ctx);
      var action := h.act(seen);
      out := Respond(rw, action);
      if out.Panicked? {
        return;
      }
      ghost var w := M.Respond(core, action);
      ghost var rest := M.ExecEndpoint(h, seen + [rw.View(ctx)], rw.View(ctx));
      Assoc(before, w.log, rest.log);
      seen := seen + [rw.View(ctx)];
    }
    out := M.Returned;
  }

  /** A requestContext or a routeContext: they differ in what Run does after the last handler. */
  class ChainContext {
    const engine: M.Engine
    const rw: ResponseWriter
    var index: nat
    var context: Ctx

    constructor (engine: M.Engine, ctx: Ctx, rw: ResponseWriter)
      ensures this.engine == engine && this.rw == rw && State() == M.State(0, rw.View(ctx))
    {
      this.engine, this.rw, index, context := engine, rw, 0, ctx;
    }

    function State(): M.State
      reads this, rw
    {
      M.State(index, rw.View(context))
    }

    /** This object went from state `s` through the events of `r`. */
    ghost predicate Did(r: M.Result, out: M.Outcome, history: seq<M.Event>)
      reads this, rw
    {
      out == r.out && State() == r.st && rw.history == history + r.log
    }

    method Update(ctx: Ctx)
      modifies this
      ensures index == old(index) && context == ctx
    {
      context := ctx;
    }

    method Next(ghost who: nat) returns (out: M.Outcome)
      modifies this, rw
      ensures Did(M.CallNext(engine, who, old(State())), out, old(rw.history))
      decreases engine.Level(), 2 * engine.Left(index + 1), 3
    {
      rw.Note(M.Called(engine.Level(), who, index, rw.Written()));
      index := index + 1;
      out := Run();
    }

    /** One script of a handler, calling back into this context. */
    method Exec(ghost who: nat, script: Script) returns (out: M.Outcome)
      modifies this, rw
      ensures Did(M.Exec(engine, who, script, [old(State()).core], old(State())), out, old(rw.history))
      decreases engine.Level(), engine.Measure(index), 0
    {
      var seen := [State().core];
      ghost var whole := M.Exec(engine, who, script, seen, State());
      while |seen| <= script.bound && !script.act(seen).Return?
        invariant old(index) <= index
        invariant var rest := M.Exec(engine, who, script, seen, State());
                  whole.out == rest.out && whole.st == rest.st
                  && old(rw.history) + whole.log == rw.history + rest.log
        decreases script.bound - |seen|
      {
        ghost var before, s := rw.history, State();
        var action := script.act(seen);
        if action.Update? {
          Update(action.ctx);
          rw.Note(M.Updated(engine.Level(), action.ctx));
          ghost var w := M.Step(engine.Level(), s.core, action);
          ghost var rest := M.Exec(engine, who, script, seen + [State().core], State());
          Assoc(before, w.log, rest.log);
        } else if action.Next? {
          out := Next(who);
          if out.Panicked? {
            return;
          }
          ghost var r := M.CallNext(engine, who, s);
          ghost var rest := M.Exec(engine, who, script, seen + [State().core], State());
          Assoc(before, r.log, rest.log);
        } else {
          out := Respond(rw, action);
          assert State() == s.(core := M.Respond(s.core, action).core);
          if out.Panicked? {
            return;
          }
          ghost var w := M.Respond(s.core, action);
          ghost var rest := M.Exec(engine, who, script, seen + [State().core], State());
          Assoc(before, w.log, rest.log);
        }
        seen := seen + [State().core];
      }
      out := M.Returned;
    }

    /** One call of a handler, with the function it defers. */
    method Invoke(who: nat, h: Handler) returns (out: M.Outcome)
      modifies this, rw
      ensures Did(M.Invoke(engine, who, h, old(State())), out, old(rw.history))
      decreases engine.Level(), engine.Measure(index), 1, h
    {
      ghost var s := State();
      out := Exec(who, h.body);
      if out.Panicked? && h.rescue.Some? {
        ghost var r := M.Exec(engine, who, h.body, [s.core], s);
        rw.Note(M.Caught(engine.Level(), who));
        ghost var r' := M.Invoke(engine, who, h.rescue.value, r.st);
        out := Invoke(who, h.rescue.value);
        Assoc(old(rw.history), r.log, [M.Caught(engine.Level(), who)]);
        Assoc(old(rw.history), r.log + [M.Caught(engine.Level(), who)], r'.log);
      }
    }

    /** The loop over the handlers, on the index that Next moves as well. */
    method Run() returns (out: M.Outcome)
      modifies this, rw
      ensures Did(M.Run(engine, old(State())), out, old(rw.history))
      decreases engine.Level(), 2 * engine.Left(index), 2
    {
      ghost var whole := M.Run(engine, State());
      while index < |engine.chain|
        invariant old(index) <= index
        invariant var rest := M.Run(engine, State());
                  whole.out == rest.out && whole.st == rest.st
                  && old(rw.history) + whole.log == rw.history + rest.log
        decreases |engine.chain| - index
      {
        ghost var before, s := rw.history, State();
        rw.Note(M.Enter(engine.Level(), index, rw.Written()));
        ghost var enter := [M.Enter(engine.Level(), index, rw.Written())];
        out := Invoke(index, engine.chain[index]);
        ghost var r := M.Invoke(engine, s.index, engine.chain[s.index], s);
        Assoc(before, enter, r.log);
        if out.Panicked? {
          return;
        }
        index := index + 1;
        if rw.Written() {
          return;
        }
        ghost var rest := M.Run(engine, State());
        Assoc(before, enter + r.log, rest.log);
      }
      out := Finish();
    }

    /** What Run does after its loop. */
    method Finish() returns (out: M.Outcome)
      modifies this, rw
      ensures Did(M.Tail(engine, old(State())), out, old(rw.history))
      decreases engine.Level(), 0, 1
    {
      match engine
      case RequestEngine(_, target) =>
        out := FinishRequest(target);
      case RouteEngine(_, final) =>
        out := FinishRoute(final);
    }

    method FinishRequest(target: M.Target) returns (out: M.Outcome)
      requires engine.RequestEngine? && target == engine.target
      modifies this, rw
      ensures Did(M.Tail(engine, old(State())), out, old(rw.history))
      decreases engine.Level(), 0, 1, 0
    {
      out := M.Returned;
      if !rw.Written() && !target.NoRegistry? {
        ghost var w := M.Handle(target, State().core);
        out := Handle(target, context, rw);
        if out.Returned? && !rw.Written() {
          NoContent(rw, 1);
          ghost var n := M.HttpError(w.core, "", 204);
          assert w.log + [M.NoContent(1)] + n.log == w.log + ([M.NoContent(1)] + n.log);
        }
      } else {
        rw.Note(M.EngineNotFound);
        HttpNotFound(rw);
      }
    }

    method FinishRoute(final: Endpoint) returns (out: M.Outcome)
      requires engine.RouteEngine? && final == engine.final
      modifies this, rw
      ensures Did(M.Tail(engine, old(State())), out, old(rw.history))
      decreases engine.Level(), 0, 1, 0
    {
      out := M.Returned;
      if !rw.Written() {
        rw.Note(M.Final(context));
        out := ExecEndpoint(final, context, rw);
      }
      if out.Returned? && !rw.Written() {
        NoContent(rw, 0);
      }
    }
  }

  /** registry.Handle: a matched route runs in a new context over the same response writer. */
  method Handle(target: M.Target, ctx: Ctx, rw: ResponseWriter) returns (out: M.Outcome)
    requires !target.NoRegistry?
    modifies rw
    ensures var w := M.Handle(target, old(rw.View(ctx)));
            out == w.out && rw.View(ctx) == w.core && rw.history == old(rw.history) + w.log
    decreases 1, 0, 0
  {
    rw.Note(M.Dispatch(ctx));
    match target
    case Unrouted =>
      rw.Note(M.RegistryNotFound);
      HttpNotFound(rw);
      out := M.Returned;
    case Routed(chain, final) =>
      var routeCtx := new ChainContext(M.RouteEngine(chain, final), ctx, rw);
      out := routeCtx.Run();
    case Custom(handle) =>
      out := ExecEndpoint(handle, ctx, rw);
  }
}
