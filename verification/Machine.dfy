/**
 The middleware engine as a function on values: handlers run through one shared index, which a
 handler's call to Next moves and then re-enters the same loop.

 `Run`, `Invoke`, `Exec` and `Tail` are what the objects of module ChainContexts do; a `Result`
 carries the events of the call, oldest first, so that properties of whole runs can be stated.
 */
module Machine {
  import opened Handlers

  datatype Outcome = Returned | Panicked

  datatype State = State(index: nat, core: Core) {
    predicate Written() {
      core.Written()
    }
  }

  /** Level 1 is the request chain, level 0 a route's own chain. */
  datatype Event =
    | Enter(level: nat, index: nat, written: bool)
    | Called(level: nat, who: nat, index: nat, written: bool)
    | Raise
    | Caught(level: nat, who: nat)
    | Updated(level: nat, ctx: Ctx)
    | Head(code: int)
    | Body(data: string)
    | Dispatch(ctx: Ctx)
    | Final(ctx: Ctx)
    | RegistryNotFound
    | EngineNotFound
    | NoContent(level: nat)

  /**
   What the bound registry does with this request.  RouteRegistry is an interface: besides the
   repository's own registry (Unrouted, Routed), any other implementation may be bound (Custom).
   */
  datatype Target =
    | NoRegistry
    | Unrouted
    | Routed(chain: seq<Handler>, final: Endpoint)
    | Custom(handle: Endpoint)

  datatype Engine =
    | RequestEngine(chain: seq<Handler>, target: Target)
    | RouteEngine(chain: seq<Handler>, final: Endpoint)
  {
    function Level(): nat {
      if RequestEngine? then 1 else 0
    }

    /** Handlers not yet reached. */
    function Left(index: nat): nat {
      if index < |chain| then |chain| - index else 0
    }

    /** The last handler an index can have reached. */
    function Cap(index: nat): int {
      if index < |chain| then index else |chain| - 1
    }

    function Measure(index: nat): nat {
      if Left(index) == 0 then 1 else 2 * Left(index) - 1
    }
  }

  datatype Result = Result(out: Outcome, st: State, log: seq<Event>) {
    function After(earlier: seq<Event>): Result {
      this.(log := earlier + log)
    }
  }

  // ----- the response writer -----

  datatype Reaction = Reaction(out: Outcome, core: Core, log: seq<Event>)

  predicate ValidCode(code: int) {
    100 <= code <= 999
  }

  /** An informational header goes out at once and does not count as the answer of net/http. */
  predicate Informational(code: int) {
    100 <= code <= 199 && code != 101
  }

  predicate AdmitsBody(code: int) {
    code >= 200 && code != 204 && code != 304
  }

  /** The code net/http has sent. */
  function Sent(c: Core): int {
    if c.Written() then c.sent else 0
  }

  /**
   The wrapped net/http writer panics on a code outside 100..999, before anything is recorded; once it
   has sent a code it ignores any other, and that one is recorded.
   */
  function WriteHeader(c: Core, code: int): Reaction {
    if Sent(c) != 0 && code != 0 then Reaction(Returned, c.(status := code), [Head(code)])
    else if !ValidCode(code) then Reaction(Panicked, c, [Raise])
    else Reaction(Returned, c.(status := code, sent := if Informational(code) then 0 else code), [Head(code)])
  }

  /** A write sends 200 if nothing is sent yet, and counts unless the code that was sent admits no body. */
  function Write(c: Core, data: string): Reaction {
    var c' := c.(status := if c.Written() then c.status else 200, sent := if Sent(c) != 0 then c.sent else 200);
    var head := if c.Written() then [] else [Head(200)];
    if AdmitsBody(c'.sent) then Reaction(Returned, c'.(size := c.size + |data|), head + [Body(data)])
    else Reaction(Returned, c', head)
  }

  /** http.Error: the code, then the text and a newline. */
  function HttpError(c: Core, text: string, code: int): Reaction
    requires ValidCode(code)
  {
    var w := Write(WriteHeader(c, code).core, text + "\n");
    w.(log := [Head(code)] + w.log)
  }

  function HttpNotFound(c: Core): Reaction {
    HttpError(c, "404 page not found", 404)
  }

  function Respond(c: Core, a: Reply): Reaction {
    match a
    case Return => Reaction(Returned, c, [])
    case Panic => Reaction(Panicked, c, [Raise])
    case WriteHeader(code) => WriteHeader(c, code)
    case Write(data) => Write(c, data)
  }

  /** What a handler does other than calling Next. */
  function Step(level: nat, c: Core, a: Action): Reaction
    requires !a.Next?
  {
    if a.Update? then Reaction(Returned, c.(ctx := a.ctx), [Updated(level, a.ctx)]) else Respond(c, a)
  }

  // ----- handlers and the loop -----

  /** A route's own handler, from the view it was called with. */
  function ExecEndpoint(h: Endpoint, seen: seq<Core>, c: Core): (w: Reaction)
    ensures c.Written() ==> w.core.Written()
    ensures w.core.ctx == c.ctx
    decreases h.bound - |seen|
  {
    if |seen| > h.bound || h.act(seen).Return? then Reaction(Returned, c, [])
    else
      var w := Respond(c, h.act(seen));
      if w.out.Panicked? then w
      else
        var rest := ExecEndpoint(h, seen + [w.core], w.core);
        rest.(log := w.log + rest.log)
  }

  /** One script of handler number `who`, which has seen `seen` so far. */
  function Exec(e: Engine, who: nat, script: Script, seen: seq<Core>, s: State): (r: Result)
    ensures s.index <= r.st.index
    ensures s.Written() ==> r.st.Written()
    decreases e.Level(), e.Measure(s.index), 0, script.bound - |seen|
  {
    if |seen| > script.bound || script.act(seen).Return? then Result(Returned, s, [])
    else
      var a := script.act(seen);
      if a.Next? then
        var r := CallNext(e, who, s);
        if r.out.Panicked? then r
        else Exec(e, who, script, seen + [r.st.core], r.st).After(r.log)
      else
        var w := Step(e.Level(), s.core, a);
        var s' := s.(core := w.core);
        if w.out.Panicked? then Result(Panicked, s', w.log)
        else Exec(e, who, script, seen + [s'.core], s').After(w.log)
  }

  /** RequestContext.Next: move the shared index, then re-enter the loop. */
  function CallNext(e: Engine, who: nat, s: State): (r: Result)
    ensures s.index < r.st.index
    ensures s.Written() ==> r.st.Written()
    ensures r.out.Returned? ==> r.st.Written()
    decreases e.Level(), 2 * e.Left(s.index + 1), 3
  {
    Run(e, s.(index := s.index + 1)).After([Called(e.Level(), who, s.index, s.Written())])
  }

  /** One call of a handler: its body and, if that panics, the function it deferred. */
  function Invoke(e: Engine, who: nat, h: Handler, s: State): (r: Result)
    ensures s.index <= r.st.index
    ensures s.Written() ==> r.st.Written()
    decreases e.Level(), e.Measure(s.index), 1, h
  {
    var r := Exec(e, who, h.body, [s.core], s);
    if r.out.Returned? || h.rescue.None? then r
    else Invoke(e, who, h.rescue.value, r.st).After(r.log + [Caught(e.Level(), who)])
  }

  /** RequestContext.Run, of both kinds of context. */
  function Run(e: Engine, s: State): (r: Result)
    ensures s.index <= r.st.index
    ensures s.Written() ==> r.st.Written()
    ensures r.out.Returned? ==> r.st.Written()
    decreases e.Level(), 2 * e.Left(s.index), 2
  {
    if s.index < |e.chain| then
      var r := Invoke(e, s.index, e.chain[s.index], s)
               .After([Enter(e.Level(), s.index, s.Written())]);
      if r.out.Panicked? then r
      else
        var s' := r.st.(index := r.st.index + 1);
        if s'.Written() then Result(Returned, s', r.log)
        else Run(e, s').After(r.log)
    else Tail(e, s)
  }

  /** What Run does once the index has passed the last handler. */
  function Tail(e: Engine, s: State): (r: Result)
    ensures r.st.index == s.index && r.st.core.ctx == s.core.ctx
    ensures s.Written() ==> r.st.Written()
    ensures r.out.Returned? ==> r.st.Written()
    decreases e.Level(), 0, 1
  {
    match e
    case RequestEngine(_, target) =>
      if !s.Written() && !target.NoRegistry? then
        var w := Handle(target, s.core);
        var s' := s.(core := w.core);
        if w.out.Panicked? || s'.Written() then Result(w.out, s', w.log)
        else
          var n := HttpError(s'.core, "", 204);
          Result(Returned, s'.(core := n.core), w.log + [NoContent(1)] + n.log)
      else
        var n := HttpNotFound(s.core);
        Result(Returned, s.(core := n.core), [EngineNotFound] + n.log)
    case RouteEngine(_, final) =>
      var w := if s.Written() then Reaction(Returned, s.core, [])
               else
                 var f := ExecEndpoint(final, [s.core], s.core);
                 f.(log := [Final(s.core.ctx)] + f.log);
      var s' := s.(core := w.core);
      if w.out.Panicked? || s'.Written() then Result(w.out, s', w.log)
      else
        var n := HttpError(s'.core, "", 204);
        Result(Returned, s'.(core := n.core), w.log + [NoContent(0)] + n.log)
  }

  /** registry.Handle: a matched route's chain runs in a context of its own. */
  function Handle(target: Target, c: Core): (w: Reaction)
    requires !target.NoRegistry?
    ensures w.core.ctx == c.ctx
    ensures c.Written() ==> w.core.Written()
    decreases 1, 0, 0
  {
    match target
    case Unrouted =>
      var n := HttpNotFound(c);
      n.(log := [Dispatch(c.ctx), RegistryNotFound] + n.log)
    case Routed(chain, final) =>
      var r := Run(RouteEngine(chain, final), State(0, c));
      Reaction(r.out, r.st.core.(ctx := c.ctx), [Dispatch(c.ctx)] + r.log)
    case Custom(handle) =>
      var w := ExecEndpoint(handle, [c], c);
      w.(log := [Dispatch(c.ctx)] + w.log)
  }
}
