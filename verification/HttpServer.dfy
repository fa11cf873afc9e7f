/** The server: the default chain, what the application adds to it, and one request served through it. */
module HttpServer {
  import opened Handlers
  import opened ChainContexts
  import opened MiddleWareChains
  import opened RouteRegistry
  import DefaultChain
  import R = Registry
  import M = Machine

  class Server {
    const message: string
    const chains: Chains
    var registry: Routes?

    ghost function Footprint(): set<object>
      reads this, chains, registry
    {
      {chains} + chains.Backing() + if registry == null then {} else {registry} + registry.Backing()
    }

    /** Logger and recovery stay the first two handlers, whatever is added. */
    ghost predicate Valid()
      reads this, chains, registry, Footprint()
    {
      && chains.Valid()
      && [Logger(), Recovery(message)] <= chains.handlers.Elements()
      && (registry != null ==> registry.Valid())
    }

    /** NewHTTPServer: logger, then recovery, then the static files if they are enabled. */
    constructor (message: string, staticFiles: Option<Handler>, room: nat)
      ensures Valid() && registry == null && this.message == message && fresh(chains)
      ensures chains.handlers.Elements()
              == [Logger(), Recovery(message)] + if staticFiles.Some? then [staticFiles.value] else []
    {
      var list := new Chains();
      this.message, chains, registry := message, list, null;
      new;
      chains.Append(Logger(), room);
      chains.Append(Recovery(message), room);
      if staticFiles.Some? {
        chains.Append(staticFiles.value, room);
      }
    }

    method Use(h: Handler, room: nat)
      requires Valid()
      modifies chains`handlers, chains.handlers.arr
      ensures Valid()
      ensures chains.handlers.Elements() == old(chains.handlers.Elements()) + [h]
    {
      chains.Append(h, room);
    }

    method Bind(registry: Routes)
      requires Valid() && registry.Valid()
      modifies this`registry
      ensures Valid() && this.registry == registry
    {
      this.registry := registry;
    }

    /** What the bound registry does with a request. */
    ghost function TargetOf(verb: string, path: string): M.Target
      reads this, registry
    {
      if registry == null then M.NoRegistry
      else R.ResolveIn(registry.re, registry.abs.Of(R.ToUpper(verb)), path)
    }

    method Resolve(verb: string, path: string) returns (target: M.Target)
      requires Valid()
      modifies if registry == null then {} else {registry}
      ensures Valid() && target == old(TargetOf(verb, path))
      ensures registry == old(registry) && (registry != null ==> registry.abs == old(registry.abs))
      ensures chains.handlers.Elements() == old(chains.handlers.Elements())
    {
      if registry == null {
        return M.NoRegistry;
      }
      ghost var items := registry.abs.Of(R.ToUpper(verb));
      var slice := registry.Snapshot(verb);
      assert registry.given[|registry.given| - 1] == (slice, items);
      target := registry.Decide(slice, items, path);
    }

    /**
     One request.  It runs the engine over the handlers and the route of the moment, and whatever
     they do it returns normally with the response written.
     */
    method ServeHTTP(verb: string, path: string, ctx: Ctx) returns (rw: ResponseWriter, out: M.Outcome)
      requires Valid()
      modifies chains`given, if registry == null then {} else {registry}
      ensures fresh(rw) && out.Returned? && rw.Written()
      ensures var engine := M.RequestEngine(old(chains.handlers.Elements()), old(TargetOf(verb, path)));
              var r := M.Run(engine, M.State(0, Core(ctx, 0, 0, 0)));
              rw.status == r.st.core.status && rw.size == r.st.core.size && rw.history == r.log
    {
      ghost var handlers := chains.handlers.Elements();
      var slice := chains.GetHandlers();
      var target := Resolve(verb, path);
      rw := new ResponseWriter();
      var context := new ChainContext(M.RequestEngine(slice.arr[..slice.len], target), ctx, rw);
      DefaultChain.AlwaysAnswers(message, handlers[2..], target, Core(ctx, 0, 0, 0));
      assert handlers == DefaultChain.Chain(message, handlers[2..]);
      out := context.Run();
    }
  }
}
