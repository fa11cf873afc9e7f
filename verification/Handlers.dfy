/**
 What a middleware or a route handler is, seen from the engine.

 A Go handler is opaque code.  Between two calls into the engine it can only look at what the
 engine shows it (the context, and the status and size of the response) and then decide what to do
 next.  So a handler is a strategy: a function from everything it has seen so far to its next
 action, with a bound on the number of its actions.  Local variables, loops and branches of the
 handler are all inside that function.
 */
module Handlers {

  /** A context is the key/value pairs that Value can look up. */
  type Ctx = map<string, string>

  /**
   What the engine shows to a handler: the context, and the status and size that the response writer
   has recorded.  `sent` is the code that net/http has put on the wire, 0 for none; it stays with the
   wrapped writer.
   */
  datatype Core = Core(ctx: Ctx, status: int, size: int, sent: int) {
    predicate Written() {
      status != 0
    }
  }

  datatype Action =
    | Return
    | Panic
    | WriteHeader(code: int)
    | Write(data: string)
    | Next
    | Update(ctx: Ctx)

  /** Actions open to code that holds a response writer but no RequestContext. */
  type Reply = a: Action | !a.Next? && !a.Update? witness Return

  /**
   `act` gets the views seen so far, the view on entry first, and chooses the next action.
   */
  datatype Script = Script(bound: nat, act: seq<Core> -> Action)

  /**
   A middleware, with the function it defers to recover from panics, if it has one; that function may
   defer one of its own.
   */
  datatype Handler = Handler(body: Script, rescue: Option<Handler>)

  /** A route's own handler: it gets a context value, but cannot call Next or Update. */
  datatype Endpoint = Endpoint(bound: nat, act: seq<Core> -> Reply)

  datatype Option<+T> = None | Some(value: T)

  /** logger: calls Next once and writes nothing. */
  function Logger(): Handler {
    Handler(Script(1, (seen: seq<Core>) => Next), None)
  }

  /** recovery: calls Next once, and answers 500 when that panics. */
  function Recovery(message: string): Handler {
    Handler(Script(1, (seen: seq<Core>) => Next),
            Some(Handler(Script(2, (seen: seq<Core>) => if |seen| == 1 then WriteHeader(500) else Write(message)), None)))
  }

  /** The middleware that sets a derived context around Next and restores the one it found. */
  function Bracket(derive: Ctx -> Ctx): Handler {
    Handler(Script(3, (seen: seq<Core>) =>
                     if |seen| == 1 then Update(derive(seen[0].ctx))
                     else if |seen| == 2 then Next
                     else if |seen| == 3 then Update(seen[0].ctx)
                     else Return), None)
  }
}
