# magicEngine, verified

A Dafny model of the two parts of magicEngine that carry its hard behaviour: the HTTP dispatch engine
(middleware chains, recovery, route registry and pattern matcher) and the server-sent-events wire
(frame printer, streaming parser, reconnecting client). Verify everything with
`dafny verify dfyconfig.toml`.

## How the model is organised

**Engine.** `Handlers` says what a middleware is: a strategy that picks its next action (WriteHeader,
Write, Next, Update, Panic, return) from all it has seen, with an optional function that recovers from
panics. Every theorem quantifies over these strategies, so whatever else real handler code consults
(headers, the request, a clock) is covered: in one run it only settles which strategy is playing.
`Machine` is the engine on values: `Run`, `Next` and the handlers are mutually recursive over one shared
index, and each call also yields the events it caused. `ChainContexts` is the same engine as the objects
of the repository (one shared response writer, a context per request and a context per route, loops over
a mutable `index` that re-entrant calls move), each method proved equal to its function in `Machine`.
`Order`, `Accounting`, `Discipline`, `Once`, `Onion`, `DefaultChain`, `Contexts` and `Nesting` prove what
holds of all runs. `Responses` says in plain numbers what single calls and whole handlers send, and
`Answers` carries that through the middlewares, the dispatch and the route to the answer of a request.

**Routing.** `Patterns` fixes the leftmost, greedy, backtracking preference of the regexp package on the
token fragment and proves that it decides the intended language; `PatternText` reads pattern strings.
`Registry` is the registry on values with its histories; `RouteRegistry` and `MiddleWareChains` keep the
data as the repository does, in slices that `append` (`GoSlices`) may extend in place while dispatch reads
an older slice without the lock. `HttpServer` puts the pieces together for one request.

**Server-sent events.** `SseText` and `SseEvents` give the meaning of a byte stream as a batch;
`SseClient` is the line-by-line reader and the retry loop, proved against it, and `SseLines` says what
single lines do, character by character. `SseServer` and `SseCalls`
print frames and interleave the writes of concurrent calls, `SseHolder` is the printing object,
`SseNewlines` says which names and payloads survive. `SseSession` and `Backoff` cover whole reconnecting
sessions and their waits, `SseIds` which of them resume. A text is called clean here when it has no line
feed before its last visible character.

The client is modelled as written, which differs from sections 9.2.5 and 9.2.6 of the WHATWG HTML
Standard: it trims lines and values, ends every data line with a line feed, reads `retry:` as a Go
duration, and takes its last id from the last delivered event even when that id is empty.

## Findings

Statements that the code does not meet as it stands, each with the exact condition under which it does
and an input that shows the difference.

- `docs/design-http.md:32` says the chain stops once a response is written. The code checks this after a
  handler returns, not in Next (`Discipline.StopsWhenWritten`, `Discipline.AnswersThenNextGoesOn`); handlers
  that look before they call Next make the claim true (`Discipline.RunPolite`).
- A middleware that recovers from a panic and leaves the request unanswered makes the engine dispatch it
  twice. The functions that may recover are exactly those that answer an unanswered request, or panic
  again, before they return or call Next (`Once.RescuesThatServeOnce`, `Once.SwallowingDispatchesTwice`).
- A middleware that derives a context around Next restores the old one exactly when its call of Next
  returns (`Nesting.BracketRun`); a panic that is caught further out leaves the context in force when it was
  raised (`Contexts.PanicKeepsContext`, `Nesting.PanicSkipsRestore`).
- Removing a pattern that is not registered empties the method's list (`Registry.RemoveKeepsOthers`,
  `Registry.RemovingAnotherLoses`).
- Routes registered under a method that is not upper-case change nothing for any request
  (`Registry.ReachableMethods`).
- Concurrent calls arrive as they were meant exactly when no name, payload or id has a line feed before its
  last visible character, and the write just before each payload leaves the name of that payload's own call
  pending (`SseCalls.CallsArrive`). A heartbeat between the two writes of a named event loses its name
  (`SseCalls.HeartbeatLosesName`), a second call between them gives the payload the other call's name
  (`SseCalls.ConcurrentNamesMix`), and a payload with an event line in it takes that name
  (`SseNewlines.SecondLineIsName`).
- Calls made one after the other come back exactly when, besides, every name is one line or only white
  space (`SseCalls.RoundTrip`); a line feed at the end of a payload does no harm
  (`SseNewlines.WritesSurvive`, `SseNewlines.PayloadThatBreaks`).
- The server prints no id lines of its own, but names and payloads can: a line of a payload after the first
  that reads `id: 5` sets the client's last event id (`SseIds.PayloadWithId`), and so does one of an event
  name (`SseIds.NameWithId`). Sessions never send Last-Event-ID exactly when no sequence of the server's
  writes carries an id (`SseIds.NeverResumes`); with clean event names, exactly when no single payload
  makes one (`SseIds.NeverResumesByPayload`, `SseIds.PayloadMakesId`).
- `Status()` is the last code that was recorded, not the one that was sent: a second WriteHeader replaces
  it (`Responses.SecondCodeIsRecorded`), and so does a call of Next after the last handler on a response
  already written, which adds the engine's 404 to it (`Answers.LateEnd`).
- Each failed attempt uses up two retries: maxRetries allows ceil(maxRetries/2) + 1 attempts
  (`SseSession.FailingSession`).

## Model

| member | source | states |
|---|---|---|
| Machine.Run | http/context.go:73-92 | any Run that returns normally leaves the response written; a written response stays written and the shared index never goes back |
| Machine.CallNext | http/context.go:64-67 | Next moves the index strictly forward and, if it returns normally, the response is written |
| Machine.Tail | http/context.go:84-91 | after the last handler the context is left as it was and a normal return means an answer, for both kinds of context |
| Machine.ExecEndpoint | http/context.go:142-145 | a route's handler cannot change the context or take back an answer |
| Responses.WriteSends | http/response_writer.go:33-40 | a first write sends 200 and its text; a later one keeps the code and adds its text, or nothing if the code that was sent admits no body |
| Responses.HeaderSends | http/response_writer.go:28-31 | a first code is sent, an informational one leaves it open, one outside 100..999 panics and records nothing, and a code after another is recorded only |
| Responses.SpeakerSays | http/context.go:142-145 | for any replies there is a handler that sends just these, so the statements below are about something |
| Responses.HeaderThenBodies | http/context.go:142-145 | a route's handler that sends a code and any number of texts: that code, the total size, and one Head followed by all the texts in order |
| Responses.BodiesAlone | http/context.go:142-145 | a handler that only writes: 200, the total size, and all the texts in order |
| Responses.SecondCodeIsRecorded | http/response_writer.go:28-31 | of two codes the second is recorded, while the first was sent and decides on the body |
| Responses.RefusedBody | http/response_writer.go:37-38 | a text after 204 or 304 does not count |
| Answers.RunPasses | http/context.go:64-92 | handlers that write nothing, whatever they do with the context and whether or not they call Next, answer exactly as what comes behind them, with the same dispatches, calls and writes |
| Answers.RouteAnswers | http/route.go:282-295 | behind such middlewares, of the server and of the route, the route's handler is called exactly once, and its code and all its texts are the answer |
| Answers.RouteWrites | http/response_writer.go:33-40 | the same for a handler that only writes: status 200 and the size of what it wrote |
| Answers.RouteIsSilent | http/context.go:147-149 | a handler that says nothing is called once, and the answer is 204 without a body |
| Answers.NobodyAnswers | http/route.go:295 | without a matching route, or without a registry: 404 and 19 bytes of text, after one dispatch or none |
| Answers.CustomAnswers | http/context.go:84-88 | another registry is asked once, and its answer stands |
| Answers.MiddlewareAnswers | http/context.go:73-82 | a middleware that sends a code and texts ends the request: nothing behind it is entered, dispatched or called |
| Answers.LateEnd | http/context.go:84-91 | Next past the last handler on a written response: a route leaves it as it is, the server records 404 and adds its text |
| Answers.ServerAnswers | http/http_server.go:59-61 | in every server whose other handlers only pass requests on: one dispatch, one call of the route's handler, no fallback, and status and size are what it sent |
| Answers.RegisteredAnswers | http/route.go:175-202 | from registration to answer: a route added under a version answers the requests its version and pattern accept, if none of the method did before |
| Order.RunOnRoute | http/context.go:132-150 | a route's run never touches the request level: no request-level handler, Next, dispatch or 404 in it |
| Order.RunOrdered | http/context.go:64-82 | for all handlers, the handlers entered by Run and all the frames nested in it have strictly rising indices |
| Order.EnteredInOrder | http/context.go:27-29 | so each handler runs at most once and in registration order, whatever the use of Next and recovery |
| Discipline.StopsWhenWritten | http/context.go:64-92 | no handler starts on a written response if and only if none calls Next on one with a handler left; the engine's own 404 beside a bound registry comes exactly from a late Next past the end |
| Discipline.RunContiguous | http/context.go:73-82 | when nobody calls Next on a written response, the handlers entered have no gap, also after recovered panics |
| Discipline.RunCalls | http/context.go:64-82 | under that discipline, and when no panic is recovered, the handlers that call Next rise strictly: at most one call each |
| Discipline.RunPolite | http/context.go:64-82 | handlers, and functions they defer, that call Next only while the response they last saw is unwritten keep that discipline in every run |
| Discipline.AnswersThenNextGoesOn | http/context.go:64-82 | behind a handler that writes and then calls Next, the next handler is started on the written response |
| Discipline.DisciplinedRun | http/context.go:64-92 | all of this together for a request: a gap-free prefix from 0, no late start, no engine 404 with a registry, one Next each |
| Once.RunOnce | http/context.go:73-92 | any run, with all that is nested in it: at most one dispatch and at most one call of a route's handler when the recovering handlers settle what they catch, no 204 fallback with this registry, and no service at all in a run that returns unwritten |
| Once.HandleOnce | http/route.go:282-295 | registry dispatch that returns normally has answered |
| Once.ServedAtMostOnce | http/context.go:84-88 | a request is dispatched at most once when its own handlers answer what they recover from, reaches one route handler when the route's do too, and never gets the 204 after dispatch from this registry |
| Once.RescuesThatServeOnce | http/context.go:78-85 | every request whose handlers recover with a given function is dispatched at most once, and reaches a route's handler at most once, if and only if that function settles every unanswered request it is left with |
| Once.UsualRescues | http/recovery.go:117-134 | recovery's function, one that answers only if nothing is written, and one that panics again are all of that kind |
| Once.SwallowingDispatchesTwice | http/context.go:78-85 | a swallowed panic dispatches a request twice |
| Onion.RunAgrees | http/context.go:64-92 | every clean run of the index-free layered semantics is the run of the engine: outcome, response, context and events |
| Onion.EngineIsOnion | http/context.go:64-92 | for all handlers that call Next at most once, and recover, if at all, by a function that calls Next no more and leaves no request unanswered, or by one that makes the handler's only call of Next: the shared index computes the layered semantics, through route chains too |
| Onion.ServerIsOnion | http/http_server.go:59-61 | logger and recovery are of that kind, so every server computes the layered semantics of its chain |
| DefaultChain.RecoveryRun | http/recovery.go:116-139 | recovery returns normally with an answer; a panic below it gives 500 and the message, and nothing else happens |
| DefaultChain.AlwaysAnswers | http/http_server.go:59-61 | with logger and recovery in front, any handlers and any route: the request returns normally, answered, as the handlers left it or with 500 if a panic got to recovery |
| DefaultChain.RunRaises | http/recovery.go:117-124 | when nobody recovers, a panic anywhere in nested runs is a panic of the whole run, and only then |
| DefaultChain.PanicGives500 | http/recovery.go:131-134 | so any panic below recovery, at any depth, ends in status 500 with recovery's answer as the last events |
| Contexts.RunLeads | http/context.go:52-54 | for all handlers: a run ends with the context of the last Update at its level, and a run that panics ends with that panic |
| Contexts.PanicKeepsContext | http/recovery.go:116-139 | in every server whose other handlers do not recover, a panicking request ends with the context in force when the panic was raised |
| Nesting.BracketRun | example/http/hello.go:20-31 | save, update, Next, restore: the inner chain runs in the derived context, and the old one is back afterwards exactly when Next returns |
| Nesting.RunNested | http/context.go:52-54 | a chain of such middlewares, and of others that may recover, dispatches with the composition of its updates and restores the context, until a panic is caught |
| Nesting.ContextsNest | http/context.go:85 | over request and route chain: before a panic is caught the route's handler sees both compositions, and nothing leaks back |
| Nesting.ServerContextsNest | http/http_server.go:59-61 | the same behind logger and recovery, as in every server |
| Nesting.PanicSkipsRestore | http/recovery.go:116-139 | recovery answers a panic under a derived context, and that context stays |
| Accounting.RunRecorded | http/response_writer.go:28-52 | over any run, Status is the last code passed to WriteHeader without a panic and Size the sum of all bodies that count, on both levels |
| Accounting.ServedUnanswered | http/context.go:84-85 | for all handlers: a request is dispatched, and a route's handler is called, only while nobody has sent a code |
| Accounting.RunOwn | http/context.go:84-91 | when no handler writes or panics, the status is the engine's own at every point of a run |
| Accounting.OwnAnswers | http/context.go:84-91 | the answer to a request no handler answers: 404 without a registry or a matching route, 204 for a route, and 404 after all if somebody calls Next too late |
| ChainContexts.ResponseWriter.WriteHeader | http/response_writer.go:28-31 | records the last code, and nothing when the wrapped writer panics, which depends on what it has sent |
| ChainContexts.ResponseWriter.Write | http/response_writer.go:33-40 | an implied 200 on the first write, and the size, to which a body refused for the code that was sent adds nothing |
| ChainContexts.ChainContext.constructor | http/context.go:102-109 | a new context starts at index 0 over the shared response writer |
| ChainContexts.ChainContext.Update | http/context.go:111-113 | replaces the context and nothing else |
| ChainContexts.ChainContext.Next | http/context.go:64-67 | the object's Next is Machine.CallNext on its fields and the shared writer |
| ChainContexts.ChainContext.Exec | http/middleware_chains.go:9-15 | handler code calling back into the context that runs it |
| ChainContexts.ChainContext.Invoke | http/recovery.go:116-139 | one call of a handler and its deferred function |
| ChainContexts.ChainContext.Run | http/context.go:73-82 | the loop over the mutable index, re-entered by Next, computes Machine.Run |
| ChainContexts.ChainContext.Finish | http/context.go:84-92 | the part of Run after the loop, of both contexts |
| ChainContexts.Handle | http/route.go:282-295 | a matched route runs in a context of its own over the same writer |
| Patterns.Cross | http/route.go:91-118 | a whole match and a later-starting match cross, so there is a whole match from the later start |
| Patterns.PreferWhole | http/route.go:111-118 | backtracking preference never loses a whole match |
| Patterns.MatchDecidesLanguage | http/route.go:91-118 | for every token pattern and path: Match accepts exactly the paths that, with or without one final slash, are in the pattern's language |
| PatternText.VersionDecomposes | http/route.go:148-160 | a version prefix accepts exactly v followed by a path the unprefixed pattern accepts |
| PatternText.VersionsAreDisjoint | http/route.go:151-155 | versions of which neither is a prefix of the other never accept the same path |
| PatternText.LiteralPatterns | http/route.go:111-118 | a literal pattern accepts itself, with or without a final slash |
| PatternText.ParamPatterns | http/route.go:97-99 | a final :name accepts exactly one non-empty segment |
| PatternText.WildPatterns | http/route.go:100-104 | a final ** accepts any rest without # and ? |
| PatternText.ParamInside | http/route.go:97-99 | a :name anywhere takes one or more characters other than `/`, `#` and `?`, and the rest of the path goes to the rest of the pattern: exactly these paths |
| PatternText.WildInside | http/route.go:100-104 | a ** anywhere takes any characters other than `#` and `?`, and the rest of the path goes to the rest of the pattern: exactly these paths |
| PatternText.ParamBetween | http/route.go:97-99 | text, a parameter and text: any segment in the place of the parameter is accepted |
| PatternText.ShowTokens | http/route.go:94-106 | the tokens of a pattern spell the pattern |
| PatternText.ReadOneWay | http/route.go:90-104 | the tokens read from a pattern are the only ones that spell it and can stand side by side, a name running up to the next slash, hash sign or the end |
| PatternText.PatternMeans | http/route.go:94-118 | every sequence of literals, parameters and wildcards that can stand in a pattern accepts exactly the paths its tokens intend |
| Registry.HistoryValid | http/route.go:204-211 | over every history of additions, removals and version changes, no list holds a version and pattern twice |
| Registry.AddEffect | http/route.go:183-202 | adding registers exactly its own version and pattern, or panics without effect, and exactly when |
| Registry.RemoveEffect | http/route.go:236-266 | removing a registered pattern removes that one item, keeps the order of the rest and all other methods and versions |
| Registry.RemoveKeepsOthers | http/route.go:249-265 | removal leaves the other patterns registered if and only if the pattern was registered or the list was empty |
| Registry.First | http/route.go:283-288 | dispatch takes the earliest matching item |
| Registry.StepWinner | http/route.go:283-288 | an addition or version change keeps every winner; a removal changes only what the removed route was winning |
| Registry.WinnerIsStable | http/route.go:175-211 | over whole histories the winner of a request stays as long as it is not removed |
| Registry.EarliestRuns | http/route.go:283-295 | a request runs the handlers and the own handler of the earliest match |
| Registry.NothingRuns | http/route.go:283-295 | nothing runs if and only if no item of the method's list matches |
| Registry.WinnerRuns | http/route.go:283-295 | what runs is the winner, and nothing runs if and only if there is none |
| Registry.AddedRuns | http/route.go:175-202 | a version is set and a route added: it runs for the requests of its method that version and pattern accept, if none did before, and goes on over any later history that spares it |
| Registry.UpperLetters | http/route.go:274 | upper-casing of a method, letter by letter |
| Registry.GetIsGet | http/route.go:274 | requests `get` and `GET` ask for the routes under GET |
| Registry.RemovingAnotherLoses | http/route.go:249-265 | one route, and the removal of a pattern that is not registered: the route is gone |
| Registry.ReachableMethods | http/route.go:274 | what is registered under a method makes no difference to any request in any registry if and only if the method is not upper-case |
| GoSlices.Append | http/middleware_chains.go:53 | append, in place or into a new array, leaves the elements of the given slice alone |
| MiddleWareChains.Chains.GetHandlers | http/middleware_chains.go:42-47 | hands out the list without a copy; every list handed out before still holds what it held |
| MiddleWareChains.Chains.Append | http/middleware_chains.go:49-54 | grows the list by one, possibly in place, without changing any list handed out |
| RouteRegistry.Routes.SetApiVersion | http/route.go:175-177 | changes the version and no list |
| RouteRegistry.Routes.IndexOf | http/route.go:315-322 | the search loop finds the first item with that version and pattern |
| RouteRegistry.Routes.Grow | http/route.go:194 | extends one method's slice in place without changing any slice taken by a dispatch |
| RouteRegistry.Routes.AddRoute | http/route.go:183-202 | the method on slices is Registry.Add; slices taken by dispatches are frozen |
| RouteRegistry.Routes.RemoveRoute | http/route.go:236-266 | the method on slices is Registry.Remove, into a new array |
| RouteRegistry.Routes.ExistHandler | http/route.go:303-313 | true exactly for what is registered under the current version |
| RouteRegistry.Routes.Snapshot | http/route.go:268-278 | the slice taken under the read lock is the list of the upper-cased method |
| RouteRegistry.Routes.Decide | http/route.go:283-295 | the loop outside the lock decides as the registry was when the slice was taken, whatever has happened since |
| HttpServer.Server.constructor | http/http_server.go:48-68 | a new server's chain is logger, recovery, then static files if enabled |
| HttpServer.Server.Use | http/http_server.go:77-79 | adds one handler at the end; logger and recovery stay in front |
| HttpServer.Server.Bind | http/http_server.go:81-83 | sets the registry |
| HttpServer.Server.Resolve | http/route.go:268-295 | what the bound registry does with a request |
| HttpServer.Server.ServeHTTP | http/http_server.go:70-75 | every request to every server returns normally with an answer, and the answer is that of the engine over the handlers and route of the moment |
| SseEvents.DeliversConcat | sse/client.go:276-287 | parsing distributes over concatenation at frame boundaries |
| SseEvents.CutDeliversPrefix | sse/client.go:265-274 | a stream cut at any byte delivers a prefix of the whole stream's messages |
| SseEvents.FeedIsBatch | sse/client.go:258-287 | accumulating field by field is grouping at blank lines and interpreting each group |
| SseLines.TrimLeaves | sse/client.go:276 | trimming takes exactly the six ASCII white space characters from both ends |
| SseLines.ReadRetry | sse/client.go:298-299 | a retry line is read as a retry field with the trimmed value |
| SseLines.ReadComment | sse/client.go:289-302 | a line that begins with a colon changes nothing |
| SseLines.RetryTakesEffect | sse/client.go:298-316 | an attempt that fails after a retry line, with retries left: the next wait is the one asked for, doubled retryCount times; a value that does not parse leaves the wait of the lines before |
| SseLines.RetryThenBroken | sse/client.go:298-316 | the same when the retry line is the whole stream |
| SseLines.DataAddsUp | sse/client.go:294-297 | the data of a message is that of all its data lines in order, each with a line feed |
| SseLines.LastOfKind | sse/client.go:290-293 | its name is that of the last event line, its id that of the last id line |
| SseLines.GroupDelivers | sse/client.go:276-302 | any lines that are not blank and a blank one deliver one message, made of their names, ids and data, or none if they have no data |
| SseLines.DataLinesDeliver | sse/client.go:277-297 | n data lines and a blank one deliver one message with all n values, trimmed, in order |
| SseLines.FullMessage | sse/client.go:277-297 | a name, an id and n data lines deliver one message with all of them |
| SseClient.ReaderIsBatch | sse/client.go:256-305 | the line reader delivers the batch meaning of its bytes, and ends with its last id and last valid retry value |
| SseClient.Client.OnLine | sse/client.go:276-302 | one trimmed line: a blank line delivers the event if it has data, other lines go by their prefix |
| SseClient.Client.RecvVal | sse/client.go:256-305 | the loop delivers exactly the batch meaning; the unterminated tail is ignored; only a broken connection is an error |
| SseClient.Client.Act | sse/client.go:59-109 | one attempt sends the last id and does to the session what its bytes say |
| SseClient.Client.HandleRetry | sse/client.go:307-316 | an error exactly when the counter has reached the limit, otherwise one wait and one step |
| SseClient.Client.Get | sse/client.go:111-133 | the retry loop is SseSession.Connect; Post has the same loop (sse/client.go:206-230) |
| SseServer.PieceFields | sse/server.go:66-74 | the lines of each write do not depend on what follows, whatever the payload |
| SseServer.WritesDeliver | sse/server.go:55-84 | for any sequence of writes with clean texts, one message for every frame, in write order, with its payload and no id |
| SseNewlines.WritesSurvive | sse/server.go:66-74 | any sequence of writes with clean event names arrives as it was meant if and only if no payload and no id has a line feed before its last visible character |
| SseCalls.RoundTrip | sse/server.go:55-84 | calls made one after the other come back as exactly their events, heartbeats as nothing, if and only if every name is whole and no payload or id has a line feed before its last visible character |
| SseCalls.CallBytes | sse/server.go:66-74 | the bytes of each call; an unnamed event has no event line (sse/server.go:104 and 133 for the other two) |
| SseCalls.ConcurrentCalls | sse/server.go:103-104 | under any interleaving of the writes of concurrent calls the frames are those of exactly the calls made; with clean names the client gets their payloads, in the order in which the frames were written, if and only if all payloads are clean |
| SseCalls.CallsArrive | sse/client.go:276-302 | under any interleaving and for any names, payloads and ids: the client gets what every call meant if and only if all of them are clean and the write just before each payload leaves its own call's name pending |
| SseCalls.HeartbeatLosesName | sse/server.go:180-200 | a heartbeat between the two writes of a call loses the name |
| SseCalls.ConcurrentNamesMix | sse/server.go:66-74 | two calls at once: one payload arrives under the other call's name, the other under none |
| SseIds.PayloadMakesId | sse/client.go:292-293 | a payload makes an id if and only if, between two blank lines of it, it has a data line and an id line with a value that no other id line replaces |
| SseIds.PayloadWithId | sse/server.go:74 | a payload with the second line `id: 5` is delivered with that id |
| SseIds.NameWithId | sse/server.go:66-68 | an event name whose second line is an id line gives its id to a payload that makes none itself |
| SseIds.StreamIds | sse/client.go:276-302 | with clean event names, whatever writes come in whatever order: no message has an id if and only if no payload makes one |
| SseIds.NeverResumes | sse/client.go:89-91 | no session with the server, however it breaks off, sends a Last-Event-ID if and only if no sequence of the writes it may make carries an id |
| SseIds.NeverResumesByPayload | sse/client.go:89-91 | with clean event names: if and only if none of the payloads it may send makes an id |
| SseNewlines.DataSurvives | sse/server.go:74 | one payload comes back, up to white space at its ends, if and only if no line feed precedes its last visible character |
| SseNewlines.PayloadThatBreaks | sse/server.go:74 | of the payload with the lines a and b, only a arrives |
| SseNewlines.SecondLineIsName | sse/server.go:74 | a payload whose second line is an event line arrives under that name |
| SseHolder.Connection.Write | sse/server.go:68 | what is sent is what the successful writes print |
| SseHolder.Holder.OnRecv | sse/server.go:55-84 | prints the one or two writes of the event, or fails after some of them and closes once |
| SseHolder.Holder.Heartbeat | sse/server.go:92-115 | prints a ping, or closes |
| SseHolder.Holder.EchoSSEID | sse/server.go:117-145 | prints the id frame, or closes |
| SseSession.AttemptCount | sse/client.go:111-133 | the number of attempts is bounded by the retries, and OnClose fires exactly once, when they are used up |
| SseSession.AttemptLimit | sse/client.go:307-311 | never more than maxRetries + 1 attempts |
| SseSession.ReconnectingSession | sse/client.go:89-133 | a whole session delivers each attempt's bytes parsed on their own, in order; each request sends the id of the last message delivered before it |
| SseSession.CutSession | sse/client.go:265-274 | a session stopped at any byte of any attempt it makes has made its requests so far and delivered a prefix of what the whole session delivers |
| SseSession.FailingSession | sse/client.go:111-133 | when every attempt fails: ceil(maxRetries/2) + 1 attempts, OnClose once, waits W * 4^k summing up to W(4^r - 1)/3, as long as the last wait fits an int64 |
| SseSession.FinishedSession | sse/client.go:117-131 | after n failed attempts a response that ends, or is stopped by the caller, ends the session: n + 1 requests, n waits, no OnClose |
| SseSession.CancelledSession | sse/client.go:113-115 | a session cancelled during its n-th wait has made n requests and makes no more |
| Backoff.WaitInRange | sse/client.go:313 | the 64-bit wait is W * 4^k if and only if that product is below 2^63 |
| Backoff.WaitsInRange | sse/client.go:313-315 | the sequence of waits and its sum |
| Backoff.WaitWraps | sse/client.go:313 | for every W and counter the wait is the int64 that differs from W * 2^n by a multiple of 2^64 |

## Left out

- Order.RunOrdered: RequestContext also exposes Run (http/context.go:14); a handler that calls it, instead of Next, is entered again at the same index, without an end if it does so always. Such handlers are not among the actions.
- Order.EnteredInOrder: the same; the statement is about handlers that use Next.
- ChainContexts.ResponseWriter.WriteHeader: once net/http has sent a code it ignores any further one, and that one is recorded; a code of 0 would make the response count as unwritten again. In the model a code of 0 panics then, as it does before an answer.
- ChainContexts.ResponseWriter.Write: short writes and the returned error are not modelled.
- Machine.Invoke: a deferred function decides from what it sees at the panic, not from the local variables of the body, so a handler that wraps several calls of Next in functions that each recover is covered only where these decide alike.
- HttpServer.Server.ServeHTTP: the registry is consulted before the chain runs instead of at the moment of dispatch, which matters if it is changed during the request, or if a middleware rewrites the method or the path of the request.
- PatternText.Compile: patterns with regexp metacharacters, invalid or repeated group names, or a parameter named `_` and digits are left to the regexp package, as a parameter.
- Registry.ToUpper: ASCII letters only.
- RouteRegistry.Routes.Snapshot: each registry operation is one step at its lock; the unsynchronised reads of the API version and goroutine-level races are not modelled.
- SseText.Trim: ASCII white space only, and one character per byte.
- SseNewlines.WritesSurvive: for writes that belong to no call, event names with a line feed before their last visible character are not covered; for calls they are, by SseCalls.CallsArrive and SseCalls.RoundTrip.
- SseIds.StreamIds: the condition on single payloads needs clean event names; without them SseIds.NeverResumes speaks of sequences of writes.
- SseHolder.Connection.Write: a write goes out whole or not at all.
- SseHolder.Holder.EchoSSEID: a holder has its mutex, as NewHolder makes it; the early return without one is not modelled.
- SseClient.Client.Get: URL parsing, Close, the returned error, request headers other than Last-Event-ID, the cancel function and its mutex; time.ParseDuration is a parameter, and which attempts fail and what bytes arrive is chosen by the environment.
- The ticker and the master flag of Holder.Run, the holder registry map and random ids: heartbeats may occur at any point instead.
- Contents of response headers, log lines, stack traces and the HTML of the panic page.
- Static files, uploads, proxies and redirects (http/static.go, http/embed_static.go, http/upload.go, http/proxy.go, http/redirect.go): in the chain they are middlewares or route handlers like any other.
- The TCP package: its callbacks run on a scheduler that is not part of this repository.
