/**
 What comes out of the response writer, in plain numbers, and what a route's own handler sends when it
 says one thing after the other.
 */
module Responses {
  import opened Handlers
  import opened Machine
  import opened Seqs
  import M = Machine

  // ----- one call -----

  /** The first write sends 200; a later one leaves the code alone. */
  lemma WriteSends(c: Core, data: string)
    ensures !c.Written()
            ==> M.Write(c, data) == Reaction(Returned, c.(status := 200, sent := 200, size := c.size + |data|),
                                             [Head(200), Body(data)])
    ensures c.Written() && c.sent >= 200 && c.sent != 204 && c.sent != 304
            ==> M.Write(c, data) == Reaction(Returned, c.(size := c.size + |data|), [Body(data)])
    ensures c.Written() && (c.sent == 101 || c.sent == 204 || c.sent == 304)
            ==> M.Write(c, data) == Reaction(Returned, c, [])
    ensures c.Written() && c.sent == 0
            ==> M.Write(c, data) == Reaction(Returned, c.(sent := 200, size := c.size + |data|), [Body(data)])
  {
  }

  /**
   The first code goes out, or panics outside 100..999; 1xx codes other than 101 leave it open which code
   the answer will have; after it, codes are recorded only.
   */
  lemma HeaderSends(c: Core, code: int)
    ensures !c.Written() && (200 <= code <= 999 || code == 101)
            ==> M.WriteHeader(c, code) == Reaction(Returned, c.(status := code, sent := code), [Head(code)])
    ensures (!c.Written() || c.sent == 0) && (code < 100 || 999 < code)
            ==> M.WriteHeader(c, code) == Reaction(Panicked, c, [Raise])
    ensures !c.Written() && 100 <= code <= 199 && code != 101
            ==> M.WriteHeader(c, code) == Reaction(Returned, c.(status := code, sent := 0), [Head(code)])
    ensures c.Written() && c.sent != 0 && code != 0
            ==> M.WriteHeader(c, code) == Reaction(Returned, c.(status := code), [Head(code)])
  {
  }

  // ----- one call after the other -----

  /** A route's handler that replies with these, one after the other, and returns. */
  ghost predicate Says(h: Endpoint, replies: seq<Reply>) {
    && |replies| <= h.bound
    && (forall k :: 0 <= k < |replies| ==> !replies[k].Return?)
    && (forall seen: seq<Core> :: 1 <= |seen| <= |replies| ==> h.act(seen) == replies[|seen| - 1])
    && (forall seen: seq<Core> :: |seen| == |replies| + 1 <= h.bound ==> h.act(seen).Return?)
  }

  function Writes(texts: seq<string>): (replies: seq<Reply>)
    ensures |replies| == |texts|
    ensures forall k :: 0 <= k < |texts| ==> replies[k] == Action.Write(texts[k])
  {
    seq(|texts|, k requires 0 <= k < |texts| => Action.Write(texts[k]))
  }

  function Total(texts: seq<string>): nat {
    if texts == [] then 0 else |texts[0]| + Total(texts[1..])
  }

  function Bodies(texts: seq<string>): seq<Event> {
    if texts == [] then [] else [Body(texts[0])] + Bodies(texts[1..])
  }

  /** The codes that net/http lets a body follow. */
  predicate WithBody(code: int) {
    200 <= code <= 999 && code != 204 && code != 304
  }

  /** One reply, and what the handler goes on to do. */
  lemma {:induction false} GoesOn(h: Endpoint, seen: seq<Core>, c: Core, w: Reaction)
    requires |seen| <= h.bound && !h.act(seen).Return? && w == Respond(c, h.act(seen)) && w.out.Returned?
    ensures var rest := ExecEndpoint(h, seen + [w.core], w.core);
            ExecEndpoint(h, seen, c) == Reaction(rest.out, rest.core, w.log + rest.log)
  {
  }

  /** The handler, where only writes are left: every text goes out, in order. */
  lemma {:induction false} RestWrites(h: Endpoint, replies: seq<Reply>, texts: seq<string>, seen: seq<Core>, c: Core)
    requires Says(h, replies) && 1 <= |seen| <= |replies| + 1 && replies[|seen| - 1..] == Writes(texts)
    requires c.Written() && WithBody(c.sent)
    ensures ExecEndpoint(h, seen, c) == Reaction(Returned, c.(size := c.size + Total(texts)), Bodies(texts))
    decreases |texts|
  {
    if texts != [] {
      assert h.act(seen) == replies[|seen| - 1..][0] == Action.Write(texts[0]);
      var c' := c.(size := c.size + |texts[0]|);
      WriteSends(c, texts[0]);
      GoesOn(h, seen, c, Reaction(Returned, c', [Body(texts[0])]));
      assert replies[|seen|..] == replies[|seen| - 1..][1..];
      assert Writes(texts)[1..] == Writes(texts[1..]);
      RestWrites(h, replies, texts[1..], seen + [c'], c');
    }
  }

  /** A code and then some texts: that code is sent, and all the texts in order. */
  lemma {:induction false} HeaderThenBodies(h: Endpoint, code: int, texts: seq<string>, c: Core)
    requires Says(h, [Action.WriteHeader(code)] + Writes(texts)) && WithBody(code) && !c.Written()
    ensures ExecEndpoint(h, [c], c)
            == Reaction(Returned, c.(status := code, sent := code, size := c.size + Total(texts)),
                        [Head(code)] + Bodies(texts))
  {
    var replies := [Action.WriteHeader(code)] + Writes(texts);
    var c' := c.(status := code, sent := code);
    HeaderSends(c, code);
    assert h.act([c]) == replies[0];
    assert replies[1..] == Writes(texts);
    RestWrites(h, replies, texts, [c] + [c'], c');
  }

  /** Texts without a code: 200 is sent, and all the texts in order. */
  lemma {:induction false} BodiesAlone(h: Endpoint, texts: seq<string>, c: Core)
    requires Says(h, Writes(texts)) && texts != [] && !c.Written()
    ensures ExecEndpoint(h, [c], c)
            == Reaction(Returned, c.(status := 200, sent := 200, size := c.size + Total(texts)),
                        [Head(200)] + Bodies(texts))
  {
    var c' := c.(status := 200, sent := 200, size := c.size + |texts[0]|);
    WriteSends(c, texts[0]);
    assert h.act([c]) == Writes(texts)[0];
    GoesOn(h, [c], c, Reaction(Returned, c', [Head(200), Body(texts[0])]));
    assert Writes(texts)[1..] == Writes(texts[1..]);
    RestWrites(h, Writes(texts), texts[1..], [c] + [c'], c');
    Assoc([Head(200)], [Body(texts[0])], Bodies(texts[1..]));
    assert [Head(200)] + [Body(texts[0])] == [Head(200), Body(texts[0])];
  }

  /** Two codes and a text: the second code is recorded, but the first one is sent and admits the body. */
  lemma {:induction false} SecondCodeIsRecorded(h: Endpoint, first: int, second: int, text: string, c: Core)
    requires Says(h, [Action.WriteHeader(first), Action.WriteHeader(second), Action.Write(text)])
    requires WithBody(first) && second != 0 && !c.Written()
    ensures ExecEndpoint(h, [c], c)
            == Reaction(Returned, c.(status := second, sent := first, size := c.size + |text|),
                        [Head(first), Head(second), Body(text)])
  {
    var replies := [Action.WriteHeader(first), Action.WriteHeader(second), Action.Write(text)];
    var c1 := c.(status := first, sent := first);
    var c2 := c1.(status := second);
    HeaderSends(c, first);
    HeaderSends(c1, second);
    assert h.act([c]) == replies[0] && h.act([c] + [c1]) == replies[1];
    assert replies[2..] == Writes([text]);
    RestWrites(h, replies, [text], ([c] + [c1]) + [c2], c2);
    assert [text][1..] == [];
    assert ExecEndpoint(h, [c] + [c1], c1).log == [Head(second)] + Bodies([text]);
    assert Bodies([text]) == [Body(text)] + [];
  }

  /** A code that admits no body, and a text: the text does not count. */
  lemma {:induction false} RefusedBody(h: Endpoint, code: int, text: string, c: Core)
    requires Says(h, [Action.WriteHeader(code), Action.Write(text)]) && (code == 204 || code == 304) && !c.Written()
    ensures ExecEndpoint(h, [c], c) == Reaction(Returned, c.(status := code, sent := code), [Head(code)])
  {
    var replies := [Action.WriteHeader(code), Action.Write(text)];
    var c' := c.(status := code, sent := code);
    HeaderSends(c, code);
    WriteSends(c', text);
    assert h.act([c]) == replies[0] && h.act([c] + [c']) == replies[1];
    assert ExecEndpoint(h, ([c] + [c']) + [c'], c') == Reaction(Returned, c', []);
  }

  /** There are such handlers, for whatever they are to say. */
  function Speaker(replies: seq<Reply>): Endpoint {
    Endpoint(|replies|, (seen: seq<Core>) => if 1 <= |seen| <= |replies| then replies[|seen| - 1] else Return)
  }

  lemma {:induction false} SpeakerSays(replies: seq<Reply>)
    requires forall k :: 0 <= k < |replies| ==> !replies[k].Return?
    ensures Says(Speaker(replies), replies)
  {
  }
}
