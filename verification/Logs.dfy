/** Questions about the events of a run, and how they distribute over concatenation. */
module Logs {
  import opened Handlers
  import opened Machine

  /** Which handler an event names: the one entered at a level, or the one that called Next there. */
  datatype Kind = Entries(level: nat) | Calls(level: nat)

  predicate Names(kind: Kind, ev: Event) {
    match kind
    case Entries(level) => ev.Enter? && ev.level == level
    case Calls(level) => ev.Called? && ev.level == level
  }

  function Named(kind: Kind, ev: Event): nat
    requires Names(kind, ev)
  {
    if kind.Entries? then ev.index else ev.who
  }

  /** The handlers named by the events of one kind, in order. */
  function Indices(log: seq<Event>, kind: Kind): seq<nat> {
    if log == [] then []
    else if Names(kind, log[0]) then [Named(kind, log[0])] + Indices(log[1..], kind)
    else Indices(log[1..], kind)
  }

  ghost predicate Silent(log: seq<Event>, kind: Kind) {
    forall k :: 0 <= k < |log| ==> !Names(kind, log[k])
  }

  /** The named handlers rise strictly, between two bounds. */
  predicate Rising(log: seq<Event>, kind: Kind, lo: nat, hi: int) {
    if log == [] then true
    else if Names(kind, log[0]) then
      lo <= Named(kind, log[0]) <= hi && Rising(log[1..], kind, Named(kind, log[0]) + 1, hi)
    else Rising(log[1..], kind, lo, hi)
  }

  lemma {:induction false} RisingWiden(log: seq<Event>, kind: Kind, lo: nat, hi: int, lo': nat, hi': int)
    requires Rising(log, kind, lo, hi) && lo' <= lo && hi <= hi'
    ensures Rising(log, kind, lo', hi')
  {
    if log != [] {
      var named := Names(kind, log[0]);
      RisingWiden(log[1..], kind, if named then Named(kind, log[0]) + 1 else lo, hi,
                  if named then Named(kind, log[0]) + 1 else lo', hi');
    }
  }

  lemma {:induction false} RisingConcat(a: seq<Event>, b: seq<Event>, kind: Kind, lo: nat, mid: int, lo': nat, hi: int)
    requires Rising(a, kind, lo, mid) && Rising(b, kind, lo', hi) && lo <= lo' && mid < lo' && mid <= hi
    ensures Rising(a + b, kind, lo, hi)
  {
    if a == [] {
      assert a + b == b;
      RisingWiden(b, kind, lo', hi, lo, hi);
    } else {
      RisingConcat(a[1..], b, kind, if Names(kind, a[0]) then Named(kind, a[0]) + 1 else lo, mid, lo', hi);
      assert (a + b)[1..] == a[1..] + b;
    }
  }

  lemma {:induction false} RisingSilent(log: seq<Event>, kind: Kind, lo: nat, hi: int)
    requires Silent(log, kind)
    ensures Rising(log, kind, lo, hi)
  {
    if log != [] {
      RisingSilent(log[1..], kind, lo, hi);
    }
  }

  lemma {:induction false} RisingEmpty(log: seq<Event>, kind: Kind, lo: nat, hi: int)
    requires Rising(log, kind, lo, hi) && hi < lo
    ensures Silent(log, kind)
  {
    if log != [] {
      RisingEmpty(log[1..], kind, lo, hi);
      assert forall k :: 0 < k < |log| ==> log[k] == log[1..][k - 1];
    }
  }

  /** Rising, read as a statement about all the events of a log. */
  lemma {:induction false} RisingMeans(log: seq<Event>, kind: Kind, lo: nat, hi: int)
    requires Rising(log, kind, lo, hi)
    ensures forall k :: 0 <= k < |log| && Names(kind, log[k]) ==> lo <= Named(kind, log[k]) <= hi
    ensures forall j, k :: 0 <= j < k < |log| && Names(kind, log[j]) && Names(kind, log[k])
                           ==> Named(kind, log[j]) < Named(kind, log[k])
  {
    if log != [] {
      RisingMeans(log[1..], kind, if Names(kind, log[0]) then Named(kind, log[0]) + 1 else lo, hi);
      assert forall k :: 0 < k < |log| ==> log[k] == log[1..][k - 1];
    }
  }

  /** Where a gap-free run of named handlers that starts at `lo` stops, if there is no gap. */
  function Reach(log: seq<Event>, kind: Kind, lo: nat): Option<nat> {
    if log == [] then Some(lo)
    else if !Names(kind, log[0]) then Reach(log[1..], kind, lo)
    else if Named(kind, log[0]) == lo then Reach(log[1..], kind, lo + 1)
    else None
  }

  lemma {:induction false} ReachConcat(a: seq<Event>, b: seq<Event>, kind: Kind, lo: nat)
    requires Reach(a, kind, lo).Some?
    ensures Reach(a + b, kind, lo) == Reach(b, kind, Reach(a, kind, lo).value)
  {
    if a == [] {
      assert a + b == b;
    } else {
      ReachConcat(a[1..], b, kind, if Names(kind, a[0]) then lo + 1 else lo);
      assert (a + b)[1..] == a[1..] + b;
    }
  }

  lemma {:induction false} ReachSilent(log: seq<Event>, kind: Kind, lo: nat)
    requires Silent(log, kind)
    ensures Reach(log, kind, lo) == Some(lo)
  {
    if log != [] {
      ReachSilent(log[1..], kind, lo);
    }
  }

  function Range(lo: nat, hi: nat): seq<nat>
    decreases hi - lo
  {
    if lo < hi then [lo] + Range(lo + 1, hi) else []
  }

  /** Reach, read as a statement about the sequence of named handlers. */
  lemma {:induction false} ReachMeans(log: seq<Event>, kind: Kind, lo: nat)
    requires Reach(log, kind, lo).Some?
    ensures lo <= Reach(log, kind, lo).value
    ensures Indices(log, kind) == Range(lo, Reach(log, kind, lo).value)
  {
    if log != [] {
      ReachMeans(log[1..], kind, if Names(kind, log[0]) then lo + 1 else lo);
    }
  }

  // ----- does it happen at all -----

  /** Things that may happen in a run. */
  datatype Question =
    | Raises
    | Catches(level: nat)
    | EngineMisses
    /** A handler is started on a response already written. */
    | LateEnters(level: nat)
    /** Next is called on a response already written, with a handler left / with none left. */
    | LateCalls(e: Engine)
    | LateLastCalls(e: Engine)

  predicate Asks(q: Question, ev: Event) {
    match q
    case Raises => ev.Raise?
    case Catches(level) => ev.Caught? && ev.level == level
    case EngineMisses => ev.EngineNotFound?
    case LateEnters(level) => ev.Enter? && ev.level == level && ev.written
    case LateCalls(e) => ev.Called? && ev.level == e.Level() && ev.written && ev.index + 1 < |e.chain|
    case LateLastCalls(e) => ev.Called? && ev.level == e.Level() && ev.written && |e.chain| <= ev.index + 1
  }

  ghost predicate Any(q: Question, log: seq<Event>) {
    exists k :: 0 <= k < |log| && Asks(q, log[k])
  }

  lemma AnyConcat(q: Question, a: seq<Event>, b: seq<Event>)
    ensures Any(q, a + b) <==> Any(q, a) || Any(q, b)
  {
    assert forall k :: 0 <= k < |a| ==> (a + b)[k] == a[k];
    assert forall k :: 0 <= k < |b| ==> (a + b)[|a| + k] == b[k];
    assert forall k :: 0 <= k < |a + b| ==> (a + b)[k] == if k < |a| then a[k] else b[k - |a|];
  }

  lemma AnyOne(q: Question, ev: Event)
    ensures Any(q, [ev]) <==> Asks(q, ev)
  {
    assert [ev][0] == ev;
  }

  // ----- counting -----

  /** Registry dispatches, calls of a route's own handler, and 204 fallbacks of the request engine. */
  datatype Mark = Dispatches | Finals | Fallbacks

  predicate Marks(mark: Mark, ev: Event) {
    match mark
    case Dispatches => ev.Dispatch?
    case Finals => ev.Final?
    case Fallbacks => ev == NoContent(1)
  }

  function Count(log: seq<Event>, mark: Mark): nat {
    if log == [] then 0 else (if Marks(mark, log[0]) then 1 else 0) + Count(log[1..], mark)
  }

  lemma {:induction false} CountConcat(a: seq<Event>, b: seq<Event>, mark: Mark)
    ensures Count(a + b, mark) == Count(a, mark) + Count(b, mark)
  {
    if a == [] {
      assert a + b == b;
    } else {
      CountConcat(a[1..], b, mark);
      assert (a + b)[1..] == a[1..] + b;
    }
  }

  lemma {:induction false} CountNone(log: seq<Event>, mark: Mark)
    requires forall k :: 0 <= k < |log| ==> !Marks(mark, log[k])
    ensures Count(log, mark) == 0
  {
    if log != [] {
      CountNone(log[1..], mark);
    }
  }

  // ----- code that holds no RequestContext -----

  /** The answer and a panic: all that such code adds to a log. */
  ghost predicate Plain(log: seq<Event>) {
    forall k :: 0 <= k < |log| ==> log[k].Head? || log[k].Body? || log[k].Raise?
  }

  lemma {:induction false} EndpointIsPlain(h: Endpoint, seen: seq<Core>, c: Core)
    ensures Plain(ExecEndpoint(h, seen, c).log)
    decreases h.bound - |seen|
  {
    if !(|seen| > h.bound || h.act(seen).Return?) {
      var w := Respond(c, h.act(seen));
      if w.out.Returned? {
        EndpointIsPlain(h, seen + [w.core], w.core);
      }
    }
  }
}
