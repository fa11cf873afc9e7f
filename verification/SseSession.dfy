/**
 A client's session on values: attempt after attempt, each with the bytes it happened to receive,
 until one ends without an error, the caller cancels, or the retries are used up.
 */
module SseSession {
  import opened Handlers
  import opened Seqs
  import opened SseText
  import opened SseEvents
  import opened Backoff

  /** How the reading of a response ended: clean, by cancellation, or by an error of the connection. */
  datatype Ending = Eof | Cancelled | Broken

  /** No usable response, or a response of which these bytes were read. */
  datatype Attempt = Refused | Response(body: string, ending: Ending) {
    predicate Fails() {
      Refused? || ending.Broken?
    }

    function Received(): string {
      if Refused? then "" else body
    }
  }

  /** All that an attempt does to a session: its messages, the wait it asks for, and whether it fails. */
  datatype Outcome = Outcome(messages: seq<Message>, retry: Option<int>, fails: bool)

  function Observe(parse: string -> Option<int>, a: Attempt): Outcome {
    Outcome(Delivers(a.Received()), LastRetry(Fields(a.Received()), parse), a.Fails())
  }

  function Outcomes(parse: string -> Option<int>, tries: nat -> Attempt): nat -> Outcome {
    (k: nat) => Observe(parse, tries(k))
  }

  lemma {:induction false} RefusedOutcome(parse: string -> Option<int>)
    ensures Observe(parse, Refused) == Outcome([], None, true)
  {
    assert Lines("") == [];
  }

  datatype End = Finished | ContextDone | GaveUp

  /** `requests`: the Last-Event-ID of each request, "" where the header is left out. */
  datatype Session = Session(
    wait: int, lastId: string, received: seq<(string, string)>, requests: seq<string>, sleeps: seq<int>, closes: nat)

  datatype Stop = Stop(end: End, last: Session)

  /** One attempt. */
  function Act(s: Session, o: Outcome): Session {
    Session(OrElse(o.retry, s.wait), LastId(o.messages, s.lastId), s.received + Seen(o.messages),
            s.requests + [s.lastId], s.sleeps, s.closes)
  }

  /** handleRetry, when it allows another attempt. */
  function Sleep(s: Session, retryCount: nat): Session {
    s.(sleeps := s.sleeps + [Wait(s.wait, retryCount)])
  }

  /** One round of the loop: an attempt and, if it fails, a wait before the next or the end. */
  function Round(max: int, o: Outcome, retryCount: nat, s: Session): (Option<End>, Session) {
    var s' := Act(s, o);
    if !o.fails then (Some(Finished), s')
    else if retryCount >= max then (Some(GaveUp), s'.(closes := s'.closes + 1))
    else (None, Sleep(s', retryCount))
  }

  /** The loop of Get and Post from the n-th attempt on. */
  function Connect(max: int, attempts: nat -> Outcome, cancelled: nat -> bool, n: nat, retryCount: nat, s: Session): Stop
    decreases max - retryCount
  {
    if cancelled(n) then Stop(ContextDone, s)
    else
      var (end, s') := Round(max, attempts(n), retryCount, s);
      if end.Some? then Stop(end.value, s')
      else Connect(max, attempts, cancelled, n + 1, retryCount + 2, s')
  }

  lemma {:induction false} ConnectStep(
    max: int, attempts: nat -> Outcome, cancelled: nat -> bool, n: nat, retryCount: nat, s: Session)
    requires !cancelled(n)
    ensures var (end, s') := Round(max, attempts(n), retryCount, s);
            Connect(max, attempts, cancelled, n, retryCount, s)
            == if end.Some? then Stop(end.value, s') else Connect(max, attempts, cancelled, n + 1, retryCount + 2, s')
  {
  }

  /** Retries left: each failed attempt uses up two. */
  function Retries(max: int, retryCount: nat): nat {
    if retryCount >= max then 0 else (max - retryCount + 1) / 2
  }

  /** Attempts made from the n-th on. */
  function Made(max: int, attempts: nat -> Outcome, cancelled: nat -> bool, n: nat, retryCount: nat): nat
    decreases max - retryCount
  {
    if cancelled(n) then 0
    else if !attempts(n).fails || retryCount >= max then 1
    else 1 + Made(max, attempts, cancelled, n + 1, retryCount + 2)
  }

  // ----- the number of attempts -----

  /** Never more than the retries allow, and exactly that many when every attempt fails. */
  lemma {:induction false} AttemptCount(
    max: int, attempts: nat -> Outcome, cancelled: nat -> bool, n: nat, retryCount: nat, s: Session)
    ensures var made, stop := Made(max, attempts, cancelled, n, retryCount), Connect(max, attempts, cancelled, n, retryCount, s);
            && |stop.last.requests| == |s.requests| + made
            && made <= Retries(max, retryCount) + 1
            && stop.last.closes == s.closes + if stop.end == GaveUp then 1 else 0
    decreases max - retryCount
  {
    if !cancelled(n) && attempts(n).fails && retryCount < max {
      AttemptCount(max, attempts, cancelled, n + 1, retryCount + 2, Sleep(Act(s, attempts(n)), retryCount));
    }
  }

  ghost predicate AllFail(attempts: nat -> Outcome, cancelled: nat -> bool) {
    forall k: nat :: attempts(k).fails && !cancelled(k)
  }

  lemma {:induction false} FailingCount(
    max: int, attempts: nat -> Outcome, cancelled: nat -> bool, n: nat, retryCount: nat, s: Session)
    requires AllFail(attempts, cancelled)
    ensures Made(max, attempts, cancelled, n, retryCount) == Retries(max, retryCount) + 1
    ensures Connect(max, attempts, cancelled, n, retryCount, s).end == GaveUp
    decreases max - retryCount
  {
    if retryCount < max {
      FailingCount(max, attempts, cancelled, n + 1, retryCount + 2, Sleep(Act(s, attempts(n)), retryCount));
    }
  }

  /** Never more than maxRetries + 1 attempts. */
  lemma {:induction false} AttemptLimit(max: int, attempts: nat -> Outcome, cancelled: nat -> bool, s: Session)
    ensures |Connect(max, attempts, cancelled, 0, 0, s).last.requests| <= |s.requests| + 1 + if max <= 0 then 0 else max
  {
    AttemptCount(max, attempts, cancelled, 0, 0, s);
  }

  /**
   Attempts i, ..., n - 1 fail with retries left, and then the n-th does not or the caller cancels: that
   many waits, nothing is closed, and the session ends as its last attempt did.
   */
  lemma {:induction false} EndsAt(
    max: int, attempts: nat -> Outcome, cancelled: nat -> bool, i: nat, n: nat, retryCount: nat, s: Session)
    requires i <= n && (i < n ==> retryCount + 2 * (n - i - 1) < max)
    requires forall k :: i <= k < n ==> attempts(k).fails && !cancelled(k)
    requires cancelled(n) || !attempts(n).fails
    ensures var stop := Connect(max, attempts, cancelled, i, retryCount, s);
            && stop.end == (if cancelled(n) then ContextDone else Finished)
            && |stop.last.requests| == |s.requests| + (n - i) + (if cancelled(n) then 0 else 1)
            && |stop.last.sleeps| == |s.sleeps| + (n - i)
            && stop.last.closes == s.closes
    decreases n - i
  {
    if i < n {
      ConnectStep(max, attempts, cancelled, i, retryCount, s);
      EndsAt(max, attempts, cancelled, i + 1, n, retryCount + 2, Sleep(Act(s, attempts(i)), retryCount));
    }
  }

  /**
   After n failed attempts a response that is read to its end, or that the caller stops, ends the session
   without an error and without OnClose.
   */
  lemma {:induction false} FinishedSession(
    max: int, parse: string -> Option<int>, tries: nat -> Attempt, cancelled: nat -> bool, wait: int, lastId: string, n: nat)
    requires (n == 0 || 2 * n <= max + 1) && forall k :: 0 <= k <= n ==> !cancelled(k)
    requires forall k :: 0 <= k < n ==> tries(k).Refused? || tries(k).ending == Broken
    requires tries(n).Response? && (tries(n).ending == Eof || tries(n).ending == Cancelled)
    ensures var stop := Connect(max, Outcomes(parse, tries), cancelled, 0, 0, Session(wait, lastId, [], [], [], 0));
            && stop.end == Finished
            && |stop.last.requests| == n + 1 && |stop.last.sleeps| == n && stop.last.closes == 0
  {
    var attempts := Outcomes(parse, tries);
    assert forall k :: 0 <= k <= n ==> attempts(k).fails == tries(k).Fails();
    EndsAt(max, attempts, cancelled, 0, n, 0, Session(wait, lastId, [], [], [], 0));
  }

  /** A session that the caller cancels during its n-th wait makes no more requests. */
  lemma {:induction false} CancelledSession(
    max: int, parse: string -> Option<int>, tries: nat -> Attempt, cancelled: nat -> bool, wait: int, lastId: string, n: nat)
    requires (n == 0 || 2 * n <= max + 1) && cancelled(n) && forall k :: 0 <= k < n ==> !cancelled(k)
    requires forall k :: 0 <= k < n ==> tries(k).Refused? || tries(k).ending == Broken
    ensures var stop := Connect(max, Outcomes(parse, tries), cancelled, 0, 0, Session(wait, lastId, [], [], [], 0));
            && stop.end == ContextDone
            && |stop.last.requests| == n && |stop.last.sleeps| == n && stop.last.closes == 0
  {
    var attempts := Outcomes(parse, tries);
    assert forall k :: 0 <= k < n ==> attempts(k).fails == tries(k).Fails();
    EndsAt(max, attempts, cancelled, 0, n, 0, Session(wait, lastId, [], [], [], 0));
  }

  // ----- what is delivered -----

  /** The messages of attempts n, ..., m - 1, each stream parsed on its own. */
  function Streams(attempts: nat -> Outcome, n: nat, m: nat): seq<Message>
    decreases m - n
  {
    if n >= m then [] else attempts(n).messages + Streams(attempts, n + 1, m)
  }

  /** The ids sent by attempts n, ..., m - 1: each one is left behind by the attempts before it. */
  function Ids(attempts: nat -> Outcome, n: nat, m: nat, lastId: string): (ids: seq<string>)
    requires n <= m
    ensures |ids| == m - n
    decreases m - n
  {
    if n == m then [] else [lastId] + Ids(attempts, n + 1, m, LastId(attempts(n).messages, lastId))
  }

  lemma {:induction false} IdsMean(attempts: nat -> Outcome, n: nat, m: nat, lastId: string, k: nat)
    requires n <= m && k < m - n
    ensures Ids(attempts, n, m, lastId)[k] == LastId(Streams(attempts, n, n + k), lastId)
    decreases k
  {
    if k > 0 {
      IdsMean(attempts, n + 1, m, LastId(attempts(n).messages, lastId), k - 1);
      LastIdConcat(attempts(n).messages, Streams(attempts, n + 1, n + k), lastId);
    }
  }

  lemma {:induction false} SessionDelivers(
    max: int, attempts: nat -> Outcome, cancelled: nat -> bool, n: nat, retryCount: nat, s: Session)
    ensures var m := n + Made(max, attempts, cancelled, n, retryCount);
            Connect(max, attempts, cancelled, n, retryCount, s).last.received == s.received + Seen(Streams(attempts, n, m))
    decreases max - retryCount
  {
    if cancelled(n) {
      SeenConcat(s.received, [], []);
    } else {
      var m := n + Made(max, attempts, cancelled, n, retryCount);
      SeenConcat(s.received, attempts(n).messages, Streams(attempts, n + 1, m));
      SeenConcat(s.received + Seen(attempts(n).messages), [], []);
      if attempts(n).fails && retryCount < max {
        SessionDelivers(max, attempts, cancelled, n + 1, retryCount + 2, Sleep(Act(s, attempts(n)), retryCount));
      }
    }
  }

  lemma {:induction false} SessionIds(
    max: int, attempts: nat -> Outcome, cancelled: nat -> bool, n: nat, retryCount: nat, s: Session)
    ensures var m := n + Made(max, attempts, cancelled, n, retryCount);
            Connect(max, attempts, cancelled, n, retryCount, s).last.requests == s.requests + Ids(attempts, n, m, s.lastId)
    decreases max - retryCount
  {
    if !cancelled(n) {
      var m := n + Made(max, attempts, cancelled, n, retryCount);
      var s1 := Act(s, attempts(n));
      Assoc(s.requests, [s.lastId], Ids(attempts, n + 1, m, s1.lastId));
      if attempts(n).fails && retryCount < max {
        SessionIds(max, attempts, cancelled, n + 1, retryCount + 2, Sleep(s1, retryCount));
      }
    }
  }

  lemma {:induction false} LastIdConcat(a: seq<Message>, b: seq<Message>, lastId: string)
    ensures LastId(a + b, lastId) == LastId(b, LastId(a, lastId))
  {
    if b == [] {
      assert a + b == a;
    }
  }

  lemma {:induction false} FreshSession(
    max: int, attempts: nat -> Outcome, cancelled: nat -> bool, wait: int, lastId: string)
    ensures var last := Connect(max, attempts, cancelled, 0, 0, Session(wait, lastId, [], [], [], 0)).last;
            var made := Made(max, attempts, cancelled, 0, 0);
            last.received == Seen(Streams(attempts, 0, made)) && last.requests == Ids(attempts, 0, made, lastId)
  {
    var s, made := Session(wait, lastId, [], [], [], 0), Made(max, attempts, cancelled, 0, 0);
    SessionDelivers(max, attempts, cancelled, 0, 0, s);
    SessionIds(max, attempts, cancelled, 0, 0, s);
    Unit(Seen(Streams(attempts, 0, made)));
    Unit(Ids(attempts, 0, made, lastId));
  }

  /**
   A whole reconnecting session: the messages delivered are those of each attempt's bytes, each parsed
   on its own, one after the other, so no half-built event crosses from one attempt to the next; and
   each request sends the id of the last message delivered before it.
   */
  lemma {:induction false} ReconnectingSession(
    max: int, parse: string -> Option<int>, tries: nat -> Attempt, cancelled: nat -> bool, wait: int, lastId: string)
    ensures var attempts := Outcomes(parse, tries);
            var last := Connect(max, attempts, cancelled, 0, 0, Session(wait, lastId, [], [], [], 0)).last;
            var made := Made(max, attempts, cancelled, 0, 0);
            && last.received == Seen(Streams(attempts, 0, made))
            && |last.requests| == made
            && forall k {:trigger last.requests[k]} :: 0 <= k < made ==>
                 last.requests[k] == LastId(Streams(attempts, 0, k), lastId)
  {
    var attempts := Outcomes(parse, tries);
    FreshSession(max, attempts, cancelled, wait, lastId);
    var ids := Ids(attempts, 0, Made(max, attempts, cancelled, 0, 0), lastId);
    forall k | 0 <= k < |ids|
      ensures ids[k] == LastId(Streams(attempts, 0, k), lastId)
    {
      IdsMean(attempts, 0, |ids|, lastId, k);
    }
  }

  lemma {:induction false} StreamsGrow(attempts: nat -> Outcome, n: nat, m: nat)
    requires n <= m
    ensures Streams(attempts, n, m + 1) == Streams(attempts, n, m) + attempts(m).messages
    decreases m - n
  {
    if n == m {
      assert attempts(m).messages + Streams(attempts, m + 1, m + 1) == [] + attempts(m).messages;
    } else {
      StreamsGrow(attempts, n + 1, m);
      Assoc(attempts(n).messages, Streams(attempts, n + 1, m), attempts(m).messages);
    }
  }

  /** The m-th attempt stops after k bytes, because the caller gives up; the others are as before. */
  function Stopped(tries: nat -> Attempt, m: nat, k: nat): nat -> Attempt
    requires k <= |tries(m).Received()|
  {
    (n: nat) => if n == m then Response(tries(m).Received()[..k], Cancelled) else tries(n)
  }

  lemma {:induction false} StoppedOutcomes(parse: string -> Option<int>, tries: nat -> Attempt, m: nat, k: nat, j: nat)
    requires k <= |tries(m).Received()|
    ensures var cut := Outcomes(parse, Stopped(tries, m, k))(j);
            if j == m then cut.messages == Delivers(tries(m).Received()[..k]) && !cut.fails
            else cut == Outcomes(parse, tries)(j)
  {
    var stopped := Stopped(tries, m, k);
    assert Outcomes(parse, stopped)(j) == Observe(parse, stopped(j));
  }

  lemma {:induction false} SameStreams(a: nat -> Outcome, b: nat -> Outcome, n: nat, m: nat)
    requires forall j :: n <= j < m ==> a(j) == b(j)
    ensures Streams(a, n, m) == Streams(b, n, m)
    decreases m - n
  {
    if n < m {
      SameStreams(a, b, n + 1, m);
    }
  }

  /** A session that gets to the m-th attempt gets there again, and ends with it if it does not fail. */
  lemma {:induction false} MadeUpTo(
    max: int, a: nat -> Outcome, b: nat -> Outcome, cancelled: nat -> bool, n: nat, m: nat, retryCount: nat)
    requires n <= m < n + Made(max, a, cancelled, n, retryCount)
    requires (forall j :: n <= j < m ==> a(j) == b(j)) && !b(m).fails
    ensures n + Made(max, b, cancelled, n, retryCount) == m + 1
    decreases m - n
  {
    if n < m {
      MadeUpTo(max, a, b, cancelled, n + 1, m, retryCount + 2);
    }
  }

  lemma {:induction false} StreamsSplit(attempts: nat -> Outcome, n: nat, m: nat, k: nat)
    requires n <= m <= k
    ensures Streams(attempts, n, k) == Streams(attempts, n, m) + Streams(attempts, m, k)
    decreases m - n
  {
    if n == m {
      Unit(Streams(attempts, m, k));
    } else {
      StreamsSplit(attempts, n + 1, m, k);
      Assoc(attempts(n).messages, Streams(attempts, n + 1, m), Streams(attempts, m, k));
    }
  }

  lemma SeenPrefix(a: seq<Message>, b: seq<Message>)
    requires a <= b
    ensures Seen(a) <= Seen(b)
  {
  }

  /** What the stopped session delivers, up to the attempt that was stopped. */
  lemma {:induction false} StoppedStreams(parse: string -> Option<int>, tries: nat -> Attempt, m: nat, k: nat, made: nat)
    requires k <= |tries(m).Received()| && m < made
    ensures Streams(Outcomes(parse, Stopped(tries, m, k)), 0, m + 1) <= Streams(Outcomes(parse, tries), 0, made)
  {
    var full, cut := Outcomes(parse, tries), Outcomes(parse, Stopped(tries, m, k));
    forall j: nat
      ensures j != m ==> full(j) == cut(j)
    {
      StoppedOutcomes(parse, tries, m, k, j);
    }
    StoppedOutcomes(parse, tries, m, k, m);
    SameStreams(full, cut, 0, m);
    StreamsGrow(cut, 0, m);
    StreamsGrow(full, 0, m);
    StreamsSplit(full, 0, m + 1, made);
    CutDeliversPrefix(tries(m).Received(), k);
    PrefixAfter(Streams(full, 0, m), cut(m).messages, full(m).messages);
  }

  lemma PrefixAfter(a: seq<Message>, b: seq<Message>, c: seq<Message>)
    requires b <= c
    ensures a + b <= a + c
  {
  }

  /**
   A session that is stopped at any byte of any attempt it makes has delivered a prefix of what the
   whole session delivers, and made its requests so far.
   */
  lemma {:induction false} CutSession(
    max: int, parse: string -> Option<int>, tries: nat -> Attempt, cancelled: nat -> bool, wait: int, lastId: string,
    m: nat, k: nat)
    requires m < Made(max, Outcomes(parse, tries), cancelled, 0, 0) && k <= |tries(m).Received()|
    ensures var s := Session(wait, lastId, [], [], [], 0);
            var whole := Connect(max, Outcomes(parse, tries), cancelled, 0, 0, s).last;
            var part := Connect(max, Outcomes(parse, Stopped(tries, m, k)), cancelled, 0, 0, s).last;
            part.received <= whole.received && |part.requests| == m + 1
  {
    var full, cut := Outcomes(parse, tries), Outcomes(parse, Stopped(tries, m, k));
    forall j: nat
      ensures j != m ==> full(j) == cut(j)
    {
      StoppedOutcomes(parse, tries, m, k, j);
    }
    StoppedOutcomes(parse, tries, m, k, m);
    MadeUpTo(max, full, cut, cancelled, 0, m, 0);
    FreshSession(max, full, cancelled, wait, lastId);
    FreshSession(max, cut, cancelled, wait, lastId);
    StoppedStreams(parse, tries, m, k, Made(max, full, cancelled, 0, 0));
    SeenPrefix(Streams(cut, 0, m + 1), Streams(full, 0, Made(max, full, cancelled, 0, 0)));
  }

  // ----- how long it waits -----

  /** One wait, and those after it. */
  lemma {:induction false} WaitsStep(max: int, retryCount: nat, wait: int)
    requires retryCount < max
    ensures Waits(wait, retryCount, Retries(max, retryCount))
            == [Wait(wait, retryCount)] + Waits(wait, retryCount + 2, Retries(max, retryCount + 2))
  {
    assert Retries(max, retryCount) == 1 + Retries(max, retryCount + 2);
  }

  lemma {:induction false} FailingWaits(
    max: int, attempts: nat -> Outcome, cancelled: nat -> bool, n: nat, retryCount: nat, s: Session)
    requires AllFail(attempts, cancelled)
    requires forall k: nat :: attempts(k).retry == None
    ensures Connect(max, attempts, cancelled, n, retryCount, s).last.sleeps
            == s.sleeps + Waits(s.wait, retryCount, Retries(max, retryCount))
    decreases max - retryCount
  {
    if retryCount < max {
      var s' := Sleep(Act(s, attempts(n)), retryCount);
      FailingWaits(max, attempts, cancelled, n + 1, retryCount + 2, s');
      WaitsStep(max, retryCount, s.wait);
      Assoc(s.sleeps, [Wait(s.wait, retryCount)], Waits(s.wait, retryCount + 2, Retries(max, retryCount + 2)));
    } else {
      Unit(s.sleeps);
    }
  }

  /**
   When every attempt fails: r = ceil(maxRetries / 2) retries after the first attempt, OnClose once,
   and, as long as W * 4^(r-1) fits an int64, waits of W, 4W, 16W, ... that sum up to W(4^r - 1)/3.
   */
  lemma {:induction false} FailingSession(
    max: int, attempts: nat -> Outcome, cancelled: nat -> bool, wait: int, lastId: string)
    requires max >= 0 && AllFail(attempts, cancelled) && forall k: nat :: attempts(k).retry == None
    requires 0 <= wait && InRange(wait, 0, (max + 1) / 2)
    ensures var stop := Connect(max, attempts, cancelled, 0, 0, Session(wait, lastId, [], [], [], 0));
            var r, s := (max + 1) / 2, stop.last;
            && stop.end == GaveUp && s.closes == 1
            && |s.requests| == r + 1
            && |s.sleeps| == r && TimesFour(s.sleeps, wait)
  {
    var s0, r := Session(wait, lastId, [], [], [], 0), (max + 1) / 2;
    AttemptCount(max, attempts, cancelled, 0, 0, s0);
    FailingCount(max, attempts, cancelled, 0, 0, s0);
    FailingWaits(max, attempts, cancelled, 0, 0, s0);
    RetriesAtFirst(max);
    WaitsFromZero(wait, r);
    Unit(Waits(wait, 0, r));
  }

  lemma RetriesAtFirst(max: int)
    requires max >= 0
    ensures Retries(max, 0) == (max + 1) / 2
  {
  }
}
