/** The client as the source writes it: an incremental line reader inside a retry loop. */
module SseClient {
  import opened Handlers
  import opened SseText
  import opened SseEvents
  import S = SseSession
  import B = Backoff

  /** The receiving side of a stream. */
  class Sink {
    var received: seq<(string, string)>
    var closes: nat

    method OnRecv(name: string, data: string)
      modifies this
      ensures received == old(received) + [(name, data)] && closes == old(closes)
    {
      received := received + [(name, data)];
    }

    method OnClose()
      modifies this
      ensures received == old(received) && closes == old(closes) + 1
    {
      closes := closes + 1;
    }
  }

  // ----- the reader, one line at a time -----

  /** What the loop of recvVal changes: the event under construction, the client, and the sink. */
  datatype Reader = Reader(current: Event, wait: int, lastId: string, received: seq<(string, string)>)

  function TakeField(r: Reader, f: Field, parse: string -> Option<int>): Reader {
    var out := Finish(r.current, f);
    Reader(AddField(r.current, f), WaitFor(f, parse, r.wait), LastId(out, r.lastId), r.received + Seen(out))
  }

  function TakeLine(r: Reader, line: string, parse: string -> Option<int>): Reader {
    TakeField(r, ReadTrimmed(line), parse)
  }

  /** All the complete lines from a position on. */
  function ReadFrom(r: Reader, body: string, pos: nat, parse: string -> Option<int>): Reader
    requires pos <= |body|
    decreases |body| - pos
  {
    var e := LineEnd(body, pos);
    if e < |body| then ReadFrom(TakeLine(r, Trim(body[pos..e]), parse), body, e + 1, parse) else r
  }

  /** `r'` is `r` after these fields, taken as a batch. */
  ghost predicate Took(r: Reader, fields: seq<Field>, parse: string -> Option<int>, r': Reader) {
    var messages := Feed(r.current, fields);
    && r'.received == r.received + Seen(messages)
    && r'.lastId == LastId(messages, r.lastId)
    && r'.wait == FeedWait(r.wait, fields, parse)
  }

  lemma {:induction false} TookCons(r: Reader, f: Field, rest: seq<Field>, parse: string -> Option<int>, r': Reader)
    requires Took(TakeField(r, f, parse), rest, parse, r')
    ensures Took(r, [f] + rest, parse, r')
  {
    var r1 := TakeField(r, f, parse);
    FeedStep(r.current, r.wait, f, rest, parse);
    SeenConcat(r.received, Finish(r.current, f), Feed(r1.current, rest));
    S.LastIdConcat(Finish(r.current, f), Feed(r1.current, rest), r.lastId);
  }

  /** The reader is the batch: what is left to deliver, and the values the client ends with. */
  lemma {:induction false} ReadFromIsBatch(r: Reader, body: string, pos: nat, parse: string -> Option<int>)
    requires pos <= |body|
    ensures Took(r, Fields(body[pos..]), parse, ReadFrom(r, body, pos, parse))
    decreases |body| - pos
  {
    var e := LineEnd(body, pos);
    FieldsAt(body, pos);
    if e < |body| {
      var f := Read(body[pos..e]);
      ReadFromIsBatch(TakeField(r, f, parse), body, e + 1, parse);
      TookCons(r, f, Fields(body[e + 1..]), parse, ReadFrom(r, body, pos, parse));
    } else {
      SeenConcat(r.received, [], []);
    }
  }

  lemma {:induction false} FeedStep(e: Event, wait: int, f: Field, rest: seq<Field>, parse: string -> Option<int>)
    ensures Feed(e, [f] + rest) == Finish(e, f) + Feed(AddField(e, f), rest)
    ensures FeedWait(wait, [f] + rest, parse) == FeedWait(WaitFor(f, parse, wait), rest, parse)
  {
    assert ([f] + rest)[1..] == rest;
  }

  /** Line by line or in one batch: the same deliveries, the same last id, the same wait. */
  lemma ReaderIsBatch(wait: int, lastId: string, received: seq<(string, string)>, body: string,
                      parse: string -> Option<int>)
    ensures var r := ReadFrom(Reader(NO_EVENT, wait, lastId, received), body, 0, parse);
            && r.received == received + Seen(Delivers(body))
            && r.lastId == LastId(Delivers(body), lastId)
            && r.wait == OrElse(LastRetry(Fields(body), parse), wait)
  {
    ReadFromIsBatch(Reader(NO_EVENT, wait, lastId, received), body, 0, parse);
    assert body[0..] == body;
    FeedDelivers(body);
    FeedWaitIsLast(wait, Fields(body), parse);
  }

  class Client {
    const maxRetries: int
    /** time.ParseDuration */
    const parse: string -> Option<int>
    var retryWait: int
    var lastEventID: string
    /** What the client has done so far: ids sent and waits slept. */
    ghost var requests: seq<string>
    ghost var sleeps: seq<int>

    constructor (retryWait: int, maxRetries: int, parse: string -> Option<int>)
      ensures this.retryWait == retryWait && this.maxRetries == maxRetries && this.parse == parse
      ensures lastEventID == "" && requests == [] && sleeps == []
    {
      this.retryWait, this.maxRetries, this.parse := retryWait, maxRetries, parse;
      lastEventID, requests, sleeps := "", [], [];
    }

    ghost function State(current: Event, sink: Sink): Reader
      reads this, sink
    {
      Reader(current, retryWait, lastEventID, sink.received)
    }

    /** One trimmed line: a blank one ends the event, any other is switched on its prefix. */
    method OnLine(current: Event, line: string, sink: Sink) returns (next: Event)
      modifies this`lastEventID, this`retryWait, sink
      ensures State(next, sink) == TakeLine(old(State(current, sink)), line, parse)
      ensures sink.closes == old(sink.closes)
    {
      next := current;
      if line == "" {
        if current.data.Some? {
          lastEventID := current.id;
          sink.OnRecv(current.name, current.data.value);
        }
        next := NO_EVENT;
      } else if "event:" <= line {
        next := current.(name := Trim(line[6..]));
      } else if "id:" <= line {
        next := current.(id := Trim(line[3..]));
      } else if "data:" <= line {
        var before := if current.data.Some? then current.data.value else "";
        next := current.(data := Some(before + Trim(line[5..]) + "\n"));
      } else if "retry:" <= line {
        var wait := parse(Trim(line[6..]));
        if wait.Some? {
          retryWait := wait.value;
        }
      }
    }

    /** The loop of recvVal over the lines of a response, with the event under construction. */
    method RecvVal(body: string, ending: S.Ending, sink: Sink) returns (err: bool)
      modifies this`lastEventID, this`retryWait, sink
      ensures sink.received == old(sink.received) + Seen(Delivers(body)) && sink.closes == old(sink.closes)
      ensures lastEventID == LastId(Delivers(body), old(lastEventID))
      ensures retryWait == OrElse(LastRetry(Fields(body), parse), old(retryWait))
      ensures err == ending.Broken?
    {
      var pos, current := 0, NO_EVENT;
      ReaderIsBatch(retryWait, lastEventID, sink.received, body, parse);
      ghost var goal := ReadFrom(State(current, sink), body, 0, parse);
      var e := LineEnd(body, 0);
      while e < |body|
        invariant pos <= |body| && e == LineEnd(body, pos)
        invariant ReadFrom(State(current, sink), body, pos, parse) == goal
        invariant sink.closes == old(sink.closes)
        decreases |body| - pos
      {
        current := OnLine(current, Trim(body[pos..e]), sink);
        pos := e + 1;
        e := LineEnd(body, pos);
      }
      err := ending.Broken?;
    }

    ghost function Now(sink: Sink): S.Session
      reads this, sink
    {
      S.Session(retryWait, lastEventID, sink.received, requests, sleeps, sink.closes)
    }

    /** One attempt of Get or Post: the request, and the response if there is a usable one. */
    method Act(attempt: S.Attempt, sink: Sink, ghost outcome: S.Outcome) returns (err: bool)
      requires outcome == S.Observe(parse, attempt)
      modifies this, sink
      ensures Now(sink) == S.Act(old(Now(sink)), outcome) && err == outcome.fails
    {
      requests := requests + [lastEventID];
      match attempt
      case Refused =>
        err := true;
        S.RefusedOutcome(parse);
        SeenConcat(sink.received, [], []);
      case Response(body, ending) =>
        err := RecvVal(body, ending, sink);
    }

    /** handleRetry: sleep and count, or report that the retries are used up. */
    method HandleRetry(retryCount: nat) returns (next: nat, err: bool)
      modifies this`sleeps
      ensures err == (retryCount >= maxRetries)
      ensures !err ==> next == retryCount + 1 && sleeps == old(sleeps) + [B.Wait(retryWait, retryCount)]
      ensures err ==> sleeps == old(sleeps)
    {
      next := retryCount;
      err := retryCount >= maxRetries;
      if !err {
        sleeps := sleeps + [B.Wait(retryWait, retryCount)];
        next := retryCount + 1;
      }
    }

    /** One round of the retry loop: an attempt and, if it fails, a wait or the end. */
    method Round(attempt: S.Attempt, retryCount: nat, sink: Sink, ghost outcome: S.Outcome)
      returns (stop: Option<S.End>, next: nat)
      requires outcome == S.Observe(parse, attempt)
      modifies this, sink
      ensures S.Round(maxRetries, outcome, retryCount, old(Now(sink))) == (stop, Now(sink))
      ensures stop.None? ==> next == retryCount + 2 && retryCount < maxRetries
    {
      next := retryCount;
      var err := Act(attempt, sink, outcome);
      if !err {
        return Some(S.Finished), next;
      }
      var spent: bool;
      next, spent := HandleRetry(retryCount);
      if spent {
        sink.OnClose();
        return Some(S.GaveUp), next;
      }
      return None, next + 1;
    }

    /** The retry loop of Get and Post, over attempts whose outcome is up to the network. */
    method Get(attempts: nat -> S.Attempt, cancelled: nat -> bool, sink: Sink) returns (end: S.End)
      modifies this, sink
      ensures S.Stop(end, Now(sink))
              == S.Connect(maxRetries, S.Outcomes(parse, attempts), cancelled, 0, 0, old(Now(sink)))
    {
      ghost var outcomes := S.Outcomes(parse, attempts);
      ghost var goal := S.Connect(maxRetries, outcomes, cancelled, 0, 0, Now(sink));
      var n: nat, retryCount: nat := 0, 0;
      while !cancelled(n)
        invariant S.Connect(maxRetries, outcomes, cancelled, n, retryCount, Now(sink)) == goal
        decreases maxRetries - retryCount
      {
        S.ConnectStep(maxRetries, outcomes, cancelled, n, retryCount, Now(sink));
        var stop, next := Round(attempts(n), retryCount, sink, outcomes(n));
        if stop.Some? {
          return stop.value;
        }
        retryCount, n := next, n + 1;
      }
      end := S.ContextDone;
    }
  }
}
