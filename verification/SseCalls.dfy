/**
 The calls that print frames, one after the other or from several goroutines at once.  Each write
 remembers the call it belongs to, so that what arrives can be compared with what each call meant.
 */
module SseCalls {
  import opened Seqs
  import opened SseText
  import opened SseEvents
  import opened SseServer
  import opened SseNewlines

  datatype Call = OnRecv(event: string, data: string) | EchoSSEID(id: string) | Heartbeat

  /** The writes of one call: an event line only for a named event. */
  function Writes(c: Call): seq<Piece> {
    match c
    case OnRecv(event, data) => if event == "" then [DataFrame(data)] else [EventLine(event), DataFrame(data)]
    case EchoSSEID(id) => [IdFrame(id)]
    case Heartbeat => [Ping]
  }

  /** The bytes of each call. */
  lemma CallBytes(event: string, data: string)
    ensures event != "" ==> Wire(Writes(OnRecv(event, data))) == "event: " + event + "\n" + ("data: " + data + "\n" + "\n")
    ensures Wire(Writes(OnRecv("", data))) == "data: " + data + "\n" + "\n"
    ensures Wire(Writes(EchoSSEID(data))) == "event: " + "sseID" + "\n" + ("data: " + data + "\n" + "\n")
    ensures Wire(Writes(Heartbeat)) == ": ping" + "\n" + "\n"
  {
    WireOne(DataFrame(data));
    WireOne(IdFrame(data));
    WireOne(Ping);
    assert [EventLine(event), DataFrame(data)][1..] == [DataFrame(data)];
  }

  lemma WireOne(p: Piece)
    ensures Wire([p]) == Print(p)
  {
    assert [p][1..] == [];
    Unit(Print(p));
  }

  /** What a call is meant to deliver. */
  function Meaning(c: Call): seq<Message> {
    match c
    case OnRecv(event, data) => [Message(Trim(event), "", Trim(data) + "\n")]
    case EchoSSEID(id) => [Message("sseID", "", Trim(id) + "\n")]
    case Heartbeat => []
  }

  function AllMeanings(calls: seq<Call>): seq<Message> {
    if calls == [] then [] else Meaning(calls[0]) + AllMeanings(calls[1..])
  }

  /** The name of a call has no line feed before its last visible character. */
  ghost predicate CleanName(c: Call) {
    c.OnRecv? ==> OneLine(TrimRight(c.event))
  }

  /** And neither has its payload, or its id. */
  ghost predicate CleanCall(c: Call) {
    && CleanName(c)
    && (c.OnRecv? ==> OneLine(TrimRight(c.data)))
    && (c.EchoSSEID? ==> OneLine(TrimRight(c.id)))
  }

  /** The name of a call is one line, or only white space. */
  ghost predicate WholeName(c: Call) {
    c.OnRecv? ==> OneLine(c.event) || Trim(c.event) == ""
  }

  // ----- writes and their owners -----

  datatype Owned = Owned(piece: Piece, owner: Call)

  function OwnedWrites(c: Call): seq<Owned> {
    seq(|Writes(c)|, k requires 0 <= k < |Writes(c)| => Owned(Writes(c)[k], c))
  }

  /** The writes of calls made one after the other. */
  function AllWrites(calls: seq<Call>): seq<Owned> {
    if calls == [] then [] else OwnedWrites(calls[0]) + AllWrites(calls[1..])
  }

  function Pieces(os: seq<Owned>): (ps: seq<Piece>)
    ensures |ps| == |os|
    ensures forall k :: 0 <= k < |os| ==> ps[k] == os[k].piece
  {
    seq(|os|, k requires 0 <= k < |os| => os[k].piece)
  }

  /** The calls whose frames are among these writes, in the order of the frames. */
  function Frames(os: seq<Owned>): seq<Call> {
    if os == [] then [] else Frame(os[0]) + Frames(os[1..])
  }

  function Frame(o: Owned): seq<Call> {
    if o.piece.DataFrame? || o.piece.IdFrame? then [o.owner] else []
  }

  /** The calls that print a frame at all. */
  function Printing(calls: seq<Call>): seq<Call> {
    if calls == [] then [] else (if calls[0].Heartbeat? then [] else [calls[0]]) + Printing(calls[1..])
  }

  /** Every write is one of its owner's. */
  ghost predicate Faithful(os: seq<Owned>) {
    forall k :: 0 <= k < |os| ==> os[k].piece in Writes(os[k].owner)
  }

  lemma {:induction false} AllWritesFaithful(calls: seq<Call>)
    ensures Faithful(AllWrites(calls))
    ensures forall k :: 0 <= k < |AllWrites(calls)| ==> AllWrites(calls)[k].owner in calls
  {
    if calls != [] {
      AllWritesFaithful(calls[1..]);
      var first := OwnedWrites(calls[0]);
      assert forall k :: 0 <= k < |first| ==> first[k].piece == Writes(calls[0])[k];
    }
  }

  lemma {:induction false} FramesConcat(a: seq<Owned>, b: seq<Owned>)
    ensures Frames(a + b) == Frames(a) + Frames(b)
  {
    if a == [] {
      assert a + b == b;
    } else {
      FramesConcat(a[1..], b);
      assert (a + b)[1..] == a[1..] + b;
      Assoc(Frame(a[0]), Frames(a[1..]), Frames(b));
    }
  }

  lemma OneFrame(o: Owned)
    ensures Frames([o]) == Frame(o)
  {
    assert [o][1..] == [];
    Unit(Frame(o));
  }

  lemma OneCallFrames(c: Call)
    ensures Frames(OwnedWrites(c)) == if c.Heartbeat? then [] else [c]
  {
    var os, last := OwnedWrites(c), Owned(Writes(c)[|Writes(c)| - 1], c);
    OneFrame(last);
    if |Writes(c)| == 1 {
      assert os == [last];
    } else {
      OneFrame(os[0]);
      FramesConcat([os[0]], [last]);
      assert os == [os[0]] + [last];
    }
  }

  lemma {:induction false} AllWritesFrames(calls: seq<Call>)
    ensures Frames(AllWrites(calls)) == Printing(calls)
  {
    if calls != [] {
      AllWritesFrames(calls[1..]);
      FramesConcat(OwnedWrites(calls[0]), AllWrites(calls[1..]));
      OneCallFrames(calls[0]);
    }
  }

  // ----- calls whose writes follow each other -----

  /** What one call delivers when nothing comes between its writes. */
  function Alone(c: Call): seq<Message> {
    match c
    case OnRecv(event, data) => [Message(Pending(event), "", Trim(data) + "\n")]
    case _ => Meaning(c)
  }

  lemma OneCallExpected(c: Call, rest: seq<Piece>)
    ensures Expected(Writes(c) + rest, "") == Alone(c) + Expected(rest, "")
  {
    var all := Writes(c) + rest;
    if c.OnRecv? && c.event != "" {
      assert all[1..] == [DataFrame(c.data)] + rest;
      assert all[1..][1..] == rest;
    } else {
      assert all[1..] == rest;
    }
  }

  lemma AloneAsMeant(c: Call)
    ensures |Alone(c)| == |Meaning(c)| && (Alone(c) == Meaning(c) <==> WholeName(c))
  {
    if c.OnRecv? {
      assert Alone(c)[0].name == Pending(c.event) && Meaning(c)[0].name == Trim(c.event);
    }
  }

  lemma BothEqual<T>(a: seq<T>, b: seq<T>, c: seq<T>, d: seq<T>, x: bool, y: bool)
    requires |a| == |c| && (a == c <==> x) && (b == d <==> y)
    ensures a + b == c + d <==> x && y
  {
    if a + b == c + d {
      assert a == (a + b)[..|a|] && b == (a + b)[|a|..];
      assert c == (c + d)[..|c|] && d == (c + d)[|c|..];
    }
  }

  lemma PiecesOfCalls(calls: seq<Call>)
    requires calls != []
    ensures Pieces(AllWrites(calls)) == Writes(calls[0]) + Pieces(AllWrites(calls[1..]))
  {
  }

  ghost predicate AllWhole(calls: seq<Call>) {
    forall k :: 0 <= k < |calls| ==> WholeName(calls[k])
  }

  ghost predicate AllCleanCalls(calls: seq<Call>) {
    forall k :: 0 <= k < |calls| ==> CleanCall(calls[k])
  }

  lemma CallsCons(calls: seq<Call>)
    requires calls != []
    ensures AllWhole(calls) <==> WholeName(calls[0]) && AllWhole(calls[1..])
    ensures AllCleanCalls(calls) <==> CleanCall(calls[0]) && AllCleanCalls(calls[1..])
  {
    assert calls == [calls[0]] + calls[1..];
  }

  lemma {:induction false} SequentialExpected(calls: seq<Call>)
    ensures Expected(Pieces(AllWrites(calls)), "") == AllMeanings(calls) <==> AllWhole(calls)
  {
    if calls != [] {
      SequentialExpected(calls[1..]);
      var rest := Pieces(AllWrites(calls[1..]));
      OneCallExpected(calls[0], rest);
      PiecesOfCalls(calls);
      AloneAsMeant(calls[0]);
      BothEqual(Alone(calls[0]), Expected(rest, ""), Meaning(calls[0]), AllMeanings(calls[1..]),
                WholeName(calls[0]), AllWhole(calls[1..]));
      CallsCons(calls);
    }
  }

  lemma WritesOfCall(c: Call)
    ensures AllClean(Writes(c)) <==> CleanCall(c)
  {
    var ps := Writes(c);
    var last := ps[|ps| - 1];
    if c.OnRecv? && c.event == "" {
      TrimRightShape(c.event);
    }
    assert |ps| == 2 ==> ps[0] == EventLine(c.event);
    assert CleanCall(c) <==> Clean(last) && (|ps| == 2 ==> Clean(ps[0]));
  }

  lemma {:induction false} WritesClean(calls: seq<Call>)
    ensures AllClean(Pieces(AllWrites(calls))) <==> AllCleanCalls(calls)
  {
    if calls != [] {
      WritesClean(calls[1..]);
      PiecesOfCalls(calls);
      CleanSplit(Writes(calls[0]), Pieces(AllWrites(calls[1..])));
      WritesOfCall(calls[0]);
      CallsCons(calls);
    }
  }

  lemma CleanSplit(a: seq<Piece>, b: seq<Piece>)
    ensures AllClean(a + b) <==> AllClean(a) && AllClean(b)
  {
    assert forall k :: 0 <= k < |a| ==> (a + b)[k] == a[k];
    assert forall k :: 0 <= k < |b| ==> (a + b)[|a| + k] == b[k];
  }

  // ----- what was meant, in characters -----

  /** The characters of a write, and those its call is meant to deliver with it. */
  function Weight(o: Owned, meant: bool): nat {
    if !meant then WriteSize(o.piece, true)
    else if Frame(o) == [] then 0
    else MessagesSize(Meaning(o.owner), true)
  }

  function Weights(os: seq<Owned>, meant: bool): nat {
    if os == [] then 0 else Weight(os[0], meant) + Weights(os[1..], meant)
  }

  lemma {:induction false} WeightsConcat(a: seq<Owned>, b: seq<Owned>, meant: bool)
    ensures Weights(a + b, meant) == Weights(a, meant) + Weights(b, meant)
  {
    if a == [] {
      assert a + b == b;
    } else {
      WeightsConcat(a[1..], b, meant);
      assert (a + b)[1..] == a[1..] + b;
    }
  }

  lemma OneWeight(o: Owned, meant: bool)
    ensures Weights([o], meant) == Weight(o, meant)
  {
    assert [o][1..] == [];
  }

  lemma OneMessageSize(m: Message, names: bool)
    ensures MessagesSize([m], names) == MessageSize(m, names)
  {
    assert [m][1..] == [];
  }

  /** A frame of a call, and the event line before it, have the characters that the call is meant to deliver. */
  lemma MeaningSize(c: Call)
    requires !c.Heartbeat?
    ensures var ps := Writes(c);
            MessagesSize(Meaning(c), true)
            == WriteSize(ps[|ps| - 1], true) + if |ps| == 2 then WriteSize(ps[0], true) else 0
  {
    OneMessageSize(Meaning(c)[0], true);
    if c.OnRecv? && c.event == "" {
      assert Trim(c.event) == "";
    }
  }

  lemma OneCallWeights(c: Call)
    ensures Weights(OwnedWrites(c), false) == Weights(OwnedWrites(c), true)
  {
    var os, ps := OwnedWrites(c), Writes(c);
    var last := Owned(ps[|ps| - 1], c);
    OneWeight(last, false);
    OneWeight(last, true);
    if c.Heartbeat? {
      assert os == [last];
    } else if |ps| == 1 {
      MeaningSize(c);
      assert os == [last];
    } else {
      MeaningSize(c);
      OneWeight(os[0], false);
      OneWeight(os[0], true);
      WeightsConcat([os[0]], [last], false);
      WeightsConcat([os[0]], [last], true);
      assert os == [os[0]] + [last];
    }
  }

  lemma {:induction false} CallsWeights(calls: seq<Call>)
    ensures Weights(AllWrites(calls), false) == Weights(AllWrites(calls), true)
  {
    if calls != [] {
      CallsWeights(calls[1..]);
      OneCallWeights(calls[0]);
      WeightsConcat(OwnedWrites(calls[0]), AllWrites(calls[1..]), false);
      WeightsConcat(OwnedWrites(calls[0]), AllWrites(calls[1..]), true);
    }
  }

  lemma {:induction false} WeightsWritten(os: seq<Owned>)
    ensures Weights(os, false) == WriteSizes(Pieces(os), true)
  {
    if os != [] {
      WeightsWritten(os[1..]);
      assert Pieces(os)[1..] == Pieces(os[1..]);
    }
  }

  lemma {:induction false} WeightsMeant(os: seq<Owned>)
    ensures Weights(os, true) == MessagesSize(AllMeanings(Frames(os)), true)
  {
    if os != [] {
      WeightsMeant(os[1..]);
      if Frame(os[0]) == [] {
        Unit(Frames(os[1..]));
      } else {
        var c := os[0].owner;
        assert Frames(os)[1..] == Frames(os[1..]);
        MessagesSizeConcat(Meaning(c), AllMeanings(Frames(os[1..])), true);
      }
    }
  }

  /** Writes with all the characters that were meant, but not clean, do not deliver what was meant. */
  lemma BrokenCalls(os: seq<Owned>)
    requires Weights(os, false) == Weights(os, true) && !AllClean(Pieces(os))
    ensures Delivers(Wire(Pieces(os))) != AllMeanings(Frames(os))
  {
    WeightsWritten(os);
    WeightsMeant(os);
    BrokenStream(Pieces(os), true);
  }

  // ----- one call after the other -----

  /**
   Round trip: calls made one after the other come back as their messages, and heartbeats as nothing,
   if and only if every name is whole and no payload or id has a line feed before its last visible
   character.
   */
  lemma RoundTrip(calls: seq<Call>)
    ensures Delivers(Wire(Pieces(AllWrites(calls)))) == AllMeanings(calls)
            <==> AllCleanCalls(calls) && AllWhole(calls)
  {
    var os := AllWrites(calls);
    WritesClean(calls);
    if AllCleanCalls(calls) {
      WritesDeliver(Pieces(os));
      SequentialExpected(calls);
    } else {
      CallsWeights(calls);
      AllWritesFrames(calls);
      BrokenCalls(os);
      PrintingMeans(calls);
    }
  }

  lemma {:induction false} PrintingMeans(calls: seq<Call>)
    ensures AllMeanings(Printing(calls)) == AllMeanings(calls)
  {
    if calls != [] {
      PrintingMeans(calls[1..]);
      if calls[0].Heartbeat? {
        Unit(Printing(calls[1..]));
        Unit(AllMeanings(calls[1..]));
      } else {
        assert Printing(calls)[1..] == Printing(calls[1..]);
      }
    }
  }

  // ----- concurrent calls -----

  /** `os` takes the writes of the threads in some order that keeps each thread's own. */
  ghost predicate Interleaves(threads: seq<seq<Owned>>, os: seq<Owned>)
    decreases |os|
  {
    if os == [] then forall t :: 0 <= t < |threads| ==> threads[t] == []
    else exists t :: 0 <= t < |threads| && threads[t] != [] && threads[t][0] == os[0]
                     && Interleaves(threads[t := threads[t][1..]], os[1..])
  }

  function ThreadsOf(calls: seq<seq<Call>>): seq<seq<Owned>> {
    seq(|calls|, t requires 0 <= t < |calls| => AllWrites(calls[t]))
  }

  /** The frames of all the threads. */
  ghost function Bag(threads: seq<seq<Owned>>): multiset<Call> {
    if threads == [] then multiset{} else multiset(Frames(threads[0])) + Bag(threads[1..])
  }

  ghost function AllPrinting(calls: seq<seq<Call>>): multiset<Call> {
    if calls == [] then multiset{} else multiset(Printing(calls[0])) + AllPrinting(calls[1..])
  }

  lemma {:induction false} BagOfThreads(calls: seq<seq<Call>>)
    ensures Bag(ThreadsOf(calls)) == AllPrinting(calls)
  {
    if calls != [] {
      BagOfThreads(calls[1..]);
      AllWritesFrames(calls[0]);
      assert ThreadsOf(calls)[1..] == ThreadsOf(calls[1..]);
    }
  }

  lemma {:induction false} BagStep(threads: seq<seq<Owned>>, t: nat)
    requires t < |threads| && threads[t] != []
    ensures Bag(threads) == multiset(Frame(threads[t][0])) + Bag(threads[t := threads[t][1..]])
  {
    var next := threads[t := threads[t][1..]];
    if t == 0 {
      assert next[1..] == threads[1..];
      var thread := threads[0];
      assert Frames(thread) == Frame(thread[0]) + Frames(thread[1..]);
    } else {
      BagStep(threads[1..], t - 1);
      assert next[1..] == threads[1..][t - 1 := threads[t][1..]];
    }
  }

  lemma {:induction false} EmptyBag(threads: seq<seq<Owned>>)
    requires forall t :: 0 <= t < |threads| ==> threads[t] == []
    ensures Bag(threads) == multiset{}
  {
    if threads != [] {
      EmptyBag(threads[1..]);
    }
  }

  /** An interleaving has exactly the frames of its threads. */
  lemma {:induction false} InterleavingKeepsFrames(threads: seq<seq<Owned>>, os: seq<Owned>)
    requires Interleaves(threads, os)
    ensures multiset(Frames(os)) == Bag(threads)
    decreases |os|
  {
    if os == [] {
      EmptyBag(threads);
    } else {
      var t :| 0 <= t < |threads| && threads[t] != [] && threads[t][0] == os[0]
               && Interleaves(threads[t := threads[t][1..]], os[1..]);
      InterleavingKeepsFrames(threads[t := threads[t][1..]], os[1..]);
      BagStep(threads, t);
    }
  }

  function TotalWeights(threads: seq<seq<Owned>>, meant: bool): nat {
    if threads == [] then 0 else Weights(threads[0], meant) + TotalWeights(threads[1..], meant)
  }

  lemma {:induction false} TotalStep(threads: seq<seq<Owned>>, t: nat, meant: bool)
    requires t < |threads| && threads[t] != []
    ensures TotalWeights(threads, meant)
            == Weight(threads[t][0], meant) + TotalWeights(threads[t := threads[t][1..]], meant)
  {
    var next := threads[t := threads[t][1..]];
    if t == 0 {
      assert next[1..] == threads[1..];
    } else {
      TotalStep(threads[1..], t - 1, meant);
      assert next[1..] == threads[1..][t - 1 := threads[t][1..]];
    }
  }

  lemma {:induction false} EmptyTotal(threads: seq<seq<Owned>>, meant: bool)
    requires forall t :: 0 <= t < |threads| ==> threads[t] == []
    ensures TotalWeights(threads, meant) == 0
  {
    if threads != [] {
      EmptyTotal(threads[1..], meant);
    }
  }

  lemma {:induction false} InterleavingWeights(threads: seq<seq<Owned>>, os: seq<Owned>, meant: bool)
    requires Interleaves(threads, os)
    ensures Weights(os, meant) == TotalWeights(threads, meant)
    decreases |os|
  {
    if os == [] {
      EmptyTotal(threads, meant);
    } else {
      var t :| 0 <= t < |threads| && threads[t] != [] && threads[t][0] == os[0]
               && Interleaves(threads[t := threads[t][1..]], os[1..]);
      InterleavingWeights(threads[t := threads[t][1..]], os[1..], meant);
      TotalStep(threads, t, meant);
    }
  }

  lemma {:induction false} ThreadsWeights(calls: seq<seq<Call>>)
    ensures TotalWeights(ThreadsOf(calls), false) == TotalWeights(ThreadsOf(calls), true)
  {
    if calls != [] {
      ThreadsWeights(calls[1..]);
      CallsWeights(calls[0]);
      assert ThreadsOf(calls)[1..] == ThreadsOf(calls[1..]);
    }
  }

  /** Every write of an interleaving is a write of some thread. */
  lemma {:induction false} InterleavingFrom(threads: seq<seq<Owned>>, os: seq<Owned>, k: nat)
    requires Interleaves(threads, os) && k < |os|
    ensures exists t :: 0 <= t < |threads| && os[k] in threads[t]
    decreases |os|
  {
    var t :| 0 <= t < |threads| && threads[t] != [] && threads[t][0] == os[0]
             && Interleaves(threads[t := threads[t][1..]], os[1..]);
    if k > 0 {
      var next := threads[t := threads[t][1..]];
      InterleavingFrom(next, os[1..], k - 1);
      var u :| 0 <= u < |next| && os[1..][k - 1] in next[u];
      assert os[k] in threads[u];
    }
  }

  /** Every write of an interleaving is one of its owner's, and the owner is one of the calls. */
  lemma {:induction false} InterleavingFaithful(calls: seq<seq<Call>>, os: seq<Owned>)
    requires Interleaves(ThreadsOf(calls), os)
    ensures Faithful(os)
    ensures forall k :: 0 <= k < |os| ==> exists t :: 0 <= t < |calls| && os[k].owner in calls[t]
  {
    var threads := ThreadsOf(calls);
    forall k | 0 <= k < |os|
      ensures os[k].piece in Writes(os[k].owner) && exists t :: 0 <= t < |calls| && os[k].owner in calls[t]
    {
      InterleavingFrom(threads, os, k);
      var t :| 0 <= t < |threads| && os[k] in threads[t];
      AllWritesFaithful(calls[t]);
      var j :| 0 <= j < |threads[t]| && threads[t][j] == os[k];
    }
  }

  /** What a client sees of the payloads of some calls. */
  function Payloads(calls: seq<Call>): seq<string> {
    if calls == [] then [] else Datas(Meaning(calls[0])) + Payloads(calls[1..])
  }

  function Datas(ms: seq<Message>): seq<string> {
    seq(|ms|, k requires 0 <= k < |ms| => ms[k].data)
  }

  lemma DatasConcat(a: seq<Message>, b: seq<Message>)
    ensures Datas(a + b) == Datas(a) + Datas(b)
  {
  }

  /** The message a write completes, under the name that is pending. */
  function Arrives(p: Piece, pending: string): seq<Message> {
    match p
    case DataFrame(data) => [Message(pending, "", Trim(data) + "\n")]
    case IdFrame(id) => [Message("sseID", "", Trim(id) + "\n")]
    case _ => []
  }

  /** The name a write leaves pending. */
  function Leaves(p: Piece): string {
    if p.EventLine? then Pending(p.name) else ""
  }

  lemma ExpectedFirst(p: Piece, ps: seq<Piece>, pending: string)
    ensures Expected([p] + ps, pending) == Arrives(p, pending) + Expected(ps, Leaves(p))
  {
    assert ([p] + ps)[1..] == ps;
    Unit(Expected(ps, Leaves(p)));
  }

  lemma ExpectedStep(os: seq<Owned>, pending: string)
    requires os != []
    ensures Expected(Pieces(os), pending)
            == Arrives(os[0].piece, pending) + Expected(Pieces(os[1..]), Leaves(os[0].piece))
  {
    ExpectedFirst(os[0].piece, Pieces(os[1..]), pending);
    assert Pieces(os) == [os[0].piece] + Pieces(os[1..]);
  }

  /** A frame arrives with the payload of its call, under whatever name. */
  lemma ArrivesWithPayload(o: Owned, pending: string)
    requires o.piece in Writes(o.owner)
    ensures Datas(Arrives(o.piece, pending)) == Payloads(Frame(o))
  {
    if o.piece.DataFrame? || o.piece.IdFrame? {
      assert [o.owner][1..] == [];
      Unit(Datas(Meaning(o.owner)));
    }
  }

  lemma {:induction false} PayloadsConcat(a: seq<Call>, b: seq<Call>)
    ensures Payloads(a + b) == Payloads(a) + Payloads(b)
  {
    if a == [] {
      assert a + b == b;
    } else {
      PayloadsConcat(a[1..], b);
      assert (a + b)[1..] == a[1..] + b;
      Assoc(Datas(Meaning(a[0])), Payloads(a[1..]), Payloads(b));
    }
  }

  lemma {:induction false} ExpectedPayloads(os: seq<Owned>, pending: string)
    requires Faithful(os)
    ensures Datas(Expected(Pieces(os), pending)) == Payloads(Frames(os))
    decreases |os|
  {
    if os != [] {
      var next := Leaves(os[0].piece);
      ExpectedPayloads(os[1..], next);
      ExpectedStep(os, pending);
      ArrivesWithPayload(os[0], pending);
      DatasConcat(Arrives(os[0].piece, pending), Expected(Pieces(os[1..]), next));
      PayloadsConcat(Frame(os[0]), Frames(os[1..]));
    }
  }

  function TextsSize(texts: seq<string>): nat {
    if texts == [] then 0 else |texts[0]| + TextsSize(texts[1..])
  }

  lemma PayloadsCons(c: Call, calls: seq<Call>)
    requires !c.Heartbeat?
    ensures TextsSize(Payloads([c] + calls)) == |Meaning(c)[0].data| + TextsSize(Payloads(calls))
  {
    assert ([c] + calls)[1..] == calls;
    assert Datas(Meaning(c)) == [Meaning(c)[0].data];
    var rest := Payloads(calls);
    assert ([Meaning(c)[0].data] + rest)[1..] == rest;
  }

  lemma {:induction false} PayloadsSize(os: seq<Owned>)
    requires Faithful(os)
    ensures TextsSize(Payloads(Frames(os))) == WriteSizes(Pieces(os), false)
  {
    if os != [] {
      PayloadsSize(os[1..]);
      assert Pieces(os)[1..] == Pieces(os[1..]);
      assert os[0].piece in Writes(os[0].owner);
      if Frame(os[0]) == [] {
        Unit(Frames(os[1..]));
      } else {
        PayloadsCons(os[0].owner, Frames(os[1..]));
      }
    }
  }

  lemma {:induction false} DatasSize(ms: seq<Message>)
    ensures TextsSize(Datas(ms)) == MessagesSize(ms, false)
  {
    if ms != [] {
      DatasSize(ms[1..]);
      assert Datas(ms)[1..] == Datas(ms[1..]);
    }
  }

  ghost predicate AllCleanNames(calls: seq<seq<Call>>) {
    forall t, k :: 0 <= t < |calls| && 0 <= k < |calls[t]| ==> CleanName(calls[t][k])
  }

  lemma NameOfOwner(calls: seq<seq<Call>>, o: Owned, t: nat)
    requires AllCleanNames(calls) && t < |calls| && o.owner in calls[t]
    requires o.piece in Writes(o.owner) && o.piece.EventLine?
    ensures Clean(o.piece)
  {
    var j :| 0 <= j < |calls[t]| && calls[t][j] == o.owner;
    assert CleanName(calls[t][j]);
  }

  lemma NamesOfCalls(calls: seq<seq<Call>>, os: seq<Owned>)
    requires Interleaves(ThreadsOf(calls), os) && AllCleanNames(calls)
    ensures CleanNames(Pieces(os))
  {
    InterleavingFaithful(calls, os);
    forall k | 0 <= k < |os| && os[k].piece.EventLine?
      ensures Clean(os[k].piece)
    {
      var t :| 0 <= t < |calls| && os[k].owner in calls[t];
      NameOfOwner(calls, os[k], t);
    }
  }

  /**
   Several goroutines call OnRecv, EchoSSEID and the heartbeat, and their writes interleave in any way.
   The frames are those of exactly the calls made, each as often as it was made; and, if the names are
   clean, the client gets the payloads of these calls in the order in which the frames were written if
   and only if no payload and no id has a line feed before its last visible character.
   */
  lemma ConcurrentCalls(calls: seq<seq<Call>>, os: seq<Owned>)
    requires Interleaves(ThreadsOf(calls), os)
    ensures multiset(Frames(os)) == AllPrinting(calls)
    ensures AllCleanNames(calls)
            ==> (Datas(Delivers(Wire(Pieces(os)))) == Payloads(Frames(os)) <==> AllClean(Pieces(os)))
  {
    InterleavingKeepsFrames(ThreadsOf(calls), os);
    BagOfThreads(calls);
    InterleavingFaithful(calls, os);
    if AllCleanNames(calls) {
      NamesOfCalls(calls, os);
      if AllClean(Pieces(os)) {
        WritesDeliver(Pieces(os));
        ExpectedPayloads(os, "");
      } else {
        BrokenStream(Pieces(os), false);
        DatasSize(Delivers(Wire(Pieces(os))));
        PayloadsSize(os);
      }
    }
  }

  // ----- which name a payload gets -----

  /** The name pending before the k-th write: that of the write just before, if it is an event line. */
  function NameBefore(os: seq<Owned>, k: nat): string
    requires k <= |os|
  {
    if k == 0 then "" else Leaves(os[k - 1].piece)
  }

  /** The k-th write, if it completes an event, finds its call's own name pending. */
  ghost predicate NameKept(os: seq<Owned>, k: nat)
    requires Faithful(os) && k < |os|
  {
    os[k].piece.DataFrame? ==> NameBefore(os, k) == Trim(os[k].owner.event)
  }

  lemma {:induction false} MeaningsConcat(a: seq<Call>, b: seq<Call>)
    ensures AllMeanings(a + b) == AllMeanings(a) + AllMeanings(b)
  {
    if a == [] {
      assert a + b == b;
    } else {
      MeaningsConcat(a[1..], b);
      assert (a + b)[1..] == a[1..] + b;
      Assoc(Meaning(a[0]), AllMeanings(a[1..]), AllMeanings(b));
    }
  }

  lemma OneMeaning(c: Call)
    ensures AllMeanings([c]) == Meaning(c)
  {
    assert [c][1..] == [];
  }

  /** The k-th write arrives as its call meant it exactly when that name is pending. */
  lemma ArrivesAsMeant(os: seq<Owned>, k: nat)
    requires Faithful(os) && k < |os|
    ensures |Arrives(os[k].piece, NameBefore(os, k))| == |AllMeanings(Frame(os[k]))|
    ensures Arrives(os[k].piece, NameBefore(os, k)) == AllMeanings(Frame(os[k])) <==> NameKept(os, k)
  {
    var c := os[k].owner;
    assert os[k].piece in Writes(c);
    OneMeaning(c);
    if os[k].piece.DataFrame? {
      assert Meaning(c)[0].name == Trim(c.event);
    }
  }

  lemma NamesStep(os: seq<Owned>, k: nat)
    requires Faithful(os) && k < |os|
    ensures Expected(Pieces(os[k..]), NameBefore(os, k))
            == Arrives(os[k].piece, NameBefore(os, k)) + Expected(Pieces(os[k + 1..]), NameBefore(os, k + 1))
    ensures AllMeanings(Frames(os[k..])) == AllMeanings(Frame(os[k])) + AllMeanings(Frames(os[k + 1..]))
  {
    assert os[k..][1..] == os[k + 1..];
    ExpectedStep(os[k..], NameBefore(os, k));
    MeaningsConcat(Frame(os[k]), Frames(os[k + 1..]));
  }

  lemma {:induction false} NamesFrom(os: seq<Owned>, k: nat)
    requires Faithful(os) && k <= |os|
    ensures Expected(Pieces(os[k..]), NameBefore(os, k)) == AllMeanings(Frames(os[k..]))
            <==> forall j :: k <= j < |os| ==> NameKept(os, j)
    decreases |os| - k
  {
    if k < |os| {
      NamesFrom(os, k + 1);
      NamesStep(os, k);
      ArrivesAsMeant(os, k);
      var mine, others := NameKept(os, k), forall j :: k + 1 <= j < |os| ==> NameKept(os, j);
      BothEqual(Arrives(os[k].piece, NameBefore(os, k)), Expected(Pieces(os[k + 1..]), NameBefore(os, k + 1)),
                AllMeanings(Frame(os[k])), AllMeanings(Frames(os[k + 1..])), mine, others);
      assert (forall j :: k <= j < |os| ==> NameKept(os, j)) <==> mine && others;
    }
  }

  /**
   Exactly when concurrent calls arrive as they were meant, whatever they are given and however their
   writes interleave: if and only if no name, payload or id has a line feed before its last visible
   character, and the write just before each payload leaves the name of the payload's own call pending.
   */
  lemma CallsArrive(calls: seq<seq<Call>>, os: seq<Owned>)
    requires Interleaves(ThreadsOf(calls), os)
    ensures Faithful(os)
    ensures Delivers(Wire(Pieces(os))) == AllMeanings(Frames(os))
            <==> AllClean(Pieces(os)) && forall k :: 0 <= k < |os| ==> NameKept(os, k)
  {
    InterleavingFaithful(calls, os);
    if AllClean(Pieces(os)) {
      WritesDeliver(Pieces(os));
      NamesFrom(os, 0);
      assert os[0..] == os;
    } else {
      InterleavingWeights(ThreadsOf(calls), os, false);
      InterleavingWeights(ThreadsOf(calls), os, true);
      ThreadsWeights(calls);
      BrokenCalls(os);
    }
  }

  // ----- names that are lost or mixed up -----

  lemma TakeFrom(threads: seq<seq<Owned>>, t: nat, o: Owned, next: seq<seq<Owned>>, os: seq<Owned>)
    requires t < |threads| && threads[t] != [] && threads[t][0] == o
    requires next == threads[t := threads[t][1..]] && Interleaves(next, os)
    ensures Interleaves(threads, [o] + os)
  {
    assert ([o] + os)[1..] == os;
  }

  /** The two writes of a named event. */
  function Named(event: string, data: string): seq<Owned> {
    var c := OnRecv(event, data);
    [Owned(EventLine(event), c), Owned(DataFrame(data), c)]
  }

  lemma NamedWrites(event: string, data: string)
    requires event != ""
    ensures AllWrites([OnRecv(event, data)]) == Named(event, data)
  {
    assert OwnedWrites(OnRecv(event, data)) == Named(event, data);
    assert AllWrites([OnRecv(event, data)][1..]) == [];
  }

  /** Four writes of two threads, the second one's in the middle of the first one's. */
  lemma {:induction false} Inside(a: seq<Owned>, b: seq<Owned>)
    requires |a| == 2 && 1 <= |b| <= 2
    ensures |b| == 1 ==> Interleaves([a, b], [a[0], b[0], a[1]])
    ensures |b| == 2 ==> Interleaves([a, b], [a[0], b[0], a[1], b[1]])
  {
    var none: seq<seq<Owned>> := [[], []];
    assert Interleaves(none, []);
    assert a[1..] == [a[1]] && [a[1]][1..] == [];
    if |b| == 1 {
      assert b[1..] == [];
      TakeFrom([[a[1]], []], 0, a[1], none, []);
      TakeFrom([[a[1]], b], 1, b[0], [[a[1]], []], [a[1]]);
      TakeFrom([a, b], 0, a[0], [[a[1]], b], [b[0], a[1]]);
    } else {
      assert b[1..] == [b[1]] && [b[1]][1..] == [];
      TakeFrom([[], [b[1]]], 1, b[1], none, []);
      TakeFrom([[a[1]], [b[1]]], 0, a[1], [[], [b[1]]], [b[1]]);
      TakeFrom([[a[1]], b], 1, b[0], [[a[1]], [b[1]]], [a[1], b[1]]);
      TakeFrom([a, b], 0, a[0], [[a[1]], b], [b[0], a[1], b[1]]);
    }
  }

  lemma TwoThreads(a: seq<Call>, b: seq<Call>)
    ensures ThreadsOf([a, b]) == [AllWrites(a), AllWrites(b)]
  {
  }

  /** A heartbeat between the two writes of a call loses the event's name. */
  lemma HeartbeatLosesName(event: string, data: string)
    requires OneLine(event) && event != "" && OneLine(TrimRight(data))
    ensures var es := Named(event, data);
            var os := [es[0], Owned(Ping, Heartbeat), es[1]];
            && Interleaves(ThreadsOf([[OnRecv(event, data)], [Heartbeat]]), os)
            && Delivers(Wire(Pieces(os))) == [Message("", "", Trim(data) + "\n")]
  {
    var es, beat := Named(event, data), [Owned(Ping, Heartbeat)];
    NamedWrites(event, data);
    OneHeartbeat();
    TwoThreads([OnRecv(event, data)], [Heartbeat]);
    Inside(es, beat);
    var os := [es[0], beat[0], es[1]];
    assert Pieces(os) == [EventLine(event), Ping, DataFrame(data)];
    BeatBetween(event, data);
  }

  lemma OneHeartbeat()
    ensures AllWrites([Heartbeat]) == [Owned(Ping, Heartbeat)]
  {
    assert OwnedWrites(Heartbeat) == [Owned(Ping, Heartbeat)];
    assert AllWrites([Heartbeat][1..]) == [];
  }

  lemma OneLineIsClean(text: string)
    requires OneLine(text)
    ensures OneLine(TrimRight(text)) && Pending(text) == Trim(text)
  {
    TrimRightShape(text);
  }

  lemma AfterName(name: string, ps: seq<Piece>, pending: string)
    requires OneLine(name)
    ensures Expected([EventLine(name)] + ps, pending) == Expected(ps, Trim(name))
  {
    assert ([EventLine(name)] + ps)[1..] == ps;
  }

  lemma AfterPing(ps: seq<Piece>, pending: string)
    ensures Expected([Ping] + ps, pending) == Expected(ps, "")
  {
    assert ([Ping] + ps)[1..] == ps;
  }

  lemma LastData(data: string, pending: string)
    ensures Expected([DataFrame(data)], pending) == [Message(pending, "", Trim(data) + "\n")]
  {
    assert [DataFrame(data)][1..] == [];
  }

  lemma TwoData(x: string, y: string, pending: string)
    ensures Expected([DataFrame(x), DataFrame(y)], pending)
            == [Message(pending, "", Trim(x) + "\n"), Message("", "", Trim(y) + "\n")]
  {
    assert [DataFrame(x), DataFrame(y)][1..] == [DataFrame(y)];
    LastData(y, "");
  }

  lemma BeatExpected(event: string, data: string)
    requires OneLine(event)
    ensures Expected([EventLine(event), Ping, DataFrame(data)], "") == [Message("", "", Trim(data) + "\n")]
  {
    var two := [Ping, DataFrame(data)];
    assert [EventLine(event), Ping, DataFrame(data)] == [EventLine(event)] + two;
    assert two == [Ping] + [DataFrame(data)];
    AfterName(event, two, "");
    AfterPing([DataFrame(data)], Trim(event));
    LastData(data, "");
  }

  lemma CleanPing()
    ensures Clean(Ping)
  {
    OneLineIsClean("");
  }

  lemma BeatBetween(event: string, data: string)
    requires OneLine(event) && OneLine(TrimRight(data))
    ensures Delivers(Wire([EventLine(event), Ping, DataFrame(data)])) == [Message("", "", Trim(data) + "\n")]
  {
    OneLineIsClean(event);
    CleanPing();
    WritesDeliver([EventLine(event), Ping, DataFrame(data)]);
    BeatExpected(event, data);
  }

  /** Two concurrent calls: the first payload arrives under the second name, the second under none. */
  lemma ConcurrentNamesMix(a: string, x: string, b: string, y: string)
    requires OneLine(a) && OneLine(b) && a != "" && b != "" && OneLine(TrimRight(x)) && OneLine(TrimRight(y))
    ensures var os := [Named(a, x)[0], Named(b, y)[0], Named(a, x)[1], Named(b, y)[1]];
            && Interleaves(ThreadsOf([[OnRecv(a, x)], [OnRecv(b, y)]]), os)
            && Delivers(Wire(Pieces(os))) == [Message(Trim(b), "", Trim(x) + "\n"), Message("", "", Trim(y) + "\n")]
  {
    NamedWrites(a, x);
    NamedWrites(b, y);
    TwoThreads([OnRecv(a, x)], [OnRecv(b, y)]);
    Inside(Named(a, x), Named(b, y));
    var os := [Named(a, x)[0], Named(b, y)[0], Named(a, x)[1], Named(b, y)[1]];
    assert Pieces(os) == [EventLine(a), EventLine(b), DataFrame(x), DataFrame(y)];
    NamesThenPayloads(a, x, b, y);
  }

  lemma NamesExpected(a: string, x: string, b: string, y: string)
    requires OneLine(a) && OneLine(b)
    ensures Expected([EventLine(a), EventLine(b), DataFrame(x), DataFrame(y)], "")
            == [Message(Trim(b), "", Trim(x) + "\n"), Message("", "", Trim(y) + "\n")]
  {
    var three, two := [EventLine(b), DataFrame(x), DataFrame(y)], [DataFrame(x), DataFrame(y)];
    assert [EventLine(a), EventLine(b), DataFrame(x), DataFrame(y)] == [EventLine(a)] + three;
    assert three == [EventLine(b)] + two;
    AfterName(a, three, "");
    AfterName(b, two, Trim(a));
    TwoData(x, y, Trim(b));
  }

  lemma NamesThenPayloads(a: string, x: string, b: string, y: string)
    requires OneLine(a) && OneLine(b) && OneLine(TrimRight(x)) && OneLine(TrimRight(y))
    ensures Delivers(Wire([EventLine(a), EventLine(b), DataFrame(x), DataFrame(y)]))
            == [Message(Trim(b), "", Trim(x) + "\n"), Message("", "", Trim(y) + "\n")]
  {
    OneLineIsClean(a);
    OneLineIsClean(b);
    WritesDeliver([EventLine(a), EventLine(b), DataFrame(x), DataFrame(y)]);
    NamesExpected(a, x, b, y);
  }
}
