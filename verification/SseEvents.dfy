/**
 What a byte stream means to the client, as a batch: cut it into lines, trim them, group them at the
 blank ones, and read each group that has data as one message.
 */
module SseEvents {
  import opened Handlers
  import opened Seqs
  import opened SseText

  datatype Field =
    | Blank
    | EventField(name: string)
    | IdField(id: string)
    | DataField(data: string)
    | RetryField(wait: string)
    | Ignored

  /** A trimmed line: the prefix decides, and the value is trimmed again. */
  function ReadTrimmed(t: string): Field {
    if t == "" then Blank
    else if "event:" <= t then EventField(Trim(t[6..]))
    else if "id:" <= t then IdField(Trim(t[3..]))
    else if "data:" <= t then DataField(Trim(t[5..]))
    else if "retry:" <= t then RetryField(Trim(t[6..]))
    else Ignored
  }

  function Read(line: string): Field {
    ReadTrimmed(Trim(line))
  }

  function ReadAll(lines: seq<string>): (fields: seq<Field>)
    ensures |fields| == |lines|
    ensures forall k :: 0 <= k < |lines| ==> fields[k] == Read(lines[k])
  {
    seq(|lines|, k requires 0 <= k < |lines| => Read(lines[k]))
  }

  function Fields(body: string): seq<Field> {
    ReadAll(Lines(body))
  }

  datatype Message = Message(name: string, id: string, data: string)

  // ----- one group of fields -----

  /** The last event name of a group, or none. */
  function NameOf(group: seq<Field>): string {
    if group == [] then ""
    else
      var f := group[|group| - 1];
      if f.EventField? then f.name else NameOf(group[..|group| - 1])
  }

  function IdOf(group: seq<Field>): string {
    if group == [] then ""
    else
      var f := group[|group| - 1];
      if f.IdField? then f.id else IdOf(group[..|group| - 1])
  }

  /** All the data lines of a group, each with a line feed; None if there is no data line. */
  function DataOf(group: seq<Field>): Option<string> {
    if group == [] then None
    else
      var f, before := group[|group| - 1], DataOf(group[..|group| - 1]);
      if f.DataField? then Some((if before.Some? then before.value else "") + f.data + "\n") else before
  }

  function Interpret(group: seq<Field>): seq<Message> {
    var data := DataOf(group);
    if data.Some? then [Message(NameOf(group), IdOf(group), data.value)] else []
  }

  // ----- the groups of a stream -----

  function BlankAt(fields: seq<Field>): (b: nat)
    ensures b <= |fields|
  {
    if fields == [] || fields[0].Blank? then 0 else 1 + BlankAt(fields[1..])
  }

  /** The messages of the groups that are ended by a blank line. */
  function Messages(fields: seq<Field>): seq<Message>
    decreases |fields|
  {
    var b := BlankAt(fields);
    if b < |fields| then Interpret(fields[..b]) + Messages(fields[b + 1..]) else []
  }

  /** What a stream delivers. */
  function Delivers(body: string): seq<Message> {
    Messages(Fields(body))
  }

  /** What a sink is given of some messages: the id stays with the client. */
  function Seen(messages: seq<Message>): seq<(string, string)> {
    seq(|messages|, k requires 0 <= k < |messages| => (messages[k].name, messages[k].data))
  }

  lemma SeenConcat(a: seq<(string, string)>, b: seq<Message>, c: seq<Message>)
    ensures (a + Seen(b)) + Seen(c) == a + Seen(b + c)
    ensures a + Seen([]) == a
  {
  }

  /** The id of the last message, even when it is empty. */
  function LastId(messages: seq<Message>, before: string): string {
    if messages == [] then before else messages[|messages| - 1].id
  }

  /** The value of the last retry line that parses as a duration. */
  function LastRetry(fields: seq<Field>, parse: string -> Option<int>): Option<int> {
    if fields == [] then None
    else
      var f := fields[|fields| - 1];
      if f.RetryField? && parse(f.wait).Some? then parse(f.wait) else LastRetry(fields[..|fields| - 1], parse)
  }

  function OrElse(found: Option<int>, before: int): int {
    if found.Some? then found.value else before
  }

  // ----- laws -----

  lemma {:induction false} BlankAtMeans(fields: seq<Field>)
    ensures BlankAt(fields) < |fields| ==> fields[BlankAt(fields)].Blank?
    ensures forall k :: 0 <= k < BlankAt(fields) ==> !fields[k].Blank?
  {
    if fields != [] && !fields[0].Blank? {
      BlankAtMeans(fields[1..]);
      assert forall k :: 0 < k < |fields| ==> fields[k] == fields[1..][k - 1];
    }
  }

  lemma {:induction false} BlankAtIs(fields: seq<Field>, n: nat)
    requires n <= |fields| && (n < |fields| ==> fields[n].Blank?)
    requires forall k :: 0 <= k < n ==> !fields[k].Blank?
    ensures BlankAt(fields) == n
  {
    if n > 0 {
      BlankAtIs(fields[1..], n - 1);
    }
  }

  /** The first blank line ends the first group. */
  lemma MessagesSplit(fields: seq<Field>, n: nat)
    requires n < |fields| && fields[n].Blank?
    requires forall k :: 0 <= k < n ==> !fields[k].Blank?
    ensures Messages(fields) == Interpret(fields[..n]) + Messages(fields[n + 1..])
  {
    BlankAtIs(fields, n);
  }

  lemma MessagesGroup(group: seq<Field>, rest: seq<Field>)
    requires forall k :: 0 <= k < |group| ==> !group[k].Blank?
    ensures Messages(group + [Blank] + rest) == Interpret(group) + Messages(rest)
  {
    var fields := group + [Blank] + rest;
    MessagesSplit(fields, |group|);
    assert fields[..|group|] == group && fields[|group| + 1..] == rest;
  }

  /** Parsing distributes over concatenation where the first part ends with a blank line. */
  lemma {:induction false} MessagesConcat(a: seq<Field>, b: seq<Field>)
    requires a == [] || a[|a| - 1].Blank?
    ensures Messages(a + b) == Messages(a) + Messages(b)
    decreases |a|
  {
    if a == [] {
      assert a + b == b;
    } else {
      var n := BlankAt(a);
      BlankAtMeans(a);
      MessagesSplit(a + b, n);
      assert (a + b)[..n] == a[..n] && (a + b)[n + 1..] == a[n + 1..] + b;
      MessagesConcat(a[n + 1..], b);
      Assoc(Interpret(a[..n]), Messages(a[n + 1..]), Messages(b));
    }
  }

  /** A prefix of the lines gives a prefix of the messages. */
  lemma {:induction false} MessagesPrefix(a: seq<Field>, b: seq<Field>)
    requires a <= b
    ensures Messages(a) <= Messages(b)
    decreases |a|
  {
    var n := BlankAt(a);
    BlankAtMeans(a);
    if n < |a| {
      MessagesSplit(b, n);
      assert b[..n] == a[..n];
      MessagesPrefix(a[n + 1..], b[n + 1..]);
    }
  }

  /** The fields from position pos on: the line up to the next line feed, and the rest. */
  lemma FieldsAt(body: string, pos: nat)
    requires pos <= |body|
    ensures var e := LineEnd(body, pos);
            Fields(body[pos..]) == if e < |body| then [Read(body[pos..e])] + Fields(body[e + 1..]) else []
  {
    LinesAt(body, pos);
  }

  lemma FieldsConcat(a: string, b: string)
    requires a == "" || a[|a| - 1] == '\n'
    ensures Fields(a + b) == Fields(a) + Fields(b)
  {
    LinesConcat(a, b);
  }

  /** A frame boundary: nothing yet, or text whose last line is complete and blank. */
  ghost predicate AtBoundary(a: string) {
    a == "" || (a[|a| - 1] == '\n' && Fields(a) != [] && Fields(a)[|Fields(a)| - 1].Blank?)
  }

  /** Parsing distributes over concatenation at frame boundaries. */
  lemma DeliversConcat(a: string, b: string)
    requires AtBoundary(a)
    ensures Delivers(a + b) == Delivers(a) + Delivers(b)
  {
    FieldsConcat(a, b);
    MessagesConcat(Fields(a), Fields(b));
  }

  /** Wherever a stream is cut, what was delivered by then is a prefix of what it delivers in all. */
  lemma CutDeliversPrefix(body: string, k: nat)
    requires k <= |body|
    ensures Delivers(body[..k]) <= Delivers(body)
  {
    LinesPrefix(body, k);
    var lines, cut := Lines(body), Lines(body[..k]);
    assert Fields(body[..k]) <= Fields(body) by {
      assert forall j :: 0 <= j < |cut| ==> cut[j] == lines[j];
    }
    MessagesPrefix(Fields(body[..k]), Fields(body));
  }

  // ----- one field at a time -----

  /** The event under construction. */
  datatype Event = Event(name: string, id: string, data: Option<string>)

  const NO_EVENT := Event("", "", None)

  function EventOf(group: seq<Field>): Event {
    Event(NameOf(group), IdOf(group), DataOf(group))
  }

  /** The event after one more field; a blank line starts a new one. */
  function AddField(e: Event, f: Field): Event {
    match f
    case Blank => NO_EVENT
    case EventField(name) => e.(name := name)
    case IdField(id) => e.(id := id)
    case DataField(data) => e.(data := Some((if e.data.Some? then e.data.value else "") + data + "\n"))
    case _ => e
  }

  /** What one more field delivers: a blank line delivers the event if it has data. */
  function Finish(e: Event, f: Field): seq<Message> {
    if f.Blank? && e.data.Some? then [Message(e.name, e.id, e.data.value)] else []
  }

  /** What a reader that works line by line delivers. */
  function Feed(e: Event, fields: seq<Field>): seq<Message>
    decreases |fields|
  {
    if fields == [] then []
    else Finish(e, fields[0]) + Feed(AddField(e, fields[0]), fields[1..])
  }

  /** What a field does to the reconnection wait: a retry value that does not parse is skipped. */
  function WaitFor(f: Field, parse: string -> Option<int>, wait: int): int {
    if f.RetryField? then OrElse(parse(f.wait), wait) else wait
  }

  function FeedWait(wait: int, fields: seq<Field>, parse: string -> Option<int>): int
    decreases |fields|
  {
    if fields == [] then wait
    else FeedWait(WaitFor(fields[0], parse, wait), fields[1..], parse)
  }

  lemma EventOfAdded(group: seq<Field>, f: Field)
    requires !f.Blank?
    ensures EventOf(group + [f]) == AddField(EventOf(group), f)
  {
    var all := group + [f];
    assert all[..|all| - 1] == group;
  }

  lemma {:induction false} FeedIsBatch(group: seq<Field>, fields: seq<Field>)
    requires forall k :: 0 <= k < |group| ==> !group[k].Blank?
    ensures Feed(EventOf(group), fields) == Messages(group + fields)
    decreases |fields|
  {
    if fields == [] {
      BlankAtIs(group + fields, |group|);
    } else if fields[0].Blank? {
      MessagesGroup(group, fields[1..]);
      FeedIsBatch([], fields[1..]);
      FirstField(group, fields);
    } else {
      EventOfAdded(group, fields[0]);
      FeedIsBatch(group + [fields[0]], fields[1..]);
      FirstField(group, fields);
      var rest := Feed(AddField(EventOf(group), fields[0]), fields[1..]);
      assert [] + rest == rest;
    }
  }

  lemma FirstField(group: seq<Field>, fields: seq<Field>)
    requires fields != []
    ensures group + fields == group + [fields[0]] + fields[1..]
    ensures [] + fields[1..] == fields[1..]
  {
  }

  /** Line by line or in one batch: the same messages. */
  lemma FeedDelivers(body: string)
    ensures Feed(NO_EVENT, Fields(body)) == Delivers(body)
  {
    FeedIsBatch([], Fields(body));
    assert [] + Fields(body) == Fields(body);
  }

  lemma {:induction false} FeedWaitIsLast(wait: int, fields: seq<Field>, parse: string -> Option<int>)
    ensures FeedWait(wait, fields, parse) == OrElse(LastRetry(fields, parse), wait)
    decreases |fields|
  {
    if fields != [] {
      var f := fields[0];
      FeedWaitIsLast(WaitFor(f, parse, wait), fields[1..], parse);
      LastRetryCons(f, fields[1..], parse);
      assert [f] + fields[1..] == fields;
    }
  }

  lemma {:induction false} LastRetryCons(f: Field, fields: seq<Field>, parse: string -> Option<int>)
    ensures LastRetry([f] + fields, parse)
            == if LastRetry(fields, parse).Some? then LastRetry(fields, parse)
               else if f.RetryField? then parse(f.wait) else None
    decreases |fields|
  {
    var all := [f] + fields;
    if fields == [] {
      assert all[..|all| - 1] == [];
    } else {
      assert all[..|all| - 1] == [f] + fields[..|fields| - 1];
      LastRetryCons(f, fields[..|fields| - 1], parse);
    }
  }
}
