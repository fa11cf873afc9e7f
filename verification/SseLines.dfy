/**
 What single lines of a stream do to the client, in the characters of the lines themselves: which
 field each keyword sets, how the data lines of a message add up, and when a retry line takes effect.
 */
module SseLines {
  import opened Handlers
  import opened Seqs
  import opened SseText
  import opened SseEvents
  import opened SseServer
  import S = SseSession
  import B = Backoff
  import I = SseIds

  // ----- white space -----

  /** Tab, line feed, vertical tab, form feed, carriage return, space. */
  predicate White(c: char) {
    9 <= c as int <= 13 || c as int == 32
  }

  /** What is left of a text, and what is taken away from both ends. */
  lemma {:induction false} TrimLeaves(s: string) returns (i: nat, j: nat)
    ensures i <= j <= |s| && Trim(s) == s[i..j]
    ensures forall k :: 0 <= k < i || j <= k < |s| ==> White(s[k])
    ensures i < j ==> !White(s[i]) && !White(s[j - 1])
  {
    if s != "" && Space(s[0]) {
      i, j := TrimLeaves(s[1..]);
      i, j := i + 1, j + 1;
      assert s[1..][i - 1..j - 1] == s[i..j];
      assert forall k :: 1 <= k < |s| ==> s[k] == s[1..][k - 1];
    } else {
      TrimRightShape(s);
      i, j := 0, |TrimRight(s)|;
      assert j > 0 ==> s[j - 1] == TrimRight(s)[j - 1];
    }
  }

  // ----- one line -----

  /** The retry line, beside the event, data and id lines. */
  lemma ReadRetry(wait: string)
    ensures Read("retry: " + wait) == RetryField(Trim(wait))
  {
    TrimAfter("retry: ", wait, 6);
    assert "retry: "[..6] == "retry:";
    var t := Trim("retry: " + wait);
    assert t[0] == 'r';
  }

  /** A comment, or any other line that does not begin like a field, changes nothing. */
  lemma ReadComment(text: string)
    ensures Read(":" + text) == Ignored
  {
    TrimRightKeeps(":", text);
    var t := Trim(":" + text);
    assert t == ":" + TrimRight(text) && t[0] == ':';
  }

  // ----- retry -----

  lemma {:induction false} LastRetryConcat(a: seq<Field>, b: seq<Field>, parse: string -> Option<int>)
    ensures LastRetry(a + b, parse) == if LastRetry(b, parse).Some? then LastRetry(b, parse) else LastRetry(a, parse)
    decreases |b|
  {
    if b == [] {
      assert a + b == a;
    } else {
      var n := |b| - 1;
      assert (a + b)[..|a + b| - 1] == a + b[..n];
      LastRetryConcat(a, b[..n], parse);
    }
  }

  lemma {:induction false} NoRetry(fields: seq<Field>, parse: string -> Option<int>)
    requires forall k :: 0 <= k < |fields| ==> !fields[k].RetryField?
    ensures LastRetry(fields, parse) == None
  {
    if fields != [] {
      NoRetry(fields[..|fields| - 1], parse);
    }
  }

  /** Some text, a retry line, and lines of any other kind. */
  function RetryAfter(front: string, d: string, tail: string): string {
    front + ("retry: " + d + "\n" + tail)
  }

  lemma {:induction false} RetryInBody(front: string, d: string, tail: string, parse: string -> Option<int>)
    requires (front == "" || front[|front| - 1] == '\n') && OneLine(d)
    requires forall k :: 0 <= k < |Fields(tail)| ==> !Fields(tail)[k].RetryField?
    ensures LastRetry(Fields(RetryAfter(front, d, tail)), parse)
            == if parse(Trim(d)).Some? then parse(Trim(d)) else LastRetry(Fields(front), parse)
  {
    var f := RetryField(Trim(d));
    FieldsConcat(front, "retry: " + d + "\n" + tail);
    OneMore("retry: " + d, tail);
    ReadRetry(d);
    LastRetryConcat(Fields(front), [f] + Fields(tail), parse);
    LastRetryConcat([f], Fields(tail), parse);
    NoRetry(Fields(tail), parse);
    assert [f][..0] == [];
  }

  /**
   An attempt that fails after a retry line: with retries left, the next wait is the one the line asks
   for, doubled retryCount times; a value that is no duration leaves the wait as the lines before it do.
   */
  lemma {:induction false} RetryTakesEffect(
    max: int, parse: string -> Option<int>, front: string, d: string, tail: string, retryCount: nat, s: S.Session)
    requires (front == "" || front[|front| - 1] == '\n') && OneLine(d)
    requires forall k :: 0 <= k < |Fields(tail)| ==> !Fields(tail)[k].RetryField?
    requires retryCount < max
    ensures var (end, s') := S.Round(max, S.Observe(parse, S.Response(RetryAfter(front, d, tail), S.Broken)), retryCount, s);
            var before := OrElse(LastRetry(Fields(front), parse), s.wait);
            && end.None?
            && s'.wait == OrElse(parse(Trim(d)), before)
            && s'.sleeps == s.sleeps + [B.Wait(OrElse(parse(Trim(d)), before), retryCount)]
  {
    RetryInBody(front, d, tail, parse);
  }

  /** For example: the stream is a retry line of one second's worth, and then the connection breaks. */
  lemma {:induction false} RetryThenBroken(
    max: int, parse: string -> Option<int>, d: string, w: int, retryCount: nat, s: S.Session)
    requires OneLine(d) && parse(Trim(d)) == Some(w) && retryCount < max
    ensures S.Round(max, S.Observe(parse, S.Response("retry: " + d + "\n", S.Broken)), retryCount, s).1.sleeps
            == s.sleeps + [B.Wait(w, retryCount)]
  {
    RetryTakesEffect(max, parse, "", d, "", retryCount, s);
    Unit("retry: " + d + "\n" + "");
    Unit("retry: " + d + "\n");
  }

  // ----- what the lines of a group add up to -----

  function Values(group: seq<Field>): seq<string> {
    if group == [] then [] else Value(group[0]) + Values(group[1..])
  }

  function Value(f: Field): seq<string> {
    if f.DataField? then [f.data] else []
  }

  function Joined(values: seq<string>): string {
    if values == [] then "" else values[0] + "\n" + Joined(values[1..])
  }

  lemma {:induction false} ValuesConcat(a: seq<Field>, b: seq<Field>)
    ensures Values(a + b) == Values(a) + Values(b)
  {
    if a == [] {
      assert a + b == b;
      Unit(Values(b));
    } else {
      ValuesConcat(a[1..], b);
      assert (a + b)[1..] == a[1..] + b;
      Assoc(Value(a[0]), Values(a[1..]), Values(b));
    }
  }

  lemma {:induction false} JoinedConcat(a: seq<string>, b: seq<string>)
    ensures Joined(a + b) == Joined(a) + Joined(b)
  {
    if a == [] {
      assert a + b == b;
    } else {
      JoinedConcat(a[1..], b);
      assert (a + b)[1..] == a[1..] + b;
      Assoc(a[0] + "\n", Joined(a[1..]), Joined(b));
    }
  }

  lemma JoinedOne(value: string)
    ensures Joined([value]) == value + "\n"
  {
    assert [value][1..] == [];
    Unit(value + "\n");
  }

  /** The data of a group is that of all its data lines, in order, each with a line feed. */
  lemma {:induction false} DataAddsUp(group: seq<Field>)
    ensures DataOf(group) == if Values(group) == [] then None else Some(Joined(Values(group)))
  {
    if group != [] {
      var n := |group| - 1;
      var front, f := group[..n], group[n];
      DataAddsUp(front);
      ValuesConcat(front, [f]);
      assert front + [f] == group;
      assert Values([f]) == if f.DataField? then [f.data] else [] by {
        assert [f][1..] == [];
      }
      if f.DataField? {
        JoinedConcat(Values(front), [f.data]);
        JoinedOne(f.data);
        Assoc(Joined(Values(front)), f.data, "\n");
      } else {
        Unit(Values(front));
      }
    }
  }

  /** The name of a group is that of its last event line, the id that of its last id line. */
  lemma {:induction false} LastOfKind(group: seq<Field>, k: nat)
    requires k < |group|
    ensures group[k].EventField? && (forall j :: k < j < |group| ==> !group[j].EventField?) ==> NameOf(group) == group[k].name
    ensures group[k].IdField? && (forall j :: k < j < |group| ==> !group[j].IdField?) ==> IdOf(group) == group[k].id
  {
    if k < |group| - 1 {
      LastOfKind(group[..|group| - 1], k);
    }
  }

  // ----- whole messages -----

  /** Lines, each with its line feed. */
  function Sent(lines: seq<string>): string {
    if lines == [] then "" else lines[0] + "\n" + Sent(lines[1..])
  }

  lemma {:induction false} SentFields(lines: seq<string>, rest: string)
    requires forall k :: 0 <= k < |lines| ==> OneLine(lines[k])
    ensures Fields(Sent(lines) + rest) == ReadAll(lines) + Fields(rest)
  {
    if lines == [] {
      Unit(rest);
      Unit(Fields(rest));
    } else {
      SentFields(lines[1..], rest);
      OneMore(lines[0], Sent(lines[1..]) + rest);
      Assoc(lines[0] + "\n", Sent(lines[1..]), rest);
      Assoc([Read(lines[0])], ReadAll(lines[1..]), Fields(rest));
      assert ReadAll(lines) == [Read(lines[0])] + ReadAll(lines[1..]);
    }
  }

  /** Lines that are not blank, and then a blank one: one message, if there is data among them. */
  lemma {:induction false} GroupDelivers(lines: seq<string>)
    requires forall k :: 0 <= k < |lines| ==> OneLine(lines[k]) && !Read(lines[k]).Blank?
    ensures var group := ReadAll(lines);
            Delivers(Sent(lines) + "\n")
            == if Values(group) == [] then [] else [Message(NameOf(group), IdOf(group), Joined(Values(group)))]
  {
    var group := ReadAll(lines);
    SentFields(lines, "\n");
    EmptyLine();
    MessagesGroup(group, []);
    Unit(group + [Blank]);
    DataAddsUp(group);
    Unit(Interpret(group));
    assert Messages([]) == [];
  }

  function DataLinesOf(values: seq<string>): (lines: seq<string>)
    ensures |lines| == |values|
    ensures forall k :: 0 <= k < |values| ==> lines[k] == "data: " + values[k]
  {
    seq(|values|, k requires 0 <= k < |values| => "data: " + values[k])
  }

  function Trimmed(values: seq<string>): (trimmed: seq<string>)
    ensures |trimmed| == |values|
    ensures forall k :: 0 <= k < |values| ==> trimmed[k] == Trim(values[k])
  {
    seq(|values|, k requires 0 <= k < |values| => Trim(values[k]))
  }

  lemma {:induction false} ValuesOfData(group: seq<Field>)
    requires forall k :: 0 <= k < |group| ==> group[k].DataField?
    ensures |Values(group)| == |group| && forall k :: 0 <= k < |group| ==> Values(group)[k] == group[k].data
  {
    if group != [] {
      ValuesOfData(group[1..]);
    }
  }

  /** A line after the name and the id. */
  lemma ReadDataLines(values: seq<string>)
    ensures var group := ReadAll(DataLinesOf(values));
            && (forall k :: 0 <= k < |values| ==> group[k] == DataField(Trim(values[k])))
            && Values(group) == Trimmed(values)
  {
    var lines := DataLinesOf(values);
    forall k | 0 <= k < |values|
      ensures ReadAll(lines)[k] == DataField(Trim(values[k]))
    {
      ReadData(values[k]);
    }
    ValuesOfData(ReadAll(lines));
  }

  lemma {:induction false} NoNames(group: seq<Field>)
    requires forall k :: 0 <= k < |group| ==> group[k].DataField?
    ensures NameOf(group) == "" && IdOf(group) == ""
  {
    if group != [] {
      NoNames(group[..|group| - 1]);
    }
  }

  /** Any number of data lines and a blank line: one message, of all their values in order. */
  lemma {:induction false} DataLinesDeliver(values: seq<string>)
    requires values != [] && forall k :: 0 <= k < |values| ==> OneLine(values[k])
    ensures Delivers(Sent(DataLinesOf(values)) + "\n") == [Message("", "", Joined(Trimmed(values)))]
  {
    var lines := DataLinesOf(values);
    OneLineData(values);
    GroupDelivers(lines);
    ReadDataLines(values);
    NoNames(ReadAll(lines));
    assert |Trimmed(values)| > 0;
  }

  /** A name, an id and any number of data lines, in this order: the message has all of them. */
  lemma {:induction false} FullMessage(name: string, id: string, values: seq<string>)
    requires OneLine(name) && OneLine(id) && values != [] && forall k :: 0 <= k < |values| ==> OneLine(values[k])
    ensures Delivers(Sent(["event: " + name, "id: " + id] + DataLinesOf(values)) + "\n")
            == [Message(Trim(name), Trim(id), Joined(Trimmed(values)))]
  {
    ReadEvent(name);
    I.ReadId(id);
    NamedMessage("event: " + name, "id: " + id, Trim(name), Trim(id), values);
  }

  lemma {:induction false} NamedMessage(first: string, second: string, name: string, id: string, values: seq<string>)
    requires OneLine(first) && OneLine(second) && Read(first) == EventField(name) && Read(second) == IdField(id)
    requires values != [] && forall k :: 0 <= k < |values| ==> OneLine(values[k])
    ensures Delivers(Sent([first, second] + DataLinesOf(values)) + "\n") == [Message(name, id, Joined(Trimmed(values)))]
  {
    var lines := DataLinesOf(values);
    ReadDataLines(values);
    OneLineData(values);
    LinesInFront(first, second, EventField(name), IdField(id), lines);
    HeadOfGroup(name, id, ReadAll(lines));
    GroupDelivers([first, second] + lines);
  }

  lemma LinesInFront(first: string, second: string, f: Field, g: Field, lines: seq<string>)
    requires OneLine(first) && OneLine(second) && Read(first) == f && Read(second) == g && !f.Blank? && !g.Blank?
    requires forall k :: 0 <= k < |lines| ==> OneLine(lines[k]) && !ReadAll(lines)[k].Blank?
    ensures ReadAll([first, second] + lines) == [f, g] + ReadAll(lines)
    ensures forall k :: 0 <= k < |lines| + 2 ==>
              OneLine(([first, second] + lines)[k]) && !Read(([first, second] + lines)[k]).Blank?
  {
  }

  lemma OneLineData(values: seq<string>)
    requires forall k :: 0 <= k < |values| ==> OneLine(values[k])
    ensures var lines := DataLinesOf(values);
            forall k :: 0 <= k < |lines| ==> OneLine(lines[k]) && !Read(lines[k]).Blank?
  {
    var lines := DataLinesOf(values);
    forall k | 0 <= k < |lines|
      ensures OneLine(lines[k]) && !Read(lines[k]).Blank?
    {
      ReadData(values[k]);
    }
  }

  lemma {:induction false} HeadOfGroup(name: string, id: string, data: seq<Field>)
    requires forall k :: 0 <= k < |data| ==> data[k].DataField?
    ensures var group := [EventField(name), IdField(id)] + data;
            NameOf(group) == name && IdOf(group) == id && Values(group) == Values(data)
  {
    var head := [EventField(name), IdField(id)];
    LastOfKind(head + data, 0);
    LastOfKind(head + data, 1);
    ValuesConcat(head, data);
    assert head[1..] == [IdField(id)] && head[1..][1..] == [];
    Unit(Values(data));
  }
}
