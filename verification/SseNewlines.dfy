/**
 Exactly which names and payloads survive the wire.  The server prints what it is given as it is; a
 line feed inside it ends the line early, and from then on the client loses characters: no line of a
 text, after the first, carries as much as it shows.
 */
module SseNewlines {
  import opened Seqs
  import opened SseText
  import opened SseEvents
  import opened SseServer

  // ----- counting the characters that arrive -----

  /** The characters that count: those of data lines and, if asked for, those of names. */
  function SizeOf(f: Field, names: bool): nat {
    match f
    case DataField(data) => |data| + 1
    case EventField(name) => if names then |name| else 0
    case _ => 0
  }

  /** How many characters some lines can contribute to messages. */
  function FieldsSize(fields: seq<Field>, names: bool): nat {
    if fields == [] then 0 else SizeOf(fields[0], names) + FieldsSize(fields[1..], names)
  }

  function MessageSize(m: Message, names: bool): nat {
    |m.data| + if names then |m.name| else 0
  }

  function MessagesSize(ms: seq<Message>, names: bool): nat {
    if ms == [] then 0 else MessageSize(ms[0], names) + MessagesSize(ms[1..], names)
  }

  lemma {:induction false} FieldsSizeConcat(a: seq<Field>, b: seq<Field>, names: bool)
    ensures FieldsSize(a + b, names) == FieldsSize(a, names) + FieldsSize(b, names)
  {
    if a == [] {
      assert a + b == b;
    } else {
      FieldsSizeConcat(a[1..], b, names);
      assert (a + b)[1..] == a[1..] + b;
    }
  }

  lemma OneFieldSize(f: Field, names: bool)
    ensures FieldsSize([f], names) == SizeOf(f, names)
  {
    assert [f][1..] == [];
  }

  lemma FieldsSizeCons(f: Field, fields: seq<Field>, names: bool)
    ensures FieldsSize([f] + fields, names) == SizeOf(f, names) + FieldsSize(fields, names)
  {
    FieldsSizeConcat([f], fields, names);
    OneFieldSize(f, names);
  }

  lemma FieldsSizeAround(fields: seq<Field>, b: nat, names: bool)
    requires b < |fields|
    ensures FieldsSize(fields, names)
            == FieldsSize(fields[..b], names) + SizeOf(fields[b], names) + FieldsSize(fields[b + 1..], names)
  {
    FieldsSizeConcat(fields[..b], fields[b..], names);
    assert fields[..b] + fields[b..] == fields;
    assert fields[b..][1..] == fields[b + 1..];
  }

  lemma {:induction false} MessagesSizeConcat(a: seq<Message>, b: seq<Message>, names: bool)
    ensures MessagesSize(a + b, names) == MessagesSize(a, names) + MessagesSize(b, names)
  {
    if a == [] {
      assert a + b == b;
    } else {
      MessagesSizeConcat(a[1..], b, names);
      assert (a + b)[1..] == a[1..] + b;
    }
  }

  /** A group's name and data are made of its lines. */
  lemma {:induction false} GroupSize(group: seq<Field>, names: bool)
    ensures (if names then |NameOf(group)| else 0) + (if DataOf(group).Some? then |DataOf(group).value| else 0)
            <= FieldsSize(group, names)
    decreases |group|
  {
    if group != [] {
      var n := |group| - 1;
      GroupSize(group[..n], names);
      FieldsSizeConcat(group[..n], [group[n]], names);
      OneFieldSize(group[n], names);
      assert group[..n] + [group[n]] == group;
    }
  }

  lemma InterpretSize(group: seq<Field>, names: bool)
    ensures MessagesSize(Interpret(group), names) <= FieldsSize(group, names)
  {
    GroupSize(group, names);
    if DataOf(group).Some? {
      assert Interpret(group)[1..] == [];
    }
  }

  /** No stream delivers more than its lines hold. */
  lemma {:induction false} DeliveredSize(fields: seq<Field>, names: bool)
    ensures MessagesSize(Messages(fields), names) <= FieldsSize(fields, names)
    decreases |fields|
  {
    var b := BlankAt(fields);
    if b < |fields| {
      InterpretSize(fields[..b], names);
      DeliveredSize(fields[b + 1..], names);
      MessagesSizeConcat(Interpret(fields[..b]), Messages(fields[b + 1..]), names);
      FieldsSizeAround(fields, b, names);
    }
  }

  // ----- what a text loses -----

  /** A line of a text yields less than it shows. */
  lemma ReadSize(line: string, names: bool)
    ensures SizeOf(Read(line), names) <= |Trim(line)|
    ensures Trim(line) != "" ==> SizeOf(Read(line), names) < |Trim(line)|
  {
    var t := Trim(line);
    if "event:" <= t {
      TrimShrinks(t[6..]);
    } else if "data:" <= t {
      TrimShrinks(t[5..]);
    }
  }

  lemma LinesTrim(head: string, tail: string)
    ensures |Trim(head + "\n" + tail)| >= |Trim(head)| + |Trim(tail)|
    ensures Trim(head) == "" && Trim(tail) == "" ==> Trim(head + "\n" + tail) == ""
  {
    TrimAdds(head, "\n" + tail);
    TrimAdds("\n", tail);
    assert head + "\n" + tail == head + ("\n" + tail);
    if Trim(head) == "" && Trim(tail) == "" {
      BlankMeans(head);
      BlankMeans(tail);
      SpacesTrimAway("", head + "\n" + tail);
      Unit(head + "\n" + tail);
    }
  }

  lemma {:induction false} BlankMeans(s: string)
    requires Trim(s) == ""
    ensures forall k :: 0 <= k < |s| ==> Space(s[k])
  {
    if s != "" && Space(s[0]) {
      BlankMeans(s[1..]);
    } else {
      TrimRightShape(s);
    }
  }

  /** A text, printed as it is, yields less than it shows. */
  lemma {:induction false} BodySize(text: string, names: bool)
    ensures FieldsSize(Fields(text + "\n"), names) <= |Trim(text)|
    ensures Trim(text) != "" ==> FieldsSize(Fields(text + "\n"), names) < |Trim(text)|
    decreases |text|
  {
    if OneLine(text) {
      OneMore(text, "");
      Unit(text + "\n");
      FieldsNone();
      Unit([Read(text)]);
      OneFieldSize(Read(text), names);
      ReadSize(text, names);
    } else {
      var i := FirstLine(text);
      var head, tail := text[..i], text[i + 1..];
      BodySize(tail, names);
      ReadSize(head, names);
      assert text + "\n" == head + "\n" + (tail + "\n");
      OneMore(head, tail + "\n");
      LinesTrim(head, tail);
      FieldsSizeCons(Read(head), Fields(tail + "\n"), names);
    }
  }

  /** Something visible follows the first line feed. */
  lemma VisibleTail(text: string) returns (i: nat)
    requires !OneLine(TrimRight(text))
    ensures i < |text| && text[i] == '\n' && OneLine(text[..i]) && Trim(text[i + 1..]) != ""
    ensures |Trim(text)| >= |Trim(text[..i])| + |Trim(text[i + 1..])|
  {
    TrimRightShape(text);
    i := FirstLine(text);
    var head, tail := text[..i], text[i + 1..];
    LinesTrim(head, tail);
    if Trim(tail) == "" {
      InvisibleTail(head, tail);
      assert false;
    }
  }

  lemma InvisibleTail(head: string, tail: string)
    requires OneLine(head) && Trim(tail) == ""
    ensures OneLine(TrimRight(head + "\n" + tail))
  {
    BlankMeans(tail);
    SpacesTrimAway(head, "\n" + tail);
    assert head + "\n" + tail == head + ("\n" + tail);
    TrimRightShape(head);
  }

  // ----- what a write loses -----

  /** The first line of a printed payload is the data line, and the rest is printed as it is. */
  lemma FirstDataLine(data: string, i: nat)
    requires i < |data| && data[i] == '\n' && OneLine(data[..i])
    ensures Fields(Print(DataFrame(data))) == [DataField(Trim(data[..i]))] + (Fields(data[i + 1..] + "\n") + [Blank])
  {
    var head, tail := data[..i], data[i + 1..];
    assert Print(DataFrame(data)) == ("data: " + head) + "\n" + (tail + "\n" + "\n");
    OneMore("data: " + head, tail + "\n" + "\n");
    ReadData(head);
    BlankAtEnd(tail + "\n");
  }

  lemma FirstEventLine(name: string, i: nat)
    requires i < |name| && name[i] == '\n' && OneLine(name[..i])
    ensures Fields(Print(EventLine(name))) == [EventField(Trim(name[..i]))] + Fields(name[i + 1..] + "\n")
  {
    var head, tail := name[..i], name[i + 1..];
    assert Print(EventLine(name)) == ("event: " + head) + "\n" + (tail + "\n");
    OneMore("event: " + head, tail + "\n");
    ReadEvent(head);
  }

  /** What a write is meant to contribute, in characters. */
  function WriteSize(p: Piece, names: bool): nat {
    match p
    case EventLine(name) => if names then |Trim(name)| else 0
    case DataFrame(data) => |Trim(data)| + 1
    case IdFrame(id) => |Trim(id)| + 1 + if names then 5 else 0
    case Ping => 0
  }

  function WriteSizes(ps: seq<Piece>, names: bool): nat {
    if ps == [] then 0 else WriteSize(ps[0], names) + WriteSizes(ps[1..], names)
  }

  lemma BrokenData(data: string, names: bool)
    requires !OneLine(TrimRight(data))
    ensures FieldsSize(Fields(Print(DataFrame(data))), names) < WriteSize(DataFrame(data), names)
  {
    var i := VisibleTail(data);
    var head, rest := data[..i], Fields(data[i + 1..] + "\n");
    FirstDataLine(data, i);
    BodySize(data[i + 1..], names);
    FieldsSizeCons(DataField(Trim(head)), rest + [Blank], names);
    FieldsSizeConcat(rest, [Blank], names);
    OneFieldSize(Blank, names);
  }

  lemma BrokenName(name: string)
    requires !OneLine(TrimRight(name))
    ensures FieldsSize(Fields(Print(EventLine(name))), true) < WriteSize(EventLine(name), true)
  {
    var i := VisibleTail(name);
    FirstEventLine(name, i);
    BodySize(name[i + 1..], true);
    FieldsSizeCons(EventField(Trim(name[..i])), Fields(name[i + 1..] + "\n"), true);
  }

  lemma {:induction false} BlanksSize(fields: seq<Field>, names: bool)
    requires Blanks(fields)
    ensures FieldsSize(fields, names) == 0
  {
    if fields != [] {
      BlanksSize(fields[1..], names);
    }
  }

  lemma DataSize(data: string, names: bool)
    ensures FieldsSize(Fields(Print(DataFrame(data))), names) <= WriteSize(DataFrame(data), names)
    ensures !Clean(DataFrame(data))
            ==> FieldsSize(Fields(Print(DataFrame(data))), names) < WriteSize(DataFrame(data), names)
  {
    if Clean(DataFrame(data)) {
      PieceLines(DataFrame(data));
      BlanksSize(Fields(Print(DataFrame(data)))[1..], names);
    } else {
      BrokenData(data, names);
    }
  }

  /** No write contributes more than it is meant to, and one that is not clean contributes less. */
  lemma PieceSize(p: Piece, names: bool)
    requires names || (p.EventLine? ==> Clean(p))
    ensures FieldsSize(Fields(Print(p)), names) <= WriteSize(p, names)
    ensures !Clean(p) ==> FieldsSize(Fields(Print(p)), names) < WriteSize(p, names)
  {
    match p
    case EventLine(name) =>
      if Clean(p) {
        PieceLines(p);
        BlanksSize(Fields(Print(p))[1..], names);
      } else {
        BrokenName(name);
      }
    case DataFrame(data) =>
      DataSize(data, names);
    case IdFrame(id) =>
      IdFrameFields(id);
      DataSize(id, names);
      FieldsSizeCons(EventField("sseID"), Fields(Print(DataFrame(id))), names);
    case Ping =>
      PieceLines(p);
      FieldsSizeCons(Ignored, [Blank], names);
      OneFieldSize(Blank, names);
      assert [Ignored] + [Blank] == [Ignored, Blank];
  }

  lemma CleanCons(ps: seq<Piece>)
    requires ps != []
    ensures AllClean(ps) <==> Clean(ps[0]) && AllClean(ps[1..])
    ensures CleanNames(ps) <==> (ps[0].EventLine? ==> Clean(ps[0])) && CleanNames(ps[1..])
  {
    assert ps == [ps[0]] + ps[1..];
  }

  lemma {:induction false} WireSize(ps: seq<Piece>, names: bool)
    requires names || CleanNames(ps)
    ensures FieldsSize(Fields(Wire(ps)), names) <= WriteSizes(ps, names)
    ensures !AllClean(ps) ==> FieldsSize(Fields(Wire(ps)), names) < WriteSizes(ps, names)
  {
    if ps == [] {
      FieldsNone();
    } else {
      CleanCons(ps);
      PieceSize(ps[0], names);
      WireSize(ps[1..], names);
      PieceFields(ps[0], Wire(ps[1..]));
      FieldsSizeConcat(Fields(Print(ps[0])), Fields(Wire(ps[1..])), names);
    }
  }

  /** With a text that is not clean, the client gets less than was meant. */
  lemma BrokenStream(ps: seq<Piece>, names: bool)
    requires (names || CleanNames(ps)) && !AllClean(ps)
    ensures MessagesSize(Delivers(Wire(ps)), names) < WriteSizes(ps, names)
  {
    WireSize(ps, names);
    DeliveredSize(Fields(Wire(ps)), names);
  }

  // ----- streams with clean names -----

  lemma {:induction false} ExpectedSize(ps: seq<Piece>, pending: string)
    ensures MessagesSize(Expected(ps, pending), false) == WriteSizes(ps, false)
    decreases |ps|
  {
    if ps != [] {
      var p := ps[0];
      ExpectedSize(ps[1..], if p.EventLine? then Pending(p.name) else "");
      if p.DataFrame? || p.IdFrame? {
        var all := Expected(ps, pending);
        assert all[1..] == Expected(ps[1..], "");
      }
    }
  }

  /**
   Exactly which writes arrive as they were meant, in whatever order they are made: when the names are
   clean, those of which no payload and no id has a line feed before its last visible character.
   */
  lemma WritesSurvive(ps: seq<Piece>)
    requires CleanNames(ps)
    ensures Delivers(Wire(ps)) == Expected(ps, "") <==> AllClean(ps)
  {
    if AllClean(ps) {
      WritesDeliver(ps);
    } else {
      BrokenStream(ps, false);
      ExpectedSize(ps, "");
    }
  }

  /** One unnamed frame: its payload comes back, up to white space at the ends, or it does not. */
  lemma DataSurvives(data: string)
    ensures Delivers(Print(DataFrame(data))) == [Message("", "", Trim(data) + "\n")]
            <==> OneLine(TrimRight(data))
  {
    var ps := [DataFrame(data)];
    WritesSurvive(ps);
    assert ps[1..] == [] && Wire(ps[1..]) == "";
    Unit(Print(DataFrame(data)));
    assert Wire(ps) == Print(DataFrame(data)) + "";
    assert Expected(ps, "") == [Message("", "", Trim(data) + "\n")] + [];
    assert AllClean(ps) <==> Clean(ps[0]);
  }

  /** For example: a second line that is no field of its own is lost. */
  lemma SecondLineIsLost(first: string, second: string)
    requires OneLine(first) && OneLine(second) && Read(second) == Ignored
    ensures Delivers(Print(DataFrame(first + "\n" + second))) == [Message("", "", Trim(first) + "\n")]
  {
    var data, group := first + "\n" + second, [DataField(Trim(first))];
    TwoLines(first, second);
    FirstDataLine(data, |first|);
    LineAndBlank(second);
    BlankAtEnd(second + "\n");
    assert group + [Ignored, Blank] == (group + [Ignored]) + [Blank] + [];
    MessagesGroup(group + [Ignored], []);
    TwoFields(Trim(first));
  }

  lemma TwoFields(data: string)
    ensures Interpret([DataField(data)] + [Ignored]) == [Message("", "", data + "\n")]
  {
    var one := [DataField(data)];
    assert (one + [Ignored])[..1] == one;
    assert DataOf(one + [Ignored]) == DataOf(one);
    InterpretFrame([], data);
    Unit(one);
  }

  /** Or a second line that is an event line: the payload arrives under that name. */
  lemma SecondLineIsName(first: string, name: string)
    requires OneLine(first) && OneLine(name)
    ensures Delivers(Print(DataFrame(first + "\n" + ("event: " + name)))) == [Message(Trim(name), "", Trim(first) + "\n")]
  {
    var data, second := first + "\n" + ("event: " + name), "event: " + name;
    TwoLines(first, second);
    FirstDataLine(data, |first|);
    LineAndBlank(second);
    BlankAtEnd(second + "\n");
    ReadEvent(name);
    DataThenName(Trim(first), Trim(name));
  }

  lemma DataThenName(data: string, name: string)
    ensures Messages([DataField(data)] + [EventField(name), Blank]) == [Message(name, "", data + "\n")]
  {
    var one, two := [DataField(data)], [DataField(data), EventField(name)];
    assert two[..1] == one;
    InterpretFrame([], data);
    Unit(one);
    assert DataOf(two) == DataOf(one) && IdOf(two) == IdOf(one) && NameOf(two) == name;
    assert one + [EventField(name), Blank] == two + [Blank] + [];
    MessagesGroup(two, []);
  }

  lemma PayloadThatBreaks()
    ensures Delivers(Print(DataFrame("a\nb"))) == [Message("", "", "a\n")]
  {
    assert "a" + "\n" == "a\n" && "a" + "\n" + "b" == "a\nb";
    assert Trim("a") == "a" && Trim("b") == "b";
    assert |"b"| == 1 && Read("b") == Ignored;
    SecondLineIsLost("a", "b");
  }
}
