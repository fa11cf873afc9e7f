/**
 The server's side of a stream: frames are printed in one or two writes, and the writes of
 concurrent calls interleave.
 */
module SseServer {
  import opened Handlers
  import opened Seqs
  import opened SseText
  import opened SseEvents

  /** One Write call. */
  datatype Piece = EventLine(name: string) | DataFrame(data: string) | IdFrame(id: string) | Ping

  function Print(p: Piece): string {
    match p
    case EventLine(name) => "event: " + name + "\n"
    case DataFrame(data) => "data: " + data + "\n" + "\n"
    case IdFrame(id) => "event: " + "sseID" + "\n" + ("data: " + id + "\n" + "\n")
    case Ping => ": ping" + "\n" + "\n"
  }

  /** The bytes of a sequence of writes. */
  function Wire(ps: seq<Piece>): string {
    if ps == [] then "" else Print(ps[0]) + Wire(ps[1..])
  }

  /** The text a write prints that comes from its caller. */
  function TextOf(p: Piece): string {
    match p
    case EventLine(name) => name
    case DataFrame(data) => data
    case IdFrame(id) => id
    case Ping => ""
  }

  /** The caller's text has no line feed before its last visible character. */
  ghost predicate Clean(p: Piece) {
    OneLine(TrimRight(TextOf(p)))
  }

  ghost predicate AllClean(ps: seq<Piece>) {
    forall k :: 0 <= k < |ps| ==> Clean(ps[k])
  }

  /** The event names are clean; payloads and ids may be anything. */
  ghost predicate CleanNames(ps: seq<Piece>) {
    forall k :: 0 <= k < |ps| && ps[k].EventLine? ==> Clean(ps[k])
  }

  /** The name an event line leaves for the data after it; a line feed at its end drops the name. */
  function Pending(name: string): string {
    if OneLine(name) then Trim(name) else ""
  }

  /** What each write means, when `pending` is the event name still waiting for its data. */
  function Expected(ps: seq<Piece>, pending: string): seq<Message>
    decreases |ps|
  {
    if ps == [] then []
    else
      match ps[0]
      case EventLine(name) => Expected(ps[1..], Pending(name))
      case DataFrame(data) => [Message(pending, "", Trim(data) + "\n")] + Expected(ps[1..], "")
      case IdFrame(id) => [Message("sseID", "", Trim(id) + "\n")] + Expected(ps[1..], "")
      case Ping => Expected(ps[1..], "")
  }

  // ----- one printed line, read back -----

  lemma {:induction false} TrimAfter(head: string, value: string, cut: nat)
    requires 0 < cut < |head| && !Space(head[0]) && !Space(head[cut - 1])
    requires forall k :: cut <= k < |head| ==> Space(head[k])
    ensures var t := Trim(head + value);
            head[..cut] <= t && Trim(t[cut..]) == Trim(value)
  {
    var text := head[cut..] + value;
    assert head + value == head[..cut] + text;
    assert TrimLeft(head + value) == head + value;
    TrimRightKeeps(head[..cut], text);
    assert (head[..cut] + TrimRight(text))[cut..] == TrimRight(text);
    TrimAfterRight(text);
    TrimSpaces(head[cut..], value);
  }

  lemma {:induction false} TrimSpaces(spaces: string, value: string)
    requires forall k :: 0 <= k < |spaces| ==> Space(spaces[k])
    ensures Trim(spaces + value) == Trim(value)
  {
    if spaces == "" {
      assert spaces + value == value;
    } else {
      TrimSpaces(spaces[1..], value);
      assert (spaces + value)[1..] == spaces[1..] + value;
    }
  }

  lemma ReadEvent(name: string)
    ensures Read("event: " + name) == EventField(Trim(name))
  {
    TrimAfter("event: ", name, 6);
    assert "event: "[..6] == "event:";
  }

  lemma ReadData(data: string)
    ensures Read("data: " + data) == DataField(Trim(data))
  {
    TrimAfter("data: ", data, 5);
    assert "data: "[..5] == "data:";
    var t := Trim("data: " + data);
    assert t[0] == 'd';
  }

  lemma ReadPing()
    ensures Read(": ping") == Ignored
    ensures Read("") == Blank
  {
    assert Trim(": ping") == ": ping";
  }

  lemma OneMore(line: string, rest: string)
    requires OneLine(line)
    ensures Fields(line + "\n" + rest) == [Read(line)] + Fields(rest)
  {
    LinesFirst(line, rest);
  }

  lemma FieldsNone()
    ensures Fields("") == []
  {
  }

  ghost predicate Blanks(fields: seq<Field>) {
    forall k :: 0 <= k < |fields| ==> fields[k].Blank?
  }

  /** White space that ends with a line feed is blank lines. */
  lemma {:induction false} SpacesAreBlanks(text: string)
    requires text != "" && text[|text| - 1] == '\n' && forall k :: 0 <= k < |text| ==> Space(text[k])
    ensures Fields(text) != [] && Blanks(Fields(text))
    decreases |text|
  {
    var i := FirstLine(text);
    var line, rest := text[..i], text[i + 1..];
    OneMore(line, rest);
    SpacesTrimAway("", line);
    Unit(line);
    if rest == "" {
      FieldsNone();
    } else {
      SpacesAreBlanks(rest);
    }
  }

  /** What one write prints, line by line. */
  ghost predicate Prints(p: Piece, fields: seq<Field>) {
    match p
    case EventLine(name) =>
      fields != [] && fields[0] == EventField(Trim(name)) && Blanks(fields[1..])
      && (|fields| == 1 <==> OneLine(name))
    case DataFrame(data) => |fields| >= 2 && fields[0] == DataField(Trim(data)) && Blanks(fields[1..])
    case IdFrame(id) =>
      |fields| >= 3 && fields[0] == EventField("sseID") && fields[1] == DataField(Trim(id)) && Blanks(fields[2..])
    case Ping => fields == [Ignored, Blank]
  }

  /** Whatever the caller's text is, a write's lines do not depend on what follows. */
  lemma {:induction false} PieceFields(p: Piece, rest: string)
    ensures Fields(Print(p) + rest) == Fields(Print(p)) + Fields(rest)
  {
    FieldsConcat(Print(p), rest);
  }

  lemma EmptyLine()
    ensures Fields("\n") == [Blank]
  {
    OneMore("", "");
    FieldsNone();
    ReadPing();
    assert "" + "\n" + "" == "\n";
  }

  /** A clean text of more than one line: its first line, and the white space that follows. */
  lemma CutLine(text: string) returns (line: string, spaces: string)
    requires OneLine(TrimRight(text)) && !OneLine(text)
    ensures OneLine(line) && Trim(line) == Trim(text) && text == line + "\n" + spaces
    ensures forall k :: 0 <= k < |spaces| ==> Space(spaces[k])
  {
    TrimRightShape(text);
    var i := FirstLine(text);
    line, spaces := text[..i], text[i + 1..];
    assert i >= |TrimRight(text)|;
    SpacesTrimAway(line, text[i..]);
    assert line + text[i..] == text;
  }

  /** A clean text with line feeds after it. */
  lemma CutText(text: string, end: string) returns (line: string, rest: string)
    requires OneLine(TrimRight(text)) && (end == "\n" || end == "\n" + "\n")
    ensures OneLine(line) && Trim(line) == Trim(text) && text + end == line + "\n" + rest
    ensures Blanks(Fields(rest)) && (Fields(rest) == [] <==> end == "\n" && OneLine(text))
  {
    if OneLine(text) {
      line, rest := text, end[1..];
      FieldsNone();
      EmptyLine();
    } else {
      var spaces: string;
      line, spaces := CutLine(text);
      rest := spaces + end;
      Assoc(line + "\n", spaces, end);
      SpacesAreBlanks(rest);
    }
  }

  /** A line the server begins and a clean text ends. */
  lemma TextLines(head: string, text: string, end: string) returns (line: string, rest: seq<Field>)
    requires OneLine(head) && OneLine(TrimRight(text)) && (end == "\n" || end == "\n" + "\n")
    ensures OneLine(line) && Trim(line) == Trim(text)
    ensures Fields(head + (text + end)) == [Read(head + line)] + rest
    ensures Blanks(rest) && (rest == [] <==> end == "\n" && OneLine(text))
  {
    var after: string;
    line, after := CutText(text, end);
    rest := Fields(after);
    assert head + (text + end) == (head + line) + "\n" + after;
    OneMore(head + line, after);
  }

  lemma EventLines(name: string)
    requires OneLine(TrimRight(name))
    ensures Prints(EventLine(name), Fields(Print(EventLine(name))))
  {
    var line, rest := TextLines("event: ", name, "\n");
    ReadEvent(line);
    Assoc("event: ", name, "\n");
  }

  lemma DataLines(data: string)
    requires OneLine(TrimRight(data))
    ensures Prints(DataFrame(data), Fields(Print(DataFrame(data))))
  {
    var line, rest := TextLines("data: ", data, "\n" + "\n");
    ReadData(line);
    Assoc("data: ", data, "\n" + "\n");
    Assoc("data: " + data, "\n", "\n");
  }

  /** An id frame is a named frame. */
  lemma IdFrameFields(id: string)
    ensures Fields(Print(IdFrame(id))) == [EventField("sseID")] + Fields(Print(DataFrame(id)))
  {
    var head := "event: " + "sseID";
    assert Print(IdFrame(id)) == head + "\n" + Print(DataFrame(id));
    OneMore(head, Print(DataFrame(id)));
    ReadEvent("sseID");
    assert Trim("sseID") == "sseID";
  }

  lemma LineAndBlank(line: string)
    requires OneLine(line)
    ensures Fields(line + "\n" + "\n") == [Read(line), Blank]
  {
    OneMore(line, "\n");
    EmptyLine();
  }

  lemma PieceLines(p: Piece)
    requires Clean(p)
    ensures Prints(p, Fields(Print(p)))
  {
    match p
    case EventLine(name) =>
      EventLines(name);
    case DataFrame(data) =>
      DataLines(data);
    case IdFrame(id) =>
      DataLines(id);
      IdFrameFields(id);
      var fields := Fields(Print(DataFrame(id)));
      assert ([EventField("sseID")] + fields)[2..] == fields[1..];
    case Ping =>
      LineAndBlank(": ping");
      ReadPing();
  }

  // ----- any sequence of writes -----

  /** A group that holds event names only. */
  ghost predicate NamesOnly(group: seq<Field>) {
    forall k :: 0 <= k < |group| ==> group[k].EventField?
  }

  lemma {:induction false} NamesOnlyMeans(group: seq<Field>)
    requires NamesOnly(group)
    ensures DataOf(group) == None && IdOf(group) == ""
  {
    if group != [] {
      NamesOnlyMeans(group[..|group| - 1]);
    }
  }

  /** Names, then data, read as one message. */
  lemma InterpretFrame(group: seq<Field>, data: string)
    requires NamesOnly(group)
    ensures Interpret(group + [DataField(data)]) == [Message(NameOf(group), "", data + "\n")]
  {
    NamesOnlyMeans(group);
    var all := group + [DataField(data)];
    assert all[..|all| - 1] == group;
    Unit(data);
    assert NameOf(all) == NameOf(group) && IdOf(all) == IdOf(group);
    assert DataOf(all) == Some(data + "\n");
  }

  lemma {:induction false} BlanksDeliverNothing(fields: seq<Field>)
    requires Blanks(fields)
    ensures Messages(fields) == []
    decreases |fields|
  {
    if fields != [] {
      MessagesSplit(fields, 0);
      BlanksDeliverNothing(fields[1..]);
      assert Interpret(fields[..0]) == [];
    }
  }

  lemma Regroup(group: seq<Field>, f: Field, rest: seq<Field>)
    requires rest != [] && rest[0].Blank?
    ensures group + ([f] + rest) == (group + [f]) + [Blank] + rest[1..]
  {
  }

  lemma FrameMessages(group: seq<Field>, data: string, blanks: seq<Field>)
    requires NamesOnly(group) && blanks != [] && Blanks(blanks)
    ensures Messages(group + ([DataField(data)] + blanks)) == [Message(NameOf(group), "", data + "\n")]
  {
    Regroup(group, DataField(data), blanks);
    MessagesGroup(group + [DataField(data)], blanks[1..]);
    InterpretFrame(group, data);
    BlanksDeliverNothing(blanks[1..]);
  }

  lemma PingMessages(group: seq<Field>)
    requires NamesOnly(group)
    ensures Messages(group + [Ignored, Blank]) == []
  {
    NamesOnlyMeans(group);
    var all := group + [Ignored];
    assert all[..|all| - 1] == group;
    MessagesGroup(all, []);
    assert group + [Ignored, Blank] == all + [Blank] + [];
  }

  lemma IdFrameMessages(group: seq<Field>, data: string, blanks: seq<Field>)
    requires NamesOnly(group) && blanks != [] && Blanks(blanks)
    ensures Messages(group + ([EventField("sseID"), DataField(data)] + blanks)) == [Message("sseID", "", data + "\n")]
  {
    var named := group + [EventField("sseID")];
    assert group + ([EventField("sseID"), DataField(data)] + blanks) == named + ([DataField(data)] + blanks);
    assert named[..|named| - 1] == group;
    FrameMessages(named, data, blanks);
  }

  /** An event line with a line feed at its end: the name is gone before any data comes. */
  lemma DroppedName(group: seq<Field>, name: string, blanks: seq<Field>)
    requires NamesOnly(group) && blanks != [] && Blanks(blanks)
    ensures Messages(group + ([EventField(name)] + blanks)) == []
  {
    var named := group + [EventField(name)];
    Regroup(group, EventField(name), blanks);
    MessagesGroup(named, blanks[1..]);
    NamesOnlyMeans(named);
    BlanksDeliverNothing(blanks[1..]);
  }

  /** A write whose last line is blank, so that no name is pending after it. */
  predicate Closes(p: Piece) {
    p.EventLine? ==> !OneLine(p.name)
  }

  /** What such a write delivers, with event names pending in `group`. */
  lemma PieceMessages(p: Piece, group: seq<Field>)
    requires NamesOnly(group) && Clean(p) && Closes(p)
    ensures Messages(group + Fields(Print(p))) == Expected([p], NameOf(group))
  {
    PieceLines(p);
    var fields := Fields(Print(p));
    assert [p][1..] == [];
    match p
    case EventLine(name) =>
      DroppedName(group, Trim(name), fields[1..]);
      assert fields == [fields[0]] + fields[1..];
    case DataFrame(data) =>
      FrameMessages(group, Trim(data), fields[1..]);
      assert fields == [fields[0]] + fields[1..];
    case IdFrame(id) =>
      IdFrameMessages(group, Trim(id), fields[2..]);
      assert fields == [fields[0], fields[1]] + fields[2..];
    case Ping =>
      PingMessages(group);
  }

  /** The end of a frame is a blank line, and so is that of a name with a line feed at its end. */
  lemma PieceEnds(p: Piece)
    requires !p.EventLine? || (Clean(p) && Closes(p))
    ensures var fields := Fields(Print(p)); fields != [] && fields[|fields| - 1].Blank?
  {
    if p.EventLine? {
      PieceLines(p);
      var fields := Fields(Print(p));
      assert fields[1..][|fields| - 2] == fields[|fields| - 1];
    } else {
      var text := Print(p);
      BlankAtEnd(text[..|text| - 1]);
      assert text == text[..|text| - 1] + "\n";
    }
  }

  lemma BlankAtEnd(front: string)
    requires front != "" && front[|front| - 1] == '\n'
    ensures Fields(front + "\n") == Fields(front) + [Blank]
  {
    FieldsConcat(front, "\n");
    EmptyLine();
  }

  lemma ExpectedCons(p: Piece, ps: seq<Piece>, pending: string)
    requires Closes(p)
    ensures Expected([p] + ps, pending) == Expected([p], pending) + Expected(ps, "")
  {
    assert ([p] + ps)[1..] == ps && [p][1..] == [];
  }

  /** A write that closes, after pending names: its own messages, then those of the rest. */
  lemma FrameThen(p: Piece, group: seq<Field>, rest: string)
    requires !p.EventLine? || (Clean(p) && Closes(p))
    ensures Messages(group + Fields(Print(p) + rest)) == Messages(group + Fields(Print(p))) + Delivers(rest)
  {
    PieceFields(p, rest);
    PieceEnds(p);
    var fields := Fields(Print(p));
    Assoc(group, fields, Fields(rest));
    MessagesConcat(group + fields, Fields(rest));
  }

  /** An event line that is one line joins the pending names. */
  lemma NameThen(name: string, group: seq<Field>, rest: string)
    requires OneLine(name) && NamesOnly(group)
    ensures var group' := group + [EventField(Trim(name))];
            NamesOnly(group') && NameOf(group') == Trim(name)
            && group + Fields(Print(EventLine(name)) + rest) == group' + Fields(rest)
  {
    TrimRightShape(name);
    PieceFields(EventLine(name), rest);
    PieceLines(EventLine(name));
    assert Fields(Print(EventLine(name))) == [EventField(Trim(name))];
    Assoc(group, [EventField(Trim(name))], Fields(rest));
  }

  lemma NoMoreMessages(group: seq<Field>)
    requires NamesOnly(group)
    ensures Messages(group + Fields("")) == []
  {
    FieldsNone();
    Unit(group);
    BlankAtIs(group, |group|);
  }

  lemma ClosingStep(p: Piece, group: seq<Field>, rest: string, ps: seq<Piece>)
    requires NamesOnly(group) && Clean(p) && Closes(p) && Delivers(rest) == Expected(ps, "")
    ensures Messages(group + Fields(Print(p) + rest)) == Expected([p] + ps, NameOf(group))
  {
    FrameThen(p, group, rest);
    PieceMessages(p, group);
    ExpectedCons(p, ps, NameOf(group));
  }

  lemma {:induction false} WireMessages(ps: seq<Piece>, group: seq<Field>)
    requires AllClean(ps) && NamesOnly(group)
    ensures Messages(group + Fields(Wire(ps))) == Expected(ps, NameOf(group))
    decreases |ps|
  {
    if ps == [] {
      NoMoreMessages(group);
    } else {
      var p, rest := ps[0], Wire(ps[1..]);
      if !Closes(p) {
        NameThen(p.name, group, rest);
        WireMessages(ps[1..], group + [EventField(Trim(p.name))]);
      } else {
        WireMessages(ps[1..], []);
        Unit(Fields(rest));
        ClosingStep(p, group, rest, ps[1..]);
        assert [p] + ps[1..] == ps;
      }
    }
  }

  /**
   Whatever order the writes of concurrent calls come in, the client delivers exactly one message for
   every frame, in write order, with the frame's payload; none carries an id.
   */
  lemma WritesDeliver(ps: seq<Piece>)
    requires AllClean(ps)
    ensures Delivers(Wire(ps)) == Expected(ps, "")
  {
    WireMessages(ps, []);
    Unit(Fields(Wire(ps)));
  }
}
