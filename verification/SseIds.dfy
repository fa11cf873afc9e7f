/**
 Ids and resuming.  The server never prints an id line of its own, but it prints names and payloads as
 they are, and their lines after the first are lines of the stream: one of them can be an id line, and
 then the client sends that id when it reconnects.
 */
module SseIds {
  import opened Handlers
  import opened Seqs
  import opened SseText
  import opened SseEvents
  import opened SseServer
  import opened SseNewlines
  import S = SseSession

  ghost predicate NoIds(ms: seq<Message>) {
    forall k :: 0 <= k < |ms| ==> ms[k].id == ""
  }

  lemma NoIdsConcat(a: seq<Message>, b: seq<Message>)
    ensures NoIds(a + b) <==> NoIds(a) && NoIds(b)
  {
    assert forall k :: 0 <= k < |a| ==> (a + b)[k] == a[k];
    assert forall k :: 0 <= k < |b| ==> (a + b)[|a| + k] == b[k];
  }

  // ----- which lines make an id -----

  /** An id line with a value that no other id line follows. */
  ghost predicate LastIdAt(group: seq<Field>, k: nat)
    requires k < |group|
  {
    group[k].IdField? && group[k].id != "" && forall j :: k < j < |group| ==> !group[j].IdField?
  }

  /** Lines with such an id line, and with a data line. */
  ghost predicate CarriesId(group: seq<Field>) {
    && (exists j :: 0 <= j < |group| && group[j].DataField?)
    && (exists k :: 0 <= k < |group| && LastIdAt(group, k))
  }

  /** The lines a, ..., b - 1 are all the lines between two blank ones, or before the first. */
  ghost predicate Stretch(fields: seq<Field>, a: nat, b: nat) {
    && a <= b < |fields| && fields[b].Blank?
    && (a == 0 || fields[a - 1].Blank?)
    && forall j :: a <= j < b ==> !fields[j].Blank?
  }

  ghost predicate AnyCarries(fields: seq<Field>) {
    exists a: nat, b: nat :: Stretch(fields, a, b) && CarriesId(fields[a..b])
  }

  lemma {:induction false} DataOfMeans(group: seq<Field>)
    ensures DataOf(group).Some? <==> exists j :: 0 <= j < |group| && group[j].DataField?
  {
    if group != [] {
      var n := |group| - 1;
      DataOfMeans(group[..n]);
      if group[n].DataField? {
      } else if j :| 0 <= j < |group| && group[j].DataField? {
        assert group[..n][j].DataField?;
      }
    }
  }

  lemma {:induction false} IdOfMeans(group: seq<Field>)
    ensures IdOf(group) != "" <==> exists k :: 0 <= k < |group| && LastIdAt(group, k)
  {
    if group != [] {
      var n := |group| - 1;
      IdOfMeans(group[..n]);
      if group[n].IdField? {
        assert LastIdAt(group, n) <==> IdOf(group) != "";
      } else {
        assert forall k :: 0 <= k < n ==> group[..n][k] == group[k];
        assert forall k :: 0 <= k < n ==> (LastIdAt(group, k) <==> LastIdAt(group[..n], k));
      }
    }
  }

  lemma InterpretCarries(group: seq<Field>)
    ensures !NoIds(Interpret(group)) <==> CarriesId(group)
  {
    DataOfMeans(group);
    IdOfMeans(group);
    if DataOf(group).Some? {
      assert Interpret(group)[0].id == IdOf(group);
    }
  }

  /** The lines before the first blank one. */
  ghost predicate FirstBlank(fields: seq<Field>, n: nat) {
    n < |fields| && fields[n].Blank? && forall k :: 0 <= k < n ==> !fields[k].Blank?
  }

  lemma StretchOfRest(fields: seq<Field>, n: nat)
    requires FirstBlank(fields, n)
    ensures CarriesId(fields[..n]) || AnyCarries(fields[n + 1..]) ==> AnyCarries(fields)
  {
    var rest := fields[n + 1..];
    if CarriesId(fields[..n]) {
      assert Stretch(fields, 0, n) && fields[0..n] == fields[..n];
    } else if AnyCarries(rest) {
      var a: nat, b: nat :| Stretch(rest, a, b) && CarriesId(rest[a..b]);
      StretchBehind(fields, n, a, b);
    }
  }

  lemma StretchBehind(fields: seq<Field>, n: nat, a: nat, b: nat)
    requires n < |fields| && fields[n].Blank? && Stretch(fields[n + 1..], a, b)
    ensures Stretch(fields, n + 1 + a, n + 1 + b)
    ensures fields[n + 1 + a..n + 1 + b] == fields[n + 1..][a..b]
  {
    var rest := fields[n + 1..];
    assert rest[b] == fields[n + 1 + b];
    assert a > 0 ==> rest[a - 1] == fields[n + a];
    forall j | n + 1 + a <= j < n + 1 + b
      ensures !fields[j].Blank?
    {
      assert fields[j] == rest[j - n - 1];
    }
  }

  lemma StretchInRest(fields: seq<Field>, n: nat, a: nat, b: nat)
    requires FirstBlank(fields, n) && Stretch(fields, a, b) && n < a
    ensures Stretch(fields[n + 1..], a - n - 1, b - n - 1)
    ensures fields[n + 1..][a - n - 1..b - n - 1] == fields[a..b]
  {
    var rest := fields[n + 1..];
    assert forall k :: 0 <= k < |rest| ==> rest[k] == fields[n + 1 + k];
  }

  /** The stretches of a stream are its first one and those of the rest. */
  lemma FirstStretch(fields: seq<Field>, n: nat)
    requires FirstBlank(fields, n)
    ensures AnyCarries(fields) <==> CarriesId(fields[..n]) || AnyCarries(fields[n + 1..])
  {
    StretchOfRest(fields, n);
    if AnyCarries(fields) {
      var a: nat, b: nat :| Stretch(fields, a, b) && CarriesId(fields[a..b]);
      if a <= n {
        assert a == 0 && b == n;
        assert fields[0..n] == fields[..n];
      } else {
        StretchInRest(fields, n, a, b);
      }
    }
  }

  /** A stream delivers an id exactly when some stretch of its lines carries one. */
  lemma {:induction false} MessagesCarry(fields: seq<Field>)
    ensures !NoIds(Messages(fields)) <==> AnyCarries(fields)
    decreases |fields|
  {
    var n := BlankAt(fields);
    BlankAtMeans(fields);
    if n < |fields| {
      MessagesCarry(fields[n + 1..]);
      InterpretCarries(fields[..n]);
      NoIdsConcat(Interpret(fields[..n]), Messages(fields[n + 1..]));
      FirstStretch(fields, n);
    }
  }

  // ----- which payloads make an id -----

  function FirstOf(data: string): string {
    data[..LineEnd(data, 0)]
  }

  /** The lines of a payload after the first. */
  function LaterLines(data: string): seq<string> {
    var i := LineEnd(data, 0);
    if i < |data| then Lines(data[i + 1..] + "\n") else []
  }

  /** The lines of a printed payload. */
  function PayloadFields(data: string): seq<Field> {
    [DataField(Trim(FirstOf(data)))] + ReadAll(LaterLines(data)) + [Blank]
  }

  /**
   Among the lines of the payload, cut at the blank ones, there is a stretch with a data line (the
   first line of the payload is one) and with an id line whose value no other id line replaces.
   */
  ghost predicate MakesId(data: string) {
    AnyCarries(PayloadFields(data))
  }

  lemma PrintedPayload(data: string)
    ensures Fields(Print(DataFrame(data))) == PayloadFields(data)
  {
    var i := LineEnd(data, 0);
    LineEndMeans(data, 0);
    if i < |data| {
      FirstDataLine(data, i);
      Assoc([DataField(Trim(data[..i]))], ReadAll(LaterLines(data)), [Blank]);
    } else {
      assert data[..i] == data;
      LineAndBlank("data: " + data);
      ReadData(data);
      assert PayloadFields(data) == [DataField(Trim(data)), Blank];
    }
  }

  /** Exactly which payloads make the client remember an id. */
  lemma PayloadMakesId(data: string)
    ensures !NoIds(Delivers(Print(DataFrame(data)))) <==> MakesId(data)
  {
    PrintedPayload(data);
    MessagesCarry(PayloadFields(data));
  }

  lemma ReadId(id: string)
    ensures Read("id: " + id) == IdField(Trim(id))
  {
    TrimAfter("id: ", id, 3);
    assert "id: "[..3] == "id:";
    var t := Trim("id: " + id);
    assert t[0] == 'i';
  }

  /** For example: a payload whose second line is an id line. */
  lemma SecondLineIsId(first: string, id: string)
    requires OneLine(first) && OneLine(id)
    ensures Delivers(Print(DataFrame(first + "\n" + ("id: " + id)))) == [Message("", Trim(id), Trim(first) + "\n")]
  {
    var data, second := first + "\n" + ("id: " + id), "id: " + id;
    TwoLines(first, second);
    FirstDataLine(data, |first|);
    LineAndBlank(second);
    BlankAtEnd(second + "\n");
    ReadId(id);
    var group := [DataField(Trim(first))] + [IdField(Trim(id))];
    assert Fields(Print(DataFrame(data))) == group + [Blank] + [];
    MessagesGroup(group, []);
    DataThenId(Trim(first), Trim(id));
  }

  lemma DataThenId(data: string, id: string)
    ensures Interpret([DataField(data)] + [IdField(id)]) == [Message("", id, data + "\n")]
  {
    var one := [DataField(data)];
    assert (one + [IdField(id)])[..1] == one;
    InterpretFrame([], data);
    Unit(one);
    assert DataOf(one + [IdField(id)]) == DataOf(one);
    assert NameOf(one + [IdField(id)]) == NameOf(one);
  }

  lemma PayloadWithId()
    ensures Delivers(Print(DataFrame("x\nid: 5"))) == [Message("", "5", "x\n")]
  {
    assert "x" + "\n" == "x\n" && "id: " + "5" == "id: 5" && "x\n" + "id: 5" == "x\nid: 5";
    assert Trim("x") == "x" && Trim("5") == "5";
    SecondLineIsId("x", "5");
  }

  // ----- whole streams -----

  lemma {:induction false} NamesInFront(group: seq<Field>, fields: seq<Field>)
    requires NamesOnly(group)
    ensures IdOf(group + fields) == IdOf(fields)
    ensures DataOf(group + fields).Some? <==> DataOf(fields).Some?
    decreases |fields|
  {
    if fields == [] {
      assert group + fields == group;
      NamesOnlyMeans(group);
    } else {
      var n := |fields| - 1;
      var all := group + fields;
      assert all[..|all| - 1] == group + fields[..n];
      NamesInFront(group, fields[..n]);
    }
  }

  /** The first group of a stream, with pending names in front of it. */
  lemma SplitBehind(group: seq<Field>, fields: seq<Field>, n: nat)
    requires NamesOnly(group) && n < |fields| && fields[n].Blank? && forall k :: 0 <= k < n ==> !fields[k].Blank?
    ensures Messages(group + fields) == Interpret(group + fields[..n]) + Messages(fields[n + 1..])
  {
    var front, rest := group + fields[..n], fields[n + 1..];
    assert group + fields == front + [Blank] + rest;
    MessagesGroup(front, rest);
  }

  lemma InterpretAside(group: seq<Field>, fields: seq<Field>)
    requires NamesOnly(group)
    ensures NoIds(Interpret(group + fields)) <==> NoIds(Interpret(fields))
  {
    NamesInFront(group, fields);
    if DataOf(fields).Some? {
      assert Interpret(fields)[0].id == IdOf(fields);
      assert Interpret(group + fields)[0].id == IdOf(fields);
    }
  }

  lemma GroupAside(group: seq<Field>, fields: seq<Field>, n: nat)
    requires NamesOnly(group) && FirstBlank(fields, n)
    ensures NoIds(Messages(group + fields)) <==> NoIds(Messages(fields))
  {
    var rest := Messages(fields[n + 1..]);
    SplitBehind(group, fields, n);
    MessagesSplit(fields, n);
    InterpretAside(group, fields[..n]);
    NoIdsConcat(Interpret(group + fields[..n]), rest);
    NoIdsConcat(Interpret(fields[..n]), rest);
  }

  /** Pending names do not matter for ids. */
  lemma NamesAside(group: seq<Field>, fields: seq<Field>)
    requires NamesOnly(group)
    ensures NoIds(Messages(group + fields)) <==> NoIds(Messages(fields))
  {
    BlankAtMeans(fields);
    if BlankAt(fields) < |fields| {
      GroupAside(group, fields, BlankAt(fields));
    } else {
      NothingBehind(group, fields);
    }
  }

  lemma NothingBehind(group: seq<Field>, fields: seq<Field>)
    requires NamesOnly(group) && BlankAt(fields) == |fields|
    ensures Messages(group + fields) == [] && Messages(fields) == []
  {
    BlankAtMeans(fields);
    BlankAtIs(group + fields, |group| + |fields|);
  }

  /** No payload and no id among some writes makes an id. */
  ghost predicate IdFree(ps: seq<Piece>) {
    forall k :: 0 <= k < |ps| ==> !FrameMakesId(ps[k])
  }

  ghost predicate FrameMakesId(p: Piece) {
    (p.DataFrame? || p.IdFrame?) && MakesId(TextOf(p))
  }

  lemma IdFreeCons(ps: seq<Piece>)
    requires ps != []
    ensures IdFree(ps) <==> !FrameMakesId(ps[0]) && IdFree(ps[1..])
  {
    assert ps == [ps[0]] + ps[1..];
  }

  lemma FrameIds(p: Piece, group: seq<Field>)
    requires (p.EventLine? ==> Clean(p)) && Closes(p) && NamesOnly(group)
    ensures NoIds(Messages(group + Fields(Print(p)))) <==> !FrameMakesId(p)
  {
    match p
    case DataFrame(data) =>
      NamesAside(group, Fields(Print(p)));
      PayloadMakesId(data);
    case IdFrame(id) =>
      IdFrameFields(id);
      Assoc(group, [EventField("sseID")], Fields(Print(DataFrame(id))));
      NamesAside(group + [EventField("sseID")], Fields(Print(DataFrame(id))));
      PayloadMakesId(id);
    case _ =>
      assert p.Ping? ==> Clean(p) by {
        TrimRightShape("");
      }
      PieceMessages(p, group);
      assert [p][1..] == [];
  }

  lemma ClosingIds(p: Piece, group: seq<Field>, rest: string)
    requires (p.EventLine? ==> Clean(p)) && Closes(p) && NamesOnly(group)
    ensures NoIds(Messages(group + Fields(Print(p) + rest))) <==> !FrameMakesId(p) && NoIds(Delivers(rest))
  {
    FrameThen(p, group, rest);
    FrameIds(p, group);
    NoIdsConcat(Messages(group + Fields(Print(p))), Delivers(rest));
  }

  lemma {:induction false} WireIds(ps: seq<Piece>, group: seq<Field>)
    requires CleanNames(ps) && NamesOnly(group)
    ensures NoIds(Messages(group + Fields(Wire(ps)))) <==> IdFree(ps)
    decreases |ps|
  {
    if ps == [] {
      NoMoreMessages(group);
    } else {
      var p, rest := ps[0], Wire(ps[1..]);
      IdFreeCons(ps);
      CleanCons(ps);
      if !Closes(p) {
        NameThen(p.name, group, rest);
        WireIds(ps[1..], group + [EventField(Trim(p.name))]);
      } else {
        WireIds(ps[1..], []);
        Unit(Fields(rest));
        ClosingIds(p, group, rest);
      }
    }
  }

  /**
   With clean event names, whatever writes come in whatever order: no message has an id if and only if
   no payload makes one.
   */
  lemma StreamIds(ps: seq<Piece>)
    requires CleanNames(ps)
    ensures NoIds(Delivers(Wire(ps))) <==> IdFree(ps)
  {
    WireIds(ps, []);
    Unit(Fields(Wire(ps)));
  }

  /** An event name that is not clean can print an id line too, and the next payload carries it. */
  lemma NameWithId(name: string, id: string, data: string)
    requires OneLine(name) && OneLine(id) && OneLine(data)
    ensures !MakesId(data)
    ensures Delivers(Wire([EventLine(name + "\n" + ("id: " + id)), DataFrame(data)]))
            == [Message(Trim(name), Trim(id), Trim(data) + "\n")]
  {
    NamedWithId(name, id, data);
    OneLinePayload(data);
  }

  lemma OneLineFrame(data: string)
    requires OneLine(data)
    ensures Fields(Print(DataFrame(data))) == [DataField(Trim(data)), Blank]
  {
    LineAndBlank("data: " + data);
    ReadData(data);
  }

  lemma OneLinePayload(data: string)
    requires OneLine(data)
    ensures !MakesId(data)
  {
    OneLineFrame(data);
    FrameMessages([], Trim(data), [Blank]);
    assert [] + ([DataField(Trim(data))] + [Blank]) == [DataField(Trim(data)), Blank];
    PayloadMakesId(data);
  }

  lemma IdInName(name: string, id: string)
    requires OneLine(name) && OneLine(id)
    ensures Fields(Print(EventLine(name + "\n" + ("id: " + id)))) == [EventField(Trim(name)), IdField(Trim(id))]
  {
    var text, second := name + "\n" + ("id: " + id), "id: " + id;
    TwoLines(name, second);
    FirstEventLine(text, |name|);
    OneMore(second, "");
    Unit(second + "\n");
    FieldsNone();
    ReadId(id);
  }

  lemma TwoWrites(p: Piece, q: Piece)
    ensures Fields(Wire([p, q])) == Fields(Print(p)) + Fields(Print(q))
  {
    var two, one := [p, q], [q];
    assert two[1..] == one && one[1..] == [];
    Unit(Print(q));
    assert Wire(one) == Print(q) + "";
    assert Wire(two) == Print(p) + Print(q);
    PieceFields(p, Print(q));
  }

  lemma NamedWithId(name: string, id: string, data: string)
    requires OneLine(name) && OneLine(id) && OneLine(data)
    ensures Delivers(Wire([EventLine(name + "\n" + ("id: " + id)), DataFrame(data)]))
            == [Message(Trim(name), Trim(id), Trim(data) + "\n")]
  {
    var event, frame := EventLine(name + "\n" + ("id: " + id)), DataFrame(data);
    TwoWrites(event, frame);
    IdInName(name, id);
    OneLineFrame(data);
    assert Fields(Wire([event, frame]))
           == [EventField(Trim(name)), IdField(Trim(id))] + [DataField(Trim(data)), Blank];
    NameIdData(Trim(name), Trim(id), Trim(data));
  }

  lemma NameIdData(name: string, id: string, data: string)
    ensures Messages([EventField(name), IdField(id)] + [DataField(data), Blank]) == [Message(name, id, data + "\n")]
  {
    var one, two, three := [EventField(name)], [EventField(name), IdField(id)], [EventField(name), IdField(id), DataField(data)];
    assert three[..2] == two && two[..1] == one && one[..0] == [];
    NamesOnlyMeans(one);
    assert NameOf(one) == name;
    assert NameOf(two) == name && IdOf(two) == id && DataOf(two) == None;
    assert NameOf(three) == name && IdOf(three) == id;
    Unit(data);
    assert two + [DataField(data), Blank] == three + [Blank] + [];
    MessagesGroup(three, []);
  }

  // ----- streams that break off -----

  /** One more character completes at most one line. */
  lemma {:induction false} LinesGrow(body: string, c: char)
    ensures |Lines(body + [c])| <= |Lines(body)| + 1
    decreases |body|
  {
    var e := LineEnd(body, 0);
    LineEndMeans(body, 0);
    if e < |body| {
      LinesGrow(body[e + 1..], c);
      LinesSplit(body + [c], e);
      assert (body + [c])[e + 1..] == body[e + 1..] + [c];
    } else if c == '\n' {
      LinesFirst(body, "");
      assert body + "\n" + "" == body + [c];
    } else {
      LineEndIs(body + [c], 0, |body| + 1);
    }
  }

  /** Where the group starts that no blank line has ended yet. */
  lemma {:induction false} OpenGroup(fields: seq<Field>) returns (n: nat)
    ensures n <= |fields| && (n == 0 || fields[n - 1].Blank?)
    ensures forall k :: n <= k < |fields| ==> !fields[k].Blank?
    decreases |fields|
  {
    if fields == [] || fields[|fields| - 1].Blank? {
      n := |fields|;
    } else {
      n := OpenGroup(fields[..|fields| - 1]);
    }
  }

  lemma OpenDelivers(group: seq<Field>, f: Field)
    requires forall k :: 0 <= k < |group| ==> !group[k].Blank?
    ensures Messages(group) == [] && |Messages(group + [f])| <= 1
  {
    BlankAtIs(group, |group|);
    if f.Blank? {
      MessagesGroup(group, []);
      Unit(group + [Blank]);
    } else {
      BlankAtIs(group + [f], |group| + 1);
    }
  }

  lemma GroupGrows(done: seq<Field>, group: seq<Field>, f: Field)
    requires (done == [] || done[|done| - 1].Blank?) && forall k :: 0 <= k < |group| ==> !group[k].Blank?
    ensures |Messages(done + (group + [f]))| <= |Messages(done + group)| + 1
  {
    OpenDelivers(group, f);
    MessagesConcat(done, group);
    MessagesConcat(done, group + [f]);
  }

  /** One more line completes at most one message. */
  lemma MessagesGrow(fields: seq<Field>, f: Field)
    ensures |Messages(fields + [f])| <= |Messages(fields)| + 1
  {
    var n := OpenGroup(fields);
    var done, group := fields[..n], fields[n..];
    GroupGrows(done, group, f);
    Assoc(done, group, [f]);
    assert fields == done + group;
  }

  /** One more character completes at most one message. */
  lemma DeliversGrow(body: string, c: char)
    ensures |Delivers(body + [c])| <= |Delivers(body)| + 1
  {
    LinesGrow(body, c);
    LinesPrefix(body + [c], |body|);
    assert (body + [c])[..|body|] == body;
    OneMoreLine(Lines(body), Lines(body + [c]));
  }

  lemma OneMoreLine(lines: seq<string>, more: seq<string>)
    requires lines <= more && |more| <= |lines| + 1
    ensures |Messages(ReadAll(more))| <= |Messages(ReadAll(lines))| + 1
  {
    if |more| == |lines| {
      assert more == lines;
    } else {
      var last := more[|lines|];
      assert ReadAll(more) == ReadAll(lines) + [Read(last)];
      MessagesGrow(ReadAll(lines), Read(last));
    }
  }

  /** So a stream can break off after any of its messages. */
  lemma {:induction false} CutDelivering(body: string, end: nat, j: nat) returns (k: nat)
    requires end <= |body| && j <= |Delivers(body[..end])|
    ensures k <= |body| && |Delivers(body[..k])| == j
    decreases end
  {
    k := end;
    if j < |Delivers(body[..end])| {
      if end == 0 {
        FieldsNone();
        assert false;
      }
      DeliversGrow(body[..end - 1], body[end - 1]);
      assert body[..end] == body[..end - 1] + [body[end - 1]];
      k := CutDelivering(body, end - 1, j);
    }
  }

  // ----- whole sessions -----

  /** What the server has sent when an attempt ends: a prefix of some writes that it may make. */
  ghost predicate FromServer(may: Piece -> bool, a: S.Attempt) {
    exists ps: seq<Piece> :: Among(may, ps) && a.Received() <= Wire(ps)
  }

  ghost predicate Among(may: Piece -> bool, ps: seq<Piece>) {
    forall k :: 0 <= k < |ps| ==> may(ps[k])
  }

  /** Whatever writes it makes, in whatever order, no stretch of their lines carries an id. */
  ghost predicate NoWritesCarry(may: Piece -> bool) {
    forall ps: seq<Piece> :: Among(may, ps) ==> !AnyCarries(Fields(Wire(ps)))
  }

  function Requests(
    max: int, parse: string -> Option<int>, tries: nat -> S.Attempt, cancelled: nat -> bool, wait: int): seq<string>
  {
    S.Connect(max, S.Outcomes(parse, tries), cancelled, 0, 0, S.Session(wait, "", [], [], [], 0)).last.requests
  }

  /** A connection that always ends the same way, a caller that never gives up, and a client without `retry:`. */
  function Always(a: S.Attempt): nat -> S.Attempt {
    (k: nat) => a
  }

  function Patient(): nat -> bool {
    (k: nat) => false
  }

  function NoDurations(): string -> Option<int> {
    (s: string) => None
  }

  ghost predicate AllFromServer(may: Piece -> bool, tries: nat -> S.Attempt) {
    forall k: nat :: FromServer(may, tries(k))
  }

  /** No request carries a Last-Event-ID. */
  ghost predicate NeverSends(requests: seq<string>) {
    forall k :: 0 <= k < |requests| ==> requests[k] == ""
  }

  lemma {:induction false} AttemptNoIds(may: Piece -> bool, a: S.Attempt)
    requires FromServer(may, a) && NoWritesCarry(may)
    ensures NoIds(Delivers(a.Received()))
  {
    var ps: seq<Piece> :| Among(may, ps) && a.Received() <= Wire(ps);
    MessagesCarry(Fields(Wire(ps)));
    var received := a.Received();
    CutDeliversPrefix(Wire(ps), |received|);
    assert Wire(ps)[..|received|] == received;
    var ms, all := Delivers(received), Delivers(Wire(ps));
    assert forall k :: 0 <= k < |ms| ==> ms[k] == all[k];
  }

  lemma {:induction false} StreamsNoIds(attempts: nat -> S.Outcome, n: nat, m: nat)
    requires forall k: nat :: NoIds(attempts(k).messages)
    ensures NoIds(S.Streams(attempts, n, m))
    decreases m - n
  {
    if n < m {
      StreamsNoIds(attempts, n + 1, m);
      NoIdsConcat(attempts(n).messages, S.Streams(attempts, n + 1, m));
    }
  }

  lemma {:induction false} IdFreeSession(may: Piece -> bool, max: int, parse: string -> Option<int>,
                                         tries: nat -> S.Attempt, cancelled: nat -> bool, wait: int)
    requires NoWritesCarry(may) && AllFromServer(may, tries)
    ensures NeverSends(Requests(max, parse, tries, cancelled, wait))
  {
    var attempts := S.Outcomes(parse, tries);
    forall k: nat
      ensures NoIds(attempts(k).messages)
    {
      AttemptNoIds(may, tries(k));
    }
    S.ReconnectingSession(max, parse, tries, cancelled, wait, "");
    var requests := Requests(max, parse, tries, cancelled, wait);
    forall k | 0 <= k < |requests|
      ensures requests[k] == ""
    {
      StreamsNoIds(attempts, 0, k);
      assert requests[k] == LastId(S.Streams(attempts, 0, k), "");
    }
  }

  /** A stream that breaks off right after its j-th message. */
  lemma CutAfter(text: string, j: nat) returns (received: string)
    requires j < |Delivers(text)|
    ensures received <= text && LastId(Delivers(received), "") == Delivers(text)[j].id
  {
    assert text[..|text|] == text;
    var cut := CutDelivering(text, |text|, j + 1);
    CutDeliversPrefix(text, cut);
    received := text[..cut];
    LastOfPrefix(Delivers(text), j);
    assert Delivers(received) == Delivers(text)[..j + 1];
    TakePrefix(text, cut);
  }

  /** A connection that breaks right after a message with an id. */
  lemma {:induction false} BrokenAfterId(may: Piece -> bool, ps: seq<Piece>) returns (a: S.Attempt)
    requires Among(may, ps) && AnyCarries(Fields(Wire(ps)))
    ensures a.Fails() && FromServer(may, a) && LastId(Delivers(a.Received()), "") != ""
  {
    MessagesCarry(Fields(Wire(ps)));
    var j :| 0 <= j < |Delivers(Wire(ps))| && Delivers(Wire(ps))[j].id != "";
    var received := CutAfter(Wire(ps), j);
    a := S.Response(received, S.Broken);
  }

  lemma LastOfPrefix(ms: seq<Message>, j: nat)
    requires j < |ms|
    ensures LastId(ms[..j + 1], "") == ms[j].id
  {
  }

  lemma TakePrefix(s: string, k: nat)
    requires k <= |s|
    ensures s[..k] <= s
  {
  }

  /** So there is a session that resumes. */
  lemma {:induction false} ResumingSession(may: Piece -> bool, ps: seq<Piece>) returns (tries: nat -> S.Attempt)
    requires Among(may, ps) && AnyCarries(Fields(Wire(ps)))
    ensures AllFromServer(may, tries)
    ensures !NeverSends(Requests(1, NoDurations(), tries, Patient(), 0))
  {
    var a := BrokenAfterId(may, ps);
    tries := Always(a);
    BrokenTwice(a);
  }

  /** A session whose connection breaks sends, the second time, the id the first attempt left behind. */
  lemma {:induction false} BrokenTwice(a: S.Attempt)
    requires a.Fails()
    ensures var requests := Requests(1, NoDurations(), Always(a), Patient(), 0);
            |requests| == 2 && requests[1] == LastId(Delivers(a.Received()), "")
  {
    var parse, tries, cancelled := NoDurations(), Always(a), Patient();
    var attempts := S.Outcomes(parse, tries);
    S.ReconnectingSession(1, parse, tries, cancelled, 0, "");
    assert S.Made(1, attempts, cancelled, 1, 2) == 1;
    assert S.Made(1, attempts, cancelled, 0, 0) == 2;
    assert S.Streams(attempts, 1, 1) == [];
    Unit(attempts(0).messages);
  }

  /** However they fail and reconnect, the sessions with such a server never send a Last-Event-ID. */
  ghost predicate NoSessionResumes(may: Piece -> bool) {
    forall max: int, parse: string -> Option<int>, tries: nat -> S.Attempt, cancelled: nat -> bool, wait: int ::
      AllFromServer(may, tries) ==> NeverSends(Requests(max, parse, tries, cancelled, wait))
  }

  /**
   Exactly when sessions never resume: for a server that may make certain writes, no session ever sends
   a Last-Event-ID if and only if no sequence of these writes carries an id.
   */
  lemma {:induction false} NeverResumes(may: Piece -> bool)
    ensures NoSessionResumes(may) <==> NoWritesCarry(may)
  {
    if NoWritesCarry(may) {
      forall max: int, parse: string -> Option<int>, tries: nat -> S.Attempt, cancelled: nat -> bool, wait: int
        | AllFromServer(may, tries)
        ensures NeverSends(Requests(max, parse, tries, cancelled, wait))
      {
        IdFreeSession(may, max, parse, tries, cancelled, wait);
      }
    } else {
      var ps: seq<Piece> :| Among(may, ps) && AnyCarries(Fields(Wire(ps)));
      var tries := ResumingSession(may, ps);
    }
  }

  /** With clean event names that is a matter of the single payloads. */
  lemma {:induction false} NeverResumesByPayload(may: Piece -> bool)
    requires forall name :: may(EventLine(name)) ==> Clean(EventLine(name))
    ensures NoSessionResumes(may) <==> forall p: Piece :: may(p) ==> !FrameMakesId(p)
  {
    NeverResumes(may);
    if NoWritesCarry(may) {
      forall p: Piece | may(p)
        ensures !FrameMakesId(p)
      {
        OneWriteIds(may, p);
      }
    }
    if forall p: Piece :: may(p) ==> !FrameMakesId(p) {
      forall ps: seq<Piece> | Among(may, ps)
        ensures !AnyCarries(Fields(Wire(ps)))
      {
        assert forall k :: 0 <= k < |ps| && ps[k].EventLine? ==> ps[k] == EventLine(ps[k].name);
        StreamIds(ps);
        MessagesCarry(Fields(Wire(ps)));
      }
    }
  }

  lemma {:induction false} OneWriteIds(may: Piece -> bool, p: Piece)
    requires NoWritesCarry(may) && may(p) && (p.EventLine? ==> Clean(p))
    ensures !FrameMakesId(p)
  {
    var ps := [p];
    assert Among(may, ps);
    StreamIds(ps);
    MessagesCarry(Fields(Wire(ps)));
    assert IdFree(ps) ==> !FrameMakesId(ps[0]);
  }
}
