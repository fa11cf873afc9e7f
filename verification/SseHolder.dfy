/** The server's end of one stream: each call prints its frame on a connection that may break. */
module SseHolder {
  import opened Seqs
  import opened SseServer
  import opened SseCalls

  /** The response writer of a stream. A write either goes out whole, or fails for good. */
  class Connection {
    ghost var pieces: seq<Piece>
    var sent: string
    var broken: bool

    ghost predicate Valid()
      reads this
    {
      sent == Wire(pieces)
    }

    constructor ()
      ensures Valid() && pieces == [] && !broken
    {
      pieces, sent, broken := [], "", false;
    }

    method Write(text: string, ghost piece: Piece) returns (err: bool)
      requires Valid() && text == Print(piece)
      modifies this
      ensures Valid() && err == broken && (old(broken) ==> broken)
      ensures pieces == old(pieces) + if err then [] else [piece]
    {
      if !broken {
        broken := *;
      }
      err := broken;
      if !err {
        WireAppend(pieces, piece);
        sent := sent + text;
        pieces := pieces + [piece];
      }
    }
  }

  lemma {:induction false} WireAppend(ps: seq<Piece>, p: Piece)
    ensures Wire(ps + [p]) == Wire(ps) + Print(p)
  {
    if ps == [] {
      Unit([p]);
      assert [p][1..] == [];
      Unit(Print(p));
    } else {
      WireAppend(ps[1..], p);
      assert (ps + [p])[1..] == ps[1..] + [p];
      Assoc(Print(ps[0]), Wire(ps[1..]), Print(p));
    }
  }

  class Holder {
    const connection: Connection
    const sseID: string
    /** How often the registry was told to forget this holder. */
    var closes: nat

    constructor (connection: Connection, sseID: string)
      ensures this.connection == connection && this.sseID == sseID && closes == 0
    {
      this.connection, this.sseID, closes := connection, sseID, 0;
    }

    /** This call printed all its writes, or the connection broke after some of them and it closed. */
    ghost predicate Printed(c: Call, before: seq<Piece>, closed: nat)
      reads this, connection
    {
      && connection.Valid()
      && (!connection.broken ==> connection.pieces == before + Writes(c) && closes == closed)
      && (connection.broken ==>
            closes == closed + 1
            && exists k :: 0 <= k < |Writes(c)| && connection.pieces == before + Writes(c)[..k])
    }

    method OnRecv(event: string, data: string)
      requires connection.Valid()
      modifies this, connection
      ensures Printed(Call.OnRecv(event, data), old(connection.pieces), old(closes))
    {
      ghost var c := Call.OnRecv(event, data);
      if event != "" {
        var err := connection.Write("event: " + event + "\n", EventLine(event));
        if err {
          closes := closes + 1;
          assert connection.pieces == old(connection.pieces) + Writes(c)[..0];
          return;
        }
      }
      ghost var printed := connection.pieces;
      var err := connection.Write("data: " + data + "\n" + "\n", DataFrame(data));
      if err {
        closes := closes + 1;
        assert printed == old(connection.pieces) + Writes(c)[..|Writes(c)| - 1];
      } else {
        assert connection.pieces == old(connection.pieces) + Writes(c);
      }
    }

    method Heartbeat()
      requires connection.Valid()
      modifies this, connection
      ensures Printed(Call.Heartbeat, old(connection.pieces), old(closes))
    {
      var err := connection.Write(": ping" + "\n" + "\n", Ping);
      if err {
        closes := closes + 1;
        assert connection.pieces == old(connection.pieces) + Writes(Call.Heartbeat)[..0];
      }
    }

    method EchoSSEID()
      requires connection.Valid()
      modifies this, connection
      ensures Printed(Call.EchoSSEID(sseID), old(connection.pieces), old(closes))
    {
      var frame := "event: " + "sseID" + "\n" + ("data: " + sseID + "\n" + "\n");
      var err := connection.Write(frame, IdFrame(sseID));
      if err {
        closes := closes + 1;
        assert connection.pieces == old(connection.pieces) + Writes(Call.EchoSSEID(sseID))[..0];
      }
    }
  }
}
