/** The two ends of a connection: the loops that send a frame and fill a buffer, over a socket that takes and gives
    as many bytes at a time as it likes. */
module Connections {
  import opened Options
  import opened Framing

  /** A peer that never closes or fails while something is sent. */
  predicate Willing(takes: seq<int>) {
    forall i :: 0 <= i < |takes| ==> takes[i] > 0
  }

  lemma Extends(before: seq<byte>, frame: seq<byte>, sent: nat, now: nat)
    requires sent + now <= |frame|
    ensures before + frame[..sent] + frame[sent..][..now] == before + frame[..sent + now]
  {
    Join(before, frame[..sent], frame[sent..][..now]);
    assert frame[..sent] + frame[sent..][..now] == frame[..sent + now];
  }

  /** What the operating system does with the next calls: `takes` are the results of `send`, `cuts` those of
      `recv`. */
  class Socket {
    var incoming: seq<byte>
    var cuts: seq<Cut>
    var outgoing: seq<byte>
    var takes: seq<int>

    constructor (incoming: seq<byte>, cuts: seq<Cut>, takes: seq<int>)
      ensures View() == Stream(incoming, cuts) && this.takes == takes && outgoing == []
    {
      this.incoming, this.cuts, this.takes, outgoing := incoming, cuts, takes, [];
    }

    function View(): Stream
      reads this
    {
      Stream(incoming, cuts)
    }

    /** The piece and its length, 0 when the stream has ended, -1 on an error. */
    method Recv(asked: nat) returns (now: int, chunk: seq<byte>)
      modifies this`incoming, this`cuts
      ensures chunk == Chunk(old(View()), asked) && View() == Rest(old(View()), asked)
      ensures now == if Fails(old(View())) then -1 else |chunk|
    {
      chunk := Chunk(View(), asked);
      now := if Fails(View()) then -1 else |chunk|;
      var rest := Rest(View(), asked);
      incoming, cuts := rest.incoming, rest.cuts;
    }

    /** The number of bytes taken from the front, 0 when the peer closed, -1 on an error. */
    method Send(bytes: seq<byte>) returns (n: int)
      requires bytes != []
      modifies this`outgoing, this`takes
      ensures -1 <= n <= |bytes|
      ensures outgoing == old(outgoing) + if n > 0 then bytes[..n] else []
      ensures Willing(old(takes)) ==> n > 0 && Willing(takes)
    {
      n := |bytes|;
      if takes != [] {
        n := if takes[0] > |bytes| then |bytes| else if takes[0] < 0 then -1 else takes[0];
        takes := takes[1..];
      }
      outgoing := outgoing + if n > 0 then bytes[..n] else [];
    }
  }

  datatype ConnectionState = CONNECTED | CONNECTION_CLOSED | CONNECTION_FAILURE

  class Connection {
    const socket: Socket
    var state: ConnectionState

    constructor (socket: Socket)
      ensures this.socket == socket && state == CONNECTED
    {
      this.socket, state := socket, CONNECTED;
    }

    /** The whole frame goes out, in pieces, or the connection is given up after a proper part of it. */
    method SendMessage(p: Packet) returns (ok: bool)
      requires Sendable(p)
      modifies this`state, socket`outgoing, socket`takes
      ensures ok ==> socket.outgoing == old(socket.outgoing) + Seal(p) && state == old(state)
      ensures !ok ==> state != CONNECTED &&
                      exists k: nat :: k < |Seal(p)| && socket.outgoing == old(socket.outgoing) + Seal(p)[..k]
      ensures old(state == CONNECTED && Willing(socket.takes)) ==> ok
    {
      var frame := Seal(p);
      var sent: nat := 0;
      assert old(socket.outgoing) + frame[..0] == old(socket.outgoing);
      if state != CONNECTED {
        return false;
      }
      while sent < |frame|
        invariant sent <= |frame| && state == CONNECTED
        invariant socket.outgoing == old(socket.outgoing) + frame[..sent]
        invariant Willing(old(socket.takes)) ==> Willing(socket.takes)
      {
        var now := socket.Send(frame[sent..]);
        if now == 0 {
          state := CONNECTION_CLOSED;
          return false;
        }
        if now == -1 {
          state := CONNECTION_FAILURE;
          return false;
        }
        Extends(old(socket.outgoing), frame, sent, now);
        sent := sent + now;
      }
      assert frame[..sent] == frame;
      return true;
    }

    /** Fills the buffer, asking for its whole length each time. `overrun` is a piece that does not fit into it. */
    method ReceiveBytes(buffer: array<byte>) returns (ok: bool, overrun: bool)
      modifies this`state, socket`incoming, socket`cuts, buffer
      ensures var (fetched, rest) := Fill(FullCount, old(socket.View()), buffer.Length, []);
        && socket.View() == rest
        && ok == fetched.Got? && overrun == fetched.Overrun?
        && (ok ==> buffer[..] == fetched.bytes && state == old(state))
        && (fetched.Closed? ==> state == CONNECTION_CLOSED) && (fetched.Failed? ==> state == CONNECTION_FAILURE)
    {
      var received := 0;
      ghost var whole := Fill(FullCount, socket.View(), buffer.Length, []);
      assert buffer[..0] == [];
      ghost var before := state;
      while received < buffer.Length
        invariant received <= buffer.Length && state == before
        invariant Fill(FullCount, socket.View(), buffer.Length, buffer[..received]) == whole
        decreases buffer.Length - received
      {
        FillStep(socket.View(), buffer.Length, buffer[..received]);
        var now := ReceivePiece(buffer, received);
        if now == 0 {
          state := CONNECTION_CLOSED;
          return false, false;
        }
        if now == -1 {
          state := CONNECTION_FAILURE;
          return false, false;
        }
        if received + now > buffer.Length {
          return false, true;
        }
        received := received + now;
      }
      assert buffer[..received] == buffer[..];
      FillDone(socket.View(), buffer[..]);
      return true, false;
    }

    /** One `recv` into the buffer behind what it holds; a piece that does not fit is not written. */
    method ReceivePiece(buffer: array<byte>, received: nat) returns (now: int)
      requires received < buffer.Length
      modifies socket`incoming, socket`cuts, buffer
      ensures var w := old(socket.View());
        var chunk := Chunk(w, buffer.Length);
        && socket.View() == Rest(w, buffer.Length)
        && now == (if Fails(w) then -1 else |chunk|)
        && (received + now <= buffer.Length && now >= 0 ==>
              buffer[..received + now] == old(buffer[..received]) + chunk)
    {
      var chunk;
      now, chunk := socket.Recv(buffer.Length);
      if received + |chunk| <= buffer.Length {
        CopyInto(buffer, received, chunk);
      }
    }

    method CopyInto(buffer: array<byte>, at: nat, chunk: seq<byte>)
      requires at + |chunk| <= buffer.Length
      modifies buffer
      ensures buffer[..at + |chunk|] == old(buffer[..at]) + chunk
    {
      for i := 0 to |chunk|
        invariant buffer[..at] == old(buffer[..at]) && buffer[at..at + i] == chunk[..i]
      {
        buffer[at + i] := chunk[i];
      }
      Joined(buffer[..], at, old(buffer[..at]), chunk);
    }

    /** A message: the header, then as many bytes as it announces. */
    method Receive() returns (packet: Option<Packet>)
      modifies this`state, socket`incoming, socket`cuts
      ensures (packet, socket.View()) == ReceiveMsg(FullCount, old(socket.View()))
    {
      var header := new byte[HEADER_SIZE];
      var ok, _ := ReceiveBytes(header);
      if !ok {
        return None;
      }
      var h := Load(header[..]);
      if h.None? {
        return None;
      }
      var body := new byte[h.value.size];
      var filled, _ := ReceiveBytes(body);
      if !filled {
        return None;
      }
      return Some(Packet(h.value.session, body[..]));
    }
  }

  lemma Joined(buffer: seq<byte>, received: nat, got: seq<byte>, chunk: seq<byte>)
    requires received + |chunk| <= |buffer| && buffer[..received] == got
    requires buffer[received..received + |chunk|] == chunk
    ensures buffer[..received + |chunk|] == got + chunk
  {
    assert buffer[..received + |chunk|] == buffer[..received] + buffer[received..received + |chunk|];
  }

  lemma FillDone(w: Stream, got: seq<byte>)
    ensures Fill(FullCount, w, |got|, got) == (Got(got), w)
  {
  }

  /** One turn of the receive loop. */
  lemma FillStep(w: Stream, n: nat, got: seq<byte>)
    requires |got| < n
    ensures var chunk, rest := Chunk(w, n), Rest(w, n);
      Fill(FullCount, w, n, got) ==
      if Fails(w) then (Failed, rest)
      else if chunk == [] then (Closed, rest)
      else if |got| + |chunk| > n then (Overrun, rest)
      else Fill(FullCount, rest, n, got + chunk)
  {
    if Chunk(w, n) != [] && |got| + |Chunk(w, n)| > n {
      assert Fill(FullCount, Rest(w, n), n, got + Chunk(w, n)) == (Overrun, Rest(w, n));
    }
  }

  /** One frame after the other on the wire is what a list of messages looks like. */
  lemma {:induction false} SealAllSnoc(ps: seq<Packet>, p: Packet)
    requires AllSendable(ps) && Sendable(p)
    ensures AllSendable(ps + [p]) && SealAll(ps + [p]) == SealAll(ps) + Seal(p)
    decreases ps
  {
    if ps == [] {
      assert ps + [p] == [p] && [p][1..] == [];
    } else {
      assert (ps + [p])[1..] == ps[1..] + [p];
      SealAllSnoc(ps[1..], p);
      Join(Seal(ps[0]), SealAll(ps[1..]), Seal(p));
    }
  }
}
