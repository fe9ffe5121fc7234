/** The two-way relay between a workload's client connection and its browser:
    for every pattern of partial reads and writes, retries, end-of-file and
    errors, the bytes written one way are a prefix of the bytes read, and the
    loop shuts a write side down only after all of them were written. After the
    loop both sockets are shut on every exit, errors included; that is not part
    of this model. */
module Relay {
  import opened Collections

  const BUFFER_BYTES: nat := 16_384

  datatype ReadIo = Bytes(data: seq<byte>) | Eof | ReadAgain | ReadFailed

  /** `Wrote(n)`: the socket took `n` of the offered bytes. */
  datatype WriteIo = Wrote(n: nat) | WriteAgain | WriteFailed

  /** One socket: everything read from it, everything written to it, and whether
      its write side was shut down. */
  class Peer {
    ghost var received: seq<byte>
    var sent: seq<byte>
    var shut: bool

    constructor ()
      ensures received == [] && sent == [] && !shut
    {
      received, sent, shut := [], [], false;
    }
  }

  class Buffer {
    const bytes: array<byte>
    var start: nat
    var end: nat

    ghost predicate Valid()
      reads this, bytes
    {
      && bytes.Length == BUFFER_BYTES && start <= end <= BUFFER_BYTES
      && (start == end ==> end == 0)
      && (forall i | 0 <= i < BUFFER_BYTES :: start <= i < end || bytes[i] == 0)
    }

    ghost function Contents(): seq<byte>
      requires Valid()
      reads this, bytes
    {
      bytes[start..end]
    }

    constructor ()
      ensures Valid() && Contents() == [] && fresh(bytes)
    {
      bytes := new byte[BUFFER_BYTES](i => 0);
      start, end := 0, 0;
    }

    /** Read once into the empty buffer; false at end of file. */
    method Fill(peer: Peer, io: ReadIo) returns (more: bool, ok: bool)
      requires Valid() && end == 0 && (io.Bytes? ==> 0 < |io.data| <= BUFFER_BYTES)
      modifies this, bytes, peer`received
      ensures Valid() && peer.received == old(peer.received) + Contents()
      ensures ok == !io.ReadFailed? && (ok ==> more == !io.Eof?)
      ensures Contents() == if io.Bytes? then io.data else []
    {
      match io {
        case Eof => more, ok := false, true;
        case ReadAgain => more, ok := true, true;
        case ReadFailed => more, ok := true, false;
        case Bytes(data) =>
          forall i | 0 <= i < |data| { bytes[i] := data[i]; }
          peer.received := peer.received + data;
          start, end := 0, |data|;
          assert bytes[..end] == data;
          more, ok := true, true;
      }
    }

    /** Write what one call takes, wiping it. */
    method Flush(peer: Peer, io: WriteIo) returns (ok: bool)
      requires Valid() && end > 0 && (io.Wrote? ==> io.n <= end - start)
      modifies this, bytes, peer`sent
      ensures Valid() && peer.sent + Contents() == old(peer.sent) + old(Contents())
      ensures old(peer.sent) <= peer.sent
      ensures ok == !(io.WriteFailed? || io == Wrote(0))
    {
      match io {
        case WriteFailed => ok := false;
        case WriteAgain => ok := true;
        case Wrote(n) =>
          if n == 0 {
            return false;
          }
          ghost var rest := bytes[start + n..end];
          peer.sent := peer.sent + bytes[start..start + n];
          assert old(Contents()) == bytes[start..start + n] + rest;
          forall i | start <= i < start + n { bytes[i] := 0; }
          start := start + n;
          assert bytes[start..end] == rest;
          if start == end {
            start, end := 0, 0;
          }
          ok := true;
      }
    }
  }

  /** What one turn of the loop meets: the two authority checks, the poll and
      its readiness bits, and the outcome of every transfer. */
  datatype Turn = Turn(
    current: bool, interrupted: bool, polled: bool, still: bool,
    clientReadable: bool, clientWritable: bool, backendReadable: bool, backendWritable: bool, hangup: bool,
    toBackend: WriteIo, toClient: WriteIo, fromClient: ReadIo, fromBackend: ReadIo)

  datatype Outcome = Going | Done | Revoked | Unavailable

  class Connection {
    const client: Peer
    const backend: Peer
    const toBackend: Buffer
    const toClient: Buffer
    var clientEof: bool
    var backendEof: bool
    var clientShut: bool
    var backendShut: bool

    ghost predicate Apart()
      reads this
    {
      && client != backend && toBackend != toClient && toBackend.bytes != toClient.bytes
    }

    /** First in, first out both ways, and shut only when drained. */
    ghost predicate Valid()
      reads this, client, backend, toBackend, toBackend.bytes, toClient, toClient.bytes
    {
      && Apart() && toBackend.Valid() && toClient.Valid()
      && backend.sent + toBackend.Contents() == client.received
      && client.sent + toClient.Contents() == backend.received
      && (backend.shut ==> backendShut) && (client.shut ==> clientShut)
      && (backendShut ==> clientEof && toBackend.end == 0)
      && (clientShut ==> backendEof && toClient.end == 0)
    }

    constructor ()
      ensures Valid() && client.received == [] && backend.received == []
      ensures !clientEof && !backendEof
      ensures fresh(client) && fresh(backend) && fresh(toBackend) && fresh(toBackend.bytes)
      ensures fresh(toClient) && fresh(toClient.bytes)
    {
      client := new Peer();
      backend := new Peer();
      toBackend := new Buffer();
      toClient := new Buffer();
      clientEof, backendEof, clientShut, backendShut := false, false, false, false;
    }

    /** Shut a write side once its source ended and everything was written. */
    method ShutDrained()
      requires Valid()
      modifies this`clientShut, this`backendShut, client`shut, backend`shut
      ensures Valid()
      ensures backend.shut && !old(backend.shut) ==> clientEof && backend.sent == client.received
      ensures client.shut && !old(client.shut) ==> backendEof && client.sent == backend.received
    {
      if clientEof && toBackend.end == 0 && !backendShut {
        backend.shut := true;
        backendShut := true;
      }
      if backendEof && toClient.end == 0 && !clientShut {
        client.shut := true;
        clientShut := true;
      }
    }

    /** Write what is pending in each direction. */
    method FlushBoth(t: Turn) returns (ok: bool)
      requires Valid()
      modifies toBackend, toBackend.bytes, toClient, toClient.bytes, client`sent, backend`sent
      ensures Valid() && client.received == old(client.received) && backend.received == old(backend.received)
      ensures old(client.sent) <= client.sent && old(backend.sent) <= backend.sent
    {
      ok := true;
      if toBackend.end > 0 && t.backendWritable {
        ok := toBackend.Flush(backend, Offered(t.toBackend, toBackend.end - toBackend.start));
        if !ok {
          return;
        }
      }
      if toClient.end > 0 && t.clientWritable {
        ok := toClient.Flush(client, Offered(t.toClient, toClient.end - toClient.start));
      }
    }

    /** Read from the client if its buffer is empty. */
    method FillFromClient(t: Turn) returns (ok: bool)
      requires Valid() && Readable(t)
      modifies this`clientEof, toBackend, toBackend.bytes, client`received
      ensures Valid() && old(client.received) <= client.received
      ensures old(clientEof) ==> clientEof
    {
      ok := true;
      if !clientEof && toBackend.end == 0 && t.clientReadable {
        var more;
        more, ok := toBackend.Fill(client, t.fromClient);
        if ok {
          clientEof := !more;
        }
      }
    }

    /** Read from the browser if its buffer is empty. */
    method FillFromBackend(t: Turn) returns (ok: bool)
      requires Valid() && Readable(t)
      modifies this`backendEof, toClient, toClient.bytes, backend`received
      ensures Valid() && old(backend.received) <= backend.received
      ensures old(backendEof) ==> backendEof
    {
      ok := true;
      if !backendEof && toClient.end == 0 && t.backendReadable {
        var more;
        more, ok := toClient.Fill(backend, t.fromBackend);
        if ok {
          backendEof := !more;
        }
      }
    }

    /** The transfers of one turn: writes first, then reads. */
    method Transfer(t: Turn) returns (ok: bool)
      requires Valid() && Readable(t)
      modifies this`clientEof, this`backendEof, toBackend, toBackend.bytes, toClient, toClient.bytes
      modifies client`sent, backend`sent, client`received, backend`received
      ensures Valid()
      ensures old(client.received) <= client.received && old(backend.received) <= backend.received
      ensures old(client.sent) <= client.sent && old(backend.sent) <= backend.sent
    {
      ok := FlushBoth(t);
      if ok {
        ok := FillFromClient(t);
      }
      if ok {
        ok := FillFromBackend(t);
      }
    }

    /** One turn of the relay loop. */
    method Round(t: Turn) returns (r: Outcome)
      requires Valid() && Readable(t)
      modifies this, toBackend, toBackend.bytes, toClient, toClient.bytes, client, backend
      ensures Valid()
      ensures old(client.received) <= client.received && old(backend.received) <= backend.received
      ensures old(client.sent) <= client.sent && old(backend.sent) <= backend.sent
      ensures backend.shut && !old(backend.shut) ==> old(clientEof) && old(backend.sent == client.received)
      ensures client.shut && !old(client.shut) ==> old(backendEof) && old(client.sent == backend.received)
      ensures r.Done? ==> clientEof && backendEof && backend.sent == client.received && client.sent == backend.received
    {
      if !t.current {
        return Revoked;
      }
      ShutDrained();
      if clientEof && backendEof && toBackend.end == 0 && toClient.end == 0 {
        return Done;
      }
      if t.interrupted {
        return Going;
      }
      if !t.polled {
        return Unavailable;
      }
      if !t.still {
        return Revoked;
      }
      var ok := Transfer(t);
      if !ok || t.hangup {
        return Unavailable;
      }
      r := Going;
    }

    /** The relay over any sequence of turns. Whatever happens, each direction
        has written a prefix of what it read; on success it has written all. */
    method Run(script: seq<Turn>) returns (r: Outcome)
      requires Valid() && client.received == [] && backend.received == []
      requires forall i | 0 <= i < |script| :: Readable(script[i])
      modifies this, toBackend, toBackend.bytes, toClient, toClient.bytes, client, backend
      ensures Valid()
      ensures backend.sent <= client.received && client.sent <= backend.received
      ensures |client.received| - |backend.sent| <= BUFFER_BYTES && |backend.received| - |client.sent| <= BUFFER_BYTES
      ensures r.Done? ==> clientEof && backendEof && backend.sent == client.received && client.sent == backend.received
      ensures backend.shut ==> backend.sent == client.received
      ensures client.shut ==> client.sent == backend.received
    {
      r := Going;
      var i := 0;
      while i < |script| && r.Going?
        invariant 0 <= i <= |script| && Valid()
        invariant r.Done? ==>
                    clientEof && backendEof && backend.sent == client.received && client.sent == backend.received
      {
        r := Round(script[i]);
        i := i + 1;
      }
      Drained();
    }

    /** What the invariant says of the bytes. */
    lemma Drained()
      requires Valid()
      ensures backend.sent <= client.received && client.sent <= backend.received
      ensures |client.received| - |backend.sent| <= BUFFER_BYTES && |backend.received| - |client.sent| <= BUFFER_BYTES
      ensures backendShut ==> backend.sent == client.received
      ensures clientShut ==> client.sent == backend.received
    {
    }
  }

  /** A socket takes at most what it was offered. */
  function Offered(io: WriteIo, size: nat): WriteIo { if io.Wrote? && io.n > size then Wrote(size) else io }

  /** Reads return between one byte and a full buffer. */
  predicate Readable(t: Turn) {
    && (t.fromClient.Bytes? ==> 0 < |t.fromClient.data| <= BUFFER_BYTES)
    && (t.fromBackend.Bytes? ==> 0 < |t.fromBackend.data| <= BUFFER_BYTES)
  }
}
