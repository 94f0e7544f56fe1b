/** Buffered sockets (src/LocalClient.cpp) and the messages sent and received over them
    (src/Connection.cpp). The socket is a source of results: how much it takes of what it is
    offered, and which chunks it has to give. */
module Wire {
  import opened Framing
  import opened Native

  /** What send() answers: how many bytes it is willing to take, or an error. */
  datatype SendResult = Takes(n: nat) | WouldBlock | Fails

  const MAX_BUFFER_SIZE := 1024 * 1024 * 16

  function Joined(bs: seq<seq<byte>>): seq<byte> {
    if bs == [] then [] else bs[0] + Joined(bs[1..])
  }

  /** What the queued buffers hold beyond the part of the first one that was sent. */
  function Unsent(bs: seq<seq<byte>>, i: nat): seq<byte>
    requires bs != [] ==> i <= |bs[0]|
  {
    if bs == [] then [] else bs[0][i..] + Joined(bs[1..])
  }

  lemma UnsentAdvances(bs: seq<seq<byte>>, i: nat, w: nat)
    requires bs != [] && i + w <= |bs[0]|
    ensures Unsent(bs, i) == bs[0][i..i + w] + Unsent(bs, i + w)
  {
    var a, b := bs[0][i..i + w], bs[0][i + w..];
    assert bs[0][i..] == a + b;
    SumOfThree(a, b, Joined(bs[1..]));
  }

  lemma TakesNext(queued: seq<byte>, sent: seq<byte>, bs: seq<seq<byte>>, i: nat, w: nat)
    requires bs != [] && i + w <= |bs[0]| && queued == sent + Unsent(bs, i)
    ensures queued == (sent + bs[0][i..i + w]) + Unsent(bs, i + w)
    ensures i + w == |bs[0]| ==> queued == (sent + bs[0][i..i + w]) + Unsent(bs[1..], 0)
  {
    UnsentAdvances(bs, i, w);
    SumOfThree(sent, bs[0][i..i + w], Unsent(bs, i + w));
    UnsentPops(bs);
  }

  lemma UnsentPops(bs: seq<seq<byte>>)
    requires bs != []
    ensures Unsent(bs, |bs[0]|) == Unsent(bs[1..], 0)
  {
    assert |bs| > 1 ==> bs[1..][0][0..] == bs[1];
  }

  lemma {:induction false} JoinedOfAppend(bs: seq<seq<byte>>, b: seq<byte>)
    ensures Joined(bs + [b]) == Joined(bs) + b
  {
    if bs == [] {
      assert bs + [b] == [b] && Joined([b]) == b + Joined([]);
    } else {
      assert (bs + [b])[1..] == bs[1..] + [b];
      JoinedOfAppend(bs[1..], b);
    }
  }

  lemma UnsentOfAppend(bs: seq<seq<byte>>, i: nat, b: seq<byte>)
    requires (bs != [] ==> i <= |bs[0]|) && (bs == [] ==> i == 0)
    ensures Unsent(bs + [b], i) == Unsent(bs, i) + b
  {
    if bs == [] {
      assert (bs + [b])[1..] == [] && b[0..] == b;
    } else {
      assert (bs + [b])[1..] == bs[1..] + [b];
      JoinedOfAppend(bs[1..], b);
    }
  }

  /** The chunks can be read without exhausting the buffer: unread counts the bytes in it that
      have not been taken. */
  predicate Fits(unread: nat, chunks: seq<seq<byte>>)
    decreases |chunks|
  {
    chunks == []
    || (unread + 2 * |chunks[0]| < MAX_BUFFER_SIZE && Fits(unread + |chunks[0]|, chunks[1..]))
  }

  /** What is left to be sent, and whether there was no error, once the socket has given its
      results from the k-th on; when there are no more it would block. */
  function Sending(bs: seq<seq<byte>>, i: nat, results: seq<SendResult>, k: nat): (r: (seq<seq<byte>>, nat, bool))
    requires k <= |results| && (bs != [] ==> i <= |bs[0]|)
    ensures (r.0 != [] ==> r.1 <= |r.0[0]|) && (r.0 == [] ==> r.1 == if bs == [] then i else 0)
    decreases |results| - k
  {
    if bs == [] || k == |results| || results[k].WouldBlock? then (bs, i, true)
    else if results[k].Fails? then (bs, i, false)
    else
      var w := if results[k].n <= |bs[0]| - i then results[k].n else |bs[0]| - i;
      if i + w == |bs[0]| then Sending(bs[1..], 0, results, k + 1) else Sending(bs, i + w, results, k + 1)
  }

  /** Likewise for a frame: its size is queued and sent, then its data, unless there was an error. */
  function SendingFrame(bs: seq<seq<byte>>, i: nat, f: Frame, first: seq<SendResult>, second: seq<SendResult>)
    : (r: (seq<seq<byte>>, nat, bool))
    requires if bs == [] then i == 0 else i <= |bs[0]|
    ensures if r.0 == [] then r.1 == 0 else r.1 <= |r.0[0]|
  {
    var (bs', i', ok) := Sending(bs + [f.size], i, first, 0);
    if ok then Sending(bs' + [f.data], i', second, 0) else (bs', i', false)
  }

  lemma UnreadGrows(received: seq<byte>, taken: seq<byte>, buffer: seq<byte>, at: nat, chunk: seq<byte>)
    requires at <= |buffer| && received == taken + buffer[at..]
    ensures received + chunk == taken + (buffer + chunk)[at..]
  {
    assert (buffer + chunk)[at..] == buffer[at..] + chunk;
    SumOfThree(taken, buffer[at..], chunk);
  }

  /** A stream socket, which takes the first bytes of what it is offered, as many as it is willing
      to. The wire is every byte it ever took, in order. */
  class Socket {
    ghost var wire: seq<byte>

    constructor ()
      ensures wire == []
    {
      wire := [];
    }

    /** send() */
    method Send(offered: seq<byte>, result: SendResult) returns (n: int)
      modifies this
      ensures if result.Takes?
              then n == (if result.n <= |offered| then result.n else |offered|) && wire == old(wire) + offered[..n]
              else n == -1 && wire == old(wire)
    {
      n := -1;
      if result.Takes? {
        n := if result.n <= |offered| then result.n else |offered|;
        wire := wire + offered[..n];
      }
    }
  }

  /** Sending has come to its end at this result: nothing is left, there are no more results, or
      the socket took nothing. It failed exactly if that was for an error. */
  ghost predicate StopsAt(results: seq<SendResult>, used: nat, nothingLeft: bool, ok: bool) {
    && used <= |results| && (forall k :: 0 <= k < used ==> results[k].Takes?)
    && (nothingLeft || used == |results| || !results[used].Takes?)
    && (!ok <==> !nothingLeft && used < |results| && results[used].Fails?)
  }

  /** So many bytes more are on the wire. */
  ghost predicate Grown(before: seq<byte>, after: seq<byte>, n: nat) {
    before <= after && |after| == |before| + n
  }

  lemma GrownOn(a: seq<byte>, b: seq<byte>, c: seq<byte>, m: nat, n: nat)
    requires Grown(a, b, m) && Grown(b, c, n)
    ensures Grown(a, c, m + n)
  {
  }

  ghost predicate Stops(results: seq<SendResult>, nothingLeft: bool, ok: bool) {
    exists used :: StopsAt(results, used, nothingLeft, ok)
  }

  /** One send, of which the socket takes at most n bytes. */
  lemma SendingTakes(bs: seq<seq<byte>>, i: nat, n: nat)
    requires bs != [] && i <= |bs[0]|
    ensures var (bs', i', ok) := Sending(bs, i, [Takes(n)], 0);
      ok && Unsent(bs', i') == Unsent(bs, i)[if n <= |bs[0]| - i then n else |bs[0]| - i..]
  {
    var w := if n <= |bs[0]| - i then n else |bs[0]| - i;
    UnsentAdvances(bs, i, w);
    UnsentPops(bs);
    SendingOne(bs, i, n);
  }

  lemma SendingOne(bs: seq<seq<byte>>, i: nat, n: nat)
    requires bs != [] && i <= |bs[0]|
    ensures var w := if n <= |bs[0]| - i then n else |bs[0]| - i;
      Sending(bs, i, [Takes(n)], 0) == if i + w == |bs[0]| then (bs[1..], 0, true) else (bs, i + w, true)
  {
    var results := [Takes(n)];
    assert results[0] == Takes(n) && |results| == 1;
  }

  /** Sending with some results, and then with others. */
  lemma {:induction false} SendingOn(bs: seq<seq<byte>>, i: nat, results: seq<SendResult>, k: nat, n: nat)
    requires k <= n <= |results| && (bs != [] ==> i <= |bs[0]|) && forall j :: k <= j < n ==> results[j].Takes?
    ensures var (bs', i', ok) := Sending(bs, i, results[..n], k);
      ok && Sending(bs, i, results, k) == Sending(bs', i', results, n)
    decreases n - k
  {
    if k < n && bs != [] {
      var w := if results[k].n <= |bs[0]| - i then results[k].n else |bs[0]| - i;
      if i + w == |bs[0]| {
        SendingOn(bs[1..], 0, results, k + 1, n);
      } else {
        SendingOn(bs, i + w, results, k + 1, n);
      }
    }
  }

  class LocalClient {
    var connected: bool
    var buffers: seq<seq<byte>>
    var bufferIdx: nat
    var readBuffer: seq<byte>
    var readBufferPos: nat

    const socket: Socket

    // all bytes ever passed to write(), read from the socket, and taken by read()
    ghost var queued: seq<byte>
    ghost var received: seq<byte>
    ghost var taken: seq<byte>

    /** Every byte that was queued is on its way, or still held, in order. */
    ghost predicate WriterValid()
      reads this, socket
    {
      && (buffers == [] ==> bufferIdx == 0) && (buffers != [] ==> bufferIdx <= |buffers[0]|)
      && queued == socket.wire + Unsent(buffers, bufferIdx)
    }

    ghost predicate ReaderValid()
      reads this
    {
      readBufferPos <= |readBuffer| && received == taken + readBuffer[readBufferPos..]
    }

    ghost predicate Valid()
      reads this, socket
    {
      WriterValid() && ReaderValid()
    }

    constructor ()
      ensures Valid() && connected && buffers == [] && fresh(socket)
      ensures queued == socket.wire == received == taken == []
    {
      socket := new Socket();
      connected, buffers, bufferIdx, readBuffer, readBufferPos := true, [], 0, [], 0;
      queued, received, taken := [], [], [];
    }

    function BytesAvailable(): int
      reads this
    {
      |readBuffer| - readBufferPos
    }

    method Read(size: nat) returns (b: seq<byte>)
      requires ReaderValid()
      modifies `readBuffer, `readBufferPos, `taken
      ensures ReaderValid() && taken == old(taken) + b
      ensures |b| == if size <= old(BytesAvailable()) then size else old(BytesAvailable())
      ensures |taken| <= |received| && received[|old(taken)|..|taken|] == b
    {
      var n := if BytesAvailable() <= size then BytesAvailable() else size;
      b := readBuffer[readBufferPos..readBufferPos + n];
      assert readBuffer[readBufferPos..] == b + readBuffer[readBufferPos + n..];
      taken := taken + b;
      if n > 0 {
        readBufferPos := readBufferPos + n;
        if |readBuffer| == readBufferPos {
          readBuffer, readBufferPos := [], 0;
        }
      }
    }

    /** How many of the bytes received are neither taken nor still to be had. */
    ghost function Missing(): int
      reads this
    {
      |received| - |taken| - if BytesAvailable() < 0 then 0 else BytesAvailable()
    }

    /** Puts a chunk behind the bytes not taken yet, and makes room at the front if it must. If
        there are too many it drops them all, but not the position: after a drop with some bytes
        taken, fewer than no bytes are available. What is missing is missing for good. */
    method Append(chunk: seq<byte>)
      modifies `readBuffer, `readBufferPos, `received
      ensures received == old(received) + chunk && Missing() >= old(Missing())
      ensures old(ReaderValid()) && old(BytesAvailable()) + 2 * |chunk| < MAX_BUFFER_SIZE ==>
        ReaderValid() && BytesAvailable() == old(BytesAvailable()) + |chunk|
      ensures old(ReaderValid()) && old(BytesAvailable()) + 2 * |chunk| >= MAX_BUFFER_SIZE ==>
        Missing() > 0 && BytesAvailable() == 0 - old(readBufferPos)
    {
      if ReaderValid() {
        UnreadGrows(received, taken, readBuffer, readBufferPos, chunk);
      }
      received, readBuffer := received + chunk, readBuffer + chunk;
      if |readBuffer| + |chunk| >= MAX_BUFFER_SIZE {
        if |readBuffer| + |chunk| - readBufferPos < MAX_BUFFER_SIZE {
          readBuffer := if readBufferPos <= |readBuffer| then readBuffer[readBufferPos..] else [];
          readBufferPos := 0;
        } else {
          readBuffer := [];
        }
      }
    }

    /** readMore(): receives all the chunks there are, and keeps them exactly if they fit. */
    method ReadMore(chunks: seq<seq<byte>>)
      requires ReaderValid()
      modifies `readBuffer, `readBufferPos, `received
      ensures received == old(received) + Joined(chunks)
      ensures ReaderValid() <==> Fits(old(BytesAvailable()), chunks)
      ensures ReaderValid() <==> Missing() == 0
    {
      var i := 0;
      assert chunks[0..] == chunks;
      while i < |chunks|
        invariant 0 <= i <= |chunks| && received + Joined(chunks[i..]) == old(received) + Joined(chunks)
        invariant if Missing() > 0 then !Fits(old(BytesAvailable()), chunks)
                  else ReaderValid() && (Fits(BytesAvailable(), chunks[i..]) <==> Fits(old(BytesAvailable()), chunks))
      {
        assert chunks[i..][0] == chunks[i] && chunks[i..][1..] == chunks[i + 1..];
        SumOfThree(received, chunks[i], Joined(chunks[i + 1..]));
        Append(chunks[i]);
        i := i + 1;
      }
    }

    /** The socket has taken the next w bytes of the first buffer. */
    method Advance(w: nat, ghost before: seq<byte>)
      requires buffers != [] && bufferIdx + w <= |buffers[0]| && queued == before + Unsent(buffers, bufferIdx)
      requires socket.wire == before + buffers[0][bufferIdx..bufferIdx + w]
      modifies `buffers, `bufferIdx
      ensures WriterValid()
      ensures if old(bufferIdx) + w == |old(buffers)[0]| then buffers == old(buffers)[1..] && bufferIdx == 0
              else buffers == old(buffers) && bufferIdx == old(bufferIdx) + w
    {
      TakesNext(queued, before, buffers, bufferIdx, w);
      bufferIdx := bufferIdx + w;
      if bufferIdx == |buffers[0]| {
        buffers, bufferIdx := buffers[1..], 0;
      }
    }

    /** The k-th send(): the socket takes some of the first buffer and may be offered more, or not.
        When there are no more results it would block. */
    method Offer(results: seq<SendResult>, k: nat, ghost end: (seq<seq<byte>>, nat, bool))
      returns (w: int, error: bool)
      requires WriterValid() && buffers != [] && k <= |results| && Sending(buffers, bufferIdx, results, k) == end
      modifies `buffers, `bufferIdx, socket
      ensures WriterValid()
      ensures if k < |results| && results[k].Takes?
              then w >= 0 && Grown(old(socket.wire), socket.wire, w)
                   && Sending(buffers, bufferIdx, results, k + 1) == end
              else w == -1 && socket.wire == old(socket.wire) && end == (buffers, bufferIdx, !error)
                   && buffers == old(buffers)
      ensures error <==> k < |results| && results[k].Fails?
    {
      var result := if k < |results| then results[k] else WouldBlock;
      ghost var before := socket.wire;
      w := socket.Send(buffers[0][bufferIdx..], result);
      error := result.Fails?;
      if w != -1 {
        assert buffers[0][bufferIdx..][..w] == buffers[0][bufferIdx..bufferIdx + w];
        Advance(w, before);
      }
    }

    /** writeMore(): sends in order, until nothing is left or the socket takes no more. It reports
        false for an error, and how much it has sent. */
    method WriteMore(results: seq<SendResult>) returns (ok: bool, written: nat)
      requires WriterValid()
      modifies `buffers, `bufferIdx, socket
      ensures WriterValid() && Grown(old(socket.wire), socket.wire, written)
      ensures Stops(results, buffers == [], ok)
      ensures (buffers, bufferIdx, ok) == Sending(old(buffers), old(bufferIdx), results, 0)
    {
      ok, written := true, 0;
      var i := 0;
      ghost var end := Sending(buffers, bufferIdx, results, 0);
      while buffers != []
        invariant i <= |results| && WriterValid()
        invariant Grown(old(socket.wire), socket.wire, written)
        invariant ok && Sending(buffers, bufferIdx, results, i) == end
        invariant forall k :: 0 <= k < i ==> results[k].Takes?
        decreases |results| - i
      {
        ghost var before := socket.wire;
        var w, error := Offer(results, i, end);
        if w == -1 {
          ok := !error;
          break;
        }
        GrownOn(old(socket.wire), before, socket.wire, written, w);
        i := i + 1;
        written := written + w;
      }
      assert StopsAt(results, i, buffers == [], ok);
    }

    method Write(data: seq<byte>, results: seq<SendResult>) returns (ok: bool, written: nat)
      requires WriterValid()
      modifies `buffers, `bufferIdx, socket, `queued
      ensures WriterValid() && Grown(old(socket.wire), socket.wire, written)
      ensures queued == old(queued) + data
      ensures (buffers, bufferIdx, ok) == Sending(old(buffers) + [data], old(bufferIdx), results, 0)
    {
      UnsentOfAppend(buffers, bufferIdx, data);
      SumOfThree(socket.wire, Unsent(buffers, bufferIdx), data);
      buffers, queued := buffers + [data], queued + data;
      ok, written := WriteMore(results);
    }
  }

  lemma AllSent(client: LocalClient)
    requires client.WriterValid()
    ensures client.socket.wire == client.queued <==> Unsent(client.buffers, client.bufferIdx) == []
    ensures |client.queued| == |client.socket.wire| + |Unsent(client.buffers, client.bufferIdx)|
  {
  }

  ghost predicate IsStream(queued: seq<byte>, ms: seq<Message>, lost: nat)
    requires AllSendable(ms)
  {
    lost == 0 ==> queued == Stream(Frames(ms), |ms|)
  }

  lemma IsStreamSends(queued: seq<byte>, ms: seq<Message>, lost: nat, m: Message, queued': seq<byte>, lost': nat)
    requires AllSendable(ms) && Sendable(m) && IsStream(queued, ms, lost) && lost' >= lost
    requires lost' == lost ==> queued' == queued + (FrameOf(m).size + FrameOf(m).data)
    ensures AllSendable(ms + [m]) && IsStream(queued', ms + [m], lost')
  {
    StreamSends(ms, m);
  }

  /** A connection and its client, on the loop thread. peer is what the other side sends; outgoing
      what this side was asked to send; lost counts bytes of messages whose size was queued and
      whose data was not, after an error. */
  class Connection {
    const client: LocalClient
    const silent: bool
    const known: set<int32>
    ghost const peer: seq<Message>
    var pendingRead: int
    var pendingWrite: int
    var done: bool
    var delivered: seq<Message>
    ghost var messages: nat
    ghost var outgoing: seq<Message>
    ghost var lost: nat

    ghost function Reading(): Progress
      reads this, client, client.socket
    {
      Progress(|client.taken|, messages, pendingRead, delivered)
    }

    ghost predicate ReaderValid()
      reads this, client, client.socket
    {
      client.ReaderValid() && AllSendable(peer) && OnTrack(peer, known, client.received, Reading())
    }

    /** mPendingWrite counts the bytes queued and not sent, and those that never will be; unless
        there are any of these, what was queued is what was to be sent. */
    ghost predicate WriterValid()
      reads this, client, client.socket
    {
      && client.WriterValid() && AllSendable(outgoing)
      && pendingWrite == |client.queued| - |client.socket.wire| + lost
      && IsStream(client.queued, outgoing, lost)
    }

    constructor (silent: bool, known: set<int32>, ghost peer: seq<Message>)
      requires AllSendable(peer)
      ensures ReaderValid() && WriterValid() && fresh(client) && fresh(client.socket) && !done
      ensures this.silent == silent && this.known == known && this.peer == peer
      ensures client.connected && client.received == client.queued == [] && client.buffers == []
      ensures outgoing == [] && lost == 0
    {
      client := new LocalClient();
      this.silent, this.known, this.peer := silent, known, peer;
      pendingRead, pendingWrite, done, delivered := 0, 0, false, [];
      messages, outgoing, lost := 0, [], 0;
    }

    method TakeSize()
      requires ReaderValid() && pendingRead == 0 && client.BytesAvailable() >= 4
      modifies this`pendingRead, client`readBuffer, client`readBufferPos, client`taken
      ensures client.ReaderValid() && Sized(peer, known, client.received, Reading())
    {
      SizeNext(peer, known, client.received, Reading());
      var size := client.Read(4);
      pendingRead := Value(size);
    }

    method TakeData()
      requires client.ReaderValid() && AllSendable(peer)
      requires Sized(peer, known, client.received, Reading()) && client.BytesAvailable() >= pendingRead
      modifies this`pendingRead, this`delivered, this`messages, client`readBuffer, client`readBufferPos, client`taken
      ensures ReaderValid() && messages == old(messages) + 1 && pendingRead == 0
    {
      ghost var p := Reading();
      var data := client.Read(pendingRead);
      DataNext(peer, known, client.received, p, data);
      delivered := Delivered(delivered, data, known);
      messages := messages + 1;
      pendingRead := 0;
      assert Reading() == Progress(p.taken + p.pendingRead, p.messages + 1, 0, Delivered(p.delivered, data, known));
    }

    /** dataAvailable(): takes every message that is complete. */
    method DataAvailable()
      requires ReaderValid()
      modifies this`pendingRead, this`delivered, this`messages, client`readBuffer, client`readBufferPos, client`taken
      ensures ReaderValid() && Drained(client.received, Reading())
    {
      while true
        invariant ReaderValid()
        decreases |peer| - messages
      {
        if pendingRead == 0 {
          if client.BytesAvailable() < 4 {
            break;
          }
          TakeSize();
        }
        if client.BytesAvailable() < pendingRead {
          break;
        }
        TakeData();
      }
    }

    /** readMore() and the signal it emits. */
    method OnReadable(chunks: seq<seq<byte>>)
      requires ReaderValid() && Fits(client.BytesAvailable(), chunks)
      requires client.received + Joined(chunks) <= Stream(Frames(peer), |peer|)
      modifies this`pendingRead, this`delivered, this`messages
      modifies client`readBuffer, client`readBufferPos, client`taken, client`received
      ensures ReaderValid() && client.received == old(client.received) + Joined(chunks)
      ensures Drained(client.received, Reading())
    {
      client.ReadMore(chunks);
      DataAvailable();
    }

    /** dataWritten(): it closes the connection, once that is finished, when all is sent. */
    method DataWritten(bytes: int) returns (complete: bool)
      requires 0 <= bytes <= pendingWrite
      modifies this`pendingWrite, client`connected
      ensures pendingWrite == old(pendingWrite) - bytes
      ensures complete <==> pendingWrite == 0 && bytes > 0
      ensures client.connected == (old(client.connected) && !(done && pendingWrite == 0))
    {
      pendingWrite := pendingWrite - bytes;
      complete := false;
      if pendingWrite == 0 {
        complete := bytes > 0;
        if done {
          client.connected := false;
        }
      }
    }

    /** write() of the client, and the signal it emits. */
    method Write(data: seq<byte>, results: seq<SendResult>, ghost uncounted: nat) returns (ok: bool)
      requires client.WriterValid() && pendingWrite == |client.queued| + |data| + uncounted - |client.socket.wire|
      modifies this`pendingWrite, client`connected, client`buffers, client`bufferIdx, client.socket, client`queued
      ensures client.WriterValid() && pendingWrite == |client.queued| + uncounted - |client.socket.wire|
      ensures client.queued == old(client.queued) + data
      ensures client.connected
        == (old(client.connected) && !(done && pendingWrite == 0 && |client.socket.wire| > |old(client.socket.wire)|))
      ensures |client.socket.wire| >= |old(client.socket.wire)|
      ensures (client.buffers, client.bufferIdx, ok)
           == Sending(old(client.buffers) + [data], old(client.bufferIdx), results, 0)
    {
      var written;
      ok, written := client.Write(data, results);
      if written > 0 {
        var _ := DataWritten(written);
      }
    }

    /** The part of send() that queues a frame. */
    method SendFrame(f: Frame, first: seq<SendResult>, second: seq<SendResult>) returns (ok: bool)
      requires client.WriterValid() && pendingWrite == |client.queued| - |client.socket.wire| + lost && |f.size| > 0
      modifies this`pendingWrite, this`lost
      modifies client`connected, client`buffers, client`bufferIdx, client.socket, client`queued
      ensures client.WriterValid() && pendingWrite == |client.queued| - |client.socket.wire| + lost
      ensures client.connected == (old(client.connected) && !(done && pendingWrite == 0))
      ensures lost == old(lost) ==> client.queued == old(client.queued) + (f.size + f.data)
      ensures (client.buffers, client.bufferIdx, ok)
           == SendingFrame(old(client.buffers), old(client.bufferIdx), f, first, second)
      ensures lost == old(lost)
        + if Sending(old(client.buffers) + [f.size], old(client.bufferIdx), first, 0).2 then 0 else |f.data|
    {
      SumOfThree(client.queued, f.size, f.data);
      pendingWrite := pendingWrite + |f.size| + |f.data|;
      ok := Write(f.size, first, |f.data| + lost);
      if ok {
        ok := Write(f.data, second, lost);
      } else {
        lost := lost + |f.data|;
        if f.data == [] {
          assert client.queued + f.data == client.queued;
        }
      }
    }

    /** send(): queues the size and the data of a message, the data only if the size met with no
        error. Between the two, mPendingWrite counts the data already, so that a connection that
        was finished before closes when the data has been sent, too, and not earlier. */
    method Send(m: Message, first: seq<SendResult>, second: seq<SendResult>) returns (ok: bool)
      requires WriterValid() && Sendable(m)
      modifies this`pendingWrite, this`outgoing, this`lost
      modifies client`connected, client`buffers, client`bufferIdx, client.socket, client`queued
      ensures WriterValid()
      ensures !old(client.connected) ==> !ok && client.queued == old(client.queued)
      ensures old(client.connected) && silent ==> ok && client.queued == old(client.queued)
      ensures !old(client.connected) || silent ==>
        client.connected == old(client.connected) && outgoing == old(outgoing)
      ensures old(client.connected) && !silent ==> outgoing == old(outgoing) + [m]
      ensures old(client.connected) && !silent ==>
        (!client.connected <==> done && client.socket.wire == client.queued && lost == 0)
      ensures old(client.connected) && !silent ==>
        (client.buffers, client.bufferIdx, ok)
        == SendingFrame(old(client.buffers), old(client.bufferIdx), FrameOf(m), first, second)
      // the data is given up exactly if the size meets with an error
      ensures lost - old(lost)
        == if old(client.connected) && !silent && m.content != []
              && !Sending(old(client.buffers) + [Bytes(|Data(m)|)], old(client.bufferIdx), first, 0).2
           then 4 + |m.content| else 0
    {
      if !client.connected {
        return false;
      }
      if silent {
        return true;
      }
      var frame := FrameOf(m);
      ok := SendFrame(frame, first, second);
      AllSent(client);
      IsStreamSends(old(client.queued), outgoing, old(lost), m, client.queued, lost);
      outgoing := outgoing + [m];
    }

    /** The socket can take more: writeMore() and the signal it emits. It closes a finished
        connection exactly when nothing is left to be sent. */
    method OnWritable(results: seq<SendResult>) returns (complete: bool)
      requires WriterValid() && client.connected
      requires done ==> pendingWrite > 0
      modifies this`pendingWrite, client`connected, client`buffers, client`bufferIdx, client.socket
      ensures WriterValid() && old(client.socket.wire) <= client.socket.wire
      ensures complete ==> client.socket.wire == client.queued && lost == 0
      ensures var r := Sending(old(client.buffers), old(client.bufferIdx), results, 0);
        client.buffers == r.0 && client.bufferIdx == r.1
      ensures !client.connected <==> done && client.socket.wire == client.queued && lost == 0
    {
      var _, written := client.WriteMore(results);
      complete := false;
      assert |client.queued| == |client.socket.wire| + |Unsent(client.buffers, client.bufferIdx)|;
      if written > 0 {
        complete := DataWritten(written);
      }
      assert |client.queued| == |client.socket.wire| ==> client.queued == client.socket.wire;
    }

    /** finish() */
    method Finish()
      requires WriterValid()
      modifies this`done, this`pendingWrite, client`connected
      ensures WriterValid() && done
      ensures client.connected == (old(client.connected) && !(client.socket.wire == client.queued && lost == 0))
    {
      done := true;
      assert |client.queued| == |client.socket.wire| + |Unsent(client.buffers, client.bufferIdx)|;
      var _ := DataWritten(0);
      assert |client.queued| == |client.socket.wire| ==> client.queued == client.socket.wire;
    }
  }

  // --- The writing side of a connection, from its creation until it is finished and closed ---

  datatype Event =
    | Send(m: Message, first: seq<SendResult>, second: seq<SendResult>)
    | Writable(results: seq<SendResult>)

  /** Sending a message whose size meets with an error, with these buffers still to be sent. */
  predicate Refused(bs: seq<seq<byte>>, i: nat, e: Event)
    requires (e.Send? ==> Sendable(e.m)) && if bs == [] then i == 0 else i <= |bs[0]|
  {
    e.Send? && e.m.content != [] && !Sending(bs + [Bytes(|Data(e.m)|)], i, e.first, 0).2
  }

  predicate AllFit(es: seq<Event>) {
    forall k :: 0 <= k < |es| && es[k].Send? ==> Sendable(es[k].m)
  }

  /** The first n events: what they leave to be sent. */
  function After(es: seq<Event>, n: nat): (r: (seq<seq<byte>>, nat))
    requires n <= |es| && AllFit(es)
    ensures if r.0 == [] then r.1 == 0 else r.1 <= |r.0[0]|
  {
    if n == 0 then ([], 0)
    else
      var (bs, i) := After(es, n - 1);
      var r := match es[n - 1]
        case Send(m, first, second) => SendingFrame(bs, i, FrameOf(m), first, second)
        case Writable(results) => Sending(bs, i, results, 0);
      (r.0, r.1)
  }

  predicate GivesUp(es: seq<Event>, k: nat)
    requires k < |es| && AllFit(es)
  {
    Refused(After(es, k).0, After(es, k).1, es[k])
  }

  /** What the first n events send. */
  function Outgoing(es: seq<Event>, n: nat): seq<Message>
    requires n <= |es|
  {
    if n == 0 then []
    else Outgoing(es, n - 1) + if es[n - 1].Send? then [es[n - 1].m] else []
  }

  method Happen(c: Connection, e: Event)
    requires c.WriterValid() && !c.silent && c.client.connected && (e.Send? ==> Sendable(e.m))
    requires c.done ==> c.pendingWrite > 0
    modifies c, c.client, c.client.socket
    ensures c.WriterValid() && c.done == old(c.done)
    ensures !c.client.connected <==> c.done && c.client.socket.wire == c.client.queued && c.lost == 0
    ensures c.outgoing == old(c.outgoing) + if e.Send? then [e.m] else []
    ensures c.lost >= old(c.lost)
    ensures c.lost > old(c.lost) <==> Refused(old(c.client.buffers), old(c.client.bufferIdx), e)
    ensures var (bs, i) := (old(c.client.buffers), old(c.client.bufferIdx));
      var r := match e
        case Send(m, first, second) => SendingFrame(bs, i, FrameOf(m), first, second)
        case Writable(results) => Sending(bs, i, results, 0);
      (c.client.buffers, c.client.bufferIdx) == (r.0, r.1)
  {
    match e {
      case Send(m, first, second) => var _ := c.Send(m, first, second);
      case Writable(results) => var _ := c.OnWritable(results);
    }
  }

  ghost predicate NoneGivenUp(es: seq<Event>, n: nat)
    requires n <= |es| && AllFit(es)
  {
    forall k :: 0 <= k < n ==> !GivesUp(es, k)
  }

  lemma OneMore(es: seq<Event>, n: nat)
    requires n < |es| && AllFit(es)
    ensures NoneGivenUp(es, n + 1) <==> NoneGivenUp(es, n) && !GivesUp(es, n)
  {
  }

  /** The first n events leave nothing to be sent, and gave no message up. */
  ghost predicate Complete(es: seq<Event>, n: nat)
    requires n <= |es| && AllFit(es)
  {
    Unsent(After(es, n).0, After(es, n).1) == [] && NoneGivenUp(es, n)
  }

  /** The connection is where the first n events have brought it. */
  ghost predicate IsAt(c: Connection, es: seq<Event>, n: nat)
    requires n <= |es| && AllFit(es)
    reads c, c.client, c.client.socket
  {
    && c.WriterValid() && !c.silent && c.outgoing == Outgoing(es, n)
    && c.client.buffers == After(es, n).0 && c.client.bufferIdx == After(es, n).1
    && (c.lost == 0 <==> NoneGivenUp(es, n))
    && (NoneGivenUp(es, n) ==> c.client.queued == Stream(Frames(c.outgoing), |c.outgoing|))
  }

  method HappenNext(c: Connection, es: seq<Event>, n: nat)
    requires n < |es| && AllFit(es) && IsAt(c, es, n) && c.client.connected
    requires c.done ==> !Complete(es, n)
    modifies c, c.client, c.client.socket
    ensures IsAt(c, es, n + 1) && c.done == old(c.done)
    ensures !c.client.connected <==> c.done && Complete(es, n + 1)
  {
    AllSent(c.client);
    OneMore(es, n);
    Happen(c, es[n]);
    AllSent(c.client);
  }

  ghost predicate IsOpenAt(c: Connection, es: seq<Event>, n: nat)
    requires n <= |es| && AllFit(es)
    reads c, c.client, c.client.socket
  {
    IsAt(c, es, n) && !c.done && c.client.connected
  }

  method Unfinished(es: seq<Event>, n: nat) returns (c: Connection)
    requires AllFit(es) && n <= |es|
    ensures fresh(c) && fresh(c.client) && fresh(c.client.socket) && IsOpenAt(c, es, n)
  {
    if n == 0 {
      c := new Connection(false, {}, []);
    } else {
      c := Unfinished(es, n - 1);
      HappenNext(c, es, n - 1);
    }
  }

  ghost predicate NotComplete(es: seq<Event>, from: nat, to: nat)
    requires to <= |es| && AllFit(es)
  {
    forall n :: from <= n < to ==> !Complete(es, n)
  }

  /** The connection was finished after the first events, and the first n have happened. */
  ghost predicate IsFinished(c: Connection, es: seq<Event>, at: nat, n: nat)
    requires AllFit(es)
    reads c, c.client, c.client.socket
  {
    && at <= n <= |es| && IsAt(c, es, n) && c.done
    && (!c.client.connected <==> Complete(es, n))
    && NotComplete(es, at, n)
  }

  method FinishNow(c: Connection, es: seq<Event>, at: nat)
    requires at <= |es| && AllFit(es) && IsOpenAt(c, es, at)
    modifies c, c.client, c.client.socket
    ensures IsFinished(c, es, at, at)
  {
    AllSent(c.client);
    c.Finish();
  }

  method HappenAfter(c: Connection, es: seq<Event>, at: nat, n: nat)
    requires n < |es| && AllFit(es) && IsFinished(c, es, at, n) && c.client.connected
    modifies c, c.client, c.client.socket
    ensures IsFinished(c, es, at, n + 1)
  {
    HappenNext(c, es, n);
  }

  /** The first n events have happened, or those up to the close. */
  ghost predicate IsOver(c: Connection, es: seq<Event>, at: nat, n: nat, happened: nat)
    requires AllFit(es)
    reads c, c.client, c.client.socket
  {
    IsFinished(c, es, at, happened) && (c.client.connected ==> happened == n)
  }

  method FinishedAfter(es: seq<Event>, at: nat, n: nat) returns (c: Connection, happened: nat)
    requires AllFit(es) && at <= n <= |es|
    ensures fresh(c) && fresh(c.client) && fresh(c.client.socket) && IsOver(c, es, at, n, happened)
  {
    if n == at {
      c := Unfinished(es, at);
      FinishNow(c, es, at);
      happened := at;
    } else {
      c, happened := FinishedAfter(es, at, n - 1);
      if c.client.connected {
        HappenAfter(c, es, at, n - 1);
        happened := n;
      }
    }
  }

  /** Whatever is sent and whatever the socket answers, with finish() called after the first few
      of these events: the connection closes at the first of them that leaves nothing to be sent,
      unless a message was given up before; then it stays open for ever. happened says how many
      events come before that. */
  method Session(es: seq<Event>, at: nat) returns (c: Connection, happened: nat)
    requires AllFit(es) && at <= |es|
    ensures IsFinished(c, es, at, happened) && (c.client.connected ==> happened == |es|)
  {
    c, happened := FinishedAfter(es, at, |es|);
  }

  lemma TakenLater(size: seq<byte>)
    requires |size| == 4
    ensures Sending([] + [size], 0, [Fails], 0) == ([size], 0, false)
    ensures Sending([size], 0, [Takes(4)], 0) == ([], 0, true)
  {
    assert [] + [size] == [size];
    var results := [Takes(4)];
    assert Sending([], 0, results, 1) == ([], 0, true);
    assert results[0].n == 4 && [size][1..] == [];
  }

  /** One error is enough: the socket refuses the size of a message and takes it when it can, all
      that was queued is sent, and the finished connection waits for bytes that nobody will send. */
  method StaysOpen(m: Message) returns (c: Connection)
    requires Sendable(m) && m.content != []
    ensures c.WriterValid() && c.done && c.client.connected
    ensures c.client.socket.wire == c.client.queued && c.pendingWrite == 4 + |m.content|
  {
    c := new Connection(false, {}, []);
    TakenLater(Bytes(|Data(m)|));
    var _ := c.Send(m, [Fails], []);
    c.Finish();
    var _ := c.OnWritable([Takes(4)]);
  }

  /** From one side to the other, while no message was given up: whatever part of what was sent
      has arrived, and however much is still to be sent, what was delivered is the beginning of
      what this side was asked to send; and once nothing is pending, and all that was sent has
      arrived, all of it is delivered. */
  lemma EndToEnd(sender: Connection, receiver: Connection)
    requires sender.WriterValid() && receiver.ReaderValid() && sender.lost == 0
    requires sender.outgoing <= receiver.peer && receiver.client.received <= sender.client.socket.wire
    ensures receiver.delivered <= Receivable(sender.outgoing, receiver.known, |sender.outgoing|)
    ensures sender.pendingWrite == 0 && receiver.client.received == sender.client.socket.wire
            && Drained(receiver.client.received, receiver.Reading()) ==>
              receiver.delivered == Receivable(sender.outgoing, receiver.known, |sender.outgoing|)
  {
    OnTrackOfFirst(receiver.peer, sender.outgoing, receiver.known, receiver.client.received, receiver.Reading());
    DeliveredIsSent(sender.outgoing, receiver.known, receiver.client.received, receiver.Reading());
    var unsent := Unsent(sender.client.buffers, sender.client.bufferIdx);
    assert |sender.client.queued| == |sender.client.socket.wire| + |unsent|;
    if sender.pendingWrite == 0 {
      assert sender.client.queued == sender.client.socket.wire;
    }
  }
}
