/** Length-prefixed messages on a byte stream (src/Connection.cpp, src/Messages.cpp). */
module Framing {
  import opened Native
  import opened Options

  // --- Frames ---

  /** A message as it is sent: an id and its serialized content. */
  datatype Message = Message(id: int32, content: seq<byte>)

  /** Sizes are ints. */
  predicate Sendable(m: Message) {
    |m.content| + 4 < TWO_31
  }

  /** The body of a frame; an empty message has none. */
  function Data(m: Message): (d: seq<byte>)
    ensures Sendable(m) ==> |d| < TWO_31
  {
    if m.content == [] then [] else Bytes(m.id) + m.content
  }

  /** A frame on its way: the four bytes of the size, and the data. */
  datatype Frame = Frame(size: seq<byte>, data: seq<byte>)

  predicate AllSendable(ms: seq<Message>) {
    forall i :: 0 <= i < |ms| ==> Sendable(ms[i])
  }

  function FrameOf(m: Message): Frame
    requires Sendable(m)
  {
    Frame(Bytes(|Data(m)|), Data(m))
  }

  function Frames(ms: seq<Message>): (fs: seq<Frame>)
    requires AllSendable(ms)
    ensures |fs| == |ms| && forall i :: 0 <= i < |fs| ==> fs[i] == FrameOf(ms[i])
  {
    seq(|ms|, i requires 0 <= i < |ms| => FrameOf(ms[i]))
  }

  /** The bytes of the first n frames. */
  function Stream(fs: seq<Frame>, n: nat): seq<byte>
    requires n <= |fs|
  {
    if n == 0 then [] else Stream(fs, n - 1) + (fs[n - 1].size + fs[n - 1].data)
  }

  /** Messages::create: the known ids are those with a creator. */
  function Create(data: seq<byte>, known: set<int32>): Option<Message> {
    if |data| < 4 || Value(data[..4]) !in known then None
    else Some(Message(Value(data[..4]), data[4..]))
  }

  /** Those of the first n messages that make it through create. */
  function Receivable(ms: seq<Message>, known: set<int32>, n: nat): seq<Message>
    requires n <= |ms|
  {
    if n == 0 then []
    else
      var m := ms[n - 1];
      Receivable(ms, known, n - 1) + if m.content != [] && m.id in known then [m] else []
  }

  lemma CreateOfData(m: Message, known: set<int32>)
    ensures Create(Data(m), known) == if m.content != [] && m.id in known then Some(m) else None
  {
    ValueOfBytes(m.id);
    if m.content != [] {
      assert Data(m)[..4] == Bytes(m.id) && Data(m)[4..] == m.content;
    }
  }

  /** Nothing is lost if no message is empty and all ids are known. */
  lemma {:induction false} AllReceivable(ms: seq<Message>, known: set<int32>, n: nat)
    requires n <= |ms| && forall i :: 0 <= i < n ==> ms[i].content != [] && ms[i].id in known
    ensures Receivable(ms, known, n) == ms[..n]
  {
    if n > 0 {
      AllReceivable(ms, known, n - 1);
    }
  }

  /** One more frame does not change the bytes of those before. */
  lemma {:induction false} StreamOfAppend(fs: seq<Frame>, f: Frame, n: nat)
    requires n <= |fs|
    ensures Stream(fs + [f], n) == Stream(fs, n)
  {
    if n > 0 {
      StreamOfAppend(fs, f, n - 1);
    }
  }

  lemma FramesOfAppend(ms: seq<Message>, m: Message)
    requires AllSendable(ms) && Sendable(m)
    ensures AllSendable(ms + [m]) && Frames(ms + [m]) == Frames(ms) + [FrameOf(m)]
  {
  }

  lemma {:induction false} StreamGainsFrame(fs: seq<Frame>, f: Frame)
    ensures Stream(fs + [f], |fs| + 1) == Stream(fs, |fs|) + (f.size + f.data)
  {
    StreamOfAppend(fs, f, |fs|);
  }

  /** Sending one more message appends its frame. */
  lemma {:induction false} StreamSends(ms: seq<Message>, m: Message)
    requires AllSendable(ms) && Sendable(m)
    ensures AllSendable(ms + [m])
    ensures Stream(Frames(ms + [m]), |ms| + 1) == Stream(Frames(ms), |ms|) + (FrameOf(m).size + FrameOf(m).data)
    // four bytes with the size of the rest, then the id and the content; an empty message is a zero
    ensures m.content == [] ==> FrameOf(m).size + FrameOf(m).data == Bytes(0)
    ensures m.content != [] ==>
      FrameOf(m).size + FrameOf(m).data == Bytes(|m.content| + 4) + (Bytes(m.id) + m.content)
  {
    FramesOfAppend(ms, m);
    StreamGainsFrame(Frames(ms), FrameOf(m));
  }

  lemma SumOfThree(a: seq<byte>, b: seq<byte>, c: seq<byte>)
    ensures (a + b) + c == a + (b + c)
  {
  }

  /** A stream starts with the stream of any first few frames. */
  lemma {:induction false} StreamStarts(fs: seq<Frame>, n: nat, k: nat) returns (rest: seq<byte>)
    requires n <= k <= |fs|
    ensures Stream(fs, k) == Stream(fs, n) + rest
  {
    if n == k {
      rest := [];
    } else {
      var most := StreamStarts(fs, n, k - 1);
      rest := most + (fs[k - 1].size + fs[k - 1].data);
      SumOfThree(Stream(fs, n), most, fs[k - 1].size + fs[k - 1].data);
    }
  }

  // --- What a receiver has made of the bytes it was given ---

  /** Where a receiver is: how many bytes it has taken, for how many messages, the size it has
      read of a message it waits for (mPendingRead), and what it has delivered. */
  datatype Progress = Progress(taken: nat, messages: nat, pendingRead: int, delivered: seq<Message>)

  /** The bytes received are the beginning of what was sent, and the receiver is at the
      boundary of two frames, or of the size and the data of one that is not empty. */
  predicate OnTrack(ms: seq<Message>, known: set<int32>, received: seq<byte>, p: Progress)
    requires AllSendable(ms)
  {
    var fs := Frames(ms);
    && received <= Stream(fs, |fs|) && p.taken <= |received| && p.messages <= |ms|
    && p.delivered == Receivable(ms, known, p.messages)
    && (if p.pendingRead == 0 then p.taken == |Stream(fs, p.messages)|
        else p.messages < |ms| && p.pendingRead == |fs[p.messages].data|
             && p.taken == |Stream(fs, p.messages)| + 4)
  }

  /** The size of the next message has been read, and is what mPendingRead says. */
  predicate Sized(ms: seq<Message>, known: set<int32>, received: seq<byte>, p: Progress)
    requires AllSendable(ms)
  {
    var fs := Frames(ms);
    && received <= Stream(fs, |fs|) && p.taken <= |received| && p.messages < |ms|
    && p.delivered == Receivable(ms, known, p.messages)
    && p.pendingRead == |fs[p.messages].data| && p.taken == |Stream(fs, p.messages)| + 4
  }

  /** The receiver can make nothing more of what it has. */
  predicate Drained(received: seq<byte>, p: Progress) {
    if p.pendingRead == 0 then |received| - p.taken < 4 else |received| - p.taken < p.pendingRead
  }

  /** At this place, as far as bytes have been received, are the size and the data of a frame. */
  predicate FrameAt(received: seq<byte>, at: nat, f: Frame) {
    && (at + 4 <= |received| ==> received[at..at + 4] == f.size)
    && (at + 4 + |f.data| <= |received| ==> received[at + 4..at + 4 + |f.data|] == f.data)
  }

  lemma FrameIn(before: seq<byte>, f: Frame, rest: seq<byte>, received: seq<byte>)
    requires |f.size| == 4 && received <= before + (f.size + f.data) + rest
    ensures FrameAt(received, |before|, f)
  {
  }

  lemma {:induction false} MoreToCome(fs: seq<Frame>, received: seq<byte>, n: nat)
    requires received <= Stream(fs, |fs|) && n <= |fs| && |Stream(fs, n)| < |received|
    ensures n < |fs|
  {
  }

  /** The next frame in the bytes received is that of the next message. */
  lemma FrameNext(fs: seq<Frame>, received: seq<byte>, n: nat)
    requires received <= Stream(fs, |fs|) && n < |fs| && |fs[n].size| == 4
    ensures FrameAt(received, |Stream(fs, n)|, fs[n])
    ensures |Stream(fs, n + 1)| == |Stream(fs, n)| + 4 + |fs[n].data|
  {
    var rest := StreamStarts(fs, n + 1, |fs|);
    FrameIn(Stream(fs, n), fs[n], rest, received);
  }

  /** Four bytes more at the boundary of two frames are the size of the next message. */
  lemma SizeNext(ms: seq<Message>, known: set<int32>, received: seq<byte>, p: Progress)
    requires AllSendable(ms) && OnTrack(ms, known, received, p)
    requires p.pendingRead == 0 && p.taken + 4 <= |received|
    ensures p.messages < |ms| && received[p.taken..p.taken + 4] == Bytes(|Data(ms[p.messages])|)
    ensures Sized(ms, known, received, p.(taken := p.taken + 4, pendingRead := Value(received[p.taken..p.taken + 4])))
  {
    MoreToCome(Frames(ms), received, p.messages);
    FrameNext(Frames(ms), received, p.messages);
    ValueOfBytes(|Data(ms[p.messages])|);
  }

  lemma DataIsNext(ms: seq<Message>, known: set<int32>, received: seq<byte>, p: Progress)
    requires AllSendable(ms) && Sized(ms, known, received, p) && p.taken + p.pendingRead <= |received|
    ensures received[p.taken..p.taken + p.pendingRead] == Data(ms[p.messages])
    ensures p.taken + p.pendingRead == |Stream(Frames(ms), p.messages + 1)|
  {
    FrameNext(Frames(ms), received, p.messages);
  }

  /** What is delivered on account of the data of a frame. */
  function Delivered(before: seq<Message>, data: seq<byte>, known: set<int32>): seq<Message> {
    var message := Create(data, known);
    if message.Some? then before + [message.value] else before
  }

  /** As many bytes more as the size says are the data, which create turns into the message. */
  lemma DataNext(ms: seq<Message>, known: set<int32>, received: seq<byte>, p: Progress, data: seq<byte>)
    requires AllSendable(ms) && Sized(ms, known, received, p) && p.taken + p.pendingRead <= |received|
    requires data == received[p.taken..p.taken + p.pendingRead]
    ensures OnTrack(ms, known, received,
              Progress(p.taken + p.pendingRead, p.messages + 1, 0, Delivered(p.delivered, data, known)))
  {
    DataIsNext(ms, known, received, p);
    CreateOfData(ms[p.messages], known);
  }

  lemma {:induction false} StreamGrows(fs: seq<Frame>, i: nat, j: nat)
    requires i < j <= |fs| && |fs[i].size| == 4
    ensures |Stream(fs, i)| + 4 + |fs[i].data| <= |Stream(fs, j)|
  {
    var rest := StreamStarts(fs, i + 1, j);
  }

  /** Whatever the chunks: a drained receiver's progress depends on the bytes received alone. */
  lemma ChunksDoNotMatter(ms: seq<Message>, known: set<int32>, received: seq<byte>, p: Progress, q: Progress)
    requires AllSendable(ms)
    requires OnTrack(ms, known, received, p) && Drained(received, p)
    requires OnTrack(ms, known, received, q) && Drained(received, q)
    ensures p == q
  {
    if p.messages < q.messages {
      StreamGrows(Frames(ms), p.messages, q.messages);
    } else if q.messages < p.messages {
      StreamGrows(Frames(ms), q.messages, p.messages);
    }
  }

  lemma {:induction false} ReceivableStarts(ms: seq<Message>, known: set<int32>, n: nat, k: nat)
    requires n <= k <= |ms|
    ensures Receivable(ms, known, n) <= Receivable(ms, known, k)
  {
    if n < k {
      ReceivableStarts(ms, known, n, k - 1);
    }
  }

  lemma {:induction false} MoreToTake(ms: seq<Message>, known: set<int32>, received: seq<byte>, p: Progress)
    requires AllSendable(ms) && OnTrack(ms, known, received, p) && p.messages < |ms|
    ensures Drained(received, p) ==> |received| < |Stream(Frames(ms), |ms|)|
  {
    var fs := Frames(ms);
    StreamGrows(fs, p.messages, |fs|);
  }

  /** What was delivered is the beginning of what was sent, in order and unchanged, and all of it
      once all bytes have arrived. */
  lemma {:induction false} DeliveredIsSent(ms: seq<Message>, known: set<int32>, received: seq<byte>, p: Progress)
    requires AllSendable(ms) && OnTrack(ms, known, received, p)
    ensures p.delivered <= Receivable(ms, known, |ms|)
    ensures received == Stream(Frames(ms), |ms|) && Drained(received, p) ==> p.delivered == Receivable(ms, known, |ms|)
  {
    ReceivableStarts(ms, known, p.messages, |ms|);
    if p.messages < |ms| {
      MoreToTake(ms, known, received, p);
    }
  }

  // --- While more is to be sent ---

  lemma {:induction false} StreamOfFirst(ms: seq<Message>, few: seq<Message>, n: nat)
    requires AllSendable(ms) && AllSendable(few) && few <= ms && n <= |few|
    ensures Stream(Frames(few), n) == Stream(Frames(ms), n)
  {
    if n > 0 {
      StreamOfFirst(ms, few, n - 1);
      assert Frames(few)[n - 1] == FrameOf(few[n - 1]) == Frames(ms)[n - 1];
    }
  }

  lemma {:induction false} ReceivableOfFirst(ms: seq<Message>, few: seq<Message>, known: set<int32>, n: nat)
    requires few <= ms && n <= |few|
    ensures Receivable(few, known, n) == Receivable(ms, known, n)
  {
    if n > 0 {
      ReceivableOfFirst(ms, few, known, n - 1);
      assert few[n - 1] == ms[n - 1];
    }
  }

  /** So many bytes are those of the first few frames only. */
  lemma {:induction false} FewMessages(fs: seq<Frame>, few: nat, n: nat)
    requires few <= |fs| && n <= |fs| && (forall i :: 0 <= i < |fs| ==> |fs[i].size| == 4)
    requires |Stream(fs, n)| <= |Stream(fs, few)|
    ensures n <= few
  {
    if n > few {
      StreamGrows(fs, few, n);
    }
  }

  /** A receiver that has got bytes of the first few messages only is on the track of these. */
  lemma {:induction false} OnTrackOfFirst(ms: seq<Message>, few: seq<Message>, known: set<int32>,
                                          received: seq<byte>, p: Progress)
    requires AllSendable(ms) && AllSendable(few) && few <= ms && OnTrack(ms, known, received, p)
    requires received <= Stream(Frames(few), |few|)
    ensures OnTrack(few, known, received, p)
  {
    StreamOfFirst(ms, few, |few|);
    FewMessages(Frames(ms), |few|, p.messages);
    StreamOfFirst(ms, few, p.messages);
    ReceivableOfFirst(ms, few, known, p.messages);
    assert p.messages == |few| ==> p.taken <= |Stream(Frames(ms), p.messages)|;
    assert p.messages < |few| ==> Frames(few)[p.messages] == Frames(ms)[p.messages];
  }
}
