/** The shared objects of one stream direction, as the halves update them. */
module StreamHost {
  import opened Common
  import opened StreamSpec
  import opened StreamSafety
  import opened StreamRuns

  class StreamPipe {
    // the sender's half
    var credits: nat
    var nextSendSeq: nat
    var isShutdown: bool
    var senderGone: bool
    // segments handed to the network and not yet delivered or lost
    var network: map<nat, Seg>
    // the receiving socket and its channel
    var buf: map<nat, Seg>
    var recvSeq: nat
    var open: bool
    var channel: seq<Bytes>
    var dropped: bool
    var receiverGone: bool
    // the reader
    var held: Option<Bytes>
    var isClosed: bool
    const capacity: nat
    // history
    ghost var lost: map<nat, Seg>
    ghost var sent: seq<Seg>
    ghost var failed: set<nat>
    ghost var read: Bytes

    function Socket(): Inbox
      reads this
    {
      Inbox(buf, recvSeq, open, channel, dropped)
    }

    ghost function View(): Stream
      reads this
    {
      Stream(credits, nextSendSeq, isShutdown, senderGone, network, lost, Socket(), receiverGone, held, isClosed,
             sent, failed, read)
    }

    ghost predicate Valid()
      reads this
    {
      StreamOk(View(), capacity)
    }

    constructor (capacity: nat)
      ensures View() == Fresh(capacity) && this.capacity == capacity && Valid()
    {
      this.capacity := capacity;
      credits, nextSendSeq, isShutdown, senderGone := capacity, 1, false, false;
      network, buf, recvSeq, open, channel, dropped := map[], map[], 0, true, [], false;
      receiverGone, held, isClosed := false, None, false;
      lost, sent, failed, read := map[], [], {}, [];
      new;
      RunKeeps(capacity, []);
    }

    // ---- flow control ----

    method TryAcquire() returns (ok: bool)
      modifies `credits
      ensures ok <==> old(credits) > 0
      ensures credits == if ok then old(credits) - 1 else old(credits)
    {
      if credits == 0 {
        return false;
      }
      credits := credits - 1;
      return true;
    }

    method Release()
      modifies `credits
      ensures credits == old(credits) + 1
    {
      credits := credits + 1;
    }

    method AssignSeq() returns (seqNo: nat)
      modifies `nextSendSeq
      ensures seqNo == old(nextSendSeq) && nextSendSeq == seqNo + 1
    {
      seqNo := nextSendSeq;
      nextSendSeq := nextSendSeq + 1;
    }

    // ---- writing ----

    /** Use up the next number; `handed` says whether the network takes the
        segment. */
    method PostSegment(seg: Seg, handed: bool)
      modifies `nextSendSeq, `network, `lost, `sent, `failed
      ensures View() == Post(old(View()), seg, handed)
    {
      var seqNo := AssignSeq();
      sent := sent + [seg];
      if handed {
        network := network[seqNo := seg];
      } else {
        lost, failed := lost[seqNo := seg], failed + {seqNo};
      }
    }

    method WriteSegment(data: Bytes, handed: bool) returns (r: WriteResult)
      modifies `credits, `nextSendSeq, `network, `lost, `sent, `failed
      ensures (View(), r) == TryWrite(old(View()), data, handed)
    {
      if isShutdown {
        return Broken;
      }
      if data == [] {
        return Wrote(0);
      }
      if senderGone {
        return Broken;
      }
      var ok := TryAcquire();
      if !ok {
        return Blocked;
      }
      PostSegment(Data(data), handed);
      return if handed then Wrote(|data|) else NotSent;
    }

    method Write(data: Bytes, handed: bool) returns (r: WriteResult)
      requires Valid()
      modifies `credits, `nextSendSeq, `network, `lost, `sent, `failed
      ensures Valid() && (View(), r) == TryWrite(old(View()), data, handed)
    {
      WriteKeeps(View(), capacity, data, handed);
      r := WriteSegment(data, handed);
    }

    /** Shut the write side: its FIN takes the next number, and the side is shut
        if the network takes the FIN. */
    method CloseWrite(handed: bool) returns (ok: bool)
      requires Valid()
      modifies `nextSendSeq, `network, `lost, `sent, `failed, `isShutdown
      ensures Valid() && View() == Shutdown(old(View()), handed)
      ensures ok <==> !old(isShutdown) && !senderGone && handed
      ensures isShutdown == (old(isShutdown) || ok)
    {
      ShutdownKeeps(View(), capacity, handed);
      if isShutdown || senderGone {
        return false;
      }
      PostSegment(Fin, handed);
      isShutdown := handed;
      return handed;
    }

    // ---- receiving ----

    /** Take the segment next in order: refused, left for a full channel, or
        moved on. */
    method DrainOne() returns (more: bool, refused: Option<Seg>)
      requires recvSeq + 1 in buf
      modifies `buf, `recvSeq, `open, `channel
      ensures more ==> Drain(Socket(), capacity) == Drain(old(Socket()), capacity) && |buf| < |old(buf)|
      ensures !more ==> (Socket(), refused) == Drain(old(Socket()), capacity)
    {
      var next := buf[recvSeq + 1];
      buf := buf - {recvSeq + 1};
      if !open {
        return false, Some(next);
      }
      match next {
        case Data(bytes) =>
          if dropped {
            return false, Some(next);
          }
          if |channel| >= capacity {
            buf := buf[recvSeq + 1 := next];
            assert buf == old(buf);
            return false, None;
          }
          channel := channel + [bytes];
        case Fin =>
          if dropped {
            return false, Some(next);
          }
          open := false;
      }
      recvSeq := recvSeq + 1;
      return true, None;
    }

    /** Insert a segment and move everything in order to the channel. Returns
        the segment refused, for which a RST goes back. */
    method Buffer(seqNo: nat, segment: Seg) returns (refused: Option<Seg>)
      requires seqNo !in buf
      modifies `buf, `recvSeq, `open, `channel
      ensures (Socket(), refused) == Drain(old(Socket()).(buf := old(buf)[seqNo := segment]), capacity)
    {
      buf := buf[seqNo := segment];
      ghost var all := Drain(Socket(), capacity);
      while recvSeq + 1 in buf
        invariant Drain(Socket(), capacity) == all
        decreases |buf|
      {
        var more;
        more, refused := DrainOne();
        if !more {
          return;
        }
      }
      return None;
    }

    method ReceiveSegment(seqNo: nat)
      requires seqNo in network && (!receiverGone ==> seqNo !in buf)
      modifies `network, `buf, `recvSeq, `open, `channel, `lost
      ensures View() == Deliver(old(View()), capacity, seqNo)
    {
      var segment := network[seqNo];
      network := network - {seqNo};
      if receiverGone {
        lost := lost[seqNo := segment];
        return;
      }
      var refused := Buffer(seqNo, segment);
      if refused.Some? {
        lost := lost[recvSeq + 1 := refused.value];
      }
    }

    /** A segment reaches the receiving host. The number is never a duplicate,
        and the channel never full. */
    method Receive(seqNo: nat)
      requires Valid() && seqNo in network
      modifies `network, `buf, `recvSeq, `open, `channel, `lost
      ensures Valid() && View() == Deliver(old(View()), capacity, seqNo)
    {
      DeliverKeeps(View(), capacity, seqNo);
      ReceiveSegment(seqNo);
    }

    // ---- reading ----

    /** The inner copy loop: spread bytes over the buffers from `index` on, the
        first of which is filled up to `filled`. */
    static method CopyInto(bytes: Bytes, lens: seq<nat>, index: nat, filled: nat)
        returns (k: nat, index': nat, filled': nat)
      requires Within(lens, index, filled)
      ensures Within(lens, index', filled')
      ensures (k, RoomLeft(lens, index', filled')) == Spread(bytes, RoomLeft(lens, index, filled))
    {
      k, index', filled' := 0, index, filled;
      var rest := bytes;
      ghost var whole := Spread(bytes, RoomLeft(lens, index, filled));
      while index' < |lens|
        invariant Within(lens, index', filled') && Continues(whole, k, rest, RoomLeft(lens, index', filled'))
        decreases |lens| - index'
      {
        CopyStep(whole, k, rest, lens, index', filled');
        var len := Min(|rest|, lens[index'] - filled');
        var next := Advanced(lens, index', filled', len);
        k, index', filled' := k + len, next.0, next.1;
        if len == |rest| {
          return;
        }
        rest := rest[len..];
      }
    }

    /** Where the copy stands after one buffer. */
    static function Advanced(lens: seq<nat>, index: nat, filled: nat, len: nat): (nat, nat)
      requires index < |lens|
    {
      if filled + len == lens[index] then (index + 1, 0) else (index, filled + len)
    }

    static lemma CopyStep(whole: (nat, seq<nat>), k: nat, rest: Bytes, lens: seq<nat>, index: nat, filled: nat)
      requires index < |lens| && Within(lens, index, filled) && Continues(whole, k, rest, RoomLeft(lens, index, filled))
      ensures var len := Min(|rest|, lens[index] - filled);
              var (i, f) := Advanced(lens, index, filled, len);
              && Within(lens, i, f)
              && (if len == |rest| then whole == (k + len, RoomLeft(lens, i, f))
                  else i == index + 1 && Continues(whole, k + len, rest[len..], RoomLeft(lens, i, f)))
    {
      SpreadUnfolds(rest, lens[index] - filled, lens[index + 1..]);
      RoomFrom(lens, index + 1);
    }

    /** Spreading what is left completes the whole. */
    static predicate Continues(whole: (nat, seq<nat>), k: nat, rest: Bytes, room: seq<nat>) {
      whole == (k + Spread(rest, room).0, Spread(rest, room).1)
    }

    static lemma RoomFrom(lens: seq<nat>, index: nat)
      requires index <= |lens|
      ensures RoomLeft(lens, index, 0) == lens[index..]
    {
    }

    static lemma SpreadUnfolds(bytes: Bytes, room: nat, tail: seq<nat>)
      ensures Spread(bytes, [room] + tail).0
           == if |bytes| <= room then |bytes| else room + Spread(bytes[room..], tail).0
      ensures |bytes| > room ==> Spread(bytes, [room] + tail).1 == Spread(bytes[room..], tail).1
      ensures |bytes| == room ==> Spread(bytes, [room] + tail).1 == tail
      ensures |bytes| < room ==> Spread(bytes, [room] + tail).1 == [room - |bytes|] + tail
    {
      var all := [room] + tail;
      assert all[0] == room && all[1..] == tail;
    }

    static predicate Within(lens: seq<nat>, index: nat, filled: nat) {
      index <= |lens| && (if index < |lens| then filled <= lens[index] else filled == 0)
    }

    static function RoomLeft(lens: seq<nat>, index: nat, filled: nat): seq<nat>
      requires Within(lens, index, filled)
    {
      if index == |lens| then [] else [lens[index] - filled] + lens[index + 1..]
    }

    method TakeSegment()
      requires channel != []
      modifies `channel, `credits, `held
      ensures View() == Take(old(View()))
    {
      var bytes := channel[0];
      channel := channel[1..];
      Release();
      held := Some(bytes);
    }

    /** Nothing at hand: end of file, an error, or the bytes read before. */
    method ReadNothing(got: Bytes) returns (r: ReadResult)
      requires isClosed || (held.None? && channel == [])
      modifies `isClosed
      ensures forall room :: (View(), r) == ReadLoop(old(View()), room, got)
    {
      if isClosed || got != [] {
        return Got(got);
      }
      if open && !receiverGone {
        return NotYet;
      }
      if receiverGone {
        return Reset;
      }
      isClosed := true;
      return Got([]);
    }

    /** One segment's worth: take it if none is in hand, and copy. */
    method ReadSome(lens: seq<nat>, index: nat, filled: nat) returns (more: Bytes, index': nat, filled': nat)
      requires held.Some? || channel != []
      requires Within(lens, index, filled)
      modifies `channel, `credits, `held, `read
      ensures Within(lens, index', filled')
      ensures var s1 := InHandFirst(old(View()));
              var (k, left) := Spread(s1.held.value, RoomLeft(lens, index, filled));
              View() == AfterSpread(s1, k) && RoomLeft(lens, index', filled') == left && more == s1.held.value[..k]
    {
      if held.None? {
        TakeSegment();
      }
      var bytes := held.value;
      var k;
      k, index', filled' := CopyInto(bytes, lens, index, filled);
      more := bytes[..k];
      read := read + more;
      held := if k == |bytes| then None else Some(bytes[k..]);
    }

    /** Read into several buffers; the result is what they receive, in order. */
    method ReadVectored(lens: seq<nat>) returns (r: ReadResult)
      modifies `channel, `credits, `held, `isClosed, `read
      ensures (View(), r) == TryRead(old(View()), lens)
    {
      var got: Bytes := [];
      var index: nat, filled: nat := 0, 0;
      assert RoomLeft(lens, 0, 0) == lens;
      while !isClosed && (held.Some? || channel != [])
        invariant Within(lens, index, filled)
        invariant ReadLoop(View(), RoomLeft(lens, index, filled), got) == TryRead(old(View()), lens)
        decreases 2 * |channel| + (if held.Some? then 1 else 0)
      {
        ghost var room := RoomLeft(lens, index, filled);
        var more;
        more, index, filled := ReadSome(lens, index, filled);
        got := got + more;
        if index == |lens| {
          return Got(got);
        }
      }
      r := ReadNothing(got);
    }

    method TryReadVectored(lens: seq<nat>) returns (r: ReadResult)
      requires Valid()
      modifies `channel, `credits, `held, `isClosed, `read
      ensures Valid() && (View(), r) == TryRead(old(View()), lens)
    {
      ReadKeeps(View(), capacity, lens);
      r := ReadVectored(lens);
    }

    method PollReadSegment(size: nat, filled: nat) returns (r: ReadResult)
      modifies `channel, `credits, `held, `isClosed, `read
      ensures (View(), r) == PollRead(old(View()), size, filled)
    {
      if size == 0 {
        return Got([]);
      }
      if isClosed || (held.None? && channel == []) {
        r := ReadNothing([]);
        assert (View(), r) == ReadLoop(old(View()), [], []);
        return;
      }
      if held.None? {
        TakeSegment();
      }
      var bytes := held.value;
      var amt := Min(|bytes|, SaturatingSub(size, filled));
      read := read + bytes[..amt];
      held := if amt == |bytes| then None else Some(bytes[amt..]);
      return Got(bytes[..amt]);
    }

    /** `poll_read`: from at most one segment. */
    method PollReadInto(size: nat, filled: nat) returns (r: ReadResult)
      requires Valid()
      modifies `channel, `credits, `held, `isClosed, `read
      ensures Valid() && (View(), r) == PollRead(old(View()), size, filled)
    {
      PollKeeps(View(), capacity, size, filled);
      r := PollReadSegment(size, filled);
    }
  }
}
