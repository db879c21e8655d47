/** One direction of a simulated TCP stream: credits and sequence numbers at the
    sender, a network that reorders and loses but does not duplicate, a reorder
    buffer feeding a bounded channel at the receiver, and the reader. */
module StreamSpec {
  import opened Common
  import opened SeqSpace

  type Bytes = seq<Byte>

  datatype Seg = Data(bytes: Bytes) | Fin

  /** The receiving socket and the channel it feeds. `open` is lost to an
      in-order FIN; `dropped` says that the reader is gone. */
  datatype Inbox = Inbox(buf: map<nat, Seg>, recvSeq: nat, open: bool, channel: seq<Bytes>, dropped: bool)

  /** Move in-order segments from the reorder buffer to the channel. The second
      result is the segment that was refused, if one was: then a RST goes back. */
  function Drain(x: Inbox, cap: nat): (r: (Inbox, Option<Seg>))
    decreases |x.buf|
  {
    var next := x.recvSeq + 1;
    if next !in x.buf then (x, None)
    else
      var seg, rest := x.buf[next], x.(buf := x.buf - {next});
      if !x.open || x.dropped then (rest, Some(seg))
      else match seg
        case Fin => Drain(rest.(open := false, recvSeq := next), cap)
        case Data(bytes) =>
          if |x.channel| >= cap then (x, None)
          else Drain(rest.(channel := x.channel + [bytes], recvSeq := next), cap)
  }

  /** The stream direction. Beside the implementation's state it carries the
      segments that were lost, what each number was used for, which numbers
      could not be handed to the network, and all bytes read. */
  datatype Stream = Stream(
    credits: nat,
    nextSeq: nat,
    shutdown: bool,
    senderGone: bool,
    network: map<nat, Seg>,
    lost: map<nat, Seg>,
    inbox: Inbox,
    receiverGone: bool,
    held: Option<Bytes>,
    eof: bool,
    sent: seq<Seg>,
    failed: set<nat>,
    read: Bytes)

  function Fresh(cap: nat): Stream {
    Stream(cap, 1, false, false, map[], map[], Inbox(map[], 0, true, [], false), false, None, false, [], {}, [])
  }

  // ---- the sender ----

  datatype WriteResult = Wrote(n: nat) | Broken | Blocked | NotSent

  /** The next number is used up, and its segment handed to the network if that
      takes it. */
  function Post(s: Stream, seg: Seg, handed: bool): Stream {
    if handed then s.(nextSeq := s.nextSeq + 1, sent := s.sent + [seg], network := s.network[s.nextSeq := seg])
    else
      s.(nextSeq := s.nextSeq + 1, sent := s.sent + [seg], lost := s.lost[s.nextSeq := seg],
         failed := s.failed + {s.nextSeq})
  }

  /** `handed` says whether the network takes the segment; if not, number and
      credit are gone all the same. */
  function TryWrite(s: Stream, data: Bytes, handed: bool): (Stream, WriteResult) {
    if s.shutdown then (s, Broken)
    else if data == [] then (s, Wrote(0))
    else if s.senderGone then (s, Broken)
    else if s.credits == 0 then (s, Blocked)
    else (Post(s.(credits := s.credits - 1), Data(data), handed), if handed then Wrote(|data|) else NotSent)
  }

  /** The write side is shut only if the network takes the FIN. */
  function Shutdown(s: Stream, handed: bool): Stream {
    if s.shutdown || s.senderGone then s
    else Post(s, Fin, handed).(shutdown := handed)
  }

  /** The data of the numbers that were handed over: what `write` accepted. */
  function Accepted(sent: seq<Seg>, failed: set<nat>): seq<Bytes> {
    if sent == [] then []
    else
      Accepted(sent[..|sent| - 1], failed)
      + (if sent[|sent| - 1].Data? && |sent| !in failed then [sent[|sent| - 1].bytes] else [])
  }

  // ---- the network ----

  function Lose(s: Stream, seqNo: nat): Stream {
    if seqNo !in s.network then s
    else s.(network := s.network - {seqNo}, lost := s.lost[seqNo := s.network[seqNo]])
  }

  /** Hand a segment to the receiving host. */
  function Deliver(s: Stream, cap: nat, seqNo: nat): Stream {
    if seqNo !in s.network then s
    else if s.receiverGone then Lose(s, seqNo)
    else
      var x := s.inbox.(buf := s.inbox.buf[seqNo := s.network[seqNo]]);
      var (x', refused) := Drain(x, cap);
      s.(network := s.network - {seqNo}, inbox := x',
         lost := if refused.Some? then s.lost[x'.recvSeq + 1 := refused.value] else s.lost)
  }

  // ---- the reader ----

  /** Spread bytes over buffers with the given room: how many fit, and the room
      left. A buffer of no room is passed over while bytes remain. */
  function Spread(bytes: Bytes, room: seq<nat>): (r: (nat, seq<nat>))
    ensures r.0 <= |bytes|
    ensures r.0 < |bytes| ==> r.1 == []
    decreases |room|
  {
    if room == [] then (0, [])
    else
      var len := Min(|bytes|, room[0]);
      if len == |bytes| then
        (len, if len == room[0] then room[1..] else [room[0] - len] + room[1..])
      else
        var (k, rest) := Spread(bytes[len..], room[1..]);
        (len + k, rest)
  }

  datatype ReadResult = Got(bytes: Bytes) | NotYet | Reset

  /** Is there no sender for the channel any more? */
  predicate Disconnected(s: Stream) {
    s.receiverGone || !s.inbox.open
  }

  /** Next segment into hand, returning its credit. */
  function Take(s: Stream): Stream
    requires s.inbox.channel != []
  {
    s.(held := Some(s.inbox.channel[0]),
       inbox := s.inbox.(channel := s.inbox.channel[1..]),
       credits := s.credits + 1)
  }

  function AfterSpread(s: Stream, k: nat): Stream
    requires s.held.Some? && k <= |s.held.value|
  {
    s.(held := if k == |s.held.value| then None else Some(s.held.value[k..]),
       read := s.read + s.held.value[..k])
  }

  function ReadLoop(s: Stream, room: seq<nat>, got: Bytes): (Stream, ReadResult)
    decreases 2 * |s.inbox.channel| + (if s.held.Some? then 1 else 0)
  {
    if s.eof then (s, Got(got))
    else if s.held.None? && s.inbox.channel == [] then
      if got != [] then (s, Got(got))
      else if !Disconnected(s) then (s, NotYet)
      else if s.receiverGone then (s, Reset)
      else (s.(eof := true), Got([]))
    else
      var s1 := if s.held.None? then Take(s) else s;
      var (k, left) := Spread(s1.held.value, room);
      var s2 := AfterSpread(s1, k);
      var got' := got + s1.held.value[..k];
      if left == [] then (s2, Got(got')) else ReadLoop(s2, left, got')
  }

  /** `try_read_vectored`. */
  function TryRead(s: Stream, room: seq<nat>): (Stream, ReadResult) {
    ReadLoop(s, room, [])
  }

  /** `poll_read` into a buffer of the given size, some of it filled already:
      from at most one segment, which is taken into hand even if no room is
      left for any of it. */
  function PollRead(s: Stream, size: nat, filled: nat): (Stream, ReadResult) {
    if size == 0 then (s, Got([]))
    else if s.eof then (s, Got([]))
    else if s.held.None? && s.inbox.channel == [] then
      if !Disconnected(s) then (s, NotYet)
      else if s.receiverGone then (s, Reset)
      else (s.(eof := true), Got([]))
    else
      var s1 := if s.held.None? then Take(s) else s;
      var k := Min(|s1.held.value|, SaturatingSub(size, filled));
      (AfterSpread(s1, k), Got(s1.held.value[..k]))
  }

  // ---- runs ----

  datatype Op =
    | Write(data: Bytes, handed: bool)
    | Close(handed: bool)
    | Arrive(seqNo: nat)
    | Vanish(seqNo: nat)
    | ReadInto(room: seq<nat>)
    | PollInto(size: nat, filled: nat)
    | DropReader
    | LoseSender
    | LoseReceiver

  function Step(s: Stream, cap: nat, op: Op): Stream {
    match op
    case Write(data, handed) => TryWrite(s, data, handed).0
    case Close(handed) => Shutdown(s, handed)
    case Arrive(q) => Deliver(s, cap, q)
    case Vanish(q) => Lose(s, q)
    case ReadInto(room) => if s.inbox.dropped then s else TryRead(s, room).0
    case PollInto(size, filled) => if s.inbox.dropped then s else PollRead(s, size, filled).0
    case DropReader => s.(inbox := s.inbox.(dropped := true))
    case LoseSender => s.(senderGone := true)
    case LoseReceiver => s.(receiverGone := true)
  }

  function Run(cap: nat, ops: seq<Op>): Stream {
    if ops == [] then Fresh(cap) else Step(Run(cap, ops[..|ops| - 1]), cap, ops[|ops| - 1])
  }
}
