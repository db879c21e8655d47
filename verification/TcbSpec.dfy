/** The TCP control block and what each kernel operation does to one: the
    specification that the kernel's methods are proved against. */
module TcbSpec {
  import opened Common
  import opened SeqSpace
  import opened Addresses

  datatype TcpState =
    | SynSent | SynReceived | Established
    | FinWait1 | FinWait2 | CloseWait | LastAck | Closing | Closed

  datatype Flags = Flags(syn: bool, ack: bool, fin: bool, rst: bool, psh: bool)

  datatype Segment = Segment(seqNo: U32, ack: U32, flags: Flags, window: U16, payload: seq<Byte>)

  datatype Tcb = Tcb(
    state: TcpState,
    peer: Endpoint,
    sndNxt: U32,
    sndUna: U32,
    sndWnd: U16,
    rcvNxt: U32,
    sendBuf: seq<Byte>,
    recvBuf: seq<Byte>,
    wrClosed: bool,
    peerFin: bool,
    finSeq: Option<U32>,
    reset: bool,
    timedOut: bool,
    egressSinceAck: nat,
    retxAttempts: nat)

  const DEFAULT_WINDOW: U16 := 65535
  const NO_FLAGS := Flags(false, false, false, false, false)
  const ACK := NO_FLAGS.(ack := true)

  function AdvertisedWindow(cap: nat, len: nat): U16 {
    Min(SaturatingSub(cap, len), 65535)
  }

  /** The block that `connect` or an accepted SYN starts from. */
  function NewTcb(state: TcpState, peer: Endpoint, isn: U32, sndWnd: U16, rcvNxt: U32): Tcb {
    var base := WrappingAdd(isn, 1);
    Tcb(state, peer, base, base, sndWnd, rcvNxt, [], [], false, false, None, false, false, 0, 0)
  }

  function InFlight(t: Tcb): nat {
    WrappingSub(t.sndNxt, t.sndUna)
  }

  function Unsent(t: Tcb): nat {
    SaturatingSub(|t.sendBuf|, InFlight(t))
  }

  predicate FinPending(t: Tcb) {
    t.finSeq == Some(t.sndNxt)
  }

  predicate Aborted(t: Tcb) {
    t.reset || t.timedOut
  }

  predicate Handshaking(s: TcpState) {
    s == SynSent || s == SynReceived
  }

  /** States in which segments are emitted from `sendBuf` and retransmitted. */
  predicate Transmitting(s: TcpState) {
    s == Established || s == CloseWait || s == FinWait1 || s == Closing || s == LastAck
  }

  /** What every operation keeps of the send side, whatever arrives: the bytes
      in flight lie inside the buffer (plus the FIN), and the FIN sits right
      after the buffered bytes until it has been acknowledged. */
  predicate SendSideOk(t: Tcb) {
    && |t.sendBuf| + 1 < MODULUS
    && (t.wrClosed <==> t.finSeq.Some?)
    && (Handshaking(t.state) ==> t.sendBuf == [] && t.sndNxt == t.sndUna)
    && (t.state != Closed ==>
          && InFlight(t) <= |t.sendBuf| + (if t.wrClosed then 1 else 0)
          && (t.finSeq.Some? ==>
                || t.finSeq.value == WrappingAdd(t.sndUna, |t.sendBuf|)
                || FinAcked(t)))
  }

  /** The FIN and everything before it has been acknowledged. */
  predicate FinAcked(t: Tcb) {
    && t.finSeq.Some?
    && t.sendBuf == []
    && t.sndUna == t.sndNxt == WrappingAdd(t.finSeq.value, 1)
  }

  // ---- inbound ----

  function AfterFinAck(s: TcpState): TcpState {
    match s
    case FinWait1 => FinWait2
    case Closing => Closed
    case LastAck => Closed
    case _ => s
  }

  function AfterPeerFin(s: TcpState): TcpState {
    match s
    case Established => CloseWait
    case FinWait1 => Closing
    case FinWait2 => Closed
    case _ => s
  }

  function AfterShutdown(s: TcpState): TcpState {
    match s
    case Established => FinWait1
    case CloseWait => LastAck
    case _ => s
  }

  /** Does `s.ack` move `sndUna`? */
  predicate AckAdvances(t: Tcb, s: Segment) {
    0 < WrappingSub(s.ack, t.sndUna) <= InFlight(t)
  }

  predicate AcksFin(t: Tcb, s: Segment) {
    t.finSeq.Some? && s.ack == WrappingAdd(t.finSeq.value, 1)
  }

  /** Bytes an advancing ACK drains from `sendBuf`: the FIN's own sequence
      number is not one of them. */
  function AckedBytes(t: Tcb, s: Segment): int {
    WrappingSub(s.ack, t.sndUna) - (if AcksFin(t, s) then 1 else 0)
  }

  /** `split_to` is never asked for more than the buffer holds, for any ACK,
      late, stale or too far; and the FIN is acknowledged exactly together
      with the last buffered byte. */
  lemma AckedBytesFit(t: Tcb, s: Segment)
    requires SendSideOk(t) && t.state != Closed
    requires AckAdvances(t, s)
    ensures 0 <= AckedBytes(t, s) <= |t.sendBuf|
    ensures AcksFin(t, s) ==> AckedBytes(t, s) == |t.sendBuf| && InFlight(t) == |t.sendBuf| + 1
    ensures !AcksFin(t, s) ==> AckedBytes(t, s) == WrappingSub(s.ack, t.sndUna)
  {
  }

  function DrainAck(t: Tcb, s: Segment): Tcb
    requires SendSideOk(t) && t.state != Closed
  {
    if AckAdvances(t, s) then
      AckedBytesFit(t, s);
      t.(sendBuf := t.sendBuf[AckedBytes(t, s)..],
         sndUna := s.ack,
         egressSinceAck := 0,
         retxAttempts := 0,
         state := if AcksFin(t, s) then AfterFinAck(t.state) else t.state,
         sndWnd := s.window)
    else
      t.(sndWnd := s.window)
  }

  /** Bytes of `s` the receiver takes: in order, before any FIN, up to the room left. */
  function Takes(t: Tcb, s: Segment, cap: nat): (n: nat)
    ensures n <= |s.payload|
  {
    if s.seqNo == t.rcvNxt && !t.peerFin
    then Min(|s.payload|, SaturatingSub(cap, |t.recvBuf|))
    else 0
  }

  function AcceptData(t: Tcb, s: Segment, cap: nat): Tcb {
    var n := Takes(t, s, cap);
    t.(recvBuf := t.recvBuf + s.payload[..n], rcvNxt := WrappingAdd(t.rcvNxt, n))
  }

  predicate TakesFin(t: Tcb, s: Segment) {
    s.flags.fin && !t.peerFin && WrappingAdd(s.seqNo, |s.payload|) == t.rcvNxt
  }

  function AcceptFin(t: Tcb, s: Segment): Tcb {
    if TakesFin(t, s)
    then t.(peerFin := true, rcvNxt := WrappingAdd(t.rcvNxt, 1), state := AfterPeerFin(t.state))
    else t
  }

  function AckSegment(t: Tcb, cap: nat): Segment {
    Segment(t.sndNxt, t.rcvNxt, ACK, AdvertisedWindow(cap, |t.recvBuf|), [])
  }

  /** A segment on an open or half-closed connection: the new block, and the
      ACK it provokes when data or a FIN was accepted. */
  function OnEstablished(t: Tcb, s: Segment, cap: nat): (r: (Tcb, Option<Segment>))
    requires SendSideOk(t) && t.state != Closed
  {
    var t1 := if s.flags.ack then DrainAck(t, s) else t;
    var t2 := AcceptData(t1, s, cap);
    var t3 := AcceptFin(t2, s);
    (t3, if Takes(t1, s, cap) > 0 || TakesFin(t2, s) then Some(AckSegment(t3, cap)) else None)
  }

  function Abort(t: Tcb, byReset: bool): Tcb {
    t.(state := Closed,
       reset := t.reset || byReset,
       timedOut := t.timedOut || !byReset,
       sendBuf := [],
       recvBuf := [])
  }

  /** What a connection makes of an inbound segment. */
  function OnSegment(t: Tcb, s: Segment, cap: nat): (r: (Tcb, Option<Segment>))
    requires SendSideOk(t)
  {
    if s.flags.rst then
      (Abort(t, true), None)
    else match t.state
      case SynSent =>
        if s.flags.syn && s.flags.ack then
          var t1 := t.(state := Established, rcvNxt := WrappingAdd(s.seqNo, 1), sndWnd := s.window);
          (t1, Some(Segment(t1.sndNxt, t1.rcvNxt, ACK, AdvertisedWindow(cap, 0), [])))
        else (t, None)
      case SynReceived =>
        if Promotes(t, s)
        then (t.(state := Established, sndWnd := s.window), None)
        else (t, None)
      case Closed => (t, None)
      case _ => OnEstablished(t, s, cap)
  }

  /** The ACK that completes a passive open. */
  predicate Promotes(t: Tcb, s: Segment) {
    t.state == SynReceived && !s.flags.rst && s.flags.ack && !s.flags.syn && s.ack == t.sndNxt
  }

  /** The RST that answers a segment on an unknown 4-tuple. */
  function RstFor(s: Segment): Segment {
    if s.flags.ack then
      Segment(s.ack, 0, NO_FLAGS.(rst := true), 0, [])
    else
      var len := |s.payload| + (if s.flags.syn then 1 else 0) + (if s.flags.fin then 1 else 0);
      Segment(0, WrappingAdd(s.seqNo, len), ACK.(rst := true), 0, [])
  }

  /** The RST sent when a connection is abandoned with a block still present. */
  function RstFrom(t: Tcb): Segment {
    Segment(t.sndNxt, t.rcvNxt, ACK.(rst := true), 0, [])
  }

  // ---- system calls ----

  function AbortError(t: Tcb): Option<ErrorKind> {
    if t.reset then Some(ConnectionReset)
    else if t.timedOut then Some(TimedOut)
    else None
  }

  function Send(t: Tcb, buf: seq<Byte>, cap: nat): (r: (Tcb, Poll<nat>)) {
    if Aborted(t) then (t, Failed(AbortError(t).value))
    else if t.wrClosed then (t, Failed(BrokenPipe))
    else if t.state != Established && t.state != CloseWait then (t, Failed(NotConnected))
    else if |t.sendBuf| >= cap then (t, Pending)
    else
      var n := Min(|buf|, cap - |t.sendBuf|);
      (t.(sendBuf := t.sendBuf + buf[..n]), Ready(n))
  }

  /** Queue the FIN right behind the last accepted byte. */
  function QueueFin(t: Tcb): Tcb {
    t.(finSeq := Some(WrappingAdd(t.sndUna, |t.sendBuf|)), wrClosed := true, state := AfterShutdown(t.state))
  }

  function ShutdownWrite(t: Tcb): (r: (Tcb, Poll<()>)) {
    if Aborted(t) then (t, Failed(AbortError(t).value))
    else if t.wrClosed then (t, Ready(()))
    else (QueueFin(t), Ready(()))
  }

  function Total(lens: seq<nat>): nat {
    if lens == [] then 0 else lens[0] + Total(lens[1..])
  }

  /** Read into buffers of the given lengths: the bytes delivered, in order,
      and the window update the drain may provoke. */
  function Recv(t: Tcb, lens: seq<nat>, cap: nat): (r: (Tcb, Poll<seq<Byte>>, Option<Segment>)) {
    if Aborted(t) then (t, Failed(AbortError(t).value), None)
    else if t.recvBuf == [] then
      if t.peerFin then (t, Ready([]), None)
      else if t.state == Established || t.state == FinWait1 || t.state == FinWait2 || t.state == CloseWait
      then (t, Pending, None)
      else (t, Failed(NotConnected), None)
    else
      var n := Min(|t.recvBuf|, Total(lens));
      var t1 := t.(recvBuf := t.recvBuf[n..]);
      (t1, Ready(t.recvBuf[..n]), if n >= cap / 2 then Some(AckSegment(t1, cap)) else None)
  }

  // ---- egress ----

  /** Is this block's retransmit counter running? */
  predicate Counted(t: Tcb) {
    Handshaking(t.state) || (Transmitting(t.state) && t.sndUna != t.sndNxt)
  }

  datatype RetxAction = Wait | ResendHandshake | Rewind | GiveUp

  /** One retransmit sweep over one block. */
  function CheckRetx(t: Tcb, threshold: nat, max: nat): (r: (Tcb, RetxAction)) {
    if !Counted(t) then (t, Wait)
    else
      var t1 := t.(egressSinceAck := t.egressSinceAck + 1);
      if t1.egressSinceAck < threshold then (t1, Wait)
      else if t.retxAttempts >= max then (Abort(t1, false), GiveUp)
      else
        var t2 := t1.(retxAttempts := t.retxAttempts + 1, egressSinceAck := 0);
        if Handshaking(t.state) then (t2, ResendHandshake)
        else (t2.(sndNxt := t.sndUna), Rewind)
  }

  /** The SYN or SYN-ACK of a stuck handshake, re-emitted. */
  function HandshakeSegment(t: Tcb): Segment {
    Segment(WrappingSub(t.sndUna, 1),
            if t.state == SynSent then 0 else t.rcvNxt,
            NO_FLAGS.(syn := true, ack := t.state != SynSent),
            DEFAULT_WINDOW, [])
  }

  predicate WindowOpen(t: Tcb) {
    InFlight(t) < t.sndWnd
  }

  predicate CanEmit(t: Tcb) {
    WindowOpen(t) && (Unsent(t) > 0 || FinPending(t))
  }

  /** The next segment chopped off the send buffer, data before FIN. */
  function EmitNext(t: Tcb, mss: nat, cap: nat): (r: (Tcb, Segment))
    requires CanEmit(t)
  {
    var window := AdvertisedWindow(cap, |t.recvBuf|);
    if Unsent(t) > 0 then
      var n := Min(Min(Unsent(t), mss), t.sndWnd - InFlight(t));
      var payload := t.sendBuf[InFlight(t)..InFlight(t) + n];
      (t.(sndNxt := WrappingAdd(t.sndNxt, n)),
       Segment(t.sndNxt, t.rcvNxt, ACK.(psh := payload != []), window, payload))
    else
      (t.(sndNxt := WrappingAdd(t.sndNxt, 1)),
       Segment(t.sndNxt, t.rcvNxt, ACK.(fin := true), window, []))
  }

  /** A FIN is queued and has not been put on the wire since the last rewind. */
  predicate FinUnsent(t: Tcb) {
    t.finSeq.Some? && !FinAcked(t) && InFlight(t) <= |t.sendBuf|
  }

  /** What is left for segmentation to put on the wire. */
  function Backlog(t: Tcb): nat {
    Unsent(t) + (if FinUnsent(t) then 1 else 0)
  }

  /** Every emission puts something on the wire, and keeps the send side. */
  lemma EmitProgress(t: Tcb, mss: nat, cap: nat)
    requires SendSideOk(t) && Transmitting(t.state) && CanEmit(t) && mss > 0
    ensures var t' := EmitNext(t, mss, cap).0;
            SendSideOk(t') && Backlog(t') < Backlog(t) && InFlight(t) < InFlight(t')
  {
    var t' := EmitNext(t, mss, cap).0;
    if Unsent(t) > 0 {
      var n := Min(Min(Unsent(t), mss), t.sndWnd - InFlight(t));
      assert InFlight(t') == InFlight(t) + n;
    } else {
      assert InFlight(t') == InFlight(t) + 1;
    }
  }

  /** Segmentation of one block, to the end of the data or of the window. */
  function SegmentOne(t: Tcb, mss: nat, cap: nat): (r: (Tcb, seq<Segment>))
    requires SendSideOk(t) && Transmitting(t.state) && mss > 0
    decreases Backlog(t)
  {
    if CanEmit(t) then
      EmitProgress(t, mss, cap);
      var (t1, s) := EmitNext(t, mss, cap);
      var (t2, rest) := SegmentOne(t1, mss, cap);
      (t2, [s] + rest)
    else (t, [])
  }

  // ---- what every operation keeps ----

  /** The send side is a matter of the send fields alone. */
  lemma SameSendSide(t: Tcb, t': Tcb)
    requires SendSideOk(t)
    requires t'.state == Closed || !Handshaking(t'.state) || t'.state == t.state
    requires t.state == Closed ==> t'.state == Closed
    requires t'.finSeq == t.finSeq && t'.wrClosed == t.wrClosed
    requires t'.sndNxt == t.sndNxt && t'.sndUna == t.sndUna
    requires t'.sendBuf == t.sendBuf || (t'.state == Closed && t'.sendBuf == [])
    ensures SendSideOk(t')
    ensures Backlog(t') <= Backlog(t)
  {
  }

  /** An ACK, whatever it acknowledges, keeps the send side and the amount
      left to put on the wire. */
  lemma DrainAckKeepsSendSide(t: Tcb, s: Segment)
    requires SendSideOk(t) && t.state != Closed && !Handshaking(t.state)
    ensures var t' := DrainAck(t, s);
            && SendSideOk(t')
            && Backlog(t') == Backlog(t)
            && WrappingSub(t'.sndUna, t.sndUna) <= InFlight(t)
  {
    if AckAdvances(t, s) {
      AckedBytesFit(t, s);
      var t' := DrainAck(t, s);
      assert InFlight(t') == InFlight(t) - WrappingSub(s.ack, t.sndUna);
      if AcksFin(t, s) {
        assert t'.sendBuf == [];
        assert FinAcked(t');
      }
    }
  }

  /** What the receive side does leaves the send side alone. */
  lemma ReceivingKeepsSendSide(t: Tcb, s: Segment, cap: nat)
    requires SendSideOk(t) && !Handshaking(t.state)
    ensures var t' := AcceptFin(AcceptData(t, s, cap), s);
            SendSideOk(t') && Backlog(t') <= Backlog(t) && t'.sndUna == t.sndUna
  {
    SameSendSide(t, AcceptFin(AcceptData(t, s, cap), s));
  }

  lemma {:induction false} OnEstablishedKeepsSendSide(t: Tcb, s: Segment, cap: nat)
    requires SendSideOk(t) && t.state != Closed && !Handshaking(t.state)
    ensures var t' := OnEstablished(t, s, cap).0;
            && SendSideOk(t')
            && Backlog(t') <= Backlog(t)
            && WrappingSub(t'.sndUna, t.sndUna) <= InFlight(t)
  {
    if s.flags.ack {
      DrainAckKeepsSendSide(t, s);
    }
    ReceivingKeepsSendSide(if s.flags.ack then DrainAck(t, s) else t, s, cap);
  }

  /** No inbound segment, however late, duplicated or far off, breaks the send
      side or adds to what is left to send; `sndUna` moves only over bytes and
      the FIN that were in flight. */
  lemma {:induction false} OnSegmentKeepsSendSide(t: Tcb, s: Segment, cap: nat)
    requires SendSideOk(t)
    ensures var t' := OnSegment(t, s, cap).0;
            && SendSideOk(t')
            && Backlog(t') <= Backlog(t)
            && (t.state != Closed ==> WrappingSub(t'.sndUna, t.sndUna) <= InFlight(t))
  {
    if s.flags.rst || t.state == Closed || Handshaking(t.state) {
      SameSendSide(t, OnSegment(t, s, cap).0);
    } else {
      OnEstablishedKeepsSendSide(t, s, cap);
    }
  }

  /** The system calls keep it too. */
  lemma CallsKeepSendSide(t: Tcb, buf: seq<Byte>, sendCap: nat, lens: seq<nat>, recvCap: nat)
    requires SendSideOk(t) && sendCap + 1 < MODULUS
    ensures SendSideOk(Send(t, buf, sendCap).0)
    ensures SendSideOk(Recv(t, lens, recvCap).0)
    ensures SendSideOk(ShutdownWrite(t).0)
  {
    SameSendSide(t, Recv(t, lens, recvCap).0);
  }

  /** So does the retransmit sweep, rewinding or giving up. */
  lemma CheckRetxKeepsSendSide(t: Tcb, threshold: nat, max: nat)
    requires SendSideOk(t)
    ensures SendSideOk(CheckRetx(t, threshold, max).0)
  {
    var (t', action) := CheckRetx(t, threshold, max);
    if action != Rewind {
      SameSendSide(t, t');
    }
  }

  /** All payloads of a run of segments, in order. */
  function Payloads(ss: seq<Segment>): seq<Byte> {
    if ss == [] then [] else ss[0].payload + Payloads(ss[1..])
  }

  /** One emission, in terms of the buffer: data takes the next bytes in
      flight, and the FIN goes out only behind the last byte. */
  lemma EmitNextExact(t: Tcb, mss: nat, cap: nat)
    requires SendSideOk(t) && Transmitting(t.state) && CanEmit(t) && mss > 0
    ensures var (t1, s) := EmitNext(t, mss, cap);
            && t1 == t.(sndNxt := t1.sndNxt)
            && if Unsent(t) > 0 then
                 && InFlight(t) < InFlight(t1) <= Min(|t.sendBuf|, t.sndWnd)
                 && s.payload == t.sendBuf[InFlight(t)..InFlight(t1)]
                 && |s.payload| <= mss
                 && !s.flags.fin
                 && FinUnsent(t1) == FinUnsent(t)
               else
                 && FinUnsent(t) && !FinUnsent(t1)
                 && InFlight(t) == |t.sendBuf| < t.sndWnd
                 && InFlight(t1) == InFlight(t) + 1
                 && s.payload == [] && s.flags.fin
  {
    EmitProgress(t, mss, cap);
  }

  lemma FinPendingExact(t: Tcb)
    requires SendSideOk(t) && Transmitting(t.state)
    ensures FinPending(t) <==> FinUnsent(t) && InFlight(t) == |t.sendBuf|
  {
  }

  /** The bytes between what is in flight and the end of the data or window. */
  function Sendable(t: Tcb): seq<Byte> {
    var end := Min(|t.sendBuf|, t.sndWnd);
    if InFlight(t) < end then t.sendBuf[InFlight(t)..end] else []
  }

  predicate FinSendable(t: Tcb) {
    FinUnsent(t) && |t.sendBuf| < t.sndWnd
  }

  lemma EmitNextSplits(t: Tcb, mss: nat, cap: nat)
    requires SendSideOk(t) && Transmitting(t.state) && CanEmit(t) && mss > 0
    ensures var (t1, s) := EmitNext(t, mss, cap);
            && Sendable(t) == s.payload + Sendable(t1)
            && (s.flags.fin ==> FinSendable(t) && !FinSendable(t1) && Sendable(t) == [])
            && (!s.flags.fin ==> FinSendable(t) == FinSendable(t1))
  {
    EmitNextExact(t, mss, cap);
    FinPendingExact(t);
  }

  /** Segmentation puts on the wire exactly the unsent bytes that the peer's
      window admits, in order and in pieces of at most `mss`, and changes
      nothing of the block but `sndNxt`. */
  lemma {:induction false} SegmentOneSendsAll(t: Tcb, mss: nat, cap: nat)
    requires SendSideOk(t) && Transmitting(t.state) && mss > 0
    ensures var r := SegmentOne(t, mss, cap);
            && SendSideOk(r.0)
            && r.0 == t.(sndNxt := r.0.sndNxt)
            && Payloads(r.1) == Sendable(t)
            && (forall i :: 0 <= i < |r.1| ==> |r.1[i].payload| <= mss)
    decreases Backlog(t)
  {
    if CanEmit(t) {
      EmitProgress(t, mss, cap);
      EmitNextExact(t, mss, cap);
      EmitNextSplits(t, mss, cap);
      var (t1, s) := EmitNext(t, mss, cap);
      SegmentOneSendsAll(t1, mss, cap);
      assert SegmentOne(t, mss, cap).1[1..] == SegmentOne(t1, mss, cap).1;
    }
  }

  /** Only the last segment of `ss` may carry a FIN, and does exactly if `fin`. */
  predicate FinOnlyLast(ss: seq<Segment>, fin: bool) {
    && (fin ==> ss != [])
    && forall i :: 0 <= i < |ss| ==> (ss[i].flags.fin <==> fin && i == |ss| - 1)
  }

  /** The FIN goes out as the last segment, exactly when it is queued, every
      byte before it is on the wire, and the window still has room. */
  lemma {:induction false} SegmentOneSendsFin(t: Tcb, mss: nat, cap: nat)
    requires SendSideOk(t) && Transmitting(t.state) && mss > 0
    ensures FinOnlyLast(SegmentOne(t, mss, cap).1, FinSendable(t))
    decreases Backlog(t)
  {
    FinPendingExact(t);
    if CanEmit(t) {
      EmitProgress(t, mss, cap);
      EmitNextSplits(t, mss, cap);
      var (t1, s) := EmitNext(t, mss, cap);
      SegmentOneSendsFin(t1, mss, cap);
      var rest := SegmentOne(t1, mss, cap).1;
      assert FinOnlyLast(rest, FinSendable(t1));
      assert SegmentOne(t, mss, cap).1 == [s] + rest;
      assert FinOnlyLast([s] + rest, FinSendable(t));
    }
  }
}
