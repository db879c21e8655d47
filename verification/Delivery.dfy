/** What a connection delivers: what segmentation numbers, what the other end
    makes of it, and what a retransmission repairs. */
module Delivery {
  import opened Common
  import opened SeqSpace
  import opened TcbSpec
  import opened SocketTable
  import opened KernelSpec
  import opened StackSpec
  import HostKernel

  // ---- how segments are numbered ----

  /** Each segment starts where the one before it ended. */
  predicate Numbered(ss: seq<Segment>, from: U32) {
    ss == [] || (ss[0].seqNo == from && Numbered(ss[1..], WrappingAdd(from, |ss[0].payload|)))
  }

  /** Data or a FIN, never both, and no connection control. */
  predicate Carries(s: Segment) {
    !s.flags.syn && !s.flags.rst && s.flags.ack && (s.flags.fin <==> s.payload == [])
  }

  predicate AllCarry(ss: seq<Segment>) {
    forall i :: 0 <= i < |ss| ==> Carries(ss[i])
  }

  lemma EmitNextNumbers(t: Tcb, mss: nat, cap: nat)
    requires SendSideOk(t) && Transmitting(t.state) && CanEmit(t) && mss > 0
    ensures var (t1, s) := EmitNext(t, mss, cap);
            && s.seqNo == t.sndNxt && Carries(s)
            && InFlight(t1) == InFlight(t) + |s.payload| + (if s.flags.fin then 1 else 0)
            && (if s.flags.fin then !CanEmit(t1) else t1.sndNxt == WrappingAdd(t.sndNxt, |s.payload|))
  {
    EmitNextExact(t, mss, cap);
    FinPendingExact(t);
    EmitProgress(t, mss, cap);
    FinPendingExact(EmitNext(t, mss, cap).0);
  }

  lemma NumberedCons(s: Segment, rest: seq<Segment>)
    requires Numbered(rest, WrappingAdd(s.seqNo, |s.payload|)) && AllCarry(rest) && Carries(s)
    ensures Numbered([s] + rest, s.seqNo) && AllCarry([s] + rest)
  {
    assert ([s] + rest)[1..] == rest;
  }

  lemma {:induction false} SegmentOneNumbers(t: Tcb, mss: nat, cap: nat)
    requires SendSideOk(t) && Transmitting(t.state) && mss > 0
    ensures Numbered(SegmentOne(t, mss, cap).1, t.sndNxt) && AllCarry(SegmentOne(t, mss, cap).1)
    decreases Backlog(t)
  {
    if CanEmit(t) {
      EmitProgress(t, mss, cap);
      EmitNextNumbers(t, mss, cap);
      var (t1, s) := EmitNext(t, mss, cap);
      if s.flags.fin {
        assert SegmentOne(t1, mss, cap).1 == [];
      } else {
        SegmentOneNumbers(t1, mss, cap);
      }
      NumberedCons(s, SegmentOne(t1, mss, cap).1);
    }
  }

  /** Segmentation leaves in flight what it sent. */
  lemma {:induction false} SegmentOneInFlight(t: Tcb, mss: nat, cap: nat)
    requires SendSideOk(t) && Transmitting(t.state) && mss > 0
    ensures InFlight(SegmentOne(t, mss, cap).0) == InFlight(t) + |Sendable(t)| + if FinSendable(t) then 1 else 0
    decreases Backlog(t)
  {
    FinPendingExact(t);
    if CanEmit(t) {
      EmitProgress(t, mss, cap);
      EmitNextNumbers(t, mss, cap);
      EmitNextSplits(t, mss, cap);
      SegmentOneInFlight(EmitNext(t, mss, cap).0, mss, cap);
    }
  }

  // ---- the receiving end ----

  /** All the segments, one after the other: the block and its answers. */
  function Feed(t: Tcb, ss: seq<Segment>, cap: nat): (r: (Tcb, seq<Segment>))
    requires SendSideOk(t)
    ensures SendSideOk(r.0)
    decreases |ss|
  {
    if ss == [] then (t, [])
    else
      OnSegmentKeepsSendSide(t, ss[0], cap);
      var (t1, reply) := OnSegment(t, ss[0], cap);
      var (t2, rest) := Feed(t1, ss[1..], cap);
      (t2, (if reply.Some? then [reply.value] else []) + rest)
  }

  /** The peer may still send. */
  predicate Receives(t: Tcb) {
    SendSideOk(t) && !t.peerFin && !Aborted(t)
    && (t.state == Established || t.state == FinWait1 || t.state == FinWait2)
  }

  /** From `t` to `t'`, the bytes were taken, and the FIN if any. */
  predicate Took(t: Tcb, t': Tcb, bytes: seq<Byte>, fin: bool) {
    && t'.recvBuf == t.recvBuf + bytes
    && t'.rcvNxt == WrappingAdd(t.rcvNxt, |bytes| + if fin then 1 else 0)
    && t'.peerFin == fin && !Aborted(t')
  }

  lemma TakenInOrder(t: Tcb, s: Segment, cap: nat)
    requires Receives(t) && Carries(s) && s.seqNo == t.rcvNxt && |t.recvBuf| + |s.payload| <= cap
    ensures var (t', reply) := OnSegment(t, s, cap);
            && Took(t, t', s.payload, s.flags.fin)
            && (!s.flags.fin ==> Receives(t'))
            && reply == Some(AckSegment(t', cap))
  {
    OnSegmentKeepsSendSide(t, s, cap);
    assert s.payload[..|s.payload|] == s.payload;
  }

  lemma TookMore(t: Tcb, t1: Tcb, t2: Tcb, a: seq<Byte>, b: seq<Byte>, fin: bool)
    requires Took(t, t1, a, false) && Took(t1, t2, b, fin)
    ensures Took(t, t2, a + b, fin)
  {
    AddAdd(t.rcvNxt, |a|, |b| + if fin then 1 else 0);
  }

  lemma NotTaken(t: Tcb, s: Segment, cap: nat)
    requires SendSideOk(t) && !Handshaking(t.state) && Carries(s) && (t.peerFin || s.seqNo != t.rcvNxt)
    ensures var (t', reply) := OnSegment(t, s, cap);
            reply == None && t'.recvBuf == t.recvBuf && t'.rcvNxt == t.rcvNxt && t'.peerFin == t.peerFin
            && !Handshaking(t'.state)
  {
    assert t.recvBuf + s.payload[..0] == t.recvBuf;
    var t1 := if s.flags.ack && t.state != Closed then DrainAck(t, s) else t;
    assert t1.recvBuf == t.recvBuf && t1.rcvNxt == t.rcvNxt && t1.peerFin == t.peerFin && !Handshaking(t1.state);
  }

  lemma FinOnlyLastRest(ss: seq<Segment>, fin: bool)
    requires FinOnlyLast(ss, fin) && |ss| > 1
    ensures FinOnlyLast(ss[1..], fin) && !ss[0].flags.fin
  {
  }

  /** Segments that start at `rcvNxt` and fit are all taken and acknowledged. */
  lemma {:induction false} FeedTakesAll(t: Tcb, ss: seq<Segment>, fin: bool, cap: nat)
    requires Receives(t) && Numbered(ss, t.rcvNxt) && AllCarry(ss) && FinOnlyLast(ss, fin)
    requires |t.recvBuf| + |Payloads(ss)| <= cap
    ensures var (t', acks) := Feed(t, ss, cap);
            && Took(t, t', Payloads(ss), fin)
            && |acks| == |ss| && (ss != [] ==> acks[|acks| - 1] == AckSegment(t', cap))
    decreases |ss|
  {
    if ss != [] {
      var s, rest := ss[0], ss[1..];
      TakenInOrder(t, s, cap);
      OnSegmentKeepsSendSide(t, s, cap);
      var t1 := OnSegment(t, s, cap).0;
      if rest == [] {
        assert Feed(t1, rest, cap) == (t1, []);
        assert s.payload + [] == s.payload;
      } else {
        FinOnlyLastRest(ss, fin);
        FeedTakesAll(t1, rest, fin, cap);
        TookMore(t, t1, Feed(t1, rest, cap).0, s.payload, Payloads(rest), fin);
      }
    }
  }

  /** A segment is answered exactly when it starts where the receiver expects
      it: old ones are not even acknowledged again. */
  lemma {:induction false} AnsweredIff(t: Tcb, ss: seq<Segment>, cap: nat)
    requires SendSideOk(t) && !Handshaking(t.state) && (t.peerFin || Receives(t)) && AllCarry(ss)
    requires |t.recvBuf| < cap
    ensures Feed(t, ss, cap).1 == [] <==> t.peerFin || forall s :: s in ss ==> s.seqNo != t.rcvNxt
    decreases |ss|
  {
    if ss != [] {
      var s, rest := ss[0], ss[1..];
      assert Carries(s);
      OnSegmentKeepsSendSide(t, s, cap);
      if t.peerFin || s.seqNo != t.rcvNxt {
        NotTaken(t, s, cap);
        AnsweredIff(OnSegment(t, s, cap).0, rest, cap);
        assert ss == [s] + rest;
      } else {
        assert OnSegment(t, s, cap).1.Some?;
      }
    }
  }

  // ---- retransmission ----

  /** The sweep's turn to retransmit has come, and attempts are left. */
  predicate DueAgain(t: Tcb, threshold: nat, max: nat) {
    t.egressSinceAck + 1 >= threshold && t.retxAttempts < max
  }

  /** Back at `sndUna`, with one more attempt spent. */
  predicate Rewound(t: Tcb, t': Tcb) {
    t' == t.(sndNxt := t.sndUna, egressSinceAck := 0, retxAttempts := t.retxAttempts + 1)
  }

  lemma Rewinds(t: Tcb, threshold: nat, max: nat)
    requires SendSideOk(t) && Transmitting(t.state) && t.sndUna != t.sndNxt && DueAgain(t, threshold, max)
    ensures var t' := CheckRetx(t, threshold, max).0; Rewound(t, t') && SendSideOk(t') && Transmitting(t'.state)
  {
    CheckRetxKeepsSendSide(t, threshold, max);
  }

  /** A retransmission starts over at `sndUna`: it sends every buffered byte that
      the window admits again, the FIN behind them exactly when it is queued and
      the window has room for it too. */
  lemma RetransmissionResends(t: Tcb, threshold: nat, max: nat, mss: nat, cap: nat)
    requires SendSideOk(t) && Transmitting(t.state) && t.sndUna != t.sndNxt && DueAgain(t, threshold, max) && mss > 0
    ensures var t' := CheckRetx(t, threshold, max).0;
            && SendSideOk(t') && Transmitting(t'.state)
            && var ss := SegmentOne(t', mss, cap).1;
            && Payloads(ss) == t.sendBuf[..Min(|t.sendBuf|, t.sndWnd)]
            && Numbered(ss, t.sndUna) && (ss != [] ==> ss[0].seqNo == t.sndUna)
            && FinOnlyLast(ss, t.finSeq.Some? && |t.sendBuf| < t.sndWnd)
  {
    Rewinds(t, threshold, max);
    var t' := CheckRetx(t, threshold, max).0;
    SegmentOneSendsAll(t', mss, cap);
    SegmentOneSendsFin(t', mss, cap);
    SegmentOneNumbers(t', mss, cap);
    assert t.sendBuf[0..Min(|t.sendBuf|, t.sndWnd)] == t.sendBuf[..Min(|t.sendBuf|, t.sndWnd)];
  }

  /** A SYN or SYN-ACK that got no answer is sent again as it was. */
  lemma HandshakeIsResent(s: Socket, isn: U32, syn: Segment, lim: Limits)
    requires LimitsOk(lim) && s.tcb.Some? && s.bound.Some? && DueAgain(s.tcb.value, lim.retxThreshold, lim.retxMax)
    ensures s.tcb.value.(egressSinceAck := 0, retxAttempts := 0)
            == NewTcb(SynSent, s.tcb.value.peer, isn, DEFAULT_WINDOW, 0) ==>
              Visit(s, lim, Retransmission).1 == [Tcp(s.bound.value.At(), s.tcb.value.peer, Syn(isn))]
    ensures s.tcb.value.(egressSinceAck := 0, retxAttempts := 0)
            == NewTcb(SynReceived, s.tcb.value.peer, isn, syn.window, WrappingAdd(syn.seqNo, 1)) ==>
              Visit(s, lim, Retransmission).1 == [Tcp(s.bound.value.At(), s.tcb.value.peer, SynAck(isn, syn))]
  {
    AddThenSub(isn, 1);
  }

  // ---- delivery ----

  /** The window has room for the buffer, and for the FIN if there is one. */
  predicate FitsWindow(t: Tcb) {
    |t.sendBuf| + (if t.finSeq.Some? then 1 else 0) <= t.sndWnd
  }

  /** `a` has nothing in flight, and `b` expects its next byte. */
  predicate Aligned(a: Tcb, b: Tcb, cap: nat) {
    && SendSideOk(a) && Transmitting(a.state) && a.sndNxt == a.sndUna == b.rcvNxt && !FinAcked(a)
    && Receives(b) && FitsWindow(a) && |b.recvBuf| + |a.sendBuf| <= cap
  }

  /** All that `a` sent is acknowledged, as far as `b` got. */
  predicate Cleared(a: Tcb, b: Tcb) {
    a.sendBuf == [] && a.sndUna == a.sndNxt == b.rcvNxt && (a.finSeq.Some? ==> FinAcked(a)) && !Counted(a)
  }

  /** The acknowledgement of all that was sent leaves nothing to acknowledge. */
  lemma AckedInFull(a: Tcb, s: Segment, cap: nat)
    requires SendSideOk(a) && Transmitting(a.state) && a.sndUna != a.sndNxt
    requires s.flags == ACK && s.payload == [] && s.ack == a.sndNxt
    requires InFlight(a) == |a.sendBuf| + if a.finSeq.Some? then 1 else 0
    ensures var a' := OnSegment(a, s, cap).0;
            && a'.sendBuf == [] && a'.sndUna == a'.sndNxt == a.sndNxt && a'.sndWnd == s.window
            && (a.finSeq.Some? ==> FinAcked(a')) && !Counted(a')
  {
    OnSegmentKeepsSendSide(a, s, cap);
    AckedBytesFit(a, s);
  }

  lemma AllSent(a: Tcb, mss: nat, cap: nat)
    requires SendSideOk(a) && Transmitting(a.state) && a.sndNxt == a.sndUna && !FinAcked(a) && mss > 0
    requires FitsWindow(a)
    ensures var (a1, ss) := SegmentOne(a, mss, cap);
            && Payloads(ss) == a.sendBuf && Numbered(ss, a.sndUna) && AllCarry(ss) && FinOnlyLast(ss, a.finSeq.Some?)
            && SendSideOk(a1) && a1 == a.(sndNxt := a1.sndNxt)
            && InFlight(a1) == |a.sendBuf| + if a.finSeq.Some? then 1 else 0
  {
    SegmentOneSendsAll(a, mss, cap);
    SegmentOneSendsFin(a, mss, cap);
    SegmentOneNumbers(a, mss, cap);
    SegmentOneInFlight(a, mss, cap);
    assert a.sendBuf[0..|a.sendBuf|] == a.sendBuf;
  }

  lemma AckClears(a: Tcb, a1: Tcb, b: Tcb, n: nat, cap: nat)
    requires SendSideOk(a1) && Transmitting(a.state) && a1 == a.(sndNxt := a1.sndNxt)
    requires InFlight(a1) == n == |a.sendBuf| + (if a.finSeq.Some? then 1 else 0) && n > 0
    requires b.rcvNxt == WrappingAdd(a.sndUna, n)
    ensures Cleared(OnSegment(a1, AckSegment(b, cap), cap).0, b)
  {
    SubThenAdd(a.sndUna, a1.sndNxt);
    AckedInFull(a1, AckSegment(b, cap), cap);
  }

  /** From aligned ends, one round of segmentation carries all of the send
      buffer and the FIN across, and its last acknowledgement clears it. */
  lemma {:induction false} AllDelivered(a: Tcb, b: Tcb, mss: nat, cap: nat)
    requires Aligned(a, b, cap) && mss > 0
    ensures var (a1, ss) := SegmentOne(a, mss, cap);
            var (b', acks) := Feed(b, ss, cap);
            && SendSideOk(a1) && b'.recvBuf == b.recvBuf + a.sendBuf && b'.peerFin == a.finSeq.Some? && !Aborted(b')
            && (a.sendBuf != [] || a.finSeq.Some? ==> acks != [] && Cleared(OnSegment(a1, acks[|acks| - 1], cap).0, b'))
  {
    var (a1, ss) := SegmentOne(a, mss, cap);
    AllSent(a, mss, cap);
    FeedTakesAll(b, ss, a.finSeq.Some?, cap);
    if a.sendBuf != [] || a.finSeq.Some? {
      AckClears(a, a1, Feed(b, ss, cap).0, InFlight(a1), cap);
    }
  }

  /** Whatever was lost of the data in flight, a retransmission delivers it, if
      the receiver has taken none of it and has room. */
  lemma LossIsRepaired(a: Tcb, b: Tcb, threshold: nat, max: nat, mss: nat, cap: nat)
    requires SendSideOk(a) && Transmitting(a.state) && a.sndUna != a.sndNxt && DueAgain(a, threshold, max) && mss > 0
    requires Receives(b) && b.rcvNxt == a.sndUna && FitsWindow(a) && |b.recvBuf| + |a.sendBuf| <= cap
    ensures var t := CheckRetx(a, threshold, max).0;
            && SendSideOk(t) && Transmitting(t.state)
            && var (a1, ss) := SegmentOne(t, mss, cap);
            && SendSideOk(a1)
            && var (b', acks) := Feed(b, ss, cap);
            && b'.recvBuf == b.recvBuf + a.sendBuf && b'.peerFin == a.finSeq.Some? && acks != []
            && Cleared(OnSegment(a1, acks[|acks| - 1], cap).0, b')
  {
    Rewinds(a, threshold, max);
    AllDelivered(CheckRetx(a, threshold, max).0, b, mss, cap);
  }

  // ---- which retransmissions are answered ----

  /** Offsets from `sndUna` at which segmentation starts a segment: every `mss`
      bytes up to the end of the data or of the window, and at the FIN. */
  predicate StartsAt(t: Tcb, mss: nat, n: nat)
    requires mss > 0
  {
    || (InFlight(t) <= n < Min(|t.sendBuf|, t.sndWnd) && (n - InFlight(t)) % mss == 0)
    || (FinSendable(t) && n == |t.sendBuf|)
  }

  lemma MultipleIsFar(m: int, k: int)
    requires m > 0
    ensures k > 0 ==> m * k >= m
    ensures k < 0 ==> m * k <= -m
  {
  }

  lemma NextMultiple(d: nat, m: nat)
    requires m > 0
    ensures d < m ==> (d % m == 0 <==> d == 0)
    ensures d >= m ==> d % m == (d - m) % m
  {
    if d >= m {
      var q, r, q1, r1 := d / m, d % m, (d - m) / m, (d - m) % m;
      assert d == m * q + r;
      assert d - m == m * q1 + r1;
      assert m * (q - q1 - 1) == m * q - m * q1 - m;
      MultipleIsFar(m, q - q1 - 1);
    }
  }

  lemma NextStart(t: Tcb, mss: nat, cap: nat, n: nat)
    requires SendSideOk(t) && Transmitting(t.state) && CanEmit(t) && mss > 0
    ensures StartsAt(t, mss, n) <==> n == InFlight(t) || StartsAt(EmitNext(t, mss, cap).0, mss, n)
  {
    EmitNextExact(t, mss, cap);
    EmitNextSplits(t, mss, cap);
    FinPendingExact(t);
    if n >= InFlight(t) {
      NextMultiple(n - InFlight(t), mss);
    }
  }

  lemma {:induction false} StartsExact(t: Tcb, mss: nat, cap: nat, n: nat)
    requires SendSideOk(t) && Transmitting(t.state) && mss > 0 && n < MODULUS
    ensures (exists s :: s in SegmentOne(t, mss, cap).1 && s.seqNo == WrappingAdd(t.sndUna, n)) <==> StartsAt(t, mss, n)
    decreases Backlog(t)
  {
    if CanEmit(t) {
      EmitProgress(t, mss, cap);
      var (t1, s) := EmitNext(t, mss, cap);
      StartsExact(t1, mss, cap, n);
      NextStart(t, mss, cap, n);
      SubThenAdd(t.sndUna, t.sndNxt);
      SamePosition(t.sndUna, InFlight(t), n);
      var rest := SegmentOne(t1, mss, cap).1;
      assert SegmentOne(t, mss, cap).1 == [s] + rest;
      assert forall x :: x in [s] + rest <==> x == s || x in rest;
    } else {
      FinPendingExact(t);
    }
  }

  lemma StartsAfterRewind(t: Tcb, t': Tcb, mss: nat, n: nat)
    requires SendSideOk(t) && Transmitting(t.state) && t.sndUna != t.sndNxt && Rewound(t, t') && mss > 0
    ensures StartsAt(t', mss, n) <==> || (n < Min(|t.sendBuf|, t.sndWnd) && n % mss == 0)
                                      || (n == |t.sendBuf| < t.sndWnd && t.finSeq.Some?)
  {
    assert InFlight(t') == 0 && n - InFlight(t') == n;
  }

  lemma SegmentationAnsweredIff(t: Tcb, b: Tcb, n: nat, mss: nat, cap: nat)
    requires SendSideOk(t) && Transmitting(t.state) && mss > 0
    requires SendSideOk(b) && !Handshaking(b.state) && (b.peerFin || Receives(b)) && |b.recvBuf| < cap
    requires b.rcvNxt == WrappingAdd(t.sndUna, n) && n < MODULUS
    ensures Feed(b, SegmentOne(t, mss, cap).1, cap).1 != [] <==> !b.peerFin && StartsAt(t, mss, n)
  {
    SegmentOneNumbers(t, mss, cap);
    StartsExact(t, mss, cap, n);
    AnsweredIff(b, SegmentOne(t, mss, cap).1, cap);
  }

  /** A retransmission gets an answer exactly if the first byte the receiver
      still misses is a multiple of `mss` into it, or is the FIN. In particular
      what was all delivered, and only its acknowledgement lost, is never
      acknowledged again. */
  lemma RetransmissionAnsweredIff(a: Tcb, b: Tcb, n: nat, threshold: nat, max: nat, mss: nat, cap: nat)
    requires SendSideOk(a) && Transmitting(a.state) && a.sndUna != a.sndNxt && DueAgain(a, threshold, max) && mss > 0
    requires SendSideOk(b) && !Handshaking(b.state) && (b.peerFin || Receives(b)) && |b.recvBuf| < cap
    requires b.rcvNxt == WrappingAdd(a.sndUna, n) && n <= |a.sendBuf| + 1
    ensures var t := CheckRetx(a, threshold, max).0;
            && SendSideOk(t) && Transmitting(t.state)
            && (Feed(b, SegmentOne(t, mss, cap).1, cap).1 != [] <==>
                  && !b.peerFin
                  && ((n < Min(|a.sendBuf|, a.sndWnd) && n % mss == 0)
                      || (n == |a.sendBuf| < a.sndWnd && a.finSeq.Some?)))
  {
    var t := CheckRetx(a, threshold, max).0;
    Rewinds(a, threshold, max);
    SegmentationAnsweredIff(t, b, n, mss, cap);
    StartsAfterRewind(a, t, mss, n);
  }

  // ---- from one application to the other ----

  /** What one side writes, the other reads, once the segments and the last
      acknowledgement have crossed; the writer's buffer is free again. It does
      not matter whether the other side has shut down its own direction. */
  lemma {:induction false} WrittenIsRead(a: Tcb, b: Tcb, data: seq<Byte>, lens: seq<nat>, sendCap: nat, mss: nat,
      cap: nat)
    requires Aligned(a, b, cap) && !Aborted(a) && !a.wrClosed && a.sendBuf == [] && mss > 0
    requires a.state == Established || a.state == CloseWait
    requires 0 < |data| <= sendCap && sendCap + 1 < MODULUS && |data| <= a.sndWnd && |b.recvBuf| + |data| <= cap
    requires Total(lens) >= |b.recvBuf| + |data|
    ensures var (q, r) := Send(a, data, sendCap);
            && r == Ready(|data|) && SendSideOk(q) && Transmitting(q.state)
            && var (a1, ss) := SegmentOne(q, mss, cap);
            && var (b', acks) := Feed(b, ss, cap);
            && Recv(b', lens, cap).1 == Ready(b.recvBuf + data)
            && SendSideOk(a1) && acks != [] && Cleared(OnSegment(a1, acks[|acks| - 1], cap).0, b')
  {
    CallsKeepSendSide(a, data, sendCap, lens, cap);
    var q := Send(a, data, sendCap).0;
    assert data[..|data|] == data && [] + data == data;
    AllDelivered(q, b, mss, cap);
    var b' := Feed(b, SegmentOne(q, mss, cap).1, cap).0;
    assert b'.recvBuf[..|b'.recvBuf|] == b'.recvBuf;
  }

  /** With nothing to read, a read waits while the peer may still send, and is
      told the end once its FIN came; a shut side writes no more, and a connect in
      progress allows neither. */
  lemma CallsByState(t: Tcb, buf: seq<Byte>, lens: seq<nat>, sendCap: nat, cap: nat)
    requires SendSideOk(t) && !Aborted(t) && t.recvBuf == []
    ensures Receives(t) ==> Recv(t, lens, cap) == (t, Pending, None)
    ensures t.peerFin ==> Recv(t, lens, cap) == (t, Ready([]), None)
    ensures Handshaking(t.state) && !t.peerFin && !t.wrClosed ==>
              Recv(t, lens, cap).1 == Failed(NotConnected) && Send(t, buf, sendCap).1 == Failed(NotConnected)
    ensures ShutdownWrite(t).1 == Ready(()) && Send(ShutdownWrite(t).0, buf, sendCap).1 == Failed(BrokenPipe)
    ensures Recv(ShutdownWrite(t).0, lens, cap).1 == Recv(t, lens, cap).1 || !Receives(t)
  {
  }

  /** A RST is reported by every later call, whatever was buffered. */
  lemma ResetIsReported(t: Tcb, s: Segment, buf: seq<Byte>, lens: seq<nat>, cap: nat)
    requires SendSideOk(t) && s.flags.rst
    ensures var t' := OnSegment(t, s, cap).0;
            && Send(t', buf, cap).1 == Failed(ConnectionReset) && ShutdownWrite(t').1 == Failed(ConnectionReset)
            && Recv(t', lens, cap).1 == Failed(ConnectionReset)
            && (Handshaking(t.state) && !Aborted(t) ==>
                  HostKernel.Kernel.ConnectProgress(t') == Failed(ConnectionRefused))
  {
  }

  /** A spent retransmission budget is reported as a timeout, to a connect in
      progress as well; and only a spent budget ends a connection. */
  lemma TimeoutIsReported(t: Tcb, threshold: nat, max: nat, buf: seq<Byte>, lens: seq<nat>, cap: nat)
    requires SendSideOk(t) && !Aborted(t) && Counted(t)
    ensures var t' := CheckRetx(t, threshold, max).0;
            var spent := t.egressSinceAck + 1 >= threshold && t.retxAttempts >= max;
            && (spent ==>
                  && Send(t', buf, cap).1 == Failed(TimedOut) && ShutdownWrite(t').1 == Failed(TimedOut)
                  && Recv(t', lens, cap).1 == Failed(TimedOut)
                  && HostKernel.Kernel.ConnectProgress(t') == Failed(TimedOut))
            && (!spent ==> !Aborted(t') && t'.state == t.state && t'.sendBuf == t.sendBuf && t'.recvBuf == t.recvBuf)
  {
  }

  // ---- a closed window ----

  /** All that was sent arrived, and the window is closed on the rest. */
  predicate Stalled(a: Tcb, b: Tcb, cap: nat) {
    && SendSideOk(a) && Transmitting(a.state) && a.sndUna == a.sndNxt == b.rcvNxt && a.sndWnd == 0 && a.sendBuf != []
    && !Aborted(b) && |b.recvBuf| <= cap
  }

  /** An acknowledgement of nothing new brings its window, and nothing else. */
  lemma PureAck(t: Tcb, s: Segment, cap: nat)
    requires SendSideOk(t) && Transmitting(t.state) && s.flags == ACK && s.payload == [] && s.ack == t.sndUna
    ensures OnSegment(t, s, cap) == (t.(sndWnd := s.window), None)
  {
    assert t.recvBuf + s.payload[..0] == t.recvBuf;
  }

  /** A read lets a stalled sender go on exactly if it takes half of the receive
      buffer's capacity or more. No sweep does. */
  lemma WindowReopensIff(a: Tcb, b: Tcb, lens: seq<nat>, cap: nat)
    requires Stalled(a, b, cap) && b.recvBuf != []
    ensures var (b', r, update) := Recv(b, lens, cap);
            var n := Min(|b.recvBuf|, Total(lens));
            var a' := if update.Some? then OnSegment(a, update.value, cap).0 else a;
            && (CanEmit(a') <==> 2 * n + 1 >= cap && n > 0)
            && (2 * n + 1 < cap ==> update == None && Stalled(a', b', cap))
            && !Counted(a)
  {
    var update := Recv(b, lens, cap).2;
    if update.Some? {
      PureAck(a, update.value, cap);
    }
  }

  /** Reads, one after the other: the block, and the window updates they sent. */
  function Reads(t: Tcb, calls: seq<seq<nat>>, cap: nat): (Tcb, seq<Segment>) {
    if calls == [] then (t, [])
    else
      var (t1, updates) := Reads(t, calls[..|calls| - 1], cap);
      var (t2, _, update) := Recv(t1, calls[|calls| - 1], cap);
      (t2, updates + if update.Some? then [update.value] else [])
  }

  /** However many reads, each of less than half the capacity: the sender hears
      of none of them, and stays stalled with all of the buffer free. */
  lemma {:induction false} SmallReadsStall(a: Tcb, b: Tcb, calls: seq<seq<nat>>, cap: nat)
    requires Stalled(a, b, cap) && forall i :: 0 <= i < |calls| ==> 2 * Total(calls[i]) + 1 < cap
    ensures Reads(b, calls, cap).1 == [] && Stalled(a, Reads(b, calls, cap).0, cap)
  {
    if calls != [] {
      var before, lens := calls[..|calls| - 1], calls[|calls| - 1];
      SmallReadsStall(a, b, before, cap);
      var b1 := Reads(b, before, cap).0;
      if b1.recvBuf != [] {
        WindowReopensIff(a, b1, lens, cap);
      }
    }
  }

  // ---- a full send buffer ----

  /** Everything in the buffer was sent, and the segment acknowledges it. */
  predicate AcksAll(t: Tcb, s: Segment) {
    s.flags == ACK && s.payload == [] && s.ack == t.sndNxt != t.sndUna && InFlight(t) == |t.sendBuf|
  }

  /** On an open connection, a write fills the send buffer as far as it goes and
      says how far, and waits exactly while it is full; the acknowledgement of
      all that was sent ends that wait. */
  lemma BackpressureIff(t: Tcb, buf: seq<Byte>, s: Segment, sendCap: nat, cap: nat)
    requires SendSideOk(t) && t.state == Established && !t.wrClosed && !Aborted(t)
    ensures var (t', r) := Send(t, buf, sendCap);
            && (r == Pending <==> |t.sendBuf| >= sendCap)
            && (r != Pending ==> r == Ready(|t'.sendBuf| - |t.sendBuf|)
                                 && |t'.sendBuf| == Min(sendCap, |t.sendBuf| + |buf|))
    ensures AcksAll(t, s) && sendCap > 0 ==>
              Send(OnSegment(t, s, cap).0, buf, sendCap).1 == Ready(Min(|buf|, sendCap))
  {
    if AcksAll(t, s) {
      AckedInFull(t, s, cap);
      OpenAfterAck(t, s, cap);
    }
  }

  lemma OpenAfterAck(t: Tcb, s: Segment, cap: nat)
    requires SendSideOk(t) && t.state == Established && !t.wrClosed && !Aborted(t) && s.flags == ACK && s.payload == []
    ensures var t' := OnSegment(t, s, cap).0; t'.state == Established && !t'.wrClosed && !Aborted(t')
  {
  }
}
