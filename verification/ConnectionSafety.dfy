/** Safety of a connection over every run of the adversarial network. */
module ConnectionSafety {
  import opened Common
  import opened SeqSpace
  import opened TcbSpec
  import opened Connection

  /** The number of the first byte this host sends. */
  function Base(h: Host): U32 {
    WrappingAdd(h.isn, 1)
  }

  /** Positions of the peer's stream this host has accepted, FIN included. */
  function Accepted(h: Host): nat {
    |h.rcvd| + (if h.tcb.peerFin then 1 else 0)
  }

  /** The send buffer is the unacknowledged suffix of what the application
      wrote; `sndUna` and the FIN carry the numbers of their true positions. */
  predicate SendBufferIsSuffix(h: Host) {
    && h.tcb.sndUna == WrappingAdd(Base(h), h.una)
    && h.una + InFlight(h.tcb) <= |h.sent| + (if h.tcb.wrClosed then 1 else 0)
    && h.tcb.sendBuf == h.sent[Min(h.una, |h.sent|)..]
    && h.tcb.finSeq == (if h.tcb.wrClosed then Some(WrappingAdd(Base(h), |h.sent|)) else None)
  }

  predicate AllAcked(h: Host) {
    h.una == |h.sent| + 1
  }

  /** What each connection state says about the two directions. */
  predicate StateOk(h: Host) {
    var t := h.tcb;
    match t.state
    case SynSent => h.una == 0 && h.sent == [] && h.rcvd == [] && !t.peerFin && InFlight(t) == 0
    case SynReceived => h.una == 0 && h.sent == [] && h.rcvd == [] && !t.peerFin && InFlight(t) == 0
    case Established => !t.peerFin
    case FinWait1 => t.wrClosed && !t.peerFin
    case FinWait2 => t.wrClosed && !t.peerFin && AllAcked(h)
    case CloseWait => t.peerFin
    case LastAck => t.wrClosed && t.peerFin
    case Closing => t.wrClosed && t.peerFin
    case Closed => t.wrClosed && t.peerFin && AllAcked(h)
  }

  predicate Local(h: Host) {
    && |h.sent| + 1 < MODULUS
    && h.read <= h.rcvd
    && (h.phase == Idle ==>
          && h.sent == h.rcvd == h.read == []
          && h.una == 0 && !h.tcb.wrClosed && !h.tcb.peerFin && h.tcb == NO_TCB)
    && (Aborted(h.tcb) ==> h.tcb.state == Closed && h.tcb.recvBuf == [])
    && (h.phase != Idle && !Aborted(h.tcb) ==>
          SendBufferIsSuffix(h) && h.read + h.tcb.recvBuf == h.rcvd && StateOk(h))
  }

  /** `h` has accepted a prefix of what `peer` wrote, and a FIN only after all of it. */
  predicate AcceptedPrefix(h: Host, peer: Host) {
    && h.rcvd <= peer.sent
    && (h.tcb.peerFin ==> peer.tcb.wrClosed && h.rcvd == peer.sent)
  }

  /** Once it knows the peer, `h` expects exactly the next position. */
  predicate Expects(h: Host, peer: Host) {
    h.phase == Live && !Aborted(h.tcb) && h.tcb.state != SynSent ==>
      peer.phase != Idle && h.tcb.rcvNxt == WrappingAdd(Base(peer), Accepted(h))
  }

  predicate HostOk(h: Host, peer: Host) {
    && Local(h)
    && AcceptedPrefix(h, peer)
    && Expects(h, peer)
    && h.una <= Accepted(peer)
  }

  predicate CarriesAt(g: Segment, h: Host, off: nat) {
    && off + |g.payload| <= |h.sent|
    && g.seqNo == WrappingAdd(Base(h), off)
    && g.payload == h.sent[off..off + |g.payload|]
  }

  predicate AcksUpTo(g: Segment, h: Host, peer: Host, k: nat) {
    k <= Accepted(h) && g.ack == WrappingAdd(Base(peer), k)
  }

  /** What every segment `h` ever emitted still says truly of `h` and its peer. */
  ghost predicate Truthful(g: Segment, h: Host, peer: Host) {
    && (g.flags.rst ==> !g.flags.syn)
    && (!g.flags.rst ==>
          && h.phase != Idle
          && (g.flags.syn ==> g.seqNo == h.isn && g.payload == [] && !g.flags.fin)
          && (g.payload != [] ==> exists off: nat :: CarriesAt(g, h, off))
          && (g.flags.fin ==> g.payload == [] && h.tcb.wrClosed && g.seqNo == WrappingAdd(Base(h), |h.sent|))
          && (g.flags.ack ==> peer.phase != Idle && exists k: nat :: AcksUpTo(g, h, peer, k)))
  }

  ghost predicate AllTruthful(gs: set<Segment>, h: Host, peer: Host) {
    forall g :: g in gs ==> Truthful(g, h, peer)
  }

  ghost predicate PairOk(x: Host, y: Host, fromX: set<Segment>, fromY: set<Segment>) {
    && HostOk(x, y) && HostOk(y, x)
    && AllTruthful(fromX, x, y) && AllTruthful(fromY, y, x)
  }

  // ---- gluing one host's step into the pair ----

  /** `h` only ever grows its history, and a closed write side is final. */
  predicate Extends(h: Host, h': Host) {
    && (h.phase != Idle ==> h'.phase != Idle && h'.isn == h.isn)
    && h.sent <= h'.sent
    && (h.tcb.wrClosed ==> h'.tcb.wrClosed && h'.sent == h.sent)
    && h.rcvd <= h'.rcvd
    && Accepted(h) <= Accepted(h')
  }

  lemma TruthfulStays(g: Segment, x: Host, y: Host, x': Host, y': Host)
    requires Truthful(g, x, y) && Extends(x, x') && Extends(y, y')
    ensures Truthful(g, x', y')
  {
    if !g.flags.rst {
      if g.payload != [] {
        var off: nat :| CarriesAt(g, x, off);
        assert CarriesAt(g, x', off);
      }
      if g.flags.ack {
        var k: nat :| AcksUpTo(g, x, y, k);
        assert AcksUpTo(g, x', y', k);
      }
    }
  }

  ghost predicate StepOk(x: Host, x': Host, out: set<Segment>, y: Host) {
    Extends(x, x') && HostOk(x', y) && AllTruthful(out, x', y)
  }

  lemma Glue(x: Host, y: Host, fromX: set<Segment>, fromY: set<Segment>, x': Host, out: set<Segment>)
    requires PairOk(x, y, fromX, fromY)
    requires StepOk(x, x', out, y)
    ensures PairOk(x', y, fromX + out, fromY)
  {
    forall g | g in fromX ensures Truthful(g, x', y) { TruthfulStays(g, x, y, x', y); }
    forall g | g in fromY ensures Truthful(g, y, x') { TruthfulStays(g, y, x, y, x'); }
  }

  // ---- inbound segments ----

  /** An ACK of true position `k` moves `una` to `k` exactly when `k` is in
      flight; stale ACKs and ACKs past a rewound `sndNxt` change nothing. */
  lemma AckMoves(x: Host, s: Segment, k: nat)
    requires |x.sent| + 1 < MODULUS && SendBufferIsSuffix(x) && SendSideOk(x.tcb) && x.tcb.state != Closed
    requires s.ack == WrappingAdd(Base(x), k)
    requires k <= |x.sent| + (if x.tcb.wrClosed then 1 else 0)
    ensures AckAdvances(x.tcb, s) <==> x.una < k <= x.una + InFlight(x.tcb)
    ensures AckAdvances(x.tcb, s) ==> WrappingSub(s.ack, x.tcb.sndUna) == k - x.una
    ensures AcksFin(x.tcb, s) <==> x.tcb.wrClosed && k == |x.sent| + 1
  {
    Distance(Base(x), k, x.una);
    if x.tcb.wrClosed {
      AddAdd(Base(x), |x.sent|, 1);
      SamePosition(Base(x), k, |x.sent| + 1);
    }
  }

  lemma AckStepSend(x: Host, s: Segment, k: nat)
    requires |x.sent| + 1 < MODULUS && SendBufferIsSuffix(x) && SendSideOk(x.tcb) && x.tcb.state != Closed
    requires s.ack == WrappingAdd(Base(x), k)
    requires k <= |x.sent| + (if x.tcb.wrClosed then 1 else 0)
    requires AckAdvances(x.tcb, s)
    ensures var x1 := x.(tcb := DrainAck(x.tcb, s), una := k);
            SendBufferIsSuffix(x1) && (AcksFin(x.tcb, s) ==> AllAcked(x1))
  {
    AckMoves(x, s, k);
    AckedBytesFit(x.tcb, s);
    Remaining(x.tcb.sndNxt, x.tcb.sndUna, s.ack);
    var from := Min(x.una, |x.sent|);
    var bytes := AckedBytes(x.tcb, s);
    assert from + bytes == Min(k, |x.sent|);
    assert x.sent[from..][bytes..] == x.sent[from + bytes..];
  }

  lemma AbsorbAck(x: Host, s: Segment, k: nat)
    requires |x.sent| + 1 < MODULUS && SendBufferIsSuffix(x) && SendSideOk(x.tcb) && x.tcb.state != Closed
    requires s.ack == WrappingAdd(Base(x), k)
    requires k <= |x.sent| + (if x.tcb.wrClosed then 1 else 0)
    ensures Absorb(x, DrainAck(x.tcb, s)) ==
              x.(tcb := DrainAck(x.tcb, s), una := if AckAdvances(x.tcb, s) then k else x.una)
  {
    AckMoves(x, s, k);
    assert x.tcb.recvBuf[|x.tcb.recvBuf|..] == [];
  }

  lemma {:induction false} AckStep(x: Host, y: Host, s: Segment)
    requires HostOk(x, y) && HostOk(y, x) && Truthful(s, y, x) && Sane(x)
    requires x.phase == Live && !Aborted(x.tcb) && x.tcb.state != Closed && !Handshaking(x.tcb.state)
    requires !s.flags.rst && s.flags.ack
    ensures var x1 := Absorb(x, DrainAck(x.tcb, s));
            HostOk(x1, y) && Extends(x, x1)
  {
    var k: nat :| AcksUpTo(s, y, x, k);
    AbsorbAck(x, s, k);
    if AckAdvances(x.tcb, s) {
      AckStepSend(x, s, k);
    }
  }

  /** In-order data extends the accepted bytes along the peer's stream. */
  lemma DataFits(x: Host, y: Host, s: Segment, cap: nat)
    requires AcceptedPrefix(x, y) && |y.sent| + 1 < MODULUS
    requires x.tcb.rcvNxt == WrappingAdd(Base(y), Accepted(x))
    requires y.phase != Idle && Truthful(s, y, x) && !s.flags.rst
    ensures var n := Takes(x.tcb, s, cap);
            && x.rcvd + s.payload[..n] <= y.sent
            && (n > 0 ==> WrappingAdd(x.tcb.rcvNxt, n) == WrappingAdd(Base(y), Accepted(x) + n))
  {
    var n := Takes(x.tcb, s, cap);
    if n > 0 {
      var off: nat :| CarriesAt(s, y, off);
      SamePosition(Base(y), off, |x.rcvd|);
      AddAdd(Base(y), off, n);
      assert x.rcvd + s.payload[..n] == y.sent[..off + n];
    }
  }

  lemma AbsorbData(x: Host, s: Segment, cap: nat)
    ensures Absorb(x, AcceptData(x.tcb, s, cap)) ==
              x.(tcb := AcceptData(x.tcb, s, cap), rcvd := x.rcvd + s.payload[..Takes(x.tcb, s, cap)])
  {
    var n := Takes(x.tcb, s, cap);
    assert (x.tcb.recvBuf + s.payload[..n])[|x.tcb.recvBuf|..] == s.payload[..n];
  }

  lemma DataStep(x: Host, y: Host, s: Segment, cap: nat)
    requires HostOk(x, y) && HostOk(y, x) && Truthful(s, y, x)
    requires x.phase == Live && !Aborted(x.tcb) && !Handshaking(x.tcb.state)
    requires !s.flags.rst
    ensures var x1 := Absorb(x, AcceptData(x.tcb, s, cap));
            HostOk(x1, y) && Extends(x, x1)
  {
    AbsorbData(x, s, cap);
    DataFits(x, y, s, cap);
    var n := Takes(x.tcb, s, cap);
    var x1 := x.(tcb := AcceptData(x.tcb, s, cap), rcvd := x.rcvd + s.payload[..n]);
    assert x.read + (x.tcb.recvBuf + s.payload[..n]) == x.rcvd + s.payload[..n];
    assert SendBufferIsSuffix(x1);
    assert Local(x1);
  }

  lemma FinStep(x: Host, y: Host, s: Segment)
    requires HostOk(x, y) && HostOk(y, x) && Truthful(s, y, x)
    requires x.phase == Live && !Aborted(x.tcb) && !Handshaking(x.tcb.state)
    requires !s.flags.rst
    ensures var x1 := x.(tcb := AcceptFin(x.tcb, s));
            HostOk(x1, y) && Extends(x, x1)
  {
    if TakesFin(x.tcb, s) {
      SamePosition(Base(y), |y.sent|, |x.rcvd|);
      assert x.rcvd == y.sent;
      AddAdd(Base(y), |x.rcvd|, 1);
    }
  }

  lemma ExtendsTransitive(a: Host, b: Host, c: Host)
    requires Extends(a, b) && Extends(b, c)
    ensures Extends(a, c)
  {
  }

  lemma AckOut(x: Host, y: Host, g: Segment)
    requires Expects(x, y) && x.phase == Live && !Aborted(x.tcb) && x.tcb.state != SynSent
    requires g.flags == ACK && g.payload == [] && g.ack == x.tcb.rcvNxt
    ensures Truthful(g, x, y)
  {
    assert AcksUpTo(g, x, y, Accepted(x));
  }

  /** The peer's own obligations survive this host's growth. */
  lemma PeerStays(x: Host, x': Host, y: Host)
    requires HostOk(y, x) && Extends(x, x')
    ensures HostOk(y, x')
  {
  }

  lemma AbsorbTwice(x: Host, x1: Host, s: Segment, cap: nat)
    requires Sane(x) && x.tcb.state != Closed
    requires x1 == if s.flags.ack then Absorb(x, DrainAck(x.tcb, s)) else x
    ensures var t2 := AcceptData(x1.tcb, s, cap);
            var t3 := AcceptFin(t2, s);
            Absorb(x, t3) == Absorb(x1, t2).(tcb := t3)
  {
    var t2 := AcceptData(x1.tcb, s, cap);
    assert x1.rcvd == x.rcvd;
    assert x1.tcb.recvBuf == x.tcb.recvBuf;
  }

  predicate Open(h: Host) {
    h.phase == Live && !Aborted(h.tcb) && !Handshaking(h.tcb.state)
  }

  /** Inside the handling of one segment `s`: both hosts are consistent, and
      `s` is still true of its sender. */
  ghost predicate Handling(x: Host, y: Host, s: Segment) {
    Open(x) && HostOk(x, y) && HostOk(y, x) && Truthful(s, y, x)
  }

  lemma StageAck(x: Host, y: Host, s: Segment)
    requires Handling(x, y, s) && Sane(x) && x.tcb.state != Closed && !s.flags.rst && s.flags.ack
    ensures var x1 := Absorb(x, DrainAck(x.tcb, s));
            Handling(x1, y, s) && Extends(x, x1)
  {
    AckStep(x, y, s);
    var x1 := Absorb(x, DrainAck(x.tcb, s));
    PeerStays(x, x1, y);
    TruthfulStays(s, y, x, y, x1);
  }

  lemma StageData(x: Host, y: Host, s: Segment, cap: nat)
    requires Handling(x, y, s) && !s.flags.rst
    ensures var x1 := Absorb(x, AcceptData(x.tcb, s, cap));
            Handling(x1, y, s) && Extends(x, x1)
  {
    DataStep(x, y, s, cap);
    var x1 := Absorb(x, AcceptData(x.tcb, s, cap));
    PeerStays(x, x1, y);
    TruthfulStays(s, y, x, y, x1);
  }

  lemma StageReply(x: Host, y: Host, s: Segment, cap: nat)
    requires Handling(x, y, s) && !s.flags.rst
    ensures var x1 := x.(tcb := AcceptFin(x.tcb, s));
            Extends(x, x1) && HostOk(x1, y) && Truthful(AckSegment(x1.tcb, cap), x1, y)
  {
    FinStep(x, y, s);
    var x1 := x.(tcb := AcceptFin(x.tcb, s));
    AckOut(x1, y, AckSegment(x1.tcb, cap));
  }

  lemma {:induction false} EstablishedStep(x: Host, y: Host, s: Segment, cap: nat)
    requires Handling(x, y, s) && Sane(x) && x.tcb.state != Closed && !s.flags.rst
    ensures var r := OnEstablished(x.tcb, s, cap);
            StepOk(x, Absorb(x, r.0), Emitted(r.1), y)
  {
    var x1 := if s.flags.ack then Absorb(x, DrainAck(x.tcb, s)) else x;
    if s.flags.ack {
      StageAck(x, y, s);
    }
    StageData(x1, y, s, cap);
    var x2 := Absorb(x1, AcceptData(x1.tcb, s, cap));
    StageReply(x2, y, s, cap);
    var x3 := x2.(tcb := AcceptFin(x2.tcb, s));
    ExtendsTransitive(x, x1, x2);
    ExtendsTransitive(x, x2, x3);
    AbsorbTwice(x, x1, s, cap);
  }

  lemma SynSentStep(x: Host, y: Host, s: Segment, cap: nat)
    requires HostOk(x, y) && HostOk(y, x) && Truthful(s, y, x) && Sane(x)
    requires x.phase == Live && !Aborted(x.tcb) && x.tcb.state == SynSent && !s.flags.rst
    ensures var r := OnSegment(x.tcb, s, cap);
            StepOk(x, Absorb(x, r.0), Emitted(r.1), y)
  {
    var (t, reply) := OnSegment(x.tcb, s, cap);
    var x1 := Absorb(x, t);
    assert x1 == x.(tcb := t);
    if s.flags.syn && s.flags.ack {
      assert t.rcvNxt == WrappingAdd(Base(y), 0);
      AckOut(x1, y, reply.value);
    }
  }

  /** A change of the block that leaves both streams as they were. */
  lemma QuietStep(x: Host, y: Host, x1: Host)
    requires HostOk(x, y) && x.phase == Live
    requires x1 == x.(tcb := x1.tcb) || x1 == x.(tcb := x1.tcb, fdClosed := true)
    requires x1.tcb.peerFin == x.tcb.peerFin && x1.tcb.rcvNxt == x.tcb.rcvNxt && x1.tcb.sndUna == x.tcb.sndUna
    requires x1.tcb.recvBuf == if Aborted(x1.tcb) then [] else x.tcb.recvBuf
    requires x.tcb.wrClosed ==> x1.tcb.wrClosed
    requires Aborted(x1.tcb) ==> x1.tcb.state == Closed
    requires x.tcb.state == SynSent ==> x1.tcb.state == SynSent || Aborted(x1.tcb)
    requires Aborted(x.tcb) ==> Aborted(x1.tcb)
    requires !Aborted(x1.tcb) ==> SendBufferIsSuffix(x1) && StateOk(x1)
    ensures StepOk(x, x1, {}, y)
  {
  }

  /** Any segment of the peer's, delivered to a live block. */
  lemma {:induction false} DeliverStep(x: Host, y: Host, s: Segment, cap: nat)
    requires HostOk(x, y) && HostOk(y, x) && Truthful(s, y, x) && Sane(x) && x.phase == Live
    ensures var r := OnSegment(x.tcb, s, cap);
            StepOk(x, Absorb(x, r.0), Emitted(r.1), y)
  {
    if s.flags.rst || x.tcb.state == Closed || x.tcb.state == SynReceived {
      QuietDelivery(x, y, s, cap);
    } else if x.tcb.state == SynSent {
      SynSentStep(x, y, s, cap);
    } else {
      EstablishedStep(x, y, s, cap);
    }
  }

  lemma QuietDelivery(x: Host, y: Host, s: Segment, cap: nat)
    requires HostOk(x, y) && Sane(x) && x.phase == Live
    requires s.flags.rst || x.tcb.state == Closed || x.tcb.state == SynReceived
    ensures var r := OnSegment(x.tcb, s, cap);
            StepOk(x, Absorb(x, r.0), Emitted(r.1), y)
  {
    var t := OnSegment(x.tcb, s, cap).0;
    assert x.tcb.recvBuf[|x.tcb.recvBuf|..] == [];
    assert Absorb(x, t) == x.(tcb := t);
  }

  // ---- the other operations ----

  lemma ConnectStep(x: Host, y: Host, cfg: Config, isn: U32)
    requires HostOk(x, y) && x.phase == Idle && !x.listens
    ensures var r := DoConnect(x, cfg, isn);
            StepOk(x, r.0, r.1, y)
  {
  }

  lemma AcceptStep(x: Host, y: Host, cfg: Config, s: Segment, isn: U32)
    requires HostOk(x, y) && Truthful(s, y, x) && x.phase == Idle && x.listens
    requires s.flags.syn && !s.flags.ack
    ensures var t := NewTcb(SynReceived, cfg.peer, isn, s.window, WrappingAdd(s.seqNo, 1));
            var g := Segment(isn, t.rcvNxt, ACK.(syn := true), DEFAULT_WINDOW, []);
            StepOk(x, Connection.Open(x, t, isn), {g}, y)
  {
    var t := NewTcb(SynReceived, cfg.peer, isn, s.window, WrappingAdd(s.seqNo, 1));
    var x1 := Connection.Open(x, t, isn);
    var g := Segment(isn, t.rcvNxt, ACK.(syn := true), DEFAULT_WINDOW, []);
    assert AcksUpTo(g, x1, y, 0);
  }

  lemma WriteStep(x: Host, y: Host, cfg: Config, data: seq<Byte>)
    requires HostOk(x, y) && x.phase == Live
    requires |DoWrite(x, cfg, data).0.sent| + 1 < MODULUS
    ensures var r := DoWrite(x, cfg, data);
            StepOk(x, r.0, r.1, y)
  {
    var (t, r) := Send(x.tcb, data, cfg.sendCap);
    if r.Ready? {
      var more := data[..r.value];
      assert x.una <= |x.sent|;
      assert (x.sent + more)[x.una..] == x.sent[x.una..] + more;
    }
  }

  lemma {:induction false} QueueFinStep(x: Host, y: Host, x1: Host)
    requires HostOk(x, y) && x.phase == Live && !Aborted(x.tcb) && !x.tcb.wrClosed
    requires x1 == x.(tcb := QueueFin(x.tcb)) || x1 == x.(tcb := QueueFin(x.tcb), fdClosed := true)
    ensures StepOk(x, x1, {}, y)
  {
    AddAdd(Base(x), x.una, |x.tcb.sendBuf|);
    assert SendBufferIsSuffix(x1);
    QuietStep(x, y, x1);
  }

  lemma {:induction false} ShutdownStep(x: Host, y: Host)
    requires HostOk(x, y) && x.phase == Live
    ensures StepOk(x, x.(tcb := ShutdownWrite(x.tcb).0), {}, y)
    ensures !Aborted(x.tcb) && x.tcb.state != Closed && !x.tcb.wrClosed ==>
              StepOk(x, x.(tcb := QueueFin(x.tcb), fdClosed := true), {}, y)
  {
    if !Aborted(x.tcb) && !x.tcb.wrClosed {
      QueueFinStep(x, y, x.(tcb := QueueFin(x.tcb)));
      QueueFinStep(x, y, x.(tcb := QueueFin(x.tcb), fdClosed := true));
    }
  }

  lemma ReadStep(x: Host, y: Host, cfg: Config, lens: seq<nat>)
    requires HostOk(x, y) && x.phase == Live
    ensures var r := DoRead(x, cfg, lens);
            StepOk(x, r.0, r.1, y)
  {
    var (t, r, update) := Recv(x.tcb, lens, cfg.recvCap);
    var x1 := DoRead(x, cfg, lens).0;
    if r.Ready? {
      assert x1.read + t.recvBuf == x.rcvd;
    }
    if update.Some? {
      AckOut(x1, y, update.value);
    }
  }

  lemma HandshakeOut(x: Host, y: Host)
    requires HostOk(x, y) && x.phase == Live && !Aborted(x.tcb) && Handshaking(x.tcb.state)
    ensures Truthful(HandshakeSegment(x.tcb), x, y)
  {
    AddThenSub(x.isn, 1);
    var g := HandshakeSegment(x.tcb);
    if x.tcb.state == SynReceived {
      assert AcksUpTo(g, x, y, 0);
    }
  }

  lemma RewindStep(x: Host, y: Host, x1: Host)
    requires HostOk(x, y) && x.phase == Live && !Aborted(x.tcb) && Transmitting(x.tcb.state)
    requires x1 == x.(tcb := x1.tcb)
    requires x1.tcb == x.tcb.(sndNxt := x.tcb.sndUna, egressSinceAck := x1.tcb.egressSinceAck,
             retxAttempts := x1.tcb.retxAttempts)
    ensures StepOk(x, x1, {}, y)
  {
    assert InFlight(x1.tcb) == 0;
    QuietStep(x, y, x1);
  }

  /** A sweep that only counts, or gives up. */
  lemma CountStep(x: Host, y: Host, x1: Host)
    requires HostOk(x, y) && Sane(x) && x.phase == Live && x1 == x.(tcb := x1.tcb)
    requires var t := x.tcb.(egressSinceAck := x1.tcb.egressSinceAck, retxAttempts := x1.tcb.retxAttempts);
             x1.tcb == t || x1.tcb == Abort(t, false)
    ensures StepOk(x, x1, {}, y)
  {
    QuietStep(x, y, x1);
  }

  lemma RetransmitStep(x: Host, y: Host, cfg: Config)
    requires HostOk(x, y) && Sane(x) && x.phase == Live
    ensures var r := DoRetransmit(x, cfg);
            StepOk(x, r.0, r.1, y)
  {
    var (t, action) := CheckRetx(x.tcb, cfg.retxThreshold, cfg.retxMax);
    var x1 := x.(tcb := t);
    if action == Rewind {
      RewindStep(x, y, x1);
    } else {
      CountStep(x, y, x1);
      if action == ResendHandshake {
        HandshakeOut(x1, y);
      }
    }
  }

  lemma SliceOfSuffix(s: seq<Byte>, from: nat, a: nat, b: nat)
    requires from + b <= |s| && a <= b
    ensures s[from..][a..b] == s[from + a..from + b]
  {
  }

  /** An emitted segment carries the bytes at its true position, or the FIN at
      the end of the stream. */
  lemma EmittedIsTruthful(x: Host, y: Host, mss: nat, cap: nat)
    requires HostOk(x, y) && Sane(x) && x.phase == Live && Transmitting(x.tcb.state) && CanEmit(x.tcb) && mss > 0
    ensures Truthful(EmitNext(x.tcb, mss, cap).1, x, y)
  {
    EmitNextExact(x.tcb, mss, cap);
    var g := EmitNext(x.tcb, mss, cap).1;
    var pos := x.una + InFlight(x.tcb);
    AddAdd(Base(x), x.una, InFlight(x.tcb));
    SubThenAdd(x.tcb.sndUna, x.tcb.sndNxt);
    assert AcksUpTo(g, x, y, Accepted(x));
    if !g.flags.fin {
      var n := |g.payload|;
      SliceOfSuffix(x.sent, x.una, InFlight(x.tcb), InFlight(x.tcb) + n);
      assert CarriesAt(g, x, pos);
    }
  }

  lemma EmitStep(x: Host, y: Host, mss: nat, cap: nat)
    requires HostOk(x, y) && Sane(x) && x.phase == Live && Transmitting(x.tcb.state) && CanEmit(x.tcb) && mss > 0
    ensures var r := EmitNext(x.tcb, mss, cap);
            StepOk(x, x.(tcb := r.0), {r.1}, y)
  {
    EmittedIsTruthful(x, y, mss, cap);
    EmitNextExact(x.tcb, mss, cap);
    var (t, g) := EmitNext(x.tcb, mss, cap);
    var x1 := x.(tcb := t);
    QuietStep(x, y, x1);
    TruthfulStays(g, x, y, x1, y);
  }

  lemma StepsCompose(x: Host, x1: Host, x2: Host, out1: set<Segment>, out2: set<Segment>, y: Host)
    requires StepOk(x, x1, out1, y) && StepOk(x1, x2, out2, y)
    ensures StepOk(x, x2, out1 + out2, y)
  {
    ExtendsTransitive(x, x1, x2);
    forall g | g in out1 ensures Truthful(g, x2, y) { TruthfulStays(g, x1, y, x2, y); }
  }

  lemma {:induction false} SegmentOutStep(x: Host, y: Host, mss: nat, cap: nat)
    requires HostOk(x, y) && Sane(x) && x.phase == Live && Transmitting(x.tcb.state) && mss > 0
    ensures var r := SegmentOne(x.tcb, mss, cap);
            StepOk(x, x.(tcb := r.0), Segments(r.1), y)
    decreases Backlog(x.tcb)
  {
    if CanEmit(x.tcb) {
      EmitProgress(x.tcb, mss, cap);
      EmitStep(x, y, mss, cap);
      var (t1, g) := EmitNext(x.tcb, mss, cap);
      var x1 := x.(tcb := t1);
      SegmentOutStep(x1, y, mss, cap);
      var (t2, rest) := SegmentOne(t1, mss, cap);
      StepsCompose(x, x1, x1.(tcb := t2), {g}, Segments(rest), y);
      assert Segments([g] + rest) == {g} + Segments(rest);
    } else {
      assert Segments([]) == {};
    }
  }

  lemma {:induction false} CloseStep(x: Host, y: Host)
    requires HostOk(x, y) && x.phase == Live
    ensures var r := DoClose(x);
            StepOk(x, r.0, r.1, y)
  {
    if !Aborted(x.tcb) && x.tcb.state != Closed && !Handshaking(x.tcb.state) && x.tcb.recvBuf == [] && !x.tcb.wrClosed {
      ShutdownStep(x, y);
    }
  }

  /** Every operation of either host keeps the pair consistent. */
  lemma StepKeepsPair(x: Host, y: Host, fromX: set<Segment>, fromY: set<Segment>, cfg: Config, op: Op)
    requires PairOk(x, y, fromX, fromY) && Sane(x) && ConfigOk(cfg)
    requires |Step(x, cfg, op, fromY).0.sent| + 1 < MODULUS
    ensures var r := Step(x, cfg, op, fromY);
            PairOk(r.0, y, fromX + r.1, fromY)
  {
    var r := Step(x, cfg, op, fromY);
    StepIsOk(x, y, fromX, fromY, cfg, op);
    Glue(x, y, fromX, fromY, r.0, r.1);
  }

  lemma {:induction false} StepIsOk(x: Host, y: Host, fromX: set<Segment>, fromY: set<Segment>, cfg: Config, op: Op)
    requires PairOk(x, y, fromX, fromY) && Sane(x) && ConfigOk(cfg)
    requires |Step(x, cfg, op, fromY).0.sent| + 1 < MODULUS
    ensures var r := Step(x, cfg, op, fromY);
            StepOk(x, r.0, r.1, y)
  {
    if op.Deliver? {
      if op.seg in fromY {
        assert Truthful(op.seg, y, x);
        InboundIsOk(x, y, cfg, op.seg, op.isn, op.answer);
      }
    } else if op.Connect? {
      if x.phase == Idle && !x.listens {
        ConnectStep(x, y, cfg, op.isn);
      }
    } else if x.phase == Live {
      LocalIsOk(x, y, cfg, op, fromY);
    }
  }

  lemma {:induction false} InboundIsOk(x: Host, y: Host, cfg: Config, s: Segment, isn: U32, answer: Answer)
    requires HostOk(x, y) && HostOk(y, x) && Truthful(s, y, x) && Sane(x)
    ensures var r := DoDeliver(x, cfg, s, isn, answer);
            StepOk(x, r.0, r.1, y)
  {
    if x.phase == Live {
      DeliverStep(x, y, s, cfg.recvCap);
    } else if x.phase == Idle && x.listens && s.flags.syn && !s.flags.ack {
      AcceptStep(x, y, cfg, s, isn);
    }
  }

  lemma {:induction false} LocalIsOk(x: Host, y: Host, cfg: Config, op: Op, fromY: set<Segment>)
    requires HostOk(x, y) && Sane(x) && ConfigOk(cfg) && x.phase == Live
    requires !op.Deliver? && !op.Connect?
    requires |Step(x, cfg, op, fromY).0.sent| + 1 < MODULUS
    ensures var r := Step(x, cfg, op, fromY);
            StepOk(x, r.0, r.1, y)
  {
    match op
    case SegmentOut =>
      if Transmitting(x.tcb.state) {
        SegmentOutStep(x, y, cfg.mss, cfg.recvCap);
      }
    case Retransmit => RetransmitStep(x, y, cfg);
    case Write(data) => if !x.fdClosed { WriteStep(x, y, cfg, data); }
    case Shutdown => ShutdownStep(x, y);
    case Read(lens) => ReadStep(x, y, cfg, lens);
    case Close => CloseStep(x, y);
    case _ =>
  }

  // ---- every run ----

  lemma StepNeverForgets(h: Host, cfg: Config, op: Op, inbound: set<Segment>)
    requires Sane(h) && ConfigOk(cfg)
    ensures |h.sent| <= |Step(h, cfg, op, inbound).0.sent|
  {
  }

  /** Fewer than 2^32 - 1 bytes were written in each direction. */
  predicate WithinSequenceSpace(w: World) {
    FitsSequenceSpace(|w.client.sent|) && FitsSequenceSpace(|w.server.sent|)
  }

  ghost predicate WorldOk(w: World) {
    PairOk(w.client, w.server, w.fromClient, w.fromServer)
  }

  lemma {:induction false} RunOk(net: Net, acts: seq<Action>)
    requires net.Ok() && WithinSequenceSpace(Run(net, acts))
    ensures WorldOk(Run(net, acts))
  {
    if acts != [] {
      var before := acts[..|acts| - 1];
      var w := Run(net, before);
      var a := acts[|acts| - 1];
      if a.byClient {
        StepNeverForgets(w.client, net.clientCfg, a.op, w.fromServer);
        RunOk(net, before);
        StepKeepsPair(w.client, w.server, w.fromClient, w.fromServer, net.clientCfg, a.op);
      } else {
        StepNeverForgets(w.server, net.serverCfg, a.op, w.fromClient);
        RunOk(net, before);
        StepKeepsPair(w.server, w.client, w.fromServer, w.fromClient, net.serverCfg, a.op);
      }
    }
  }

  /** Prefix safety: over every run of the network, what a host accepted is a
      prefix of what the other application wrote, and what it handed to its
      own application is a prefix of that. */
  lemma {:induction false} PrefixSafety(net: Net, acts: seq<Action>)
    requires net.Ok() && WithinSequenceSpace(Run(net, acts))
    ensures var w := Run(net, acts);
            && w.server.read <= w.server.rcvd <= w.client.sent
            && w.client.read <= w.client.rcvd <= w.server.sent
  {
    RunOk(net, acts);
  }

  /** Everything `peer`'s application wrote has been read by `h`'s, and `peer`
      will write no more. */
  predicate ReadToTheEnd(h: Host, peer: Host) {
    h.read == peer.sent && peer.tcb.wrClosed
  }

  lemma EofIsTheEnd(h: Host, peer: Host, lens: seq<nat>, cap: nat)
    requires HostOk(h, peer) && h.phase == Live
    requires Total(lens) > 0 && Recv(h.tcb, lens, cap).1 == Ready([])
    ensures ReadToTheEnd(h, peer)
  {
    var n := Min(|h.tcb.recvBuf|, Total(lens));
    assert |h.tcb.recvBuf[..n]| == n;
  }

  /** No truncated end of file: over every run, a read into nonempty buffers
      returns 0 only when every byte the peer wrote before its shutdown or
      clean drop has been read. */
  lemma {:induction false} NoTruncatedEof(net: Net, acts: seq<Action>, lens: seq<nat>)
    requires net.Ok() && WithinSequenceSpace(Run(net, acts)) && Total(lens) > 0
    ensures var w := Run(net, acts);
            && (w.server.phase == Live && Recv(w.server.tcb, lens, net.serverCfg.recvCap).1 == Ready([]) ==>
                  ReadToTheEnd(w.server, w.client))
            && (w.client.phase == Live && Recv(w.client.tcb, lens, net.clientCfg.recvCap).1 == Ready([]) ==>
                  ReadToTheEnd(w.client, w.server))
  {
    RunOk(net, acts);
    var w := Run(net, acts);
    if w.server.phase == Live && Recv(w.server.tcb, lens, net.serverCfg.recvCap).1 == Ready([]) {
      EofIsTheEnd(w.server, w.client, lens, net.serverCfg.recvCap);
    }
    if w.client.phase == Live && Recv(w.client.tcb, lens, net.clientCfg.recvCap).1 == Ready([]) {
      EofIsTheEnd(w.client, w.server, lens, net.clientCfg.recvCap);
    }
  }

  /** `h` has seen its FIN acknowledged: FinWait2, or Closed without an abort. */
  predicate SawFinAck(h: Host) {
    h.phase != Idle && !Aborted(h.tcb) && (h.tcb.state == FinWait2 || h.tcb.state == Closed)
  }

  lemma FinAckAtPeer(h: Host, peer: Host)
    requires HostOk(h, peer) && HostOk(peer, h) && SawFinAck(h)
    ensures peer.rcvd == h.sent && peer.tcb.peerFin
  {
  }

  /** A sender that saw its FIN acknowledged knows that the peer accepted its
      whole stream, over every run. */
  lemma {:induction false} FinAckMeansDelivered(net: Net, acts: seq<Action>)
    requires net.Ok() && WithinSequenceSpace(Run(net, acts))
    ensures var w := Run(net, acts);
            && (SawFinAck(w.client) ==> w.server.rcvd == w.client.sent && w.server.tcb.peerFin)
            && (SawFinAck(w.server) ==> w.client.rcvd == w.server.sent && w.client.tcb.peerFin)
  {
    RunOk(net, acts);
    var w := Run(net, acts);
    if SawFinAck(w.client) {
      FinAckAtPeer(w.client, w.server);
    }
    if SawFinAck(w.server) {
      FinAckAtPeer(w.server, w.client);
    }
  }

  /** The send side of a connection that was not aborted: the buffer is the
      unacknowledged suffix, nothing is acknowledged that the peer did not
      accept, and the FIN sits right behind the buffer until acknowledged. */
  predicate SendSideRefined(h: Host, peer: Host) {
    h.phase != Idle && !Aborted(h.tcb) ==>
      && h.una <= Accepted(peer)
      && h.tcb.sendBuf == h.sent[Min(h.una, |h.sent|)..]
      && h.tcb.sndUna == WrappingAdd(Base(h), h.una)
      && (h.tcb.wrClosed && h.una <= |h.sent| ==>
            h.tcb.finSeq == Some(WrappingAdd(h.tcb.sndUna, |h.tcb.sendBuf|)))
  }

  lemma HostSendSideRefined(h: Host, peer: Host)
    requires HostOk(h, peer)
    ensures SendSideRefined(h, peer)
  {
    if h.phase != Idle && !Aborted(h.tcb) && h.tcb.wrClosed && h.una <= |h.sent| {
      AddAdd(Base(h), h.una, |h.tcb.sendBuf|);
    }
  }

  lemma {:induction false} SendBufferRefinement(net: Net, acts: seq<Action>)
    requires net.Ok() && WithinSequenceSpace(Run(net, acts))
    ensures var w := Run(net, acts);
            SendSideRefined(w.client, w.server) && SendSideRefined(w.server, w.client)
  {
    RunOk(net, acts);
    HostSendSideRefined(Run(net, acts).client, Run(net, acts).server);
    HostSendSideRefined(Run(net, acts).server, Run(net, acts).client);
  }

  /** Why the bound on the bytes written: a receiver at position `at` takes an
      old segment of position `off` for new data exactly when the positions
      are congruent modulo 2^32. */
  lemma OldSegmentTakenIff(t: Tcb, s: Segment, cap: nat, base: U32, at: nat, off: nat)
    requires t.rcvNxt == WrappingAdd(base, at) && s.seqNo == WrappingAdd(base, off)
    requires s.payload != [] && !t.peerFin && |t.recvBuf| < cap
    ensures Takes(t, s, cap) > 0 <==> (off - at) % MODULUS == 0
  {
    SamePosition(base, off, at);
  }

  /** In the concrete: a block that has accepted 2^32 bytes takes the first byte
      of the stream, delivered once more, for the next. */
  lemma FirstByteTakenAgain(peer: Addresses.Endpoint, base: U32, b: Byte)
    ensures var t := NewTcb(Established, peer, 0, DEFAULT_WINDOW, WrappingAdd(base, MODULUS));
            var s := Segment(WrappingAdd(base, 0), 0, ACK, DEFAULT_WINDOW, [b]);
            OnSegment(t, s, 1).0.recvBuf == [b]
  {
    var t := NewTcb(Established, peer, 0, DEFAULT_WINDOW, WrappingAdd(base, MODULUS));
    var s := Segment(WrappingAdd(base, 0), 0, ACK, DEFAULT_WINDOW, [b]);
    OldSegmentTakenIff(t, s, 1, base, MODULUS, 0);
    assert s.payload[..1] == [b];
  }
}
