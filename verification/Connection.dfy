/** One TCP connection between two hosts over a network that may lose, delay,
    reorder and repeat segments: the network is the set of every segment ever
    emitted, and any of them may be delivered at any time, any number of times.

    Each host carries, beside its control block, the history that the
    properties speak of: the bytes its application wrote, how many of them (and
    the FIN) were acknowledged, the bytes it accepted from the peer, and the
    bytes its application read. */
module Connection {
  import opened Common
  import opened SeqSpace
  import opened TcbSpec
  import Addresses

  datatype Config = Config(
    sendCap: nat, recvCap: nat, mss: nat, retxThreshold: nat, retxMax: nat, peer: Addresses.Endpoint)

  predicate ConfigOk(cfg: Config) {
    cfg.mss > 0 && cfg.sendCap + 1 < MODULUS
  }

  /** No block yet; a block in the table; the block was removed. */
  datatype Phase = Idle | Live | Gone

  datatype Host = Host(
    listens: bool,
    phase: Phase,
    isn: U32,
    tcb: Tcb,
    fdClosed: bool,
    sent: seq<Byte>,
    una: nat,
    rcvd: seq<Byte>,
    read: seq<Byte>)

  /** What the listeners make of a SYN on a free tuple: a child, nothing for
      lack of backlog, or a RST for lack of a listener. */
  datatype Answer = Accept | Ignore | Refuse

  datatype Op =
    | Connect(isn: U32)
    | Deliver(seg: Segment, isn: U32, answer: Answer)
    | Write(data: seq<Byte>)
    | Shutdown
    | Read(lens: seq<nat>)
    | SegmentOut
    | Retransmit
    | Close
    | Reap
    | CloseListener

  predicate Sane(h: Host) {
    SendSideOk(h.tcb)
  }

  /** The history that follows a change of the block by inbound traffic. */
  function Absorb(h: Host, t: Tcb): Host {
    h.(tcb := t,
       una := h.una + WrappingSub(t.sndUna, h.tcb.sndUna),
       rcvd := h.rcvd + (if |h.tcb.recvBuf| <= |t.recvBuf| then t.recvBuf[|h.tcb.recvBuf|..] else []))
  }

  function Emitted(s: Option<Segment>): set<Segment> {
    if s.Some? then {s.value} else {}
  }

  function Open(h: Host, t: Tcb, isn: U32): Host {
    h.(phase := Live, isn := isn, tcb := t)
  }

  function DoConnect(h: Host, cfg: Config, isn: U32): (Host, set<Segment>) {
    if h.phase == Idle && !h.listens then
      (Open(h, NewTcb(SynSent, cfg.peer, isn, DEFAULT_WINDOW, 0), isn),
       {Segment(isn, 0, NO_FLAGS.(syn := true), DEFAULT_WINDOW, [])})
    else (h, {})
  }

  /** Inbound dispatch: the connection, else a listener for a SYN, else a RST. */
  function DoDeliver(h: Host, cfg: Config, s: Segment, isn: U32, answer: Answer): (Host, set<Segment>)
    requires Sane(h)
  {
    if h.phase == Live then
      var (t, reply) := OnSegment(h.tcb, s, cfg.recvCap);
      (Absorb(h, t), Emitted(reply))
    else if s.flags.syn && !s.flags.ack then
      if answer == Ignore then (h, {})
      else if answer == Accept && h.phase == Idle && h.listens then
        var t := NewTcb(SynReceived, cfg.peer, isn, s.window, WrappingAdd(s.seqNo, 1));
        (Open(h, t, isn), {Segment(isn, t.rcvNxt, ACK.(syn := true), DEFAULT_WINDOW, [])})
      else (h, {RstFor(s)})
    else (h, if s.flags.rst then {} else {RstFor(s)})
  }

  function DoWrite(h: Host, cfg: Config, data: seq<Byte>): (Host, set<Segment>) {
    var (t, r) := Send(h.tcb, data, cfg.sendCap);
    (h.(tcb := t, sent := if r.Ready? then h.sent + data[..r.value] else h.sent), {})
  }

  function DoRead(h: Host, cfg: Config, lens: seq<nat>): (Host, set<Segment>) {
    var (t, r, update) := Recv(h.tcb, lens, cfg.recvCap);
    (h.(tcb := t, read := if r.Ready? then h.read + r.value else h.read), Emitted(update))
  }

  function Segments(ss: seq<Segment>): set<Segment> {
    set s | s in ss
  }

  function DoSegmentOut(h: Host, cfg: Config): (Host, set<Segment>)
    requires Sane(h) && ConfigOk(cfg)
  {
    if Transmitting(h.tcb.state) then
      var (t, ss) := SegmentOne(h.tcb, cfg.mss, cfg.recvCap);
      (h.(tcb := t), Segments(ss))
    else (h, {})
  }

  function DoRetransmit(h: Host, cfg: Config): (Host, set<Segment>) {
    var (t, action) := CheckRetx(h.tcb, cfg.retxThreshold, cfg.retxMax);
    (h.(tcb := t), if action == ResendHandshake then {HandshakeSegment(t)} else {})
  }

  /** Dropping the handle: RST over unread bytes, else linger behind a FIN. */
  function DoClose(h: Host): (Host, set<Segment>) {
    if Aborted(h.tcb) || h.tcb.state == Closed || Handshaking(h.tcb.state) then
      (h.(phase := Gone), {})
    else if h.tcb.recvBuf != [] then
      (h.(phase := Gone), {RstFrom(h.tcb)})
    else
      (h.(fdClosed := true, tcb := if h.tcb.wrClosed then h.tcb else QueueFin(h.tcb)), {})
  }

  /** One operation of one host, and the segments it puts on the network. */
  function Step(h: Host, cfg: Config, op: Op, inbound: set<Segment>): (r: (Host, set<Segment>))
    requires Sane(h) && ConfigOk(cfg)
  {
    if op.Connect? then DoConnect(h, cfg, op.isn)
    else if op.Deliver? then
      if op.seg in inbound then DoDeliver(h, cfg, op.seg, op.isn, op.answer) else (h, {})
    else if h.phase != Live then (h, {})
    else if op.SegmentOut? then DoSegmentOut(h, cfg)
    else if op.Retransmit? then DoRetransmit(h, cfg)
    else if op.Reap? then
      (if h.fdClosed && (h.tcb.state == Closed || h.tcb.reset) then h.(phase := Gone) else h, {})
    else if op.CloseListener? then (h.(phase := Gone), {RstFrom(h.tcb)})
    else if h.fdClosed then (h, {})
    else if op.Write? then DoWrite(h, cfg, op.data)
    else if op.Shutdown? then (h.(tcb := ShutdownWrite(h.tcb).0), {})
    else if op.Read? then DoRead(h, cfg, op.lens)
    else DoClose(h)
  }

  lemma StepSane(h: Host, cfg: Config, op: Op, inbound: set<Segment>)
    requires Sane(h) && ConfigOk(cfg)
    ensures Sane(Step(h, cfg, op, inbound).0)
  {
    match op
    case Deliver(s, _, _) => OnSegmentKeepsSendSide(h.tcb, s, cfg.recvCap);
    case Write(data) => CallsKeepSendSide(h.tcb, data, cfg.sendCap, [], cfg.recvCap);
    case Shutdown => CallsKeepSendSide(h.tcb, [], cfg.sendCap, [], cfg.recvCap);
    case Read(lens) => CallsKeepSendSide(h.tcb, [], cfg.sendCap, lens, cfg.recvCap);
    case SegmentOut =>
      if Transmitting(h.tcb.state) {
        SegmentOneSendsAll(h.tcb, cfg.mss, cfg.recvCap);
      }
    case Retransmit => CheckRetxKeepsSendSide(h.tcb, cfg.retxThreshold, cfg.retxMax);
    case Close => CallsKeepSendSide(h.tcb, [], cfg.sendCap, [], cfg.recvCap);
    case _ =>
  }

  datatype World = World(client: Host, server: Host, fromClient: set<Segment>, fromServer: set<Segment>)

  datatype Action = Action(byClient: bool, op: Op)

  datatype Net = Net(clientCfg: Config, serverCfg: Config) {
    predicate Ok() { ConfigOk(clientCfg) && ConfigOk(serverCfg) }
  }

  function Apply(net: Net, w: World, a: Action): (r: World)
    requires net.Ok() && Sane(w.client) && Sane(w.server)
    ensures Sane(r.client) && Sane(r.server)
  {
    if a.byClient then
      StepSane(w.client, net.clientCfg, a.op, w.fromServer);
      var (h, out) := Step(w.client, net.clientCfg, a.op, w.fromServer);
      w.(client := h, fromClient := w.fromClient + out)
    else
      StepSane(w.server, net.serverCfg, a.op, w.fromClient);
      var (h, out) := Step(w.server, net.serverCfg, a.op, w.fromClient);
      w.(server := h, fromServer := w.fromServer + out)
  }

  /** Stands for the block of a host that has none yet. */
  const NO_TCB := NewTcb(SynSent, Addresses.Endpoint(Addresses.V4(0), 0), 0, 0, 0)

  function Fresh(listens: bool): Host {
    Host(listens, Idle, 0, NO_TCB, false, [], 0, [], [])
  }

  /** Every run: the world after any sequence of actions. */
  function Run(net: Net, acts: seq<Action>): (w: World)
    requires net.Ok()
    ensures Sane(w.client) && Sane(w.server)
  {
    if acts == [] then World(Fresh(false), Fresh(true), {}, {})
    else Apply(net, Run(net, acts[..|acts| - 1]), acts[|acts| - 1])
  }
}
