/** The count-based retransmit budget of one connection, over every sequence of
    inbound segments, system calls and egress passes. */
module Retransmit {
  import opened SeqSpace
  import opened TcbSpec
  import opened Connection

  datatype Event =
    | Pass
    | Inbound(seg: Segment)
    | Write(data: seq<Byte>)
    | Shutdown
    | Read(lens: seq<nat>)
    | SegmentOut

  /** A block, with the counted passes and the retransmissions since `sndUna`
      last moved. */
  datatype Flow = Flow(tcb: Tcb, passes: nat, resends: nat)

  function NewBlock(t: Tcb, e: Event, cfg: Config): (t': Tcb)
    requires SendSideOk(t) && ConfigOk(cfg)
    ensures SendSideOk(t')
  {
    match e
    case Pass =>
      CheckRetxKeepsSendSide(t, cfg.retxThreshold, cfg.retxMax);
      CheckRetx(t, cfg.retxThreshold, cfg.retxMax).0
    case Inbound(s) =>
      OnSegmentKeepsSendSide(t, s, cfg.recvCap);
      OnSegment(t, s, cfg.recvCap).0
    case Write(data) =>
      CallsKeepSendSide(t, data, cfg.sendCap, [], cfg.recvCap);
      Send(t, data, cfg.sendCap).0
    case Shutdown =>
      CallsKeepSendSide(t, [], cfg.sendCap, [], cfg.recvCap);
      ShutdownWrite(t).0
    case Read(lens) =>
      CallsKeepSendSide(t, [], cfg.sendCap, lens, cfg.recvCap);
      Recv(t, lens, cfg.recvCap).0
    case SegmentOut =>
      if Transmitting(t.state) then
        SegmentOneSendsAll(t, cfg.mss, cfg.recvCap);
        SegmentOne(t, cfg.mss, cfg.recvCap).0
      else t
  }

  function Advance(f: Flow, e: Event, cfg: Config): (f': Flow)
    requires SendSideOk(f.tcb) && ConfigOk(cfg)
    ensures SendSideOk(f'.tcb)
  {
    var t' := NewBlock(f.tcb, e, cfg);
    if e.Pass? then
      var action := CheckRetx(f.tcb, cfg.retxThreshold, cfg.retxMax).1;
      Flow(t',
           f.passes + (if Counted(f.tcb) then 1 else 0),
           f.resends + (if action == ResendHandshake || action == Rewind then 1 else 0))
    else if t'.sndUna != f.tcb.sndUna then
      Flow(t', 0, 0)
    else
      f.(tcb := t')
  }

  function Flows(t: Tcb, es: seq<Event>, cfg: Config): (f: Flow)
    requires SendSideOk(t) && ConfigOk(cfg)
    ensures SendSideOk(f.tcb)
  {
    if es == [] then Flow(t, 0, 0)
    else Advance(Flows(t, es[..|es| - 1], cfg), es[|es| - 1], cfg)
  }

  /** Counted passes between two retransmissions. */
  function Period(cfg: Config): nat {
    if cfg.retxThreshold == 0 then 1 else cfg.retxThreshold
  }

  function Budget(cfg: Config): nat {
    Period(cfg) * (cfg.retxMax + 1)
  }

  /** The block's two counters are the quotient and remainder of the passes. */
  predicate Accounts(f: Flow, cfg: Config) {
    && f.tcb.egressSinceAck < Period(cfg)
    && f.tcb.retxAttempts <= cfg.retxMax
    && f.resends == f.tcb.retxAttempts
    && f.passes == f.tcb.retxAttempts * Period(cfg) + f.tcb.egressSinceAck
  }

  /** The accounts of a block that gave up are closed at exactly the budget. */
  predicate FlowOk(f: Flow, cfg: Config) {
    && (Aborted(f.tcb) ==> f.tcb.state == Closed)
    && if f.tcb.timedOut then f.passes == Budget(cfg) && f.resends == cfg.retxMax
       else Accounts(f, cfg)
  }

  lemma AccountsBelowBudget(f: Flow, cfg: Config)
    requires Accounts(f, cfg)
    ensures f.passes < Budget(cfg)
    ensures f.resends * Period(cfg) <= f.passes < (f.resends + 1) * Period(cfg)
  {
    OneMorePeriod(f.tcb.retxAttempts, cfg);
    assert (cfg.retxMax - f.tcb.retxAttempts) * Period(cfg) >= 0;
  }

  /** One more attempt is one more period; all of them are the budget. */
  lemma OneMorePeriod(a: nat, cfg: Config)
    ensures (a + 1) * Period(cfg) == a * Period(cfg) + Period(cfg)
    ensures Budget(cfg) == cfg.retxMax * Period(cfg) + Period(cfg)
  {
  }

  lemma PassKeeps(f: Flow, cfg: Config)
    requires SendSideOk(f.tcb) && ConfigOk(cfg) && FlowOk(f, cfg)
    ensures FlowOk(Advance(f, Pass, cfg), cfg)
  {
    OneMorePeriod(f.tcb.retxAttempts, cfg);
  }

  /** Outside the sweep, the counters stand still, unless `sndUna` moves: then
      they restart. */
  predicate CountersFollow(t: Tcb, t': Tcb) {
    && t'.timedOut == t.timedOut
    && (Aborted(t') ==> t'.state == Closed)
    && if t'.sndUna == t.sndUna
       then t'.egressSinceAck == t.egressSinceAck && t'.retxAttempts == t.retxAttempts
       else t'.egressSinceAck == 0 && t'.retxAttempts == 0 && !t.timedOut
  }

  lemma InboundCounters(t: Tcb, s: Segment, cap: nat)
    requires SendSideOk(t) && (Aborted(t) ==> t.state == Closed)
    ensures CountersFollow(t, OnSegment(t, s, cap).0)
  {
    if !s.flags.rst && t.state != Closed && !Handshaking(t.state) {
      var t1 := if s.flags.ack then DrainAck(t, s) else t;
      assert CountersFollow(t, t1);
      var t2 := AcceptData(t1, s, cap);
      assert CountersFollow(t, t2);
    }
  }

  lemma OtherCounters(t: Tcb, e: Event, cfg: Config)
    requires SendSideOk(t) && ConfigOk(cfg) && (Aborted(t) ==> t.state == Closed) && !e.Pass?
    ensures CountersFollow(t, NewBlock(t, e, cfg))
  {
    if e.Inbound? {
      InboundCounters(t, e.seg, cfg.recvCap);
    } else if e.SegmentOut? && Transmitting(t.state) {
      SegmentOneSendsAll(t, cfg.mss, cfg.recvCap);
    }
  }

  lemma OtherKeeps(f: Flow, e: Event, cfg: Config)
    requires SendSideOk(f.tcb) && ConfigOk(cfg) && FlowOk(f, cfg) && !e.Pass?
    ensures FlowOk(Advance(f, e, cfg), cfg)
  {
    OtherCounters(f.tcb, e, cfg);
  }

  lemma {:induction false} FlowsOk(t: Tcb, es: seq<Event>, cfg: Config)
    requires SendSideOk(t) && ConfigOk(cfg)
    requires !Aborted(t) && t.egressSinceAck == 0 && t.retxAttempts == 0
    ensures FlowOk(Flows(t, es, cfg), cfg)
  {
    if es != [] {
      var before := es[..|es| - 1];
      FlowsOk(t, before, cfg);
      if es[|es| - 1].Pass? {
        PassKeeps(Flows(t, before, cfg), cfg);
      } else {
        OtherKeeps(Flows(t, before, cfg), es[|es| - 1], cfg);
      }
    }
  }

  /** From a fresh block, whatever the network and the application do: the
      connection times out exactly when `max(threshold, 1) * (retx_max + 1)`
      passes were counted since `sndUna` last moved, after exactly `retx_max`
      retransmissions; until then it retransmits once per full period. */
  lemma {:induction false} RetransmitBudget(t: Tcb, es: seq<Event>, cfg: Config)
    requires SendSideOk(t) && ConfigOk(cfg)
    requires !Aborted(t) && t.egressSinceAck == 0 && t.retxAttempts == 0
    ensures var f := Flows(t, es, cfg);
            && f.passes <= Budget(cfg)
            && (f.tcb.timedOut <==> f.passes == Budget(cfg))
            && (f.tcb.timedOut ==> f.resends == cfg.retxMax)
            && (!f.tcb.timedOut ==> f.resends * Period(cfg) <= f.passes < (f.resends + 1) * Period(cfg))
  {
    FlowsOk(t, es, cfg);
    var f := Flows(t, es, cfg);
    if !f.tcb.timedOut {
      AccountsBelowBudget(f, cfg);
    }
  }
}
