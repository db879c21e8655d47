/** A simulated network link between two hosts: messages are scheduled, held,
    dropped by partitions, or become deliverable. */
module LinkSpec {

  /** Hosts by the order of their addresses. */
  type Host = nat

  datatype Msg = Msg(id: nat, src: Host, dst: Host)

  datatype Status = DeliverAfter(time: nat) | Held

  datatype Sent = Sent(msg: Msg, status: Status)

  datatype State = Healthy | ExplicitPartition | RandPartition | Hold

  datatype Link = Link(
    ab: State,
    ba: State,
    sent: seq<Sent>,
    deliverable: map<Host, seq<Msg>>,
    now: nat)

  predicate Due(s: Sent, now: nat) {
    s.status.DeliverAfter? && s.status.time <= now
  }

  function Ripe(sent: seq<Sent>, now: nat): seq<Msg> {
    if sent == [] then []
    else Ripe(sent[..|sent| - 1], now) + (if Due(sent[|sent| - 1], now) then [sent[|sent| - 1].msg] else [])
  }

  function Unripe(sent: seq<Sent>, now: nat): seq<Sent> {
    if sent == [] then []
    else Unripe(sent[..|sent| - 1], now) + (if Due(sent[|sent| - 1], now) then [] else [sent[|sent| - 1]])
  }

  function At(m: map<Host, seq<Msg>>, h: Host): seq<Msg> {
    if h in m then m[h] else []
  }

  function Put(m: map<Host, seq<Msg>>, msg: Msg): map<Host, seq<Msg>> {
    m[msg.dst := At(m, msg.dst) + [msg]]
  }

  function PutAll(m: map<Host, seq<Msg>>, msgs: seq<Msg>): map<Host, seq<Msg>> {
    if msgs == [] then m else Put(PutAll(m, msgs[..|msgs| - 1]), msgs[|msgs| - 1])
  }

  /** `process_deliverables`: a stable partition of what was sent. */
  function Settle(l: Link): Link {
    l.(sent := Unripe(l.sent, l.now), deliverable := PutAll(l.deliverable, Ripe(l.sent, l.now)))
  }

  function StateFor(l: Link, src: Host, dst: Host): State {
    if src < dst then l.ab else l.ba
  }

  function HoldAll(sent: seq<Sent>): seq<Sent> {
    seq(|sent|, i requires 0 <= i < |sent| => sent[i].(status := Held))
  }

  function ReleaseAll(sent: seq<Sent>, now: nat): seq<Sent> {
    seq(|sent|, i requires 0 <= i < |sent| =>
      if sent[i].status.Held? then sent[i].(status := DeliverAfter(now)) else sent[i])
  }

  function Release(l: Link): Link {
    l.(ab := Healthy, ba := Healthy, sent := ReleaseAll(l.sent, l.now))
  }

  function Spared(sent: seq<Sent>, from: Host): seq<Sent> {
    if sent == [] then []
    else Spared(sent[..|sent| - 1], from) + (if sent[|sent| - 1].msg.src != from then [sent[|sent| - 1]] else [])
  }

  function Struck(sent: seq<Sent>, from: Host): seq<Sent> {
    if sent == [] then []
    else Struck(sent[..|sent| - 1], from) + (if sent[|sent| - 1].msg.src != from then [] else [sent[|sent| - 1]])
  }

  predicate Breaks(l: Link, breaks: bool) {
    (l.ab.Healthy? || l.ba.Healthy?) && breaks
  }

  predicate Mends(l: Link, breaks: bool, mends: bool) {
    !Breaks(l, breaks) && (l.ab.RandPartition? || l.ba.RandPartition?) && mends
  }

  /** Randomly break or repair the link; the two draws are parameters. */
  function RandPartitionOrRepair(l: Link, breaks: bool, mends: bool): Link {
    if Breaks(l, breaks) then l.(ab := RandPartition, ba := RandPartition, sent := [])
    else if Mends(l, breaks, mends) then Release(l)
    else l
  }

  /** Schedule, hold or drop a new message. */
  function Enqueue(l: Link, msg: Msg, delay: nat): Link {
    match StateFor(l, msg.src, msg.dst)
    case Healthy => l.(sent := l.sent + [Sent(msg, DeliverAfter(l.now + delay))])
    case Hold => l.(sent := l.sent + [Sent(msg, Held)])
    case _ => l
  }

  function EnqueueMessage(l: Link, msg: Msg, delay: nat, breaks: bool, mends: bool): Link {
    Settle(Enqueue(RandPartitionOrRepair(l, breaks, mends), msg, delay))
  }

  // ---- runs ----

  /** The link, every message ever sent, and those handed over or dropped. */
  datatype World = World(link: Link, msgs: seq<Msg>, handed: seq<Msg>, dropped: seq<Msg>)

  datatype Op =
    | Send(src: Host, dst: Host, delay: nat, breaks: bool, mends: bool)
    | Tick(now: nat)
    | HoldLink
    | ReleaseLink
    | Partition
    | PartitionOneway(from: Host, to: Host)
    | Repair
    | RepairOneway(from: Host, to: Host)
    | DeliverNow(index: nat)
    | HandOver(host: Host)

  function Msgs(sent: seq<Sent>): seq<Msg> {
    seq(|sent|, i requires 0 <= i < |sent| => sent[i].msg)
  }

  function Step(w: World, op: Op): World {
    var l := w.link;
    match op
    case Send(src, dst, delay, breaks, mends) =>
      var msg := Msg(|w.msgs|, src, dst);
      var l1 := RandPartitionOrRepair(l, breaks, mends);
      var accepted := StateFor(l1, src, dst).Healthy? || StateFor(l1, src, dst).Hold?;
      World(EnqueueMessage(l, msg, delay, breaks, mends), w.msgs + [msg], w.handed,
            w.dropped + (if Breaks(l, breaks) then Msgs(l.sent) else []) + (if accepted then [] else [msg]))
    case Tick(now) => w.(link := Settle(l.(now := now)))
    case HoldLink => w.(link := l.(ab := Hold, ba := Hold, sent := HoldAll(l.sent)))
    case ReleaseLink => w.(link := Release(l))
    case Partition =>
      w.(link := l.(ab := ExplicitPartition, ba := ExplicitPartition, sent := []), dropped := w.dropped + Msgs(l.sent))
    case PartitionOneway(from, to) =>
      var l1 := if from < to then l.(ab := ExplicitPartition) else l.(ba := ExplicitPartition);
      w.(link := l1.(sent := Spared(l.sent, from)), dropped := w.dropped + Msgs(Struck(l.sent, from)))
    case Repair => w.(link := l.(ab := Healthy, ba := Healthy))
    case RepairOneway(from, to) => w.(link := if from < to then l.(ab := Healthy) else l.(ba := Healthy))
    case DeliverNow(i) =>
      if i < |l.sent| then w.(link := l.(sent := l.sent[i := l.sent[i].(status := DeliverAfter(l.now))])) else w
    case HandOver(host) =>
      w.(link := l.(deliverable := l.deliverable[host := []]), handed := w.handed + At(l.deliverable, host))
  }

  const QUIET := World(Link(Healthy, Healthy, [], map[], 0), [], [], [])

  function Run(ops: seq<Op>): World {
    if ops == [] then QUIET else Step(Run(ops[..|ops| - 1]), ops[|ops| - 1])
  }
}
