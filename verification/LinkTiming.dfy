/** When a message is delivered: what becomes of each new message, that a release
    lets held ones go, and that nothing is late. */
module LinkTiming {
  import opened LinkSpec
  import opened LinkSafety

  predicate Scheduled(l: Link, m: Msg, time: nat) {
    Sent(m, DeliverAfter(time)) in l.sent
  }

  predicate OnHold(l: Link, m: Msg) {
    Sent(m, Held) in l.sent
  }

  predicate Deliverable(l: Link, m: Msg) {
    m in At(l.deliverable, m.dst)
  }

  lemma {:induction false} DueSettles(l: Link, s: Sent)
    requires s in l.sent && Due(s, l.now)
    ensures Deliverable(Settle(l), s.msg)
  {
    var i :| 0 <= i < |l.sent| && l.sent[i] == s;
    RipeExact(l.sent, l.now, s.msg);
    PutAllExact(l.deliverable, Ripe(l.sent, l.now), s.msg.dst, s.msg);
  }

  lemma {:induction false} DeliverableStays(l: Link, m: Msg)
    requires Deliverable(l, m)
    ensures Deliverable(Settle(l), m)
  {
    PutAllExact(l.deliverable, Ripe(l.sent, l.now), m.dst, m);
  }

  /** The first tick at or after its time makes a message deliverable. */
  lemma {:induction false} DueIsDelivered(w: World, m: Msg, time: nat, now: nat)
    requires Scheduled(w.link, m, time) && time <= now
    ensures Deliverable(Step(w, Tick(now)).link, m) && !Scheduled(Step(w, Tick(now)).link, m, time)
  {
    DueSettles(w.link.(now := now), Sent(m, DeliverAfter(time)));
    UnripeExact(w.link.sent, now, Sent(m, DeliverAfter(time)));
  }

  // ---- what becomes of a new message ----

  /** The state of the direction a send finds, after the random repair. */
  function Finds(w: World, op: Op): State
    requires op.Send?
  {
    if Mends(w.link, op.breaks, op.mends) then Healthy
    else if op.src < op.dst then w.link.ab else w.link.ba
  }

  /** What a direction in some state makes of a new message. */
  predicate Outcome(w: World, m: Msg, st: State, time: nat) {
    match st
    case Healthy => if time <= w.link.now then Deliverable(w.link, m) else Scheduled(w.link, m, time)
    case Hold => OnHold(w.link, m)
    case _ => m in w.dropped
  }

  lemma {:induction false} LastSettles(l: Link, sent: seq<Sent>, m: Msg, status: Status)
    requires l.sent == sent + [Sent(m, status)]
    ensures if Due(Sent(m, status), l.now) then Deliverable(Settle(l), m) else Sent(m, status) in Settle(l).sent
  {
    var s := Sent(m, status);
    assert l.sent[|sent|] == s;
    if Due(s, l.now) {
      DueSettles(l, s);
    } else {
      UnripeExact(l.sent, l.now, s);
    }
  }

  lemma {:induction false} LastIsIn(ms: seq<Msg>, m: Msg)
    ensures m in ms + [m]
  {
  }

  lemma {:induction false} PostedOutcome(w: World, src: Host, dst: Host, delay: nat)
    ensures var m := Msg(|w.msgs|, src, dst);
            Outcome(Settled(Posted(w, src, dst, delay)), m, StateFor(w.link, src, dst), w.link.now + delay)
  {
    var m, l := Msg(|w.msgs|, src, dst), Posted(w, src, dst, delay).link;
    match StateFor(w.link, src, dst)
    case Healthy => LastSettles(l, w.link.sent, m, DeliverAfter(w.link.now + delay));
    case Hold => LastSettles(l, w.link.sent, m, Held);
    case _ => LastIsIn(w.dropped, m);
  }

  /** A new message is scheduled for the clock plus its delay, deliverable at
      once if that is now; or held; or dropped: as the direction says. */
  lemma {:induction false} SendOutcome(w: World, op: Op)
    requires op.Send?
    ensures var w', m := Step(w, op), Msg(|w.msgs|, op.src, op.dst);
            && w'.link.now == w.link.now && w'.msgs == w.msgs + [m]
            && if Breaks(w.link, op.breaks) then m in w'.dropped
               else Outcome(w', m, Finds(w, op), w.link.now + op.delay)
  {
    SendIsStages(w, op.src, op.dst, op.delay, op.breaks, op.mends);
    ShakenFinds(w, op);
    PostedIs(Shaken(w, op.breaks, op.mends), op.src, op.dst, op.delay);
    PostedOutcome(Shaken(w, op.breaks, op.mends), op.src, op.dst, op.delay);
  }

  lemma {:induction false} PostedIs(w: World, src: Host, dst: Host, delay: nat)
    ensures var w' := Settled(Posted(w, src, dst, delay));
            w'.link.now == w.link.now && w'.msgs == w.msgs + [Msg(|w.msgs|, src, dst)]
  {
  }

  lemma {:induction false} ShakenFinds(w: World, op: Op)
    requires op.Send?
    ensures var w1 := Shaken(w, op.breaks, op.mends);
            && w1.link.now == w.link.now && w1.msgs == w.msgs
            && StateFor(w1.link, op.src, op.dst) == if Breaks(w.link, op.breaks) then RandPartition else Finds(w, op)
  {
  }

  /** A one-way partition stops its own direction and no other, until repaired. */
  lemma {:induction false} PartitionStops(w: World, from: Host, to: Host, delay: nat)
    requires from != to
    ensures var w1 := Step(w, PartitionOneway(from, to));
            var send, back := Send(from, to, delay, false, false), Send(to, from, delay, false, false);
            && Msg(|w.msgs|, from, to) in Step(w1, send).dropped
            && Finds(w1, back) == (if to < from then w.link.ab else w.link.ba)
            && Finds(Step(w1, RepairOneway(from, to)), send) == Healthy
            && Finds(Step(w1, RepairOneway(from, to)), back) == Finds(w1, back)
  {
    SendOutcome(Step(w, PartitionOneway(from, to)), Send(from, to, delay, false, false));
  }

  /** A partition stops both, until repaired. */
  lemma {:induction false} FullPartitionStops(w: World, from: Host, to: Host, delay: nat)
    ensures var w1, send := Step(w, Partition), Send(from, to, delay, false, false);
            && Msg(|w.msgs|, from, to) in Step(w1, send).dropped
            && Finds(Step(w1, Repair), send) == Healthy
  {
    SendOutcome(Step(w, Partition), Send(from, to, delay, false, false));
  }

  /** A send may break a link that carries messages in some direction: all that
      was sent is dropped, and new messages with it, until a send repairs it. */
  lemma {:induction false} ChanceBreaks(w: World, from: Host, to: Host, delay: nat, mends: bool)
    requires w.link.ab.Healthy? || w.link.ba.Healthy?
    ensures var w1, m := Step(w, Send(from, to, delay, true, mends)), Msg(|w.msgs|, from, to);
            && m in w1.dropped && (forall s :: s in w.link.sent ==> s.msg in w1.dropped) && w1.link.sent == []
            && Msg(|w.msgs| + 1, from, to) in Step(w1, Send(from, to, delay, false, false)).dropped
            && Finds(w1, Send(from, to, delay, false, true)) == Healthy
  {
    var send := Send(from, to, delay, true, mends);
    var w1 := Step(w, send);
    SendOutcome(w, send);
    forall s | s in w.link.sent ensures s.msg in w1.dropped {
      DiscardDrops(w, send, s);
    }
    SendOutcome(w1, Send(from, to, delay, false, false));
  }

  /** On hold, nothing is scheduled any more, and what is sent then is held. */
  lemma {:induction false} HoldHolds(w: World, from: Host, to: Host, delay: nat)
    ensures var w1 := Step(w, HoldLink);
            && Msgs(w1.link.sent) == Msgs(w.link.sent) && (forall s :: s in w1.link.sent ==> s.status.Held?)
            && OnHold(Step(w1, Send(from, to, delay, false, false)).link, Msg(|w.msgs|, from, to))
  {
    SendOutcome(Step(w, HoldLink), Send(from, to, delay, false, false));
  }

  // ---- release ----

  /** A release lets every held message go: it is due at once. */
  lemma {:induction false} ReleaseFrees(w: World, op: Op, m: Msg, now: nat)
    requires OnHold(w.link, m) && Releases(w, op)
    ensures var w1 := Step(w, op);
            && w1.link.now == w.link.now
            && (Scheduled(w1.link, m, w.link.now) || Deliverable(w1.link, m))
            && (now >= w.link.now ==> Deliverable(Step(w1, Tick(now)).link, m))
  {
    var w1 := Step(w, op);
    var i :| 0 <= i < |w.link.sent| && w.link.sent[i] == Sent(m, Held);
    var freed := Sent(m, DeliverAfter(w.link.now));
    assert ReleaseAll(w.link.sent, w.link.now)[i] == freed;
    if op.Send? {
      SendIsStages(w, op.src, op.dst, op.delay, op.breaks, op.mends);
      var l := Posted(Shaken(w, op.breaks, op.mends), op.src, op.dst, op.delay).link;
      assert l.sent[i] == freed;
      DueSettles(l, freed);
    }
    if now >= w.link.now {
      if Deliverable(w1.link, m) {
        DeliverableStays(w1.link.(now := now), m);
      } else {
        DueIsDelivered(w1, m, w.link.now, now);
      }
    }
  }

  /** After a release nothing is held, whatever was scheduled keeps its time, and
      both directions carry messages. */
  lemma {:induction false} NothingHeld(w: World, s: Sent, from: Host, to: Host, delay: nat)
    ensures var w1 := Step(w, ReleaseLink);
            && Msgs(w1.link.sent) == Msgs(w.link.sent) && (forall x :: x in w1.link.sent ==> !x.status.Held?)
            && (s in w.link.sent && !s.status.Held? ==> s in w1.link.sent)
            && Finds(w1, Send(from, to, delay, false, false)) == Healthy
  {
    if s in w.link.sent && !s.status.Held? {
      var i :| 0 <= i < |w.link.sent| && w.link.sent[i] == s;
      assert ReleaseAll(w.link.sent, w.link.now)[i] == s;
    }
  }

  /** So does picking one by hand. */
  lemma {:induction false} PickedIsDelivered(w: World, i: nat, now: nat)
    requires i < |w.link.sent| && now >= w.link.now
    ensures Deliverable(Step(Step(w, DeliverNow(i)), Tick(now)).link, w.link.sent[i].msg)
  {
    var w1 := Step(w, DeliverNow(i));
    assert w1.link.sent[i] == Sent(w.link.sent[i].msg, DeliverAfter(w.link.now));
    DueIsDelivered(w1, w.link.sent[i].msg, w.link.now, now);
  }

  // ---- neither early nor late ----

  function Play(w: World, ops: seq<Op>): World {
    if ops == [] then w else Step(Play(w, ops[..|ops| - 1]), ops[|ops| - 1])
  }

  /** Nothing holds, picks or drops the message, and its time is not reached. */
  predicate Spares(w: World, op: Op, s: Sent) {
    !op.HoldLink? && !Discards(w, op, s) && !Picks(w, op, s) && s.status.DeliverAfter?
    && Step(w, op).link.now < s.status.time
  }

  predicate AllSpare(w: World, ops: seq<Op>, s: Sent) {
    ops != [] ==> AllSpare(w, ops[..|ops| - 1], s) && Spares(Play(w, ops[..|ops| - 1]), ops[|ops| - 1], s)
  }

  lemma {:induction false} WaitsItsTime(w: World, ops: seq<Op>, s: Sent)
    requires s in w.link.sent && s.status.DeliverAfter? && AllSpare(w, ops, s)
    ensures s in Play(w, ops).link.sent
  {
    if ops != [] {
      var before := ops[..|ops| - 1];
      WaitsItsTime(w, before, s);
      NothingEarly(Play(w, before), ops[|ops| - 1], s);
    }
  }

  lemma {:induction false} RunPlays(a: seq<Op>, b: seq<Op>)
    ensures Run(a + b) == Play(Run(a), b)
  {
    if b == [] {
      assert a + b == a;
    } else {
      RunPlays(a, b[..|b| - 1]);
      assert (a + b)[..|a + b| - 1] == a + b[..|b| - 1];
    }
  }

  lemma {:induction false} RunSends(a: seq<Op>, op: Op, b: seq<Op>)
    ensures Run(a + [op] + b) == Play(Step(Run(a), op), b)
  {
    RunPlays(a + [op], b);
    assert (a + [op])[..|a + [op]| - 1] == a;
  }

  lemma {:induction false} InIsCounted(ms: seq<Msg>, m: Msg)
    requires m in ms
    ensures Count(ms, m.id) > 0
  {
    if ms[|ms| - 1] != m {
      assert ms == ms[..|ms| - 1] + [ms[|ms| - 1]];
      InIsCounted(ms[..|ms| - 1], m);
    }
  }

  lemma {:induction false} SentIsNowhereElse(ops: seq<Op>, s: Sent)
    requires s in Run(ops).link.sent
    ensures var w := Run(ops); !Deliverable(w.link, s.msg) && s.msg !in w.handed && s.msg !in w.dropped
  {
    var w := Run(ops);
    RunKeeps(ops, s.msg.id);
    assert Known(w.msgs, s.msg);
    var i :| 0 <= i < |w.link.sent| && w.link.sent[i] == s;
    assert Msgs(w.link.sent)[i] == s.msg;
    InIsCounted(Msgs(w.link.sent), s.msg);
    if Deliverable(w.link, s.msg) {
      InIsCounted(At(w.link.deliverable, s.msg.dst), s.msg);
    }
    if s.msg in w.handed {
      InIsCounted(w.handed, s.msg);
    }
    if s.msg in w.dropped {
      InIsCounted(w.dropped, s.msg);
    }
  }

  lemma {:induction false} ThenDelivered(w: World, more: seq<Op>, m: Msg, time: nat, now: nat)
    requires Scheduled(w.link, m, time) && AllSpare(w, more, Sent(m, DeliverAfter(time)))
    ensures Scheduled(Play(w, more).link, m, time)
    ensures now >= time ==> Deliverable(Step(Play(w, more), Tick(now)).link, m)
  {
    WaitsItsTime(w, more, Sent(m, DeliverAfter(time)));
    if now >= time {
      DueIsDelivered(Play(w, more), m, time, now);
    }
  }

  lemma {:induction false} ScheduledIsNowhereElse(ops: seq<Op>, op: Op, more: seq<Op>, m: Msg, time: nat)
    requires Scheduled(Play(Step(Run(ops), op), more).link, m, time)
    ensures var w := Play(Step(Run(ops), op), more); !Deliverable(w.link, m) && m !in w.handed && m !in w.dropped
  {
    RunSends(ops, op, more);
    SentIsNowhereElse(ops + [op] + more, Sent(m, DeliverAfter(time)));
  }

  lemma {:induction false} SendSchedules(w: World, send: Op, m: Msg, time: nat)
    requires send.Send? && send.delay > 0 && !Breaks(w.link, send.breaks) && Finds(w, send).Healthy?
    requires m == Msg(|w.msgs|, send.src, send.dst) && time == w.link.now + send.delay
    ensures Scheduled(Step(w, send).link, m, time)
  {
    SendOutcome(w, send);
  }

  /** In every run: a message sent in a healthy direction is neither deliverable
      nor handed over before the clock reaches its send time plus its delay, and
      is deliverable at the first tick from then on, unless it is held, picked
      or dropped in between. */
  lemma {:induction false} DeliveredOnTime(ops: seq<Op>, w: World, send: Op, m: Msg, time: nat, more: seq<Op>, now: nat)
    requires w == Run(ops) && send.Send? && m == Msg(|w.msgs|, send.src, send.dst) && time == w.link.now + send.delay
    requires send.delay > 0 && !Breaks(w.link, send.breaks) && Finds(w, send).Healthy?
    requires AllSpare(Step(w, send), more, Sent(m, DeliverAfter(time)))
    ensures var w' := Play(Step(w, send), more);
            && Scheduled(w'.link, m, time) && !Deliverable(w'.link, m) && m !in w'.handed && m !in w'.dropped
            && (now >= time ==> Deliverable(Step(w', Tick(now)).link, m))
  {
    SendSchedules(w, send, m, time);
    ThenDelivered(Step(w, send), more, m, time, now);
    ScheduledIsNowhereElse(ops, send, more, m, time);
  }
}
