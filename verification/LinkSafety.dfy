/** No message is lost, duplicated or early. */
module LinkSafety {
  import opened LinkSpec

  function Count(ms: seq<Msg>, id: nat): nat {
    if ms == [] then 0 else Count(ms[..|ms| - 1], id) + (if ms[|ms| - 1].id == id then 1 else 0)
  }

  lemma {:induction false} CountAppend(a: seq<Msg>, b: seq<Msg>, id: nat)
    ensures Count(a + b, id) == Count(a, id) + Count(b, id)
  {
    if b == [] {
      assert a + b == a;
    } else {
      CountAppend(a, b[..|b| - 1], id);
      assert (a + b)[..|a + b| - 1] == a + b[..|b| - 1];
    }
  }

  lemma MsgsSnoc(sent: seq<Sent>)
    requires sent != []
    ensures Msgs(sent)[..|sent| - 1] == Msgs(sent[..|sent| - 1])
    ensures Msgs(sent)[|sent| - 1] == sent[|sent| - 1].msg
  {
  }

  lemma MsgsPlus(a: seq<Sent>, b: seq<Sent>)
    ensures Msgs(a + b) == Msgs(a) + Msgs(b)
  {
  }

  /** The in-place scan splits what was sent. */
  lemma {:induction false} SettleCounts(sent: seq<Sent>, now: nat, id: nat)
    ensures Count(Msgs(sent), id) == Count(Msgs(Unripe(sent, now)), id) + Count(Ripe(sent, now), id)
  {
    if sent != [] {
      var before, last := sent[..|sent| - 1], sent[|sent| - 1];
      SettleCounts(before, now, id);
      MsgsSnoc(sent);
      if Due(last, now) {
        CountAppend(Ripe(before, now), [last.msg], id);
        assert Unripe(sent, now) == Unripe(before, now);
      } else {
        MsgsPlus(Unripe(before, now), [last]);
        CountAppend(Msgs(Unripe(before, now)), Msgs([last]), id);
        assert Ripe(sent, now) == Ripe(before, now);
      }
      CountOne(last, id);
    }
  }

  lemma CountOne(s: Sent, id: nat)
    ensures Count([s.msg], id) == (if s.msg.id == id then 1 else 0)
    ensures Count(Msgs([s]), id) == (if s.msg.id == id then 1 else 0)
  {
    assert [s.msg][..0] == [];
    assert Msgs([s]) == [s.msg];
  }

  lemma {:induction false} PutAllCounts(m: map<Host, seq<Msg>>, ms: seq<Msg>, h: Host, id: nat)
    requires forall x :: x in ms && x.id == id ==> x.dst == h
    ensures Count(At(PutAll(m, ms), h), id) == Count(At(m, h), id) + Count(ms, id)
  {
    if ms != [] {
      var last := ms[|ms| - 1];
      PutAllCounts(m, ms[..|ms| - 1], h, id);
      assert last in ms;
      CountAppend(At(PutAll(m, ms[..|ms| - 1]), h), [last], id);
      assert [last][..0] == [];
    }
  }

  lemma {:induction false} StrikeCounts(sent: seq<Sent>, from: Host, id: nat)
    ensures Count(Msgs(sent), id) == Count(Msgs(Spared(sent, from)), id) + Count(Msgs(Struck(sent, from)), id)
  {
    if sent != [] {
      var before, last := sent[..|sent| - 1], sent[|sent| - 1];
      StrikeCounts(before, from, id);
      MsgsSnoc(sent);
      CountOne(last, id);
      if last.msg.src != from {
        MsgsPlus(Spared(before, from), [last]);
        CountAppend(Msgs(Spared(before, from)), Msgs([last]), id);
        assert Struck(sent, from) == Struck(before, from);
      } else {
        MsgsPlus(Struck(before, from), [last]);
        CountAppend(Msgs(Struck(before, from)), Msgs([last]), id);
        assert Spared(sent, from) == Spared(before, from);
      }
    }
  }

  // ---- membership ----

  lemma {:induction false} UnripeExact(sent: seq<Sent>, now: nat, s: Sent)
    ensures s in Unripe(sent, now) <==> s in sent && !Due(s, now)
  {
    if sent != [] {
      UnripeExact(sent[..|sent| - 1], now, s);
      assert sent == sent[..|sent| - 1] + [sent[|sent| - 1]];
    }
  }

  lemma {:induction false} RipeExact(sent: seq<Sent>, now: nat, m: Msg)
    ensures m in Ripe(sent, now) <==> exists i :: 0 <= i < |sent| && sent[i].msg == m && Due(sent[i], now)
  {
    if sent != [] {
      var before := sent[..|sent| - 1];
      RipeExact(before, now, m);
      if m in Ripe(before, now) {
        var i :| 0 <= i < |before| && before[i].msg == m && Due(before[i], now);
        assert sent[i] == before[i];
      }
      assert forall i :: 0 <= i < |before| ==> before[i] == sent[i];
    }
  }

  /** The scan keeps the order of both parts. */
  lemma {:induction false} SettleIsStable(a: seq<Sent>, b: seq<Sent>, now: nat)
    ensures Ripe(a + b, now) == Ripe(a, now) + Ripe(b, now)
    ensures Unripe(a + b, now) == Unripe(a, now) + Unripe(b, now)
  {
    if b == [] {
      assert a + b == a;
    } else {
      SettleIsStable(a, b[..|b| - 1], now);
      assert (a + b)[..|a + b| - 1] == a + b[..|b| - 1];
    }
  }

  lemma {:induction false} PutAllExact(m: map<Host, seq<Msg>>, ms: seq<Msg>, h: Host, x: Msg)
    ensures x in At(PutAll(m, ms), h) <==> x in At(m, h) || (x in ms && x.dst == h)
  {
    if ms != [] {
      PutAllExact(m, ms[..|ms| - 1], h, x);
      assert ms == ms[..|ms| - 1] + [ms[|ms| - 1]];
    }
  }

  lemma {:induction false} StrikeExact(sent: seq<Sent>, from: Host, s: Sent)
    ensures s in Spared(sent, from) <==> s in sent && s.msg.src != from
    ensures s in Struck(sent, from) <==> s in sent && s.msg.src == from
  {
    if sent != [] {
      StrikeExact(sent[..|sent| - 1], from, s);
      assert sent == sent[..|sent| - 1] + [sent[|sent| - 1]];
    }
  }

  // ---- the invariant ----

  predicate Known(msgs: seq<Msg>, m: Msg) {
    m.id < |msgs| && msgs[m.id] == m
  }

  predicate AllKnown(msgs: seq<Msg>, ms: seq<Msg>) {
    forall i :: 0 <= i < |ms| ==> Known(msgs, ms[i])
  }

  predicate SentKnown(msgs: seq<Msg>, sent: seq<Sent>) {
    forall s :: s in sent ==> Known(msgs, s.msg)
  }

  predicate QueueKnown(msgs: seq<Msg>, m: map<Host, seq<Msg>>) {
    forall h, x :: h in m && x in m[h] ==> Known(msgs, x) && x.dst == h
  }

  /** Every message is one that was sent, queued under its destination. */
  predicate Genuine(w: World) {
    && SentKnown(w.msgs, w.link.sent)
    && QueueKnown(w.msgs, w.link.deliverable)
    && AllKnown(w.msgs, w.handed) && AllKnown(w.msgs, w.dropped)
  }

  function Places(w: World, id: nat, h: Host): nat {
    Count(Msgs(w.link.sent), id) + Count(At(w.link.deliverable, h), id) + Count(w.handed, id) + Count(w.dropped, id)
  }

  /** A message sent is in exactly one place. */
  predicate Placed(w: World, id: nat) {
    id < |w.msgs| ==> Places(w, id, w.msgs[id].dst) == 1
  }

  lemma {:induction false} UnknownIsNowhere(msgs: seq<Msg>, ms: seq<Msg>, id: nat)
    requires AllKnown(msgs, ms) && id >= |msgs|
    ensures Count(ms, id) == 0
  {
    if ms != [] {
      assert Known(msgs, ms[|ms| - 1]);
      var before := ms[..|ms| - 1];
      assert forall i :: 0 <= i < |before| ==> before[i] == ms[i];
      UnknownIsNowhere(msgs, before, id);
    }
  }

  lemma NewIsNowhere(w: World, h: Host)
    requires Genuine(w)
    ensures Places(w, |w.msgs|, h) == 0
  {
    forall i | 0 <= i < |Msgs(w.link.sent)| ensures Known(w.msgs, Msgs(w.link.sent)[i]) {
      assert w.link.sent[i] in w.link.sent;
    }
    UnknownIsNowhere(w.msgs, Msgs(w.link.sent), |w.msgs|);
    UnknownIsNowhere(w.msgs, At(w.link.deliverable, h), |w.msgs|);
    UnknownIsNowhere(w.msgs, w.handed, |w.msgs|);
    UnknownIsNowhere(w.msgs, w.dropped, |w.msgs|);
  }

  // ---- settling ----

  function Settled(w: World): World {
    w.(link := Settle(w.link))
  }

  lemma SettleGenuine(w: World)
    requires Genuine(w)
    ensures Genuine(Settled(w))
  {
    var l := w.link;
    forall s | s in Unripe(l.sent, l.now) ensures Known(w.msgs, s.msg) {
      UnripeExact(l.sent, l.now, s);
    }
    var q := PutAll(l.deliverable, Ripe(l.sent, l.now));
    forall h, x | h in q && x in q[h] ensures Known(w.msgs, x) && x.dst == h {
      PutAllExact(l.deliverable, Ripe(l.sent, l.now), h, x);
      RipeExact(l.sent, l.now, x);
      if x in Ripe(l.sent, l.now) {
        var i :| 0 <= i < |l.sent| && l.sent[i].msg == x;
        assert l.sent[i] in l.sent;
      }
    }
  }

  lemma SettlePlaces(w: World, id: nat, h: Host)
    requires Genuine(w) && (id < |w.msgs| ==> h == w.msgs[id].dst)
    ensures Places(Settled(w), id, h) == Places(w, id, h)
  {
    var l := w.link;
    SettleCounts(l.sent, l.now, id);
    forall x | x in Ripe(l.sent, l.now) && x.id == id ensures x.dst == h {
      RipeExact(l.sent, l.now, x);
      var i :| 0 <= i < |l.sent| && l.sent[i].msg == x;
      assert l.sent[i] in l.sent && Known(w.msgs, x);
    }
    PutAllCounts(l.deliverable, Ripe(l.sent, l.now), h, id);
  }

  lemma SettleKeeps(w: World, id: nat)
    requires Genuine(w) && Placed(w, id)
    ensures Genuine(Settled(w)) && Placed(Settled(w), id)
  {
    SettleGenuine(w);
    if id < |w.msgs| {
      SettlePlaces(w, id, w.msgs[id].dst);
    }
  }

  // ---- the other steps ----

  /** Only statuses changed. */
  lemma SameMessages(w: World, w': World, id: nat)
    requires Genuine(w) && Placed(w, id)
    requires Msgs(w'.link.sent) == Msgs(w.link.sent) && w'.link.deliverable == w.link.deliverable
    requires w'.msgs == w.msgs && w'.handed == w.handed && w'.dropped == w.dropped
    ensures Genuine(w') && Placed(w', id)
  {
    forall s | s in w'.link.sent ensures Known(w.msgs, s.msg) {
      var i :| 0 <= i < |w'.link.sent| && w'.link.sent[i] == s;
      assert Msgs(w'.link.sent)[i] == Msgs(w.link.sent)[i] == w.link.sent[i].msg;
      assert w.link.sent[i] in w.link.sent;
    }
  }

  lemma DropAll(w: World, w': World, id: nat)
    requires Genuine(w) && Placed(w, id)
    requires w'.link.sent == [] && w'.link.deliverable == w.link.deliverable
    requires w'.msgs == w.msgs && w'.handed == w.handed && w'.dropped == w.dropped + Msgs(w.link.sent)
    ensures Genuine(w') && Placed(w', id)
  {
    CountAppend(w.dropped, Msgs(w.link.sent), id);
    forall i | 0 <= i < |w'.dropped| ensures Known(w.msgs, w'.dropped[i]) {
      if i >= |w.dropped| {
        assert w.link.sent[i - |w.dropped|] in w.link.sent;
      }
    }
  }

  lemma DropOneway(w: World, w': World, from: Host, id: nat)
    requires Genuine(w) && Placed(w, id)
    requires w'.link.sent == Spared(w.link.sent, from) && w'.link.deliverable == w.link.deliverable
    requires w'.msgs == w.msgs && w'.handed == w.handed
    requires w'.dropped == w.dropped + Msgs(Struck(w.link.sent, from))
    ensures Genuine(w') && Placed(w', id)
  {
    StrikeCounts(w.link.sent, from, id);
    CountAppend(w.dropped, Msgs(Struck(w.link.sent, from)), id);
    forall s | s in w'.link.sent ensures Known(w.msgs, s.msg) {
      StrikeExact(w.link.sent, from, s);
    }
    forall i | 0 <= i < |w'.dropped| ensures Known(w.msgs, w'.dropped[i]) {
      if i >= |w.dropped| {
        var s := Struck(w.link.sent, from)[i - |w.dropped|];
        assert s in Struck(w.link.sent, from);
        StrikeExact(w.link.sent, from, s);
      }
    }
  }

  lemma HandOverKeeps(w: World, host: Host, id: nat)
    requires Genuine(w) && Placed(w, id)
    ensures Genuine(Step(w, HandOver(host))) && Placed(Step(w, HandOver(host)), id)
  {
    var w' := Step(w, HandOver(host));
    CountAppend(w.handed, At(w.link.deliverable, host), id);
    forall i | 0 <= i < |w'.handed| ensures Known(w.msgs, w'.handed[i]) {
      if i >= |w.handed| {
        assert At(w.link.deliverable, host)[i - |w.handed|] in w.link.deliverable[host];
      }
    }
    if id < |w.msgs| && w.msgs[id].dst != host {
      ElsewhereNowhere(w, host, id, At(w.link.deliverable, host));
    }
  }

  lemma {:induction false} ElsewhereNowhere(w: World, host: Host, id: nat, ms: seq<Msg>)
    requires id < |w.msgs| && w.msgs[id].dst != host
    requires forall x :: x in ms ==> Known(w.msgs, x) && x.dst == host
    ensures Count(ms, id) == 0
  {
    if ms != [] {
      assert ms[|ms| - 1] in ms;
      assert forall x :: x in ms[..|ms| - 1] ==> x in ms;
      ElsewhereNowhere(w, host, id, ms[..|ms| - 1]);
    }
  }

  // ---- sending ----

  /** A send before its message is placed: the random part. */
  function Shaken(w: World, breaks: bool, mends: bool): World {
    w.(link := RandPartitionOrRepair(w.link, breaks, mends),
       dropped := w.dropped + (if Breaks(w.link, breaks) then Msgs(w.link.sent) else []))
  }

  lemma ShakenKeeps(w: World, breaks: bool, mends: bool, id: nat)
    requires Genuine(w) && Placed(w, id)
    ensures Genuine(Shaken(w, breaks, mends)) && Placed(Shaken(w, breaks, mends), id)
  {
    var w' := Shaken(w, breaks, mends);
    if Breaks(w.link, breaks) {
      DropAll(w, w', id);
    } else {
      assert w'.dropped == w.dropped;
      assert Msgs(w'.link.sent) == Msgs(w.link.sent);
      SameMessages(w, w', id);
    }
  }

  predicate Accepts(l: Link, src: Host, dst: Host) {
    StateFor(l, src, dst).Healthy? || StateFor(l, src, dst).Hold?
  }

  /** The message itself: scheduled, held, or dropped. */
  function Posted(w: World, src: Host, dst: Host, delay: nat): World {
    var msg := Msg(|w.msgs|, src, dst);
    World(Enqueue(w.link, msg, delay), w.msgs + [msg], w.handed,
          w.dropped + (if Accepts(w.link, src, dst) then [] else [msg]))
  }

  lemma PostedGenuine(w: World, src: Host, dst: Host, delay: nat)
    requires Genuine(w)
    ensures Genuine(Posted(w, src, dst, delay))
  {
    var w' := Posted(w, src, dst, delay);
    assert forall m :: Known(w.msgs, m) ==> Known(w'.msgs, m);
    assert Known(w'.msgs, Msg(|w.msgs|, src, dst));
  }

  lemma PostedPlaces(w: World, src: Host, dst: Host, delay: nat, id: nat, h: Host)
    ensures Places(Posted(w, src, dst, delay), id, h) == Places(w, id, h) + if id == |w.msgs| then 1 else 0
  {
    var msg := Msg(|w.msgs|, src, dst);
    var w' := Posted(w, src, dst, delay);
    CountAppend(w.dropped, [msg], id);
    assert [msg][..0] == [];
    if Accepts(w.link, src, dst) {
      assert w'.dropped == w.dropped;
      var s := w'.link.sent[|w.link.sent|];
      assert w'.link.sent == w.link.sent + [s];
      MsgsPlus(w.link.sent, [s]);
      CountAppend(Msgs(w.link.sent), Msgs([s]), id);
      CountOne(s, id);
    }
  }

  lemma PostedKeeps(w: World, src: Host, dst: Host, delay: nat, id: nat)
    requires Genuine(w) && Placed(w, id)
    ensures Genuine(Posted(w, src, dst, delay)) && Placed(Posted(w, src, dst, delay), id)
  {
    PostedGenuine(w, src, dst, delay);
    if id < |w.msgs| {
      PostedPlaces(w, src, dst, delay, id, w.msgs[id].dst);
    } else if id == |w.msgs| {
      PostedPlaces(w, src, dst, delay, id, dst);
      NewIsNowhere(w, dst);
    }
  }

  lemma SendIsStages(w: World, src: Host, dst: Host, delay: nat, breaks: bool, mends: bool)
    ensures Step(w, Send(src, dst, delay, breaks, mends)) == Settled(Posted(Shaken(w, breaks, mends), src, dst, delay))
  {
  }

  lemma SendKeeps(w: World, src: Host, dst: Host, delay: nat, breaks: bool, mends: bool, id: nat)
    requires Genuine(w) && Placed(w, id)
    ensures var w' := Step(w, Send(src, dst, delay, breaks, mends)); Genuine(w') && Placed(w', id)
  {
    SendIsStages(w, src, dst, delay, breaks, mends);
    ShakenKeeps(w, breaks, mends, id);
    PostedKeeps(Shaken(w, breaks, mends), src, dst, delay, id);
    SettleKeeps(Posted(Shaken(w, breaks, mends), src, dst, delay), id);
  }

  // ---- every run ----

  lemma StepKeeps(w: World, op: Op, id: nat)
    requires Genuine(w) && Placed(w, id)
    ensures Genuine(Step(w, op)) && Placed(Step(w, op), id)
  {
    match op
    case Send(src, dst, delay, breaks, mends) => SendKeeps(w, src, dst, delay, breaks, mends, id);
    case Tick(now) => SettleKeeps(w.(link := w.link.(now := now)), id);
    case Partition => DropAll(w, Step(w, op), id);
    case PartitionOneway(from, to) => DropOneway(w, Step(w, op), from, id);
    case HandOver(host) => HandOverKeeps(w, host, id);
    case _ =>
      assert Msgs(Step(w, op).link.sent) == Msgs(w.link.sent);
      SameMessages(w, Step(w, op), id);
  }

  lemma {:induction false} RunKeeps(ops: seq<Op>, id: nat)
    ensures Genuine(Run(ops)) && Placed(Run(ops), id)
  {
    if ops != [] {
      RunKeeps(ops[..|ops| - 1], id);
      StepKeeps(Run(ops[..|ops| - 1]), ops[|ops| - 1], id);
    }
  }

  /** In every run, each message sent is, once, in exactly one of: sent,
      deliverable to its destination, handed over, dropped. */
  lemma LinkConservation(ops: seq<Op>, id: nat)
    requires id < |Run(ops).msgs|
    ensures var w := Run(ops);
            && Count(Msgs(w.link.sent), id) + Count(At(w.link.deliverable, w.msgs[id].dst), id)
               + Count(w.handed, id) + Count(w.dropped, id) == 1
            && (forall h :: h != w.msgs[id].dst ==> Count(At(w.link.deliverable, h), id) == 0)
  {
    RunKeeps(ops, id);
    var w := Run(ops);
    forall h | h != w.msgs[id].dst ensures Count(At(w.link.deliverable, h), id) == 0 {
      ElsewhereNowhere(w, h, id, At(w.link.deliverable, h));
    }
  }

  // ---- timing ----

  /** The link is released, by call or by chance. */
  predicate Releases(w: World, op: Op) {
    op.ReleaseLink? || (op.Send? && Mends(w.link, op.breaks, op.mends))
  }

  /** A partition discards the message. */
  predicate Discards(w: World, op: Op, s: Sent) {
    || op.Partition?
    || (op.PartitionOneway? && op.from == s.msg.src)
    || (op.Send? && Breaks(w.link, op.breaks))
  }

  predicate Picks(w: World, op: Op, s: Sent) {
    op.DeliverNow? && op.index < |w.link.sent| && w.link.sent[op.index] == s
  }

  lemma DiscardDrops(w: World, op: Op, s: Sent)
    requires s in w.link.sent && Discards(w, op, s)
    ensures s.msg in Step(w, op).dropped
  {
    var i :| 0 <= i < |w.link.sent| && w.link.sent[i] == s;
    assert Msgs(w.link.sent)[i] == s.msg;
    if op.PartitionOneway? {
      StrikeExact(w.link.sent, op.from, s);
      var j :| 0 <= j < |Struck(w.link.sent, op.from)| && Struck(w.link.sent, op.from)[j] == s;
      assert Msgs(Struck(w.link.sent, op.from))[j] == s.msg;
    }
  }

  /** A held message stays held through everything but a release, its manual
      delivery, or a partition, which drops it. */
  lemma HeldStays(w: World, op: Op, s: Sent)
    requires s in w.link.sent && s.status.Held?
    requires !Releases(w, op) && !Picks(w, op, s)
    ensures if Discards(w, op, s) then s.msg in Step(w, op).dropped else s in Step(w, op).link.sent
  {
    if Discards(w, op, s) {
      DiscardDrops(w, op, s);
    } else {
      SentStays(w, op, s);
    }
  }

  /** A scheduled message stays with its time until that time, unless it is
      put on hold, picked for manual delivery, or dropped by a partition. */
  lemma NothingEarly(w: World, op: Op, s: Sent)
    requires s in w.link.sent && s.status.DeliverAfter? && s.status.time > Step(w, op).link.now
    requires !op.HoldLink? && !Picks(w, op, s)
    ensures if Discards(w, op, s) then s.msg in Step(w, op).dropped else s in Step(w, op).link.sent
  {
    if Discards(w, op, s) {
      DiscardDrops(w, op, s);
    } else {
      SentStays(w, op, s);
    }
  }

  lemma SentStays(w: World, op: Op, s: Sent)
    requires s in w.link.sent && !Discards(w, op, s) && !Picks(w, op, s)
    requires s.status.Held? ==> !Releases(w, op)
    requires s.status.DeliverAfter? ==> s.status.time > Step(w, op).link.now && !op.HoldLink?
    ensures s in Step(w, op).link.sent
  {
    var i :| 0 <= i < |w.link.sent| && w.link.sent[i] == s;
    match op
    case Send(src, dst, delay, breaks, mends) => SendLeaves(w, op, s, i);
    case Tick(now) => UnripeExact(w.link.sent, now, s);
    case PartitionOneway(from, _) => StrikeExact(w.link.sent, from, s);
    case HoldLink => assert HoldAll(w.link.sent)[i] == s;
    case ReleaseLink => assert ReleaseAll(w.link.sent, w.link.now)[i] == s;
    case DeliverNow(j) => if j < |w.link.sent| { assert Step(w, op).link.sent[i] == s; }
    case _ =>
  }

  lemma SendLeaves(w: World, op: Op, s: Sent, i: nat)
    requires op.Send? && i < |w.link.sent| && w.link.sent[i] == s && !Breaks(w.link, op.breaks)
    requires s.status.Held? ==> !Mends(w.link, op.breaks, op.mends)
    requires s.status.DeliverAfter? ==> s.status.time > w.link.now
    ensures s in Step(w, op).link.sent
  {
    SendIsStages(w, op.src, op.dst, op.delay, op.breaks, op.mends);
    var l1 := Shaken(w, op.breaks, op.mends).link;
    assert i < |l1.sent| && l1.sent[i] == s;
    var l := Posted(Shaken(w, op.breaks, op.mends), op.src, op.dst, op.delay).link;
    assert l.sent[i] == s && l.now == w.link.now;
    UnripeExact(l.sent, l.now, s);
  }
}
