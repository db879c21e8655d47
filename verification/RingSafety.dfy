/** Every submission completes exactly once. */
module RingSafety {
  import opened RingSpec
  import opened RingCounting

  // ---- the invariant ----

  /** Completions with the user data, or answering the submission, wherever they
      are: still to be accepted, in flight, ready, drained. */
  function Everywhere(w: World, q: Query): nat {
    CountEntries(w.ring.sq, q) + Pooled(w.ring, q) + Count(w.drained, q)
  }

  /** The user data is queued, in flight, ready or drained as often as pushed. */
  predicate Conserved(w: World, u: nat) {
    Everywhere(w, WithData(u)) == multiset(w.pushed)[u]
  }

  /** Every submission made is answered exactly once. */
  predicate Answered(w: World, id: nat) {
    Everywhere(w, Answering(id)) == if id < |w.pushed| then 1 else 0
  }

  predicate Timely(w: World) {
    && (forall c :: c in w.ring.ready ==> c.when <= w.now)
    && w.visible <= ReadyCount(w.ring, w.now)
    && |w.times| == |w.drained|
    && (forall i :: 0 <= i < |w.drained| ==> w.drained[i].when <= w.times[i])
  }

  predicate WorldOk(w: World, u: nat, id: nat) {
    Conserved(w, u) && Answered(w, id) && Timely(w)
  }

  lemma CountEntriesSnoc(es: seq<Entry>, e: Entry, q: Query)
    ensures CountEntries(es + [e], q) == CountEntries(es, q) + HitEntry(e, q)
  {
    assert (es + [e])[..|es + [e]| - 1] == es;
  }

  lemma PushedOnce(pushed: seq<nat>, data: nat, u: nat)
    ensures multiset(pushed + [data])[u] == multiset(pushed)[u] + if data == u then 1 else 0
  {
  }

  lemma PushEverywhere(w: World, e: Entry, q: Query)
    ensures Everywhere(w.(ring := w.ring.(sq := w.ring.sq + [e]), pushed := w.pushed + [e.userData]), q)
            == Everywhere(w, q) + HitEntry(e, q)
  {
    CountEntriesSnoc(w.ring.sq, e, q);
  }

  lemma PushCounts(w: World, u: nat, id: nat, data: nat, work: Work, bad: bool)
    requires Conserved(w, u) && Answered(w, id)
    ensures var w' := Step(w, Push(data, work, bad)); Conserved(w', u) && Answered(w', id)
  {
    if |w.ring.sq| < w.depth {
      var e := Entry(data, work, bad, |w.pushed|);
      PushedOnce(w.pushed, data, u);
      PushEverywhere(w, e, WithData(u));
      PushEverywhere(w, e, Answering(id));
    }
  }

  lemma SubmitCounts(w: World, latencies: seq<nat>, q: Query)
    requires !q.Due?
    ensures Everywhere(Step(w, SubmitAll(latencies)), q) == Everywhere(w, q)
  {
    AcceptAllCounts(w.ring.(sq := []), w.ring.sq, w.now, latencies, q);
  }

  lemma SubmitIsTimely(w: World, latencies: seq<nat>)
    requires Timely(w)
    ensures Timely(Step(w, SubmitAll(latencies)))
  {
    AcceptAllReady(w.ring.(sq := []), w.ring.sq, w.now, latencies);
  }

  lemma {:induction false} MaturedGrows(s: seq<Cqe>, now: nat, later: nat)
    requires now <= later
    ensures Matured(s, now) <= Matured(s, later)
  {
    if s != [] {
      MaturedGrows(s[..|s| - 1], now, later);
    }
  }

  lemma {:induction false} CountAll(s: seq<Cqe>, now: nat)
    ensures NoneDue(s, now) ==> Count(s, Due(now)) == 0
    ensures AllDue(s, now) ==> Count(s, Due(now)) == |s|
  {
    if s != [] {
      CountAll(s[..|s| - 1], now);
    }
  }

  /** Promotion moves exactly what matured. */
  lemma PromotePending(r: Ring, now: nat, order: seq<Cqe>, q: Query)
    requires Shuffles(r, now, order)
    ensures Pooled(Promote(r, now, order), q) == Pooled(r, q)
  {
    ScanSplits(r.inflight, 0, now);
    var (stay, matured) := Scan(r.inflight, 0, now);
    assert multiset(stay + order) == multiset(r.inflight);
    CountPermutation(stay + order, r.inflight, q);
    CountAppend(stay, order, q);
    CountAppend(r.ready, order, q);
  }

  lemma PromoteReady(r: Ring, now: nat, order: seq<Cqe>)
    requires Shuffles(r, now, order)
    ensures |Promote(r, now, order).ready| == ReadyCount(r, now)
    ensures forall c :: c in Promote(r, now, order).ready ==> c in r.ready || c.when <= now
  {
    ScanSplits(r.inflight, 0, now);
    ScanSorts(r.inflight, 0, now);
    var (stay, matured) := Scan(r.inflight, 0, now);
    assert multiset(stay + matured) == multiset(r.inflight);
    CountPermutation(stay + matured, r.inflight, Due(now));
    CountAppend(stay, matured, Due(now));
    CountAll(stay, now);
    CountAll(matured, now);
    assert |order| == |multiset(order)| == |multiset(matured)| == |matured|;
    forall c | c in order ensures c.when <= now {
      assert c in multiset(matured);
    }
    MaturedIsCount(r.inflight, now);
  }

  lemma PopPending(r: Ring, now: nat, order: seq<Cqe>, q: Query)
    requires Shuffles(r, now, order)
    ensures var (r', c) := Pop(r, now, order);
            Pooled(r, q) == Pooled(r', q) + (if c.Some? then Hit(c.value, q) else 0)
  {
    PromotePending(r, now, order, q);
    var ready := Promote(r, now, order).ready;
    if ready != [] {
      CountRemove(ready, 0, q);
      assert ready[..0] + ready[1..] == ready[1..];
    }
  }

  lemma MovedEverywhere(w: World, w': World, c: Cqe, q: Query)
    requires w'.ring.sq == w.ring.sq && w'.drained == w.drained + [c]
    requires Pooled(w.ring, q) == Pooled(w'.ring, q) + Hit(c, q)
    ensures Everywhere(w', q) == Everywhere(w, q)
  {
    CountSnoc(w.drained, c, q);
  }

  lemma NextCounts(w: World, order: seq<Cqe>, q: Query)
    ensures Everywhere(Step(w, Next(order)), q) == Everywhere(w, q)
  {
    if w.visible > 0 && Shuffles(w.ring, w.now, order) {
      PopPending(w.ring, w.now, order, q);
      var c := Pop(w.ring, w.now, order).1;
      if c.Some? {
        MovedEverywhere(w, Step(w, Next(order)), c.value, q);
      }
    }
  }

  /** What `sync` exposed is there to be popped, and no earlier than its time. */
  lemma NextIsTimely(w: World, order: seq<Cqe>)
    requires Timely(w)
    ensures Timely(Step(w, Next(order)))
    ensures w.visible > 0 && Shuffles(w.ring, w.now, order) ==>
              var c := Pop(w.ring, w.now, order).1; c.Some? && c.value.when <= w.now
  {
    if w.visible > 0 && Shuffles(w.ring, w.now, order) {
      PromoteReady(w.ring, w.now, order);
      var ready := Promote(w.ring, w.now, order).ready;
      assert ready[0] in ready;
      assert forall c :: c in ready[1..] ==> c in ready;
    }
  }

  lemma StepKeeps(w: World, u: nat, id: nat, op: Op)
    requires WorldOk(w, u, id)
    ensures WorldOk(Step(w, op), u, id)
  {
    match op
    case Push(data, work, bad) => PushCounts(w, u, id, data, work, bad);
    case SubmitAll(latencies) =>
      SubmitCounts(w, latencies, WithData(u));
      SubmitCounts(w, latencies, Answering(id));
      SubmitIsTimely(w, latencies);
    case Tick(elapsed) => MaturedGrows(w.ring.inflight, w.now, w.now + elapsed);
    case Sync =>
    case Next(order) =>
      NextCounts(w, order, WithData(u));
      NextCounts(w, order, Answering(id));
      NextIsTimely(w, order);
  }

  lemma {:induction false} RunKeeps(depth: nat, ops: seq<Op>, u: nat, id: nat)
    ensures WorldOk(Run(depth, ops), u, id)
  {
    if ops != [] {
      RunKeeps(depth, ops[..|ops| - 1], u, id);
      StepKeeps(Run(depth, ops[..|ops| - 1]), u, id, ops[|ops| - 1]);
    }
  }

  // ---- every result is right ----

  /** Every completion befits the fate of its submission. */
  predicate Right(fates: map<nat, Fate>, s: seq<Cqe>) {
    forall c :: c in s ==> c.id in fates && Befits(c, fates[c.id])
  }

  predicate AllRight(fates: map<nat, Fate>, r: Ring, drained: seq<Cqe>) {
    Right(fates, r.inflight) && Right(fates, r.ready) && Right(fates, drained)
  }

  lemma {:induction false} InIsCounted(s: seq<Cqe>, c: Cqe)
    requires c in s
    ensures Count(s, Answering(c.id)) > 0
  {
    if s[|s| - 1] != c {
      assert s == s[..|s| - 1] + [s[|s| - 1]];
      InIsCounted(s[..|s| - 1], c);
    }
  }

  /** A fate settled for a submission that is answered nowhere here. */
  lemma RightElsewhere(fates: map<nat, Fate>, s: seq<Cqe>, id: nat, f: Fate)
    requires Right(fates, s) && Count(s, Answering(id)) == 0
    ensures Right(fates[id := f], s)
  {
    forall c | c in s ensures c.id != id {
      InIsCounted(s, c);
    }
  }

  lemma TakenOutWereIn(r: Ring, target: nat)
    ensures forall c :: c in TakeOut(r, target).inflight ==> c in r.inflight
    ensures forall c :: c in TakeOut(r, target).ready ==> c in r.ready
    ensures Holds(r, target) <==> Victim(r, target).Some?
  {
    var i, j := Position(r.inflight, target), Position(r.ready, target);
    if i < |r.inflight| {
      SwapRemoveExact(r.inflight, i);
      forall c | c in SwapRemove(r.inflight, i) ensures c in r.inflight {
        assert c in multiset(SwapRemove(r.inflight, i));
      }
      assert r.inflight[i] in r.inflight;
    } else if j < |r.ready| {
      assert r.ready[j] in r.ready;
    }
  }

  lemma RightWithout(fates: map<nat, Fate>, r: Ring, drained: seq<Cqe>, target: nat)
    requires AllRight(fates, r, drained)
    ensures AllRight(fates, TakeOut(r, target), drained)
  {
    TakenOutWereIn(r, target);
  }

  lemma RightApart(fates: map<nat, Fate>, r: Ring, drained: seq<Cqe>, id: nat, f: Fate)
    requires AllRight(fates, r, drained) && Pooled(r, Answering(id)) + Count(drained, Answering(id)) == 0
    ensures AllRight(fates[id := f], r, drained)
  {
    RightElsewhere(fates, r.inflight, id, f);
    RightElsewhere(fates, r.ready, id, f);
    RightElsewhere(fates, drained, id, f);
  }

  /** So far answered nowhere, and answered at most once. */
  ghost predicate Distinct(r: Ring, drained: seq<Cqe>, e: Entry) {
    && Pooled(r, Answering(e.id)) + Count(drained, Answering(e.id)) == 0
    && forall c :: (c in r.inflight || c in r.ready) ==>
        Pooled(r, Answering(c.id)) + Count(drained, Answering(c.id)) == 1
  }

  lemma RightPlus(fates: map<nat, Fate>, s: seq<Cqe>, c: Cqe)
    requires Right(fates, s) && c.id in fates && Befits(c, fates[c.id])
    ensures Right(fates, s + [c])
  {
  }

  lemma RightPlusTwo(fates: map<nat, Fate>, s: seq<Cqe>, c: Cqe, d: Cqe)
    requires Right(fates, s) && c.id in fates && Befits(c, fates[c.id]) && d.id in fates && Befits(d, fates[d.id])
    ensures Right(fates, s + [c, d])
  {
    RightPlus(fates, s, c);
    RightPlus(fates, s + [c], d);
    assert s + [c, d] == s + [c] + [d];
  }

  lemma CancelIsRight(fates: map<nat, Fate>, r: Ring, drained: seq<Cqe>, e: Entry, now: nat)
    requires AllRight(fates, r, drained) && Distinct(r, drained, e) && !e.unsupported && e.work.Cancel?
    ensures AllRight(Settle(fates, r, e, now, 0), CancelOne(r, e.userData, e.id, e.work.target, now), drained)
  {
    var target := e.work.target;
    var r1 := TakeOut(r, target);
    TakenOutWereIn(r, target);
    RightWithout(fates, r, drained, target);
    TakeOutPending(r, target, Answering(e.id));
    RightApart(fates, r1, drained, e.id, FateOf(r, e, now, 0));
    var known := fates[e.id := FateOf(r, e, now, 0)];
    if Victim(r, target).Some? {
      var v := Victim(r, target).value;
      assert v in r.inflight || v in r.ready;
      TakeOutPending(r, target, Answering(v.id));
      RightApart(known, r1, drained, v.id, Stopped);
      assert Pooled(r, Answering(e.id)) == 0 && Pooled(r, Answering(v.id)) > 0;
      RightPlusTwo(known[v.id := Stopped], r1.inflight, Cqe(now, target, v.id, Immediate(-ECANCELED)),
                   Cqe(now, e.userData, e.id, Immediate(0)));
    } else {
      RightPlus(known, r1.inflight, Cqe(now, e.userData, e.id, Immediate(-ENOENT)));
    }
  }

  /** One more submission: every completion still befits the fate settled. */
  lemma AcceptIsRight(fates: map<nat, Fate>, r: Ring, drained: seq<Cqe>, e: Entry, now: nat, latency: nat)
    requires AllRight(fates, r, drained) && Distinct(r, drained, e)
    ensures AllRight(Settle(fates, r, e, now, latency), Accept(r, e, now, latency), drained)
  {
    if !e.unsupported && e.work.Cancel? {
      CancelIsRight(fates, r, drained, e, now);
    } else {
      RightApart(fates, r, drained, e.id, FateOf(r, e, now, latency));
    }
  }

  /** Each submission is answered at most once, those still to come included. */
  ghost predicate Unique(r: Ring, drained: seq<Cqe>, es: seq<Entry>) {
    forall id :: Pooled(r, Answering(id)) + Count(drained, Answering(id)) + CountEntries(es, Answering(id)) <= 1
  }

  lemma UniqueNext(r: Ring, drained: seq<Cqe>, es: seq<Entry>, now: nat, latencies: seq<nat>)
    requires es != [] && Unique(r, drained, es)
    ensures Unique(r, drained, es[..|es| - 1])
    ensures Distinct(AcceptAll(r, es[..|es| - 1], now, latencies), drained, es[|es| - 1])
  {
    var before, e := es[..|es| - 1], es[|es| - 1];
    var r1 := AcceptAll(r, before, now, latencies);
    forall id
      ensures Pooled(r, Answering(id)) + Count(drained, Answering(id)) + CountEntries(before, Answering(id)) <= 1
      ensures Pooled(r1, Answering(id)) + Count(drained, Answering(id)) + HitEntry(e, Answering(id)) <= 1
    {
      AcceptAllCounts(r, before, now, latencies, Answering(id));
      assert CountEntries(es, Answering(id)) == CountEntries(before, Answering(id)) + HitEntry(e, Answering(id));
    }
    forall c | c in r1.inflight || c in r1.ready
      ensures Pooled(r1, Answering(c.id)) + Count(drained, Answering(c.id)) == 1
    {
      if c in r1.inflight {
        InIsCounted(r1.inflight, c);
      } else {
        InIsCounted(r1.ready, c);
      }
    }
  }

  lemma {:induction false} AcceptAllIsRight(fates: map<nat, Fate>, r: Ring, drained: seq<Cqe>, es: seq<Entry>,
      now: nat, latencies: seq<nat>)
    requires AllRight(fates, r, drained) && Unique(r, drained, es)
    ensures AllRight(SettleAll(fates, r, es, now, latencies), AcceptAll(r, es, now, latencies), drained)
  {
    if es != [] {
      var before := es[..|es| - 1];
      UniqueNext(r, drained, es, now, latencies);
      AcceptAllIsRight(fates, r, drained, before, now, latencies);
      AcceptIsRight(SettleAll(fates, r, before, now, latencies), AcceptAll(r, before, now, latencies), drained,
                    es[|es| - 1], now, LatencyOf(latencies, |es| - 1));
    }
  }

  lemma PromotedWereIn(r: Ring, now: nat, order: seq<Cqe>)
    requires Shuffles(r, now, order)
    ensures forall c :: c in Promote(r, now, order).inflight ==> c in r.inflight
    ensures forall c :: c in Promote(r, now, order).ready ==> c in r.inflight || c in r.ready
  {
    ScanSplits(r.inflight, 0, now);
    var (stay, matured) := Scan(r.inflight, 0, now);
    forall c | c in stay ensures c in r.inflight {
      assert c in multiset(stay) + multiset(matured);
    }
    forall c | c in order ensures c in r.inflight {
      assert c in multiset(order) && c in multiset(stay) + multiset(matured);
    }
  }

  lemma NextIsRight(w: World, order: seq<Cqe>)
    requires AllRight(w.fates, w.ring, w.drained)
    ensures var w' := Step(w, Next(order)); AllRight(w'.fates, w'.ring, w'.drained)
  {
    if w.visible > 0 && Shuffles(w.ring, w.now, order) {
      PromotedWereIn(w.ring, w.now, order);
      var ready := Promote(w.ring, w.now, order).ready;
      if ready != [] {
        assert ready[0] in ready && forall c :: c in ready[1..] ==> c in ready;
      }
    }
  }

  lemma {:induction false} RunIsRight(depth: nat, ops: seq<Op>)
    ensures var w := Run(depth, ops); AllRight(w.fates, w.ring, w.drained)
  {
    if ops != [] {
      var before, op := ops[..|ops| - 1], ops[|ops| - 1];
      RunIsRight(depth, before);
      var w := Run(depth, before);
      match op
      case SubmitAll(latencies) =>
        forall id
          ensures Pooled(w.ring, Answering(id)) + Count(w.drained, Answering(id))
                  + CountEntries(w.ring.sq, Answering(id)) <= 1
        {
          RunKeeps(depth, before, 0, id);
        }
        AcceptAllIsRight(w.fates, w.ring.(sq := []), w.drained, w.ring.sq, w.now, latencies);
      case Next(order) => NextIsRight(w, order);
      case _ =>
    }
  }

  // ---- every completion carries the user data of its submission ----

  predicate Labelled(pushed: seq<nat>, s: seq<Cqe>) {
    forall c :: c in s ==> c.id < |pushed| && c.userData == pushed[c.id]
  }

  predicate LabelledEntries(pushed: seq<nat>, es: seq<Entry>) {
    forall e :: e in es ==> e.id < |pushed| && e.userData == pushed[e.id]
  }

  predicate AllLabelled(pushed: seq<nat>, r: Ring, drained: seq<Cqe>) {
    Labelled(pushed, r.inflight) && Labelled(pushed, r.ready) && Labelled(pushed, drained)
  }

  lemma CancelIsLabelled(pushed: seq<nat>, r: Ring, drained: seq<Cqe>, e: Entry, target: nat, now: nat)
    requires AllLabelled(pushed, r, drained) && LabelledEntries(pushed, [e])
    ensures AllLabelled(pushed, CancelOne(r, e.userData, e.id, target, now), drained)
  {
    assert e in [e];
    TakenOutWereIn(r, target);
    if Victim(r, target).Some? {
      var v := Victim(r, target).value;
      assert v in r.inflight || v in r.ready;
    }
  }

  lemma {:induction false} AcceptAllLabelled(pushed: seq<nat>, r: Ring, drained: seq<Cqe>, es: seq<Entry>, now: nat,
                                             latencies: seq<nat>)
    requires AllLabelled(pushed, r, drained) && LabelledEntries(pushed, es)
    ensures AllLabelled(pushed, AcceptAll(r, es, now, latencies), drained)
  {
    if es != [] {
      var before, e := es[..|es| - 1], es[|es| - 1];
      assert e in es && LabelledEntries(pushed, [e]);
      AcceptAllLabelled(pushed, r, drained, before, now, latencies);
      if !e.unsupported && e.work.Cancel? {
        CancelIsLabelled(pushed, AcceptAll(r, before, now, latencies), drained, e, e.work.target, now);
      }
    }
  }

  lemma NextLabelled(w: World, order: seq<Cqe>)
    requires AllLabelled(w.pushed, w.ring, w.drained)
    ensures var w' := Step(w, Next(order)); AllLabelled(w'.pushed, w'.ring, w'.drained)
  {
    if w.visible > 0 && Shuffles(w.ring, w.now, order) {
      PromotedWereIn(w.ring, w.now, order);
      var ready := Promote(w.ring, w.now, order).ready;
      if ready != [] {
        assert ready[0] in ready && forall c :: c in ready[1..] ==> c in ready;
      }
    }
  }

  lemma {:induction false} RunIsLabelled(depth: nat, ops: seq<Op>)
    ensures var w := Run(depth, ops);
            AllLabelled(w.pushed, w.ring, w.drained) && LabelledEntries(w.pushed, w.ring.sq)
  {
    if ops != [] {
      var before, op := ops[..|ops| - 1], ops[|ops| - 1];
      RunIsLabelled(depth, before);
      var w := Run(depth, before);
      match op
      case SubmitAll(latencies) =>
        AcceptAllLabelled(w.pushed, w.ring.(sq := []), w.drained, w.ring.sq, w.now, latencies);
        AcceptAllCounts(w.ring.(sq := []), w.ring.sq, w.now, latencies, WithData(0));
      case Next(order) => NextLabelled(w, order);
      case _ =>
    }
  }

  /** In every run, each user data is queued, in flight, ready and drained
      together exactly as often as it was pushed, and each submission made is
      answered exactly once in one of these places. */
  lemma {:induction false} ExactlyOnce(depth: nat, ops: seq<Op>, u: nat, id: nat)
    ensures var w := Run(depth, ops);
            && multiset(w.pushed)[u] == CountEntries(w.ring.sq, WithData(u)) + Count(w.ring.inflight, WithData(u))
                              + Count(w.ring.ready, WithData(u)) + Count(w.drained, WithData(u))
            && CountEntries(w.ring.sq, Answering(id)) + Count(w.ring.inflight, Answering(id))
               + Count(w.ring.ready, Answering(id)) + Count(w.drained, Answering(id))
               == if id < |w.pushed| then 1 else 0
  {
    RunKeeps(depth, ops, u, id);
  }

  /** In every run, a completion drained for a submission carries its user data
      and is what its fate demands: the operation ran, no earlier than its
      acceptance and latency; or -ECANCELED, and it never ran, if a cancellation
      found it; 0 for a cancellation that found its target in flight or ready
      when it was accepted, -ENOENT for one that did not; -EINVAL for an
      unsupported entry. */
  lemma {:induction false} ResultsAreRight(depth: nat, ops: seq<Op>, i: nat)
    requires i < |Run(depth, ops).drained|
    ensures var w := Run(depth, ops);
            && |w.times| == |w.drained| && w.drained[i].id in w.fates && w.drained[i].id < |w.pushed|
            && var c, f := w.drained[i], w.fates[w.drained[i].id];
            && c.userData == w.pushed[c.id] && Befits(c, f) && c.when <= w.times[i]
            && (f.Runs? <==> c.apply == Execute)
  {
    RunKeeps(depth, ops, 0, 0);
    RunIsRight(depth, ops);
    RunIsLabelled(depth, ops);
    var w := Run(depth, ops);
    assert w.drained[i] in w.drained;
  }

  /** In every run, as long as `sync` has exposed completions, `next` yields
      one, whatever the shuffle, and none before its time. */
  lemma {:induction false} NeverShort(depth: nat, ops: seq<Op>, order: seq<Cqe>)
    requires var w := Run(depth, ops); w.visible > 0 && Shuffles(w.ring, w.now, order)
    ensures var w, w' := Run(depth, ops), Step(Run(depth, ops), Next(order));
            && |w'.drained| == |w.drained| + 1 && w'.drained[..|w.drained|] == w.drained
            && var c := w'.drained[|w.drained|];
            && c.when <= w.now && (c in w.ring.inflight || c in w.ring.ready)
            && w'.visible == w.visible - 1
  {
    RunKeeps(depth, ops, 0, 0);
    var w := Run(depth, ops);
    NextIsTimely(w, order);
    PromotedWereIn(w.ring, w.now, order);
    var ready := Promote(w.ring, w.now, order).ready;
    assert ready[0] in ready;
  }

  // ---- everything due can be drained ----

  /** `sync`, and then `next` once for each given shuffle. */
  function Drained(w: World, orders: seq<seq<Cqe>>): World {
    if orders == [] then Step(w, Sync)
    else Step(Drained(w, orders[..|orders| - 1]), Next(orders[|orders| - 1]))
  }

  /** Each shuffle is one the ring could have made. */
  predicate Shuffled(w: World, orders: seq<seq<Cqe>>) {
    orders != [] ==>
      var before := orders[..|orders| - 1];
      Shuffled(w, before) && Shuffles(Drained(w, before).ring, w.now, orders[|orders| - 1])
  }

  lemma NextYields(w: World, order: seq<Cqe>)
    requires Timely(w) && w.visible > 0 && Shuffles(w.ring, w.now, order)
    ensures var w' := Step(w, Next(order));
            && Timely(w') && w'.now == w.now && w'.visible == w.visible - 1 && |w'.drained| == |w.drained| + 1
  {
    NextIsTimely(w, order);
  }

  lemma {:induction false} DrainsSome(w: World, orders: seq<seq<Cqe>>)
    requires Timely(w) && Shuffled(w, orders) && |orders| <= ReadyCount(w.ring, w.now)
    ensures var w' := Drained(w, orders);
            && Timely(w') && w'.now == w.now && w'.visible == ReadyCount(w.ring, w.now) - |orders|
            && |w'.drained| == |w.drained| + |orders|
  {
    if orders != [] {
      var before := orders[..|orders| - 1];
      DrainsSome(w, before);
      NextYields(Drained(w, before), orders[|orders| - 1]);
    }
  }

  /** In every run, once all that is in flight is due, one `sync` and as many
      calls of `next` as there are completions drain them all, whatever the
      shuffles. */
  lemma {:induction false} DueIsDrained(depth: nat, ops: seq<Op>, orders: seq<seq<Cqe>>)
    requires var w := Run(depth, ops);
             && (forall c :: c in w.ring.inflight ==> c.when <= w.now)
             && |orders| == |w.ring.inflight| + |w.ring.ready| && Shuffled(w, orders)
    ensures |Drained(Run(depth, ops), orders).drained| == |Run(depth, ops).drained| + |orders|
  {
    var w := Run(depth, ops);
    RunKeeps(depth, ops, 0, 0);
    MaturedIsCount(w.ring.inflight, w.now);
    CountAll(w.ring.inflight, w.now);
    DrainsSome(w, orders);
  }
}
