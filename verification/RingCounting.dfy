/** Counting completions: what the scan, a cancellation and a submission do. */
module RingCounting {
  import opened RingSpec

  // ---- counting ----

  /** What to count: completions with some user data, those that answer some
      submission, or those due at some time. */
  datatype Query = WithData(u: nat) | Answering(id: nat) | Due(now: nat)

  function Hit(c: Cqe, q: Query): nat {
    match q
    case WithData(u) => if c.userData == u then 1 else 0
    case Answering(id) => if c.id == id then 1 else 0
    case Due(now) => if c.when <= now then 1 else 0
  }

  function Count(s: seq<Cqe>, q: Query): nat {
    if s == [] then 0 else Count(s[..|s| - 1], q) + Hit(s[|s| - 1], q)
  }

  function HitEntry(e: Entry, q: Query): nat {
    match q
    case WithData(u) => if e.userData == u then 1 else 0
    case Answering(id) => if e.id == id then 1 else 0
    case Due(_) => 0
  }

  function CountEntries(es: seq<Entry>, q: Query): nat {
    if es == [] then 0 else CountEntries(es[..|es| - 1], q) + HitEntry(es[|es| - 1], q)
  }

  lemma {:induction false} CountAppend(a: seq<Cqe>, b: seq<Cqe>, q: Query)
    ensures Count(a + b, q) == Count(a, q) + Count(b, q)
  {
    if b == [] {
      assert a + b == a;
    } else {
      CountAppend(a, b[..|b| - 1], q);
      assert (a + b)[..|a + b| - 1] == a + b[..|b| - 1];
    }
  }

  lemma CountSnoc(s: seq<Cqe>, x: Cqe, q: Query)
    ensures Count(s + [x], q) == Count(s, q) + Hit(x, q)
  {
    assert (s + [x])[..|s + [x]| - 1] == s;
  }

  lemma CountTwo(s: seq<Cqe>, x: Cqe, y: Cqe, q: Query)
    ensures Count(s + [x, y], q) == Count(s, q) + Hit(x, q) + Hit(y, q)
  {
    CountSnoc(s, x, q);
    CountSnoc(s + [x], y, q);
    assert s + [x, y] == s + [x] + [y];
  }

  lemma CountRemove(s: seq<Cqe>, i: nat, q: Query)
    requires i < |s|
    ensures Count(s, q) == Count(s[..i] + s[i + 1..], q) + Hit(s[i], q)
  {
    assert s == (s[..i] + [s[i]]) + s[i + 1..];
    CountAppend(s[..i] + [s[i]], s[i + 1..], q);
    CountSnoc(s[..i], s[i], q);
    CountAppend(s[..i], s[i + 1..], q);
  }

  lemma Without(s: seq<Cqe>, i: nat)
    requires i < |s|
    ensures multiset(s[..i] + s[i + 1..]) + multiset{s[i]} == multiset(s)
  {
    assert s == s[..i] + [s[i]] + s[i + 1..];
  }

  lemma Cancels(a: multiset<Cqe>, b: multiset<Cqe>, x: Cqe)
    requires a + multiset{x} == b + multiset{x}
    ensures a == b
  {
    assert a == (a + multiset{x}) - multiset{x};
    assert b == (b + multiset{x}) - multiset{x};
  }

  /** Order does not matter. */
  lemma {:induction false} CountPermutation(a: seq<Cqe>, b: seq<Cqe>, q: Query)
    requires multiset(a) == multiset(b)
    ensures Count(a, q) == Count(b, q)
    decreases |a|
  {
    if a == [] {
      assert |multiset(b)| == 0;
    } else {
      var last := |a| - 1;
      assert a[last] in multiset(b);
      var i :| 0 <= i < |b| && b[i] == a[last];
      Without(a, last);
      Without(b, i);
      assert a[..last] + a[last + 1..] == a[..last];
      Cancels(multiset(a[..last]), multiset(b[..i] + b[i + 1..]), b[i]);
      CountPermutation(a[..last], b[..i] + b[i + 1..], q);
      CountRemove(b, i, q);
    }
  }

  lemma SwapEnds(a: seq<Cqe>, x: Cqe, b: seq<Cqe>, y: Cqe)
    ensures multiset(a + [y] + b) + multiset{x} == multiset(a + [x] + b + [y])
  {
  }

  lemma SwapRemoveExact(s: seq<Cqe>, i: nat)
    requires i < |s|
    ensures multiset(SwapRemove(s, i)) + multiset{s[i]} == multiset(s)
  {
    var last := |s| - 1;
    if i == last {
      assert s == s[..i] + [s[i]];
    } else {
      var whole := s[..i] + [s[i]] + s[i + 1..last] + [s[last]];
      assert s == whole;
      SwapEnds(s[..i], s[i], s[i + 1..last], s[last]);
    }
  }

  lemma SwapRemovePrefix(s: seq<Cqe>, i: nat)
    requires i < |s|
    ensures SwapRemove(s, i)[..i] == s[..i]
  {
  }

  lemma SwapRemoveCount(s: seq<Cqe>, i: nat, q: Query)
    requires i < |s|
    ensures Count(s, q) == Count(SwapRemove(s, i), q) + Hit(s[i], q)
  {
    SwapRemoveExact(s, i);
    Without(s, i);
    Cancels(multiset(SwapRemove(s, i)), multiset(s[..i] + s[i + 1..]), s[i]);
    CountPermutation(SwapRemove(s, i), s[..i] + s[i + 1..], q);
    CountRemove(s, i, q);
  }

  lemma {:induction false} MaturedIsCount(s: seq<Cqe>, now: nat)
    ensures Matured(s, now) == Count(s, Due(now))
  {
    if s != [] {
      MaturedIsCount(s[..|s| - 1], now);
    }
  }

  // ---- the scan ----

  lemma MovesOut(stay: seq<Cqe>, matured: seq<Cqe>, s1: seq<Cqe>, s: seq<Cqe>, x: Cqe)
    requires multiset(stay) + multiset(matured) == multiset(s1) && multiset(s1) + multiset{x} == multiset(s)
    ensures multiset(stay) + multiset([x] + matured) == multiset(s)
  {
    assert multiset([x] + matured) == multiset{x} + multiset(matured);
  }

  /** The scan loses and invents nothing. */
  lemma {:induction false} ScanSplits(s: seq<Cqe>, i: nat, now: nat)
    requires i <= |s|
    ensures multiset(Scan(s, i, now).0) + multiset(Scan(s, i, now).1) == multiset(s)
    decreases |s| - i
  {
    if i < |s| {
      if s[i].when <= now {
        var s1 := SwapRemove(s, i);
        SwapRemoveExact(s, i);
        ScanSplits(s1, i, now);
        MovesOut(Scan(s1, i, now).0, Scan(s1, i, now).1, s1, s, s[i]);
      } else {
        ScanSplits(s, i + 1, now);
      }
    }
  }

  predicate AllDue(s: seq<Cqe>, now: nat) {
    forall i :: 0 <= i < |s| ==> s[i].when <= now
  }

  predicate NoneDue(s: seq<Cqe>, now: nat) {
    forall i :: 0 <= i < |s| ==> s[i].when > now
  }

  /** What matured is taken out, and nothing else is. */
  lemma {:induction false} ScanSorts(s: seq<Cqe>, i: nat, now: nat)
    requires i <= |s| && NoneDue(s[..i], now)
    ensures NoneDue(Scan(s, i, now).0, now) && AllDue(Scan(s, i, now).1, now)
    decreases |s| - i
  {
    if i < |s| {
      if s[i].when <= now {
        SwapRemovePrefix(s, i);
        ScanSorts(SwapRemove(s, i), i, now);
      } else {
        assert s[..i + 1] == s[..i] + [s[i]];
        ScanSorts(s, i + 1, now);
      }
    } else {
      assert s[..i] == s;
    }
  }

  // ---- both pools together ----

  function Pooled(r: Ring, q: Query): nat {
    Count(r.inflight, q) + Count(r.ready, q)
  }

  function VictimHit(r: Ring, target: nat, q: Query): nat {
    if Victim(r, target).Some? then Hit(Victim(r, target).value, q) else 0
  }

  lemma TakeOutPending(r: Ring, target: nat, q: Query)
    ensures Pooled(r, q) == Pooled(TakeOut(r, target), q) + VictimHit(r, target, q)
    ensures Victim(r, target).Some? ==> Victim(r, target).value.userData == target
  {
    var i, j := Position(r.inflight, target), Position(r.ready, target);
    if i < |r.inflight| {
      SwapRemoveCount(r.inflight, i, q);
    } else if j < |r.ready| {
      CountRemove(r.ready, j, q);
    }
  }

  /** A cancellation answers itself; its victim is still answered. */
  lemma CancelPending(r: Ring, e: Entry, target: nat, now: nat, q: Query)
    requires !q.Due?
    ensures Pooled(CancelOne(r, e.userData, e.id, target, now), q) == Pooled(r, q) + HitEntry(e, q)
  {
    TakeOutPending(r, target, q);
    var r1, r' := TakeOut(r, target), CancelOne(r, e.userData, e.id, target, now);
    if Victim(r, target).Some? {
      var n := |r1.inflight|;
      CountTwo(r1.inflight, r'.inflight[n], r'.inflight[n + 1], q);
    } else {
      CountSnoc(r1.inflight, r'.inflight[|r1.inflight|], q);
    }
  }

  /** One submission adds its own completion, and nothing else changes: counted
      by user data or by submission. */
  lemma AcceptCounts(r: Ring, e: Entry, now: nat, latency: nat, q: Query)
    requires !q.Due?
    ensures Pooled(Accept(r, e, now, latency), q) == Pooled(r, q) + HitEntry(e, q)
  {
    if !e.unsupported && e.work.Cancel? {
      CancelPending(r, e, e.work.target, now, q);
    } else {
      CountSnoc(r.inflight, Accept(r, e, now, latency).inflight[|r.inflight|], q);
    }
  }

  lemma CancelReady(r: Ring, cancel: nat, id: nat, target: nat, now: nat)
    ensures ReadyCount(CancelOne(r, cancel, id, target, now), now) >= ReadyCount(r, now)
  {
    var r1, r' := TakeOut(r, target), CancelOne(r, cancel, id, target, now);
    MaturedIsCount(r.inflight, now);
    MaturedIsCount(r'.inflight, now);
    var i := Position(r.inflight, target);
    if i < |r.inflight| {
      SwapRemoveCount(r.inflight, i, Due(now));
    }
    var n := |r1.inflight|;
    if Victim(r, target).Some? {
      CountTwo(r1.inflight, r'.inflight[n], r'.inflight[n + 1], Due(now));
    } else {
      CountSnoc(r1.inflight, r'.inflight[n], Due(now));
    }
  }

  /** Nothing that could be popped stops being so. */
  lemma AcceptReady(r: Ring, e: Entry, now: nat, latency: nat)
    ensures ReadyCount(Accept(r, e, now, latency), now) >= ReadyCount(r, now)
    ensures forall c :: c in Accept(r, e, now, latency).ready ==> c in r.ready
  {
    if !e.unsupported && e.work.Cancel? {
      CancelReady(r, e.userData, e.id, e.work.target, now);
    } else {
      var c := Accept(r, e, now, latency).inflight[|r.inflight|];
      MaturedIsCount(r.inflight, now);
      MaturedIsCount(r.inflight + [c], now);
      CountSnoc(r.inflight, c, Due(now));
    }
  }

  // ---- whole submissions ----

  lemma {:induction false} AcceptAllCounts(r: Ring, es: seq<Entry>, now: nat, latencies: seq<nat>, q: Query)
    requires !q.Due?
    ensures Pooled(AcceptAll(r, es, now, latencies), q) == Pooled(r, q) + CountEntries(es, q)
    ensures AcceptAll(r, es, now, latencies).sq == r.sq
  {
    if es != [] {
      AcceptAllCounts(r, es[..|es| - 1], now, latencies, q);
      AcceptCounts(AcceptAll(r, es[..|es| - 1], now, latencies), es[|es| - 1], now, LatencyOf(latencies, |es| - 1), q);
    }
  }

  lemma {:induction false} AcceptAllReady(r: Ring, es: seq<Entry>, now: nat, latencies: seq<nat>)
    ensures ReadyCount(AcceptAll(r, es, now, latencies), now) >= ReadyCount(r, now)
    ensures forall c :: c in AcceptAll(r, es, now, latencies).ready ==> c in r.ready
  {
    if es != [] {
      AcceptAllReady(r, es[..|es| - 1], now, latencies);
      AcceptReady(AcceptAll(r, es[..|es| - 1], now, latencies), es[|es| - 1], now, LatencyOf(latencies, |es| - 1));
    }
  }
}
