/** The simulated io_uring ring: submission queue, in-flight pool and ready
    queue, cancellation, and the visibility counter of its consumer. */
module RingSpec {
  import opened Common

  /** A completion either runs the operation of its submission, or just reports
      a result. */
  datatype Apply = Execute | Immediate(result: int)

  /** `id` is history: the place, among all submissions, of the one that the
      completion answers. */
  datatype Cqe = Cqe(when: nat, userData: nat, id: nat, apply: Apply)

  datatype Work = Io | Cancel(target: nat)

  datatype Entry = Entry(userData: nat, work: Work, unsupported: bool, id: nat)

  datatype Ring = Ring(sq: seq<Entry>, inflight: seq<Cqe>, ready: seq<Cqe>)

  const EINVAL := 22
  const ECANCELED := 125
  const ENOENT := 2

  /** `Vec::swap_remove`. */
  function SwapRemove(s: seq<Cqe>, i: nat): (r: seq<Cqe>)
    requires i < |s|
    ensures |r| == |s| - 1
  {
    if i == |s| - 1 then s[..i] else s[..i] + [s[|s| - 1]] + s[i + 1..|s| - 1]
  }

  function Position(s: seq<Cqe>, userData: nat): (i: nat)
    ensures i <= |s|
    ensures i < |s| ==> s[i].userData == userData
    ensures forall j :: 0 <= j < i ==> s[j].userData != userData
  {
    if s == [] then 0
    else if s[0].userData == userData then 0
    else 1 + Position(s[1..], userData)
  }

  /** The operation a cancellation takes out, if any. */
  function Victim(r: Ring, target: nat): Option<Cqe> {
    if Position(r.inflight, target) < |r.inflight| then Some(r.inflight[Position(r.inflight, target)])
    else if Position(r.ready, target) < |r.ready| then Some(r.ready[Position(r.ready, target)])
    else None
  }

  /** Take the target out of whichever pool has it. */
  function TakeOut(r: Ring, target: nat): Ring {
    var i, j := Position(r.inflight, target), Position(r.ready, target);
    if i < |r.inflight| then r.(inflight := SwapRemove(r.inflight, i))
    else if j < |r.ready| then r.(ready := r.ready[..j] + r.ready[j + 1..])
    else r
  }

  /** Two completions for a hit, one for a miss. */
  function CancelOne(r: Ring, cancel: nat, id: nat, target: nat, now: nat): Ring {
    var r1, v := TakeOut(r, target), Victim(r, target);
    if v.Some? then
      r1.(inflight := r1.inflight + [Cqe(now, target, v.value.id, Immediate(-ECANCELED)),
                                     Cqe(now, cancel, id, Immediate(0))])
    else
      r1.(inflight := r1.inflight + [Cqe(now, cancel, id, Immediate(-ENOENT))])
  }

  /** One submission: exactly one completion is scheduled for it. */
  function Accept(r: Ring, e: Entry, now: nat, latency: nat): Ring {
    if e.unsupported then r.(inflight := r.inflight + [Cqe(now, e.userData, e.id, Immediate(-EINVAL))])
    else match e.work
      case Io => r.(inflight := r.inflight + [Cqe(now + latency, e.userData, e.id, Execute)])
      case Cancel(target) => CancelOne(r, e.userData, e.id, target, now)
  }

  /** All of the submission queue, oldest first. */
  function AcceptAll(r: Ring, es: seq<Entry>, now: nat, latencies: seq<nat>): Ring {
    if es == [] then r
    else
      Accept(AcceptAll(r, es[..|es| - 1], now, latencies), es[|es| - 1], now, LatencyOf(latencies, |es| - 1))
  }

  function LatencyOf(latencies: seq<nat>, i: nat): nat {
    if i < |latencies| then latencies[i] else 0
  }

  function Submit(r: Ring, now: nat, latencies: seq<nat>): Ring {
    AcceptAll(r.(sq := []), r.sq, now, latencies)
  }

  /** The in-place scan: what stays in flight, and what matured. */
  function Scan(s: seq<Cqe>, i: nat, now: nat): (r: (seq<Cqe>, seq<Cqe>))
    requires i <= |s|
    decreases |s| - i
  {
    if i == |s| then (s, [])
    else if s[i].when <= now then
      var (stay, matured) := Scan(SwapRemove(s, i), i, now);
      (stay, [s[i]] + matured)
    else Scan(s, i + 1, now)
  }

  /** `order` is how the matured completions were shuffled. */
  predicate Shuffles(r: Ring, now: nat, order: seq<Cqe>) {
    multiset(order) == multiset(Scan(r.inflight, 0, now).1)
  }

  function Promote(r: Ring, now: nat, order: seq<Cqe>): Ring {
    r.(inflight := Scan(r.inflight, 0, now).0, ready := r.ready + order)
  }

  function Pop(r: Ring, now: nat, order: seq<Cqe>): (Ring, Option<Cqe>) {
    var r1 := Promote(r, now, order);
    if r1.ready == [] then (r1, None) else (r1.(ready := r1.ready[1..]), Some(r1.ready[0]))
  }

  function Matured(s: seq<Cqe>, now: nat): nat {
    if s == [] then 0 else Matured(s[..|s| - 1], now) + (if s[|s| - 1].when <= now then 1 else 0)
  }

  function ReadyCount(r: Ring, now: nat): nat {
    |r.ready| + Matured(r.inflight, now)
  }

  // ---- what each submission comes to ----

  /** What a submission comes to, as known when it was accepted: it runs at some
      time, is stopped by a cancellation, is a cancellation that found its
      target or missed it, or was rejected. */
  datatype Fate = Runs(at: nat) | Stopped | Found | Missed | Rejected

  /** Something with that user data is in flight or ready. */
  predicate Holds(r: Ring, userData: nat) {
    || (exists c :: c in r.inflight && c.userData == userData)
    || (exists c :: c in r.ready && c.userData == userData)
  }

  function FateOf(r: Ring, e: Entry, now: nat, latency: nat): Fate {
    if e.unsupported then Rejected
    else match e.work
      case Io => Runs(now + latency)
      case Cancel(target) => if Holds(r, target) then Found else Missed
  }

  /** Accepting an entry settles its own fate, and its victim's. */
  function Settle(fates: map<nat, Fate>, r: Ring, e: Entry, now: nat, latency: nat): map<nat, Fate> {
    var known := fates[e.id := FateOf(r, e, now, latency)];
    if !e.unsupported && e.work.Cancel? && Victim(r, e.work.target).Some?
    then known[Victim(r, e.work.target).value.id := Stopped]
    else known
  }

  function SettleAll(fates: map<nat, Fate>, r: Ring, es: seq<Entry>, now: nat, latencies: seq<nat>): map<nat, Fate> {
    if es == [] then fates
    else
      var before := es[..|es| - 1];
      Settle(SettleAll(fates, r, before, now, latencies), AcceptAll(r, before, now, latencies), es[|es| - 1], now,
             LatencyOf(latencies, |es| - 1))
  }

  /** The completion that a submission of that fate gets; the results are the
      negated error numbers of Linux. */
  predicate Befits(c: Cqe, f: Fate) {
    match f
    case Runs(at) => c.apply == Execute && c.when == at
    case Stopped => c.apply == Immediate(-125)
    case Found => c.apply == Immediate(0)
    case Missed => c.apply == Immediate(-2)
    case Rejected => c.apply == Immediate(-22)
  }

  // ---- runs with one consumer ----

  /** The ring, its clock and consumer, and the history: the user data of every
      submission, the fate of every accepted submission, and the completions drained, each with
      its time. */
  datatype World = World(
    depth: nat,
    ring: Ring,
    now: nat,
    visible: nat,
    pushed: seq<nat>,
    fates: map<nat, Fate>,
    drained: seq<Cqe>,
    times: seq<nat>)

  datatype Op =
    | Push(userData: nat, work: Work, unsupported: bool)
    | SubmitAll(latencies: seq<nat>)
    | Tick(elapsed: nat)
    | Sync
    | Next(order: seq<Cqe>)

  function Fresh(depth: nat): World {
    World(depth, Ring([], [], []), 0, 0, [], map[], [], [])
  }

  function Step(w: World, op: Op): World {
    match op
    case Push(u, work, bad) =>
      if |w.ring.sq| >= w.depth then w
      else w.(ring := w.ring.(sq := w.ring.sq + [Entry(u, work, bad, |w.pushed|)]), pushed := w.pushed + [u])
    case SubmitAll(latencies) =>
      w.(ring := Submit(w.ring, w.now, latencies),
         fates := SettleAll(w.fates, w.ring.(sq := []), w.ring.sq, w.now, latencies))
    case Tick(elapsed) => w.(now := w.now + elapsed)
    case Sync => w.(visible := ReadyCount(w.ring, w.now))
    case Next(order) =>
      if w.visible == 0 || !Shuffles(w.ring, w.now, order) then w
      else
        var (r, c) := Pop(w.ring, w.now, order);
        if c.None? then w.(ring := r)
        else w.(ring := r, visible := w.visible - 1, drained := w.drained + [c.value], times := w.times + [w.now])
  }

  function Run(depth: nat, ops: seq<Op>): World {
    if ops == [] then Fresh(depth) else Step(Run(depth, ops[..|ops| - 1]), ops[|ops| - 1])
  }
}
