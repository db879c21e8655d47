/** The mutable ring of one io_uring instance, and its consumer's handle. */
module RingHost {
  import opened Common
  import opened RingSpec
  import opened RingCounting
  import opened RingSafety

  class RingState {
    const depth: nat
    var sq: seq<Entry>
    var inflight: seq<Cqe>
    var ready: seq<Cqe>

    function View(): Ring
      reads this
    {
      Ring(sq, inflight, ready)
    }

    constructor (depth: nat)
      ensures View() == Fresh(depth).ring && this.depth == depth
    {
      this.depth := depth;
      sq, inflight, ready := [], [], [];
    }

    /** Queue one entry, unless the queue is full. */
    method Push(e: Entry) returns (ok: bool)
      modifies `sq
      ensures ok <==> |old(sq)| < depth
      ensures sq == if ok then old(sq) + [e] else old(sq)
    {
      if |sq| >= depth {
        return false;
      }
      sq := sq + [e];
      return true;
    }

    method Schedule(userData: nat, id: nat, when: nat, apply: Apply)
      modifies `inflight
      ensures inflight == old(inflight) + [Cqe(when, userData, id, apply)]
    {
      inflight := inflight + [Cqe(when, userData, id, apply)];
    }

    method PostImmediateError(userData: nat, id: nat, errno: int, now: nat)
      modifies `inflight
      ensures inflight == old(inflight) + [Cqe(now, userData, id, Immediate(errno))]
    {
      inflight := inflight + [Cqe(now, userData, id, Immediate(errno))];
    }

    static method Find(s: seq<Cqe>, userData: nat) returns (i: nat)
      ensures i == Position(s, userData)
    {
      i := 0;
      while i < |s| && s[i].userData != userData
        invariant i <= |s| && forall j :: 0 <= j < i ==> s[j].userData != userData
      {
        i := i + 1;
      }
      PositionUnique(s, userData, i);
    }

    static lemma PositionUnique(s: seq<Cqe>, userData: nat, i: nat)
      requires i <= |s| && (i < |s| ==> s[i].userData == userData)
      requires forall j :: 0 <= j < i ==> s[j].userData != userData
      ensures Position(s, userData) == i
    {
    }

    /** Cancel by user data: in flight first, then matured. */
    method CancelByData(cancel: nat, id: nat, target: nat, now: nat)
      modifies `inflight, `ready
      ensures View() == CancelOne(old(View()), cancel, id, target, now)
    {
      var victim: Option<Cqe> := None;
      var i := Find(inflight, target);
      if i < |inflight| {
        victim := Some(inflight[i]);
        inflight := SwapRemove(inflight, i);
      } else {
        var j := Find(ready, target);
        if j < |ready| {
          victim := Some(ready[j]);
          ready := ready[..j] + ready[j + 1..];
        }
      }
      var result := -ENOENT;
      ghost var left := inflight;
      if victim.Some? {
        inflight := inflight + [Cqe(now, target, victim.value.id, Immediate(-ECANCELED))];
        result := 0;
      }
      inflight := inflight + [Cqe(now, cancel, id, Immediate(result))];
      assert victim.Some? ==>
        inflight == left + [Cqe(now, target, victim.value.id, Immediate(-ECANCELED)),
            Cqe(now, cancel, id, Immediate(0))];
    }

    /** The earliest time anything can be popped. */
    method NextDeadline() returns (r: Option<nat>)
      ensures r.None? <==> ready == [] && inflight == []
      ensures ready != [] ==> r == Some(0)
      ensures ready == [] && r.Some? ==>
                (exists c :: c in inflight && c.when == r.value) && (forall c :: c in inflight ==> r.value <= c.when)
    {
      if ready != [] {
        return Some(0);
      }
      if inflight == [] {
        return None;
      }
      var best, i := inflight[0].when, 1;
      while i < |inflight|
        invariant 1 <= i <= |inflight|
        invariant (exists j :: 0 <= j < i && inflight[j].when == best)
        invariant forall j :: 0 <= j < i ==> best <= inflight[j].when
      {
        if inflight[i].when < best {
          best := inflight[i].when;
        }
        i := i + 1;
      }
      return Some(best);
    }

    method ReadyCqCount(now: nat) returns (n: nat)
      ensures n == ReadyCount(View(), now)
    {
      n := |ready|;
      var i := 0;
      while i < |inflight|
        invariant i <= |inflight| && n == |ready| + Matured(inflight[..i], now)
      {
        assert inflight[..i + 1][..i] == inflight[..i];
        if inflight[i].when <= now {
          n := n + 1;
        }
        i := i + 1;
      }
      assert inflight[..i] == inflight;
    }

    /** Any order of the same completions. */
    static method Shuffle(s: seq<Cqe>) returns (r: seq<Cqe>)
      ensures multiset(r) == multiset(s)
    {
      var rest := s;
      r := [];
      while rest != []
        invariant multiset(r) + multiset(rest) == multiset(s)
        decreases |rest|
      {
        var i :| 0 <= i < |rest|;
        Without(rest, i);
        r := r + [rest[i]];
        rest := rest[..i] + rest[i + 1..];
      }
    }

    /** Move what matured to the ready queue, shuffled. */
    method PromoteMatured(now: nat) returns (ghost order: seq<Cqe>)
      modifies `inflight, `ready
      ensures Shuffles(old(View()), now, order) && View() == Promote(old(View()), now, order)
    {
      var matured, i := [], 0;
      while i < |inflight|
        invariant i <= |inflight| && ready == old(ready)
        invariant Scan(inflight, i, now).0 == Scan(old(inflight), 0, now).0
        invariant matured + Scan(inflight, i, now).1 == Scan(old(inflight), 0, now).1
        decreases |inflight| - i
      {
        if inflight[i].when <= now {
          ghost var rest := Scan(SwapRemove(inflight, i), i, now).1;
          assert matured + ([inflight[i]] + rest) == matured + [inflight[i]] + rest;
          matured := matured + [inflight[i]];
          inflight := SwapRemove(inflight, i);
        } else {
          i := i + 1;
        }
      }
      var shuffled := Shuffle(matured);
      order := shuffled;
      ready := ready + shuffled;
    }

    method PopReady(now: nat) returns (c: Option<Cqe>, ghost order: seq<Cqe>)
      modifies `inflight, `ready
      ensures Shuffles(old(View()), now, order) && (View(), c) == Pop(old(View()), now, order)
    {
      order := PromoteMatured(now);
      if ready == [] {
        return None, order;
      }
      c := Some(ready[0]);
      ready := ready[1..];
    }

    method AcceptEntry(e: Entry, now: nat, latency: nat)
      modifies `inflight, `ready
      ensures View() == Accept(old(View()), e, now, latency)
    {
      if e.unsupported {
        PostImmediateError(e.userData, e.id, -EINVAL, now);
      } else {
        match e.work
        case Io => Schedule(e.userData, e.id, now + latency, Execute);
        case Cancel(target) => CancelByData(e.userData, e.id, target, now);
      }
    }

    /** Drain the submission queue; each entry gets exactly one completion. */
    method SchedulePending(now: nat, latencies: seq<nat>) returns (accepted: nat)
      modifies `sq, `inflight, `ready
      ensures View() == Submit(old(View()), now, latencies) && accepted == |old(sq)|
    {
      var entries := sq;
      sq := [];
      accepted := 0;
      ghost var start := View();
      while accepted < |entries|
        invariant accepted <= |entries|
        invariant View() == AcceptAll(start, entries[..accepted], now, latencies)
      {
        assert entries[..accepted + 1][..accepted] == entries[..accepted];
        AcceptEntry(entries[accepted], now, LatencyOf(latencies, accepted));
        accepted := accepted + 1;
      }
      assert entries[..accepted] == entries;
    }
  }

  class CompletionQueue {
    const ring: RingState
    var visible: Option<nat>

    constructor (ring: RingState)
      ensures visible == None && this.ring == ring
    {
      this.ring := ring;
      visible := None;
    }

    method Sync(now: nat)
      modifies `visible
      ensures visible == Some(ReadyCount(ring.View(), now))
    {
      var n := ring.ReadyCqCount(now);
      visible := Some(n);
    }

    function Len(): nat
      reads this
    {
      if visible.Some? then visible.value else 0
    }

    /** Yield one completion of those the last `Sync` exposed. It comes up
        short only if another consumer emptied the ring meanwhile. */
    method Next(now: nat) returns (c: Option<Cqe>)
      modifies `visible, ring`inflight, ring`ready
      ensures old(Len()) == 0 ==> c.None? && ring.View() == old(ring.View())
      ensures old(Len()) > 0 ==> (c.None? <==> old(ReadyCount(ring.View(), now)) == 0)
      ensures Len() == old(Len()) - if c.Some? then 1 else 0
      ensures old(Len()) <= old(ReadyCount(ring.View(), now)) ==> Len() <= ReadyCount(ring.View(), now)
      ensures c.Some? && (forall x :: x in old(ring.ready) ==> x.when <= now) ==>
                c.value.when <= now && forall x :: x in ring.ready ==> x.when <= now
    {
      if visible.None? || visible.value == 0 {
        return None;
      }
      ghost var r := ring.View();
      ghost var order;
      c, order := ring.PopReady(now);
      PromoteReady(r, now, order);
      if c.None? {
        return;
      }
      assert Promote(r, now, order).ready[0] in Promote(r, now, order).ready;
      assert forall x :: x in ring.ready ==> x in Promote(r, now, order).ready;
      visible := Some(visible.value - 1);
    }
  }
}
