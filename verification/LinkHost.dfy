/** The mutable link. */
module LinkHost {
  import opened LinkSpec

  class NetLink {
    var stateAB: State
    var stateBA: State
    var sent: seq<Sent>
    var deliverable: map<Host, seq<Msg>>
    var now: nat

    function View(): Link
      reads this
    {
      Link(stateAB, stateBA, sent, deliverable, now)
    }

    constructor ()
      ensures View() == QUIET.link
    {
      stateAB, stateBA, sent, deliverable, now := Healthy, Healthy, [], map[], 0;
    }

    static lemma ScanNext(all: seq<Sent>, i: nat, now: nat, m: map<Host, seq<Msg>>)
      requires i < |all|
      ensures Unripe(all[..i + 1], now) == Unripe(all[..i], now) + if Due(all[i], now) then [] else [all[i]]
      ensures PutAll(m, Ripe(all[..i + 1], now))
           == if Due(all[i], now) then Put(PutAll(m, Ripe(all[..i], now)), all[i].msg)
               else PutAll(m, Ripe(all[..i], now))
    {
      assert all[..i + 1][..i] == all[..i];
      var ripe := Ripe(all[..i], now);
      if Due(all[i], now) {
        assert Ripe(all[..i + 1], now) == ripe + [all[i].msg];
        assert (ripe + [all[i].msg])[..|ripe|] == ripe;
      } else {
        assert Ripe(all[..i + 1], now) == ripe;
      }
    }

    static lemma CloseRanks(kept: seq<Sent>, all: seq<Sent>, i: nat)
      requires i < |all|
      ensures var s := kept + all[i..];
              && s[|kept|] == all[i]
              && s[..|kept|] + s[|kept| + 1..] == kept + all[i + 1..]
              && s == (kept + [all[i]]) + all[i + 1..]
    {
    }

    /** Look at one message: if due, it leaves for its destination's queue. */
    method ScanOne(index: nat) returns (leaves: bool)
      requires index < |sent|
      modifies `sent, `deliverable
      ensures leaves <==> Due(old(sent)[index], now)
      ensures sent == if leaves then old(sent)[..index] + old(sent)[index + 1..] else old(sent)
      ensures deliverable == if leaves then Put(old(deliverable), old(sent)[index].msg) else old(deliverable)
    {
      if sent[index].status.DeliverAfter? && sent[index].status.time <= now {
        var msg := sent[index].msg;
        sent := sent[..index] + sent[index + 1..];
        deliverable := deliverable[msg.dst := (if msg.dst in deliverable then deliverable[msg.dst] else []) + [msg]];
        return true;
      }
      return false;
    }

    /** The first `i` messages of `all` have been looked at, `count` have left. */
    static ghost predicate Scanned(l: Link, all: seq<Sent>, m: map<Host, seq<Msg>>, i: nat, count: nat) {
      && i <= |all|
      && count + |Unripe(all[..i], l.now)| == i
      && l.sent == Unripe(all[..i], l.now) + all[i..]
      && l.deliverable == PutAll(m, Ripe(all[..i], l.now))
    }

    static lemma ScannedNext(l: Link, l': Link, all: seq<Sent>, m: map<Host, seq<Msg>>, i: nat, count: nat)
      requires i < |all| && Scanned(l, all, m, i, count) && l'.now == l.now
      requires l'.sent == if Due(all[i], l.now) then l.sent[..i - count] + l.sent[i - count + 1..] else l.sent
      requires l'.deliverable == if Due(all[i], l.now) then Put(l.deliverable, all[i].msg) else l.deliverable
      ensures Scanned(l', all, m, i + 1, if Due(all[i], l.now) then count + 1 else count)
    {
      ScanNext(all, i, l.now, m);
      CloseRanks(Unripe(all[..i], l.now), all, i);
    }

    static lemma ScannedEnds(l: Link, all: seq<Sent>, m: map<Host, seq<Msg>>, count: nat)
      ensures Scanned(l.(sent := all, deliverable := m), all, m, 0, 0)
      ensures Scanned(l, all, m, |all|, count) ==>
                l.sent == Unripe(all, l.now) && l.deliverable == PutAll(m, Ripe(all, l.now))
    {
      assert all[..0] == [] && all[0..] == all && all[..|all|] == all && all[|all|..] == [];
    }

    method ScanNextOf(i: nat, count: nat, ghost all: seq<Sent>, ghost m: map<Host, seq<Msg>>) returns (count': nat)
      requires i < |all| && Scanned(View(), all, m, i, count)
      modifies `sent, `deliverable
      ensures Scanned(View(), all, m, i + 1, count')
    {
      ghost var l := View();
      CloseRanks(Unripe(all[..i], now), all, i);
      var leaves := ScanOne(i - count);
      ScannedNext(l, View(), all, m, i, count);
      count' := if leaves then count + 1 else count;
    }

    /** Remove while scanning: due messages leave, the others close ranks. */
    method ProcessDeliverables()
      modifies `sent, `deliverable
      ensures View() == Settle(old(View()))
    {
      ghost var l, all, m := View(), sent, deliverable;
      ScannedEnds(l, all, m, 0);
      var count, i, n := 0, 0, |sent|;
      while i < n
        invariant i <= n && Scanned(View(), all, m, i, count)
      {
        count := ScanNextOf(i, count, all, m);
        i := i + 1;
      }
      ScannedEnds(View(), all, m, count);
    }

    method SetTime(time: nat)
      modifies `now, `sent, `deliverable
      ensures View() == Settle(old(View()).(now := time))
    {
      now := time;
      ProcessDeliverables();
    }

    method Shake(breaks: bool, mends: bool)
      modifies `stateAB, `stateBA, `sent
      ensures View() == RandPartitionOrRepair(old(View()), breaks, mends)
    {
      if (stateAB.Healthy? || stateBA.Healthy?) && breaks {
        stateAB, stateBA, sent := RandPartition, RandPartition, [];
      } else if (stateAB.RandPartition? || stateBA.RandPartition?) && mends {
        ReleaseHeld();
      }
    }

    method EnqueueOne(msg: Msg, delay: nat)
      modifies `sent
      ensures View() == Enqueue(old(View()), msg, delay)
    {
      var state := if msg.src < msg.dst then stateAB else stateBA;
      match state {
        case Healthy => sent := sent + [Sent(msg, DeliverAfter(now + delay))];
        case Hold => sent := sent + [Sent(msg, Held)];
        case ExplicitPartition =>
        case RandPartition =>
      }
    }

    /** Random breakage or repair, then the message, then whatever is due. */
    method Send(msg: Msg, delay: nat, breaks: bool, mends: bool)
      modifies `stateAB, `stateBA, `sent, `deliverable
      ensures View() == EnqueueMessage(old(View()), msg, delay, breaks, mends)
    {
      Shake(breaks, mends);
      EnqueueOne(msg, delay);
      ProcessDeliverables();
    }

    method HoldMessages()
      modifies `stateAB, `stateBA, `sent
      ensures View() == old(View()).(ab := Hold, ba := Hold, sent := HoldAll(old(sent)))
    {
      stateAB, stateBA := Hold, Hold;
      var i := 0;
      while i < |sent|
        modifies `sent
        invariant i <= |sent| == |old(sent)|
        invariant forall j :: 0 <= j < i ==> sent[j] == old(sent)[j].(status := Held)
        invariant forall j :: i <= j < |sent| ==> sent[j] == old(sent)[j]
      {
        sent := sent[i := sent[i].(status := Held)];
        i := i + 1;
      }
      assert sent == HoldAll(old(sent));
    }

    method ReleaseHeld()
      modifies `stateAB, `stateBA, `sent
      ensures View() == Release(old(View()))
    {
      stateAB, stateBA := Healthy, Healthy;
      var i := 0;
      while i < |sent|
        modifies `sent
        invariant i <= |sent| == |old(sent)|
        invariant forall j :: 0 <= j < i ==> sent[j] == ReleaseAll(old(sent), now)[j]
        invariant forall j :: i <= j < |sent| ==> sent[j] == old(sent)[j]
      {
        if sent[i].status.Held? {
          sent := sent[i := sent[i].(status := DeliverAfter(now))];
        }
        i := i + 1;
      }
      assert sent == ReleaseAll(old(sent), now);
    }

    method PartitionBoth()
      modifies `stateAB, `stateBA, `sent
      ensures View() == old(View()).(ab := ExplicitPartition, ba := ExplicitPartition, sent := [])
    {
      stateAB, stateBA, sent := ExplicitPartition, ExplicitPartition, [];
    }

    method PartitionFrom(from: Host, to: Host)
      modifies `stateAB, `stateBA, `sent
      ensures sent == Spared(old(sent), from)
      ensures if from < to then stateAB == ExplicitPartition && stateBA == old(stateBA)
              else stateBA == ExplicitPartition && stateAB == old(stateAB)
    {
      if from < to {
        stateAB := ExplicitPartition;
      } else {
        stateBA := ExplicitPartition;
      }
      var kept, i := [], 0;
      while i < |sent|
        invariant i <= |sent| && kept == Spared(sent[..i], from)
      {
        assert sent[..i + 1][..i] == sent[..i];
        if sent[i].msg.src != from {
          kept := kept + [sent[i]];
        }
        i := i + 1;
      }
      assert sent[..i] == sent;
      sent := kept;
    }

    /** Empty one host's queue; what was in it is handed over, in order. */
    method TakeDeliverable(host: Host) returns (messages: seq<Msg>)
      modifies `deliverable
      ensures messages == old(At(deliverable, host))
      ensures deliverable == old(deliverable)[host := []]
    {
      messages := if host in deliverable then deliverable[host] else [];
      deliverable := deliverable[host := []];
    }
  }
}
