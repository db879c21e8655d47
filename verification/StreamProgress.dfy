/** What writes and reads of a stream direction return, in full. */
module StreamProgress {
  import opened Common
  import opened TcbSpec
  import opened StreamSpec
  import opened StreamSafety
  import opened StreamRuns

  // ---- writes ----

  /** What a write says it took. */
  function Took(data: Bytes, r: WriteResult): Bytes {
    if r.Wrote? && r.n <= |data| then data[..r.n] else []
  }

  /** All that the writes of a run said they took, in order. */
  function Taken(cap: nat, ops: seq<Op>): Bytes {
    if ops == [] then []
    else
      var before, op := ops[..|ops| - 1], ops[|ops| - 1];
      Taken(cap, before)
      + if op.Write? then Took(op.data, TryWrite(Run(cap, before), op.data, op.handed).1) else []
  }

  lemma NothingMore(b: Bytes)
    ensures b + [] == b
  {
  }

  lemma {:induction false} FailedLater(sent: seq<Seg>, failed: set<nat>, q: nat)
    requires q > |sent|
    ensures Accepted(sent, failed + {q}) == Accepted(sent, failed)
  {
    if sent != [] {
      FailedLater(sent[..|sent| - 1], failed, q);
    }
  }

  lemma AcceptedSnoc(sent: seq<Seg>, seg: Seg, failed: set<nat>)
    ensures Accepted(sent + [seg], failed)
         == Accepted(sent, failed) + if seg.Data? && |sent| + 1 !in failed then [seg.bytes] else []
  {
    assert (sent + [seg])[..|sent + [seg]| - 1] == sent;
  }

  /** The next number has not failed. */
  predicate NextUnused(s: Stream) {
    s.nextSeq == |s.sent| + 1 && s.nextSeq !in s.failed
  }

  /** Posting a segment accepts its data exactly if the network takes it. */
  lemma {:induction false} PostAccepts(s: Stream, seg: Seg, handed: bool)
    requires NextUnused(s)
    ensures var s' := Post(s, seg, handed);
            Flatten(Accepted(s'.sent, s'.failed))
            == Flatten(Accepted(s.sent, s.failed)) + if seg.Data? && handed then seg.bytes else []
  {
    var s', accepted := Post(s, seg, handed), Accepted(s.sent, s.failed);
    AcceptedSnoc(s.sent, seg, s'.failed);
    NothingMore(Flatten(accepted));
    if !handed {
      FailedLater(s.sent, s.failed, s.nextSeq);
    }
    if seg.Data? && handed {
      FlattenSnoc(accepted, seg.bytes);
    } else {
      assert accepted + [] == accepted;
    }
  }

  /** One step: writes add what they say they took, and nothing else does. */
  lemma {:induction false} StepAccepts(s: Stream, cap: nat, op: Op)
    requires StreamOk(s, cap)
    ensures var s' := Step(s, cap, op);
            Flatten(Accepted(s'.sent, s'.failed))
            == Flatten(Accepted(s.sent, s.failed))
               + if op.Write? then Took(op.data, TryWrite(s, op.data, op.handed).1) else []
  {
    NothingMore(Flatten(Accepted(s.sent, s.failed)));
    assert NextUnused(s);
    match op
    case Write(data, handed) => WriteStepAccepts(s, data, handed);
    case Close(handed) =>
      if !s.shutdown && !s.senderGone {
        PostAccepts(s, Fin, handed);
      }
    case ReadInto(room) => ReadLeavesRest(s, room, []);
    case _ =>
  }

  lemma {:induction false} WriteStepAccepts(s: Stream, data: Bytes, handed: bool)
    requires NextUnused(s)
    ensures var (s', r) := TryWrite(s, data, handed);
            Flatten(Accepted(s'.sent, s'.failed)) == Flatten(Accepted(s.sent, s.failed)) + Took(data, r)
  {
    NothingMore(Flatten(Accepted(s.sent, s.failed)));
    if !s.shutdown && data != [] && !s.senderGone && s.credits > 0 {
      PostAccepts(s.(credits := s.credits - 1), Data(data), handed);
      assert data[..|data|] == data;
    }
  }

  lemma {:induction false} ReadLeavesRest(s: Stream, room: seq<nat>, got: Bytes)
    ensures var s' := ReadLoop(s, room, got).0;
            && s'.sent == s.sent && s'.failed == s.failed && s'.lost == s.lost
            && s'.inbox.dropped == s.inbox.dropped && s'.receiverGone == s.receiverGone
    decreases 2 * |s.inbox.channel| + (if s.held.Some? then 1 else 0)
  {
    if !s.eof && (s.held.Some? || s.inbox.channel != []) {
      var s1 := if s.held.None? then Take(s) else s;
      var (k, left) := Spread(s1.held.value, room);
      if left != [] {
        ReadLeavesRest(AfterSpread(s1, k), left, got + s1.held.value[..k]);
      }
    }
  }

  /** In every run, the counts that writes return say exactly which bytes were
      accepted: these, in order, are what reads can return. */
  lemma {:induction false} WritesAreAccepted(cap: nat, ops: seq<Op>)
    ensures var s := Run(cap, ops); Taken(cap, ops) == Flatten(Accepted(s.sent, s.failed))
  {
    if ops != [] {
      var before := ops[..|ops| - 1];
      WritesAreAccepted(cap, before);
      RunKeeps(cap, before);
      StepAccepts(Run(cap, before), cap, ops[|ops| - 1]);
    }
  }

  /** In every run, a write is told to wait exactly while as many data segments
      as the capacity are on their way, in a buffer, unread or lost. */
  lemma BlockedIff(cap: nat, ops: seq<Op>, data: Bytes, handed: bool)
    requires var s := Run(cap, ops); !s.shutdown && !s.senderGone && data != []
    ensures var s := Run(cap, ops);
            TryWrite(s, data, handed).1 == Blocked <==>
              |DataIn(s.network)| + |DataIn(s.inbox.buf)| + |s.inbox.channel| + |DataIn(s.lost)| == cap
  {
    RunKeeps(cap, ops);
  }

  // ---- reads ----

  /** What can be read at once. */
  function Readable(s: Stream): Bytes {
    InHand(s) + Flatten(s.inbox.channel)
  }

  lemma {:induction false} SpreadLeaves(bytes: Bytes, room: seq<nat>)
    ensures Spread(bytes, room).0 + Total(Spread(bytes, room).1) == Total(room)
    decreases |room|
  {
    if room != [] && room[0] < |bytes| {
      SpreadLeaves(bytes[room[0]..], room[1..]);
    } else if room != [] {
      var rest := room[1..];
      assert ([room[0] - |bytes|] + rest)[1..] == rest;
    }
  }

  predicate AtHand(s: Stream) {
    s.held.Some? || s.inbox.channel != []
  }

  /** No empty segment is at hand. */
  predicate Solid(s: Stream) {
    s.held != Some([]) && forall i :: 0 <= i < |s.inbox.channel| ==> s.inbox.channel[i] != []
  }

  lemma FirstIsReadable(s: Stream)
    requires AtHand(s) && Solid(s)
    ensures var s1 := InHandFirst(s);
            && s1.held.Some? && s1.held.value != [] && Solid(s1)
            && Readable(s) == Readable(s1) == s1.held.value + Flatten(s1.inbox.channel)
  {
    if s.held.None? {
      assert [] + Flatten(s.inbox.channel) == Flatten(s.inbox.channel);
    }
  }

  lemma SpreadReadable(s: Stream, k: nat)
    requires s.held.Some? && k <= |s.held.value| && Solid(s)
    ensures var s2 := AfterSpread(s, k);
            && Solid(s2) && s.held.value[..k] == Readable(s)[..k] && Readable(s2) == Readable(s)[k..]
  {
    var held, rest := s.held.value, Flatten(s.inbox.channel);
    assert (held + rest)[..k] == held[..k];
    assert (held + rest)[k..] == held[k..] + rest;
  }

  lemma Slices(got: Bytes, all: Bytes, k: nat, m: nat)
    requires k + m <= |all|
    ensures (got + all[..k]) + all[k..][..m] == got + all[..k + m]
  {
    assert all[..k] + all[k..][..m] == all[..k + m];
  }

  /** One pass takes the first bytes; it stops the loop only with no room left. */
  lemma OnePassExact(s: Stream, room: seq<nat>)
    requires AtHand(s) && Solid(s)
    ensures var (s2, more) := OnePass(s, room);
            var left := Spread(InHandFirst(s).held.value, room).1;
            && Solid(s2) && s2.eof == s.eof && |more| <= |Readable(s)| && |more| + Total(left) == Total(room)
            && more == Readable(s)[..|more|] && Readable(s2) == Readable(s)[|more|..]
            && (left != [] ==> more != [])
  {
    FirstIsReadable(s);
    var s1 := InHandFirst(s);
    SpreadLeaves(s1.held.value, room);
    SpreadReadable(s1, Spread(s1.held.value, room).0);
  }

  lemma {:induction false} ReadLoopExact(s: Stream, room: seq<nat>, got: Bytes)
    requires !s.eof && AtHand(s) && Solid(s)
    ensures ReadLoop(s, room, got).1 == Got(got + Readable(s)[..Min(Total(room), |Readable(s)|)])
    decreases 2 * |s.inbox.channel| + (if s.held.Some? then 1 else 0)
  {
    OnePassExact(s, room);
    ReadLoopUnfolds(s, room, got);
    var (s2, more) := OnePass(s, room);
    var left := Spread(InHandFirst(s).held.value, room).1;
    if left != [] {
      if AtHand(s2) {
        ReadLoopExact(s2, left, got + more);
        Slices(got, Readable(s), |more|, Min(Total(left), |Readable(s2)|));
      } else {
        assert |Readable(s2)| == 0;
      }
    }
  }

  /** A vectored read of a stream with bytes at hand returns exactly the first of
      them, as many as there is room for. */
  lemma ReadExact(s: Stream, cap: nat, room: seq<nat>)
    requires StreamOk(s, cap) && AtHand(s)
    ensures TryRead(s, room).1 == Got(Readable(s)[..Min(Total(room), |Readable(s)|)])
  {
    ReadLoopExact(s, room, []);
    NothingBefore(Readable(s)[..Min(Total(room), |Readable(s)|)]);
  }

  lemma NothingBefore(b: Bytes)
    ensures [] + b == b
  {
  }

  /** `poll_read` returns the first of them too, from one segment. */
  lemma PollExact(s: Stream, cap: nat, size: nat, filled: nat)
    requires StreamOk(s, cap) && AtHand(s) && filled < size
    ensures var n := Min(if s.held.Some? then |s.held.value| else |s.inbox.channel[0]|, size - filled);
            && 0 < n <= |Readable(s)|
            && PollRead(s, size, filled).1 == Got(Readable(s)[..n])
  {
    FirstIsReadable(s);
    var s1 := InHandFirst(s);
    SpreadReadable(s1, Min(|s1.held.value|, size - filled));
  }

  // ---- nothing is stuck ----

  /** With nothing travelling and nothing lost, all that was accepted is read or
      readable. */
  lemma {:induction false} AllIsReadable(cap: nat, ops: seq<Op>)
    requires Run(cap, ops).network == map[] && Run(cap, ops).lost == map[]
    ensures var s := Run(cap, ops);
            && s.read + Readable(s) == Taken(cap, ops) && s.inbox.buf == map[]
            && (s.inbox.open <==> !s.shutdown)
  {
    RunKeeps(cap, ops);
    WritesAreAccepted(cap, ops);
    var s := Run(cap, ops);
    var n := s.inbox.recvSeq;
    assert !Found(s, n + 1);
    assert s.sent[..n] == s.sent;
    assert forall q :: q in s.failed ==> q in s.lost;
    assert s.failed == {};
    assert forall q :: q in s.inbox.buf ==> n < q <= |s.sent|;
    assert s.inbox.buf == map[];
    Regroup(s.read, InHand(s), Flatten(s.inbox.channel));
  }

  /** Then, unless either host is gone, a read with room enough returns the rest
      of what the writes took; and with no rest, end of file exactly if the
      writing side was shut down. */
  lemma {:induction false} ReadsToTheEnd(cap: nat, ops: seq<Op>, room: seq<nat>)
    requires Run(cap, ops).network == map[] && Run(cap, ops).lost == map[] && !Run(cap, ops).receiverGone
    ensures var s := Run(cap, ops);
            && |s.read| <= |Taken(cap, ops)|
            && var rest := Taken(cap, ops)[|s.read|..];
            && (rest != [] && Total(room) >= |rest| ==> TryRead(s, room).1 == Got(rest))
            && (rest == [] && Total(room) > 0 ==>
                  TryRead(s, room).1 == if s.shutdown then Got([]) else NotYet)
  {
    AllIsReadable(cap, ops);
    RunKeeps(cap, ops);
    var s := Run(cap, ops);
    var rest := Taken(cap, ops)[|s.read|..];
    assert rest == Readable(s);
    if AtHand(s) {
      FirstIsReadable(s);
      ReadExact(s, cap, room);
      assert rest[..|rest|] == rest;
    } else {
      assert rest == [];
    }
  }

  /** Nothing is lost but by the network, a host or the reader going away. */
  predicate Reliable(op: Op) {
    match op
    case Write(_, handed) => handed
    case Close(handed) => handed
    case Vanish(_) => false
    case DropReader => false
    case LoseReceiver => false
    case _ => true
  }

  lemma {:induction false} RefusedOnlyIf(x: Inbox, cap: nat)
    ensures var (x', refused) := Drain(x, cap);
            && x'.dropped == x.dropped
            && (refused.Some? ==> x.dropped || !x'.open)
    decreases |x.buf|
  {
    var next := x.recvSeq + 1;
    if next in x.buf && x.open && !x.dropped {
      var rest := x.(buf := x.buf - {next});
      match x.buf[next]
      case Fin => RefusedOnlyIf(rest.(open := false, recvSeq := next), cap);
      case Data(bytes) =>
        if |x.channel| < cap {
          RefusedOnlyIf(rest.(channel := x.channel + [bytes], recvSeq := next), cap);
        }
    }
  }

  lemma NothingAfterFin(s: Stream, cap: nat)
    requires StreamOk(s, cap) && s.failed == {} && !s.inbox.open
    ensures s.inbox.recvSeq + 1 !in s.lost
  {
    assert FinTaken(s);
  }

  lemma ArrivalLosesNothing(s: Stream, cap: nat, q: nat)
    requires StreamOk(s, cap) && s.lost == map[] && s.failed == {} && !s.receiverGone && !s.inbox.dropped
    ensures var s' := Deliver(s, cap, q); s'.lost == map[] && s'.failed == {} && !s'.inbox.dropped && !s'.receiverGone
  {
    DeliverKeeps(s, cap, q);
    if q in s.network {
      var x := s.inbox.(buf := s.inbox.buf[q := s.network[q]]);
      RefusedOnlyIf(x, cap);
      var s' := Deliver(s, cap, q);
      assert s'.inbox == Drain(x, cap).0;
      if !s'.inbox.open {
        NothingAfterFin(s', cap);
      }
    }
  }

  /** In every run of reliable steps nothing is lost. */
  lemma {:induction false} ReliableLosesNothing(cap: nat, ops: seq<Op>)
    requires forall i :: 0 <= i < |ops| ==> Reliable(ops[i])
    ensures var s := Run(cap, ops); s.lost == map[] && s.failed == {} && !s.receiverGone && !s.inbox.dropped
  {
    if ops != [] {
      var before, op := ops[..|ops| - 1], ops[|ops| - 1];
      ReliableLosesNothing(cap, before);
      RunKeeps(cap, before);
      var s := Run(cap, before);
      match op
      case Arrive(q) => ArrivalLosesNothing(s, cap, q);
      case ReadInto(room) => ReadLeavesRest(s, room, []);
      case _ =>
    }
  }
}
