/** What reading keeps of a stream direction, and what holds in every run. */
module StreamRuns {
  import opened Common
  import opened TcbSpec
  import opened StreamSpec
  import opened StreamSafety

  // ---- the reader ----

  /** Reading leaves everything behind the channel alone. */
  predicate ReaderMoved(s: Stream, s': Stream) {
    && s'.nextSeq == s.nextSeq && s'.shutdown == s.shutdown && s'.sent == s.sent && s'.failed == s.failed
    && s'.network == s.network && s'.lost == s.lost && s'.inbox.buf == s.inbox.buf
        && s'.inbox.recvSeq == s.inbox.recvSeq
    && s'.inbox.open == s.inbox.open
  }

  lemma ReaderKeeps(s: Stream, s': Stream, cap: nat)
    requires StreamOk(s, cap) && ReaderMoved(s, s') && Nonempty(s')
    requires s'.read + InHand(s') + Flatten(s'.inbox.channel) == s.read + InHand(s) + Flatten(s.inbox.channel)
    requires s'.eof ==> !s.inbox.open && s'.held.None? && s'.inbox.channel == []
    requires s'.credits + |s'.inbox.channel| == s.credits + |s.inbox.channel|
    ensures StreamOk(s', cap)
  {
    PlacedIsPlacement(s', s);
    assert InOrder(s') && Ended(s');
  }

  lemma TakeKeeps(s: Stream, cap: nat)
    requires StreamOk(s, cap) && !s.eof && s.held.None? && s.inbox.channel != []
    ensures StreamOk(Take(s), cap)
  {
    assert Take(s).read + InHand(Take(s)) + Flatten(s.inbox.channel[1..])
        == s.read + InHand(s) + (s.inbox.channel[0] + Flatten(s.inbox.channel[1..]));
    assert Nonempty(Take(s));
    ReaderKeeps(s, Take(s), cap);
  }

  lemma AfterSpreadKeeps(s: Stream, cap: nat, k: nat)
    requires StreamOk(s, cap) && !s.eof && s.held.Some? && k <= |s.held.value|
    ensures StreamOk(AfterSpread(s, k), cap)
  {
    var s' := AfterSpread(s, k);
    assert s.held.value == s.held.value[..k] + s.held.value[k..];
    assert s'.read + InHand(s') == s.read + InHand(s);
    assert Nonempty(s');
    ReaderKeeps(s, s', cap);
  }

  /** As many bytes as there is room for; what is left has no room. */
  lemma {:induction false} SpreadExact(bytes: Bytes, room: seq<nat>)
    ensures Spread(bytes, room).0 == Min(|bytes|, Total(room))
    decreases |room|
  {
    if room != [] && room[0] < |bytes| {
      SpreadExact(bytes[room[0]..], room[1..]);
    }
  }

  /** Up to a number before which none failed, all data was accepted. */
  lemma {:induction false} AcceptedWhole(sent: seq<Seg>, failed: set<nat>, n: nat)
    requires n <= |sent| && forall q :: q in failed ==> q > n
    ensures Accepted(sent[..n], failed) == DataOf(sent[..n])
  {
    if n > 0 {
      AcceptedWhole(sent, failed, n - 1);
      assert sent[..n][..n - 1] == sent[..n - 1];
    }
  }

  lemma {:induction false} AcceptedPrefix(sent: seq<Seg>, failed: set<nat>, n: nat)
    requires n <= |sent|
    ensures Accepted(sent[..n], failed) <= Accepted(sent, failed)
  {
    if n == |sent| {
      assert sent[..n] == sent;
    } else {
      AcceptedPrefix(sent[..|sent| - 1], failed, n);
      assert sent[..|sent| - 1][..n] == sent[..n];
    }
  }

  /** An empty result into room for more means the end of the stream. */
  predicate EndOfStream(s: Stream) {
    s.shutdown && s.read == Flatten(Accepted(s.sent, s.failed))
  }

  lemma EofIsEnd(s: Stream, cap: nat)
    requires StreamOk(s, cap) && !s.inbox.open && s.held.None? && s.inbox.channel == []
    ensures EndOfStream(s)
    ensures StreamOk(s.(eof := true), cap) && EndOfStream(s.(eof := true))
  {
    var n := s.inbox.recvSeq;
    assert n !in s.lost && s.shutdown && n == |s.sent|;
    assert s.sent[..n] == s.sent;
    AcceptedWhole(s.sent, s.failed, n);
    assert s.read + [] + [] == s.read;
    ReaderKeeps(s, s.(eof := true), cap);
  }

  /** One segment into the reader's buffers. */
  function InHandFirst(s: Stream): Stream
    requires s.held.Some? || s.inbox.channel != []
  {
    if s.held.None? then Take(s) else s
  }

  lemma InHandKeeps(s: Stream, cap: nat)
    requires StreamOk(s, cap) && !s.eof && (s.held.Some? || s.inbox.channel != [])
    ensures StreamOk(InHandFirst(s), cap) && InHandFirst(s).read == s.read && InHandFirst(s).held.Some?
    ensures InHandFirst(s).held.value != [] && !InHandFirst(s).eof
  {
    if s.held.None? {
      TakeKeeps(s, cap);
    }
  }

  /** What a read has returned so far, `bytes`, begins with `got`, and the rest
      is what the stream counts as newly read. */
  predicate Returns(s: Stream, s': Stream, got: Bytes, r: ReadResult) {
    match r
    case Got(bytes) => got <= bytes && s'.read == s.read + bytes[|got|..]
    case _ => got == [] && s'.read == s.read
  }

  lemma Resume(read: Bytes, got: Bytes, more: Bytes, bytes: Bytes)
    requires got + more <= bytes
    ensures got <= bytes && |more| <= |bytes|
    ensures (read + more) + bytes[|got + more|..] == read + bytes[|got|..]
  {
    assert bytes == got + more + bytes[|got + more|..];
  }

  /** Nothing at hand. */
  lemma ReadNothingKeeps(s: Stream, cap: nat, room: seq<nat>, got: Bytes)
    requires StreamOk(s, cap) && (s.eof || (s.held.None? && s.inbox.channel == []))
    ensures var (s', r) := ReadLoop(s, room, got);
            && StreamOk(s', cap) && Returns(s, s', got, r)
            && (r == Got([]) ==> EndOfStream(s'))
  {
    if !s.inbox.open {
      EofIsEnd(s, cap);
    }
  }

  /** One segment's worth. */
  function OnePass(s: Stream, room: seq<nat>): (Stream, Bytes)
    requires s.held.Some? || s.inbox.channel != []
  {
    var s1 := InHandFirst(s);
    var k := Spread(s1.held.value, room).0;
    (AfterSpread(s1, k), s1.held.value[..k])
  }

  lemma OnePassKeeps(s: Stream, cap: nat, room: seq<nat>)
    requires StreamOk(s, cap) && !s.eof && (s.held.Some? || s.inbox.channel != [])
    ensures var (s2, more) := OnePass(s, room);
            StreamOk(s2, cap) && s2.read == s.read + more && (Total(room) > 0 ==> more != [])
  {
    InHandKeeps(s, cap);
    var s1 := InHandFirst(s);
    SpreadExact(s1.held.value, room);
    AfterSpreadKeeps(s1, cap, Spread(s1.held.value, room).0);
  }

  lemma ReadLoopUnfolds(s: Stream, room: seq<nat>, got: Bytes)
    requires !s.eof && (s.held.Some? || s.inbox.channel != [])
    ensures var (s2, more) := OnePass(s, room);
            var left := Spread(InHandFirst(s).held.value, room).1;
            ReadLoop(s, room, got) == if left == [] then (s2, Got(got + more)) else ReadLoop(s2, left, got + more)
  {
  }

  /** The bytes of one pass, and those of the rest. */
  lemma ReturnsOn(s: Stream, s2: Stream, s': Stream, got: Bytes, more: Bytes, r: ReadResult)
    requires s2.read == s.read + more
    ensures Returns(s, s2, got, Got(got + more))
    ensures Returns(s2, s', got + more, r) ==> Returns(s, s', got, r) && (more != [] ==> r != Got([]))
  {
    assert (got + more)[|got|..] == more;
    if Returns(s2, s', got + more, r) && r.Got? {
      Resume(s.read, got, more, r.bytes);
    }
  }

  lemma {:induction false} ReadLoopKeeps(s: Stream, cap: nat, room: seq<nat>, got: Bytes)
    requires StreamOk(s, cap)
    ensures var (s', r) := ReadLoop(s, room, got);
            && StreamOk(s', cap) && Returns(s, s', got, r)
            && (Total(room) > 0 && r == Got([]) ==> EndOfStream(s'))
    decreases 2 * |s.inbox.channel| + (if s.held.Some? then 1 else 0)
  {
    if s.eof || (s.held.None? && s.inbox.channel == []) {
      ReadNothingKeeps(s, cap, room, got);
    } else {
      OnePassKeeps(s, cap, room);
      ReadLoopUnfolds(s, room, got);
      var (s2, more) := OnePass(s, room);
      var left := Spread(InHandFirst(s).held.value, room).1;
      if left != [] {
        ReadLoopKeeps(s2, cap, left, got + more);
      }
      ReturnsOn(s, s2, ReadLoop(s2, left, got + more).0, got, more, ReadLoop(s2, left, got + more).1);
    }
  }

  /** A vectored read returns the next unread bytes; nothing, into room for
      something, only at the end of the stream. */
  lemma ReadKeeps(s: Stream, cap: nat, room: seq<nat>)
    requires StreamOk(s, cap)
    ensures var (s', r) := TryRead(s, room);
            && StreamOk(s', cap)
            && s'.read == s.read + (if r.Got? then r.bytes else [])
            && (Total(room) > 0 && r == Got([]) ==> EndOfStream(s'))
  {
    ReadLoopKeeps(s, cap, room, []);
  }

  lemma {:induction false} PollKeeps(s: Stream, cap: nat, size: nat, filled: nat)
    requires StreamOk(s, cap)
    ensures var (s', r) := PollRead(s, size, filled);
            && StreamOk(s', cap)
            && s'.read == s.read + (if r.Got? then r.bytes else [])
            && (size > filled && r == Got([]) ==> EndOfStream(s'))
  {
    if size > 0 {
      if s.eof || (s.held.None? && s.inbox.channel == []) {
        if !s.inbox.open {
          EofIsEnd(s, cap);
        }
      } else {
        InHandKeeps(s, cap);
        AfterSpreadKeeps(InHandFirst(s), cap, Min(|InHandFirst(s).held.value|, SaturatingSub(size, filled)));
      }
    }
  }

  // ---- every run ----

  lemma StepKeeps(s: Stream, cap: nat, op: Op)
    requires StreamOk(s, cap)
    ensures StreamOk(Step(s, cap, op), cap)
  {
    match op
    case Write(data, handed) => WriteKeeps(s, cap, data, handed);
    case Close(handed) => ShutdownKeeps(s, cap, handed);
    case Arrive(q) => DeliverKeeps(s, cap, q);
    case Vanish(q) => LoseKeeps(s, cap, q);
    case ReadInto(room) => ReadKeeps(s, cap, room);
    case PollInto(size, filled) => PollKeeps(s, cap, size, filled);
    case _ => GoneKeeps(s, Step(s, cap, op), cap);
  }

  lemma GoneKeeps(s: Stream, s': Stream, cap: nat)
    requires StreamOk(s, cap)
    requires s' == s.(senderGone := s'.senderGone, receiverGone := s'.receiverGone,
             inbox := s.inbox.(dropped := s'.inbox.dropped))
    ensures StreamOk(s', cap)
  {
    ReaderKeeps(s, s', cap);
  }

  lemma {:induction false} RunKeeps(cap: nat, ops: seq<Op>)
    ensures StreamOk(Run(cap, ops), cap)
  {
    if ops != [] {
      RunKeeps(cap, ops[..|ops| - 1]);
      StepKeeps(Run(cap, ops[..|ops| - 1]), cap, ops[|ops| - 1]);
    }
  }

  /** In every run, credits plus the data segments on the network, in the
      reorder buffer, in the channel and lost are the capacity; so while data
      waits in the reorder buffer the channel has room, and no segment that is
      next in order is ever left behind. */
  lemma CreditConservation(cap: nat, ops: seq<Op>)
    ensures var s := Run(cap, ops);
            && Accounted(s) == cap
            && |s.inbox.channel| <= cap
            && (DataIn(s.inbox.buf) != {} ==> |s.inbox.channel| < cap)
            && s.inbox.recvSeq + 1 !in s.inbox.buf
  {
    RunKeeps(cap, ops);
  }

  lemma FlattenPrefix(a: seq<Bytes>, b: seq<Bytes>)
    requires a <= b
    ensures Flatten(a) <= Flatten(b)
  {
    FlattenAppend(a, b[|a|..]);
    assert b == a + b[|a|..];
  }

  lemma StartOf(a: Bytes, b: Bytes, c: Bytes)
    ensures a <= a + b + c
  {
  }

  /** In every run, the bytes returned by reads are a prefix of the bytes that
      writes accepted. */
  lemma {:induction false} InOrderDelivery(cap: nat, ops: seq<Op>)
    ensures var s := Run(cap, ops); s.read <= Flatten(Accepted(s.sent, s.failed))
  {
    RunKeeps(cap, ops);
    var s := Run(cap, ops);
    var n := s.inbox.recvSeq;
    AcceptedWhole(s.sent, s.failed, n);
    AcceptedPrefix(s.sent, s.failed, n);
    FlattenPrefix(DataOf(s.sent[..n]), Accepted(s.sent, s.failed));
    StartOf(s.read, InHand(s), Flatten(s.inbox.channel));
  }

  /** A segment on the network is neither in the reorder buffer nor consumed
      yet, so the duplicate assertion holds whenever one arrives. */
  lemma NoDuplicates(cap: nat, ops: seq<Op>, q: nat)
    requires q in Run(cap, ops).network
    ensures q !in Run(cap, ops).inbox.buf && q > Run(cap, ops).inbox.recvSeq
  {
    RunKeeps(cap, ops);
  }

  /** End of file is reported only after the sender shut down and every byte it
      wrote was read, by either kind of read. */
  lemma EofOnlyAtTheEnd(cap: nat, ops: seq<Op>, room: seq<nat>, size: nat, filled: nat)
    ensures Total(room) > 0 && TryRead(Run(cap, ops), room).1 == Got([]) ==> EndOfStream(TryRead(Run(cap, ops), room).0)
    ensures size > filled && PollRead(Run(cap, ops), size, filled).1 == Got([]) ==>
              EndOfStream(PollRead(Run(cap, ops), size, filled).0)
  {
    RunKeeps(cap, ops);
    ReadKeeps(Run(cap, ops), cap, room);
    PollKeeps(Run(cap, ops), cap, size, filled);
  }
}
