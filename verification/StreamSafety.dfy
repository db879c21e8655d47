/** What every step of the sender and the network keeps of a stream direction. */
module StreamSafety {
  import opened Common
  import opened StreamSpec

  function Flatten(chunks: seq<Bytes>): Bytes {
    if chunks == [] then [] else chunks[0] + Flatten(chunks[1..])
  }

  lemma Regroup(a: Bytes, b: Bytes, c: Bytes)
    ensures (a + b) + c == a + (b + c)
  {
  }

  lemma {:induction false} FlattenAppend(a: seq<Bytes>, b: seq<Bytes>)
    ensures Flatten(a + b) == Flatten(a) + Flatten(b)
  {
    if a == [] {
      assert a + b == b;
    } else {
      FlattenAppend(a[1..], b);
      assert (a + b)[1..] == a[1..] + b;
      Regroup(a[0], Flatten(a[1..]), Flatten(b));
    }
  }

  lemma FlattenSnoc(a: seq<Bytes>, x: Bytes)
    ensures Flatten(a + [x]) == Flatten(a) + x
  {
    FlattenAppend(a, [x]);
    assert Flatten([x]) == x + Flatten([]) == x;
  }

  /** Every number carries what the sender put under it. */
  predicate Authentic(sent: seq<Seg>, m: map<nat, Seg>) {
    forall q :: q in m ==> 1 <= q <= |sent| && m[q] == sent[q - 1]
  }

  /** Waiting, travelling and lost segments are apart, and none is consumed. */
  predicate Apart(network: map<nat, Seg>, buf: map<nat, Seg>, lost: map<nat, Seg>, recvSeq: nat) {
    && (forall q :: q in network ==> q !in buf && q !in lost && q > recvSeq)
    && (forall q :: q in buf ==> q !in lost && q > recvSeq)
    && (forall q :: q in lost ==> q > recvSeq)
  }

  predicate Found(s: Stream, q: nat) {
    q in s.network || q in s.inbox.buf || q in s.lost
  }

  /** Every number sent is in exactly one place: consumed in order, waiting in
      the reorder buffer, on the network, or lost. */
  predicate Placed(s: Stream) {
    && s.nextSeq == |s.sent| + 1
    && s.inbox.recvSeq < s.nextSeq
    && Authentic(s.sent, s.network)
    && Authentic(s.sent, s.inbox.buf)
    && Authentic(s.sent, s.lost)
    && Apart(s.network, s.inbox.buf, s.lost, s.inbox.recvSeq)
    && forall q :: s.inbox.recvSeq < q < s.nextSeq ==> Found(s, q)
  }

  /** What was not handed over is lost; a FIN that was is the last number. */
  predicate Ended(s: Stream) {
    && (forall q :: q in s.failed ==> q in s.lost)
    && (forall i :: 0 <= i < |s.sent| && s.sent[i].Fin? ==> i + 1 in s.failed || (s.shutdown && i + 1 == |s.sent|))
    && (s.shutdown ==> s.sent != [] && s.sent[|s.sent| - 1].Fin?)
  }

  /** The data among the first numbers. */
  function DataOf(sent: seq<Seg>): seq<Bytes> {
    Accepted(sent, {})
  }

  /** The FIN has been consumed. */
  predicate FinTaken(s: Stream) {
    0 < s.inbox.recvSeq <= |s.sent| && s.sent[s.inbox.recvSeq - 1].Fin?
  }

  function InHand(s: Stream): Bytes {
    if s.held.Some? then s.held.value else []
  }

  /** No segment carries nothing. */
  predicate Nonempty(s: Stream) {
    && (forall i :: 0 <= i < |s.sent| && s.sent[i].Data? ==> s.sent[i].bytes != [])
    && (forall i :: 0 <= i < |s.inbox.channel| ==> s.inbox.channel[i] != [])
    && s.held != Some([])
  }

  /** The bytes read, in hand and in the channel are the consumed writes. */
  predicate InOrder(s: Stream) {
    && s.inbox.recvSeq <= |s.sent|
    && s.read + InHand(s) + Flatten(s.inbox.channel) == Flatten(DataOf(s.sent[..s.inbox.recvSeq]))
    && (!s.inbox.open <==> FinTaken(s))
    && (s.eof ==> !s.inbox.open && s.held.None? && s.inbox.channel == [])
  }

  function DataIn(m: map<nat, Seg>): set<nat> {
    set q | q in m && m[q].Data?
  }

  /** Credits, and data segments wherever they are. */
  function Accounted(s: Stream): nat {
    s.credits + |DataIn(s.network)| + |DataIn(s.inbox.buf)| + |s.inbox.channel| + |DataIn(s.lost)|
  }

  /** Also while the reorder buffer is being drained. */
  predicate Flowing(s: Stream, cap: nat) {
    Placed(s) && Ended(s) && InOrder(s) && Nonempty(s) && Accounted(s) == cap
  }

  /** Between operations nothing that could go to the channel waits. */
  predicate StreamOk(s: Stream, cap: nat) {
    Flowing(s, cap) && s.inbox.recvSeq + 1 !in s.inbox.buf
  }

  // ---- counting ----

  lemma DataInPut(m: map<nat, Seg>, q: nat, g: Seg)
    requires q !in m
    ensures |DataIn(m[q := g])| == |DataIn(m)| + if g.Data? then 1 else 0
  {
    if g.Data? {
      assert DataIn(m[q := g]) == DataIn(m) + {q};
    } else {
      assert DataIn(m[q := g]) == DataIn(m);
    }
  }

  lemma DataInRemove(m: map<nat, Seg>, q: nat)
    requires q in m
    ensures |DataIn(m - {q})| == |DataIn(m)| - if m[q].Data? then 1 else 0
  {
    DataInPut(m - {q}, q, m[q]);
    assert (m - {q})[q := m[q]] == m;
  }

  // ---- the sender and the network ----

  /** The next number is still unused, and using it changes no earlier one. */
  lemma NextIsFree(s: Stream)
    requires Placed(s)
    ensures s.nextSeq !in s.network && s.nextSeq !in s.inbox.buf && s.nextSeq !in s.lost
  {
  }

  /** Placement is a matter of these fields alone. */
  lemma PlacedIsPlacement(s: Stream, t: Stream)
    requires Placed(t)
    requires s.nextSeq == t.nextSeq && s.sent == t.sent && s.network == t.network
    requires s.lost == t.lost && s.inbox.buf == t.inbox.buf && s.inbox.recvSeq == t.inbox.recvSeq
    ensures Placed(s)
  {
    forall q | s.inbox.recvSeq < q < s.nextSeq ensures Found(s, q) {
      assert Found(t, q);
    }
  }

  lemma AuthenticGrows(sent: seq<Seg>, seg: Seg, m: map<nat, Seg>)
    requires Authentic(sent, m)
    ensures Authentic(sent + [seg], m) && Authentic(sent + [seg], m[|sent| + 1 := seg])
  {
  }

  lemma {:induction false} PostPlaces(s: Stream, seg: Seg, handed: bool)
    requires Placed(s)
    ensures Placed(Post(s, seg, handed))
  {
    var s' := Post(s, seg, handed);
    NextIsFree(s);
    AuthenticGrows(s.sent, seg, s.network);
    AuthenticGrows(s.sent, seg, s.inbox.buf);
    AuthenticGrows(s.sent, seg, s.lost);
    forall q | s'.inbox.recvSeq < q < s'.nextSeq ensures Found(s', q) {
      assert q < s.nextSeq ==> Found(s, q);
    }
  }

  lemma {:induction false} PostOrders(s: Stream, seg: Seg, handed: bool)
    requires InOrder(s)
    ensures InOrder(Post(s, seg, handed))
  {
    var s' := Post(s, seg, handed);
    assert s'.sent[..s.inbox.recvSeq] == s.sent[..s.inbox.recvSeq];
  }

  lemma {:induction false} PostCounts(s: Stream, seg: Seg, handed: bool)
    requires Placed(s)
    ensures Accounted(Post(s, seg, handed)) == Accounted(s) + if seg.Data? then 1 else 0
  {
    NextIsFree(s);
    DataInPut(s.network, s.nextSeq, seg);
    DataInPut(s.lost, s.nextSeq, seg);
  }

  lemma {:induction false} PostEnds(s: Stream, seg: Seg, handed: bool, shut: bool)
    requires Placed(s) && Ended(s) && !s.shutdown && (seg.Fin? ==> shut == handed) && (seg.Data? ==> !shut)
    ensures Ended(Post(s, seg, handed).(shutdown := shut))
  {
  }

  /** The invariant but for the count of credits. */
  predicate Sound(s: Stream) {
    Placed(s) && Ended(s) && InOrder(s) && Nonempty(s) && s.inbox.recvSeq + 1 !in s.inbox.buf
  }

  lemma {:induction false} PostNonempty(s: Stream, seg: Seg, handed: bool)
    requires Nonempty(s) && seg != Data([])
    ensures Nonempty(Post(s, seg, handed))
  {
  }

  lemma {:induction false} PostKeeps(s: Stream, seg: Seg, handed: bool, shut: bool)
    requires Sound(s) && !s.shutdown && seg != Data([]) && (seg.Fin? ==> shut == handed) && (seg.Data? ==> !shut)
    ensures var s' := Post(s, seg, handed).(shutdown := shut);
            Sound(s') && Accounted(s') == Accounted(s) + if seg.Data? then 1 else 0
  {
    PostPlaces(s, seg, handed);
    PostOrders(s, seg, handed);
    PostCounts(s, seg, handed);
    PostEnds(s, seg, handed, shut);
    PostNonempty(s, seg, handed);
    PlacedIsPlacement(Post(s, seg, handed).(shutdown := shut), Post(s, seg, handed));
    assert InOrder(Post(s, seg, handed).(shutdown := shut));
  }

  lemma {:induction false} SpendKeeps(s: Stream)
    requires Sound(s) && s.credits > 0
    ensures var t := s.(credits := s.credits - 1); Sound(t) && Accounted(t) == Accounted(s) - 1
  {
    PlacedIsPlacement(s.(credits := s.credits - 1), s);
  }

  lemma {:induction false} WriteKeeps(s: Stream, cap: nat, data: Bytes, handed: bool)
    requires StreamOk(s, cap)
    ensures StreamOk(TryWrite(s, data, handed).0, cap)
  {
    if !s.shutdown && data != [] && !s.senderGone && s.credits > 0 {
      SpendKeeps(s);
      PostKeeps(s.(credits := s.credits - 1), Data(data), handed, false);
    }
  }

  lemma {:induction false} ShutdownKeeps(s: Stream, cap: nat, handed: bool)
    requires StreamOk(s, cap)
    ensures StreamOk(Shutdown(s, handed), cap)
  {
    if !s.shutdown && !s.senderGone {
      PostKeeps(s, Fin, handed, handed);
      assert Flowing(Shutdown(s, handed), cap);
    }
  }

  lemma LosePlaces(s: Stream, q: nat)
    requires Placed(s)
    ensures Placed(Lose(s, q))
  {
    var s' := Lose(s, q);
    forall r | s'.inbox.recvSeq < r < s'.nextSeq ensures Found(s', r) {
      assert Found(s, r);
    }
  }

  lemma {:induction false} LoseKeeps(s: Stream, cap: nat, q: nat)
    requires StreamOk(s, cap)
    ensures StreamOk(Lose(s, q), cap)
  {
    LosePlaces(s, q);
    if q in s.network {
      DataInRemove(s.network, q);
      DataInPut(s.lost, q, s.network[q]);
      assert InOrder(Lose(s, q)) && Ended(Lose(s, q));
    }
  }

  // ---- the reorder buffer ----

  function WithDrained(s: Stream, cap: nat): Stream {
    var (x', refused) := Drain(s.inbox, cap);
    s.(inbox := x', lost := if refused.Some? then s.lost[x'.recvSeq + 1 := refused.value] else s.lost)
  }

  /** The next segment goes to the channel, or closes it. */
  function Accept(s: Stream): Stream
    requires s.inbox.recvSeq + 1 in s.inbox.buf
  {
    var next := s.inbox.recvSeq + 1;
    var seg := s.inbox.buf[next];
    s.(inbox := Inbox(s.inbox.buf - {next}, next, s.inbox.open && seg.Data?,
                      if seg.Data? then s.inbox.channel + [seg.bytes] else s.inbox.channel, s.inbox.dropped))
  }

  function Refuse(s: Stream): Stream
    requires s.inbox.recvSeq + 1 in s.inbox.buf
  {
    var next := s.inbox.recvSeq + 1;
    s.(inbox := s.inbox.(buf := s.inbox.buf - {next}), lost := s.lost[next := s.inbox.buf[next]])
  }

  /** The channel has room for every data segment that waits for it. */
  lemma ChannelHasRoom(s: Stream, cap: nat, q: nat)
    requires Accounted(s) == cap && q in s.inbox.buf && s.inbox.buf[q].Data?
    ensures |s.inbox.channel| < cap
  {
    assert q in DataIn(s.inbox.buf);
  }

  lemma ConsumeApart(network: map<nat, Seg>, buf: map<nat, Seg>, lost: map<nat, Seg>, recvSeq: nat)
    requires Apart(network, buf, lost, recvSeq) && recvSeq + 1 in buf
    ensures Apart(network, buf - {recvSeq + 1}, lost, recvSeq + 1)
  {
  }

  function Consume(s: Stream): Stream {
    var next := s.inbox.recvSeq + 1;
    s.(inbox := s.inbox.(buf := s.inbox.buf - {next}, recvSeq := next))
  }

  lemma ConsumePlaces(s: Stream)
    requires Placed(s) && s.inbox.recvSeq + 1 in s.inbox.buf
    ensures Placed(Consume(s))
  {
    var s' := Consume(s);
    forall r | s'.inbox.recvSeq < r < s'.nextSeq ensures Found(s', r) {
      assert Found(s, r);
    }
    ConsumeApart(s.network, s.inbox.buf, s.lost, s.inbox.recvSeq);
  }

  lemma AcceptPlaces(s: Stream)
    requires Placed(s) && s.inbox.recvSeq + 1 in s.inbox.buf
    ensures Placed(Accept(s))
  {
    ConsumePlaces(s);
    PlacedIsPlacement(Accept(s), Consume(s));
  }

  lemma AcceptCounts(s: Stream)
    requires s.inbox.recvSeq + 1 in s.inbox.buf
    ensures Accounted(Accept(s)) == Accounted(s)
  {
    DataInRemove(s.inbox.buf, s.inbox.recvSeq + 1);
  }

  lemma DataOfNext(sent: seq<Seg>, n: nat)
    requires n < |sent|
    ensures DataOf(sent[..n + 1]) == DataOf(sent[..n]) + (if sent[n].Data? then [sent[n].bytes] else [])
  {
    assert sent[..n + 1][..n] == sent[..n];
  }

  lemma Appended(read: Bytes, hand: Bytes, channel: seq<Bytes>, bytes: Bytes, data: seq<Bytes>)
    requires read + hand + Flatten(channel) == Flatten(data)
    ensures read + hand + Flatten(channel + [bytes]) == Flatten(data + [bytes])
  {
    FlattenSnoc(channel, bytes);
    FlattenSnoc(data, bytes);
    Regroup(read + hand, Flatten(channel), bytes);
  }

  lemma AcceptOrders(s: Stream)
    requires Placed(s) && InOrder(s) && s.inbox.recvSeq + 1 in s.inbox.buf && s.inbox.open
    ensures InOrder(Accept(s))
  {
    var n := s.inbox.recvSeq;
    assert s.inbox.buf[n + 1] == s.sent[n];
    DataOfNext(s.sent, n);
    if s.sent[n].Data? {
      Appended(s.read, InHand(s), s.inbox.channel, s.sent[n].bytes, DataOf(s.sent[..n]));
    } else {
      assert DataOf(s.sent[..n]) + [] == DataOf(s.sent[..n]);
    }
  }

  lemma AcceptKeeps(s: Stream, cap: nat)
    requires Flowing(s, cap) && s.inbox.recvSeq + 1 in s.inbox.buf && s.inbox.open
    ensures Flowing(Accept(s), cap)
  {
    AcceptPlaces(s);
    AcceptCounts(s);
    AcceptOrders(s);
    AcceptNonempty(s);
    assert Ended(Accept(s));
  }

  lemma AcceptNonempty(s: Stream)
    requires Nonempty(s) && Authentic(s.sent, s.inbox.buf) && s.inbox.recvSeq + 1 in s.inbox.buf
    ensures Nonempty(Accept(s))
  {
    assert s.inbox.buf[s.inbox.recvSeq + 1] == s.sent[s.inbox.recvSeq];
  }

  lemma RefusePlaces(s: Stream)
    requires Placed(s) && s.inbox.recvSeq + 1 in s.inbox.buf
    ensures Placed(Refuse(s))
  {
    var s' := Refuse(s);
    forall r | s'.inbox.recvSeq < r < s'.nextSeq ensures Found(s', r) {
      assert Found(s, r);
    }
  }

  lemma RefuseKeeps(s: Stream, cap: nat)
    requires Flowing(s, cap) && s.inbox.recvSeq + 1 in s.inbox.buf
    ensures StreamOk(Refuse(s), cap)
  {
    var next := s.inbox.recvSeq + 1;
    RefusePlaces(s);
    DataInRemove(s.inbox.buf, next);
    DataInPut(s.lost, next, s.inbox.buf[next]);
    assert InOrder(Refuse(s)) && Nonempty(Refuse(s)) && Ended(Refuse(s));
  }

  lemma DrainUnfolds(s: Stream, cap: nat)
    requires s.inbox.recvSeq + 1 in s.inbox.buf
    ensures !s.inbox.open || s.inbox.dropped ==> WithDrained(s, cap) == Refuse(s)
    ensures s.inbox.open && !s.inbox.dropped && (s.inbox.buf[s.inbox.recvSeq + 1].Data? ==> |s.inbox.channel| < cap)
            ==> WithDrained(s, cap) == WithDrained(Accept(s), cap)
  {
  }

  lemma NothingToDrain(s: Stream, cap: nat)
    requires s.inbox.recvSeq + 1 !in s.inbox.buf
    ensures WithDrained(s, cap) == s
  {
  }

  lemma DeliverDrains(s: Stream, cap: nat, q: nat)
    requires q in s.network && !s.receiverGone
    ensures Deliver(s, cap, q) == WithDrained(Arrived(s, q), cap)
  {
  }

  /** Draining ends with the next segment not at hand: the full-channel branch
      is never taken. */
  lemma {:induction false} DrainKeeps(s: Stream, cap: nat)
    requires Flowing(s, cap)
    ensures StreamOk(WithDrained(s, cap), cap)
    decreases |s.inbox.buf|
  {
    var next := s.inbox.recvSeq + 1;
    if next in s.inbox.buf {
      DrainUnfolds(s, cap);
      if !s.inbox.open || s.inbox.dropped {
        RefuseKeeps(s, cap);
      } else {
        if s.inbox.buf[next].Data? {
          ChannelHasRoom(s, cap, next);
        }
        AcceptKeeps(s, cap);
        DrainKeeps(Accept(s), cap);
      }
    } else {
      NothingToDrain(s, cap);
    }
  }

  /** A segment moved from the network to the reorder buffer. */
  function Arrived(s: Stream, q: nat): Stream
    requires q in s.network
  {
    s.(network := s.network - {q}, inbox := s.inbox.(buf := s.inbox.buf[q := s.network[q]]))
  }

  lemma ArrivedPlaces(s: Stream, q: nat)
    requires Placed(s) && q in s.network
    ensures Placed(Arrived(s, q))
  {
    var s' := Arrived(s, q);
    forall r | s'.inbox.recvSeq < r < s'.nextSeq ensures Found(s', r) {
      assert Found(s, r);
    }
  }

  lemma {:induction false} ArrivedKeeps(s: Stream, cap: nat, q: nat)
    requires Flowing(s, cap) && q in s.network
    ensures Flowing(Arrived(s, q), cap)
  {
    ArrivedPlaces(s, q);
    DataInRemove(s.network, q);
    DataInPut(s.inbox.buf, q, s.network[q]);
    assert InOrder(Arrived(s, q)) && Nonempty(Arrived(s, q)) && Ended(Arrived(s, q));
  }

  lemma {:induction false} DeliverKeeps(s: Stream, cap: nat, q: nat)
    requires StreamOk(s, cap)
    ensures StreamOk(Deliver(s, cap, q), cap)
  {
    if q in s.network {
      if s.receiverGone {
        LoseKeeps(s, cap, q);
      } else {
        ArrivedKeeps(s, cap, q);
        DrainKeeps(Arrived(s, q), cap);
        DeliverDrains(s, cap, q);
      }
    }
  }
}
