/** The accept queue: a finished handshake gets into it, stays until it is
    accepted, and nothing else does. */
module Accepting {
  import opened Common
  import opened SeqSpace
  import opened Addresses
  import opened TcbSpec
  import opened SocketTable
  import opened KernelSpec
  import opened StackSpec
  import Handshake

  ghost predicate InQueue(T: Table, fd: Fd) {
    exists l :: Queued(T, l, fd)
  }

  predicate AbortedAt(T: Table, fd: Fd) {
    HasBlock(T.sockets, fd) && Aborted(T.sockets[fd].tcb.value)
  }

  predicate ServedBy(T: Table, l: Fd, fd: Fd)
    requires fd in T.sockets
  {
    T.sockets[fd].bound.Some? && Serves(T, l, T.sockets[fd].bound.value.At())
  }

  /** Every handshaking child has a listener to go to, and only connections
      linger. */
  ghost predicate Attended(T: Table) {
    && (forall fd :: InHandshake(T, fd) ==> exists l :: ServedBy(T, l, fd))
    && (forall fd :: fd in T.sockets && T.sockets[fd].fdClosed ==> T.sockets[fd].tcb.Some?)
  }

  /** How a waiting socket came to wait: it waited before, queued or not as it is
      now; or it left its handshake, and is queued exactly if it did so
      unharmed. */
  ghost predicate Arrives(T: Table, handles: set<Fd>, T': Table, fd: Fd) {
    if Waiting(T, handles, fd) then (InQueue(T', fd) <==> InQueue(T, fd)) && (AbortedAt(T, fd) ==> AbortedAt(T', fd))
    else InHandshake(T, fd) && (InQueue(T', fd) <==> !AbortedAt(T', fd))
  }

  ghost predicate Follows(T: Table, handles: set<Fd>, T': Table, handles': set<Fd>) {
    Attended(T') && forall fd :: Waiting(T', handles', fd) ==> Arrives(T, handles, T', fd)
  }

  /** The ACK that completes a child's handshake, while some listener serves the
      endpoint, appends the child to the ready queue of the one found. */
  lemma CompletionIsQueued(T: Table, handles: set<Fd>, isn: U32, cap: nat, local: Endpoint, remote: Endpoint,
      s: Segment,
      m: Fd)
    requires Coherent(T, handles) && !local.ip.Unspecified() && (local, remote) in T.connections && Serves(T, m, local)
    requires var fd := T.connections[(local, remote)];
             HasBlock(T.sockets, fd) && Promotes(T.sockets[fd].tcb.value, s)
    ensures FindListener(T, local).Some?
    ensures var fd, l := T.connections[(local, remote)], FindListener(T, local).value;
            var T' := Inbound(T, isn, cap, local, remote, s).table;
            && Serves(T, l, local) && Listening(T', l) && ReadyOf(T', l) == ReadyOf(T, l) + [fd]
            && (forall g :: Listening(T, g) && g != l ==> Listening(T', g) && ReadyOf(T', g) == ReadyOf(T, g))
            && HasBlock(T'.sockets, fd) && T'.sockets[fd].tcb.value.state == Established
  {
    FindListenerExact(T, local);
    var fd, l := T.connections[(local, remote)], FindListener(T, local).value;
    assert IsConnection(T, fd, local, remote) && SocketOk(T, fd) && SocketOk(T, l);
  }

  // ---- events that leave the queues alone ----

  /** Every listener that somebody needs is still there; handshakes are the old
      ones. */
  ghost predicate StillServed(T: Table, T': Table) {
    && (forall l, fd :: InHandshake(T', fd) && InHandshake(T, fd) && ServedBy(T, l, fd) ==> ServedBy(T', l, fd))
    && (forall fd :: fd in T'.sockets && T'.sockets[fd].fdClosed ==> T'.sockets[fd].tcb.Some?)
  }

  lemma StaysAttended(T: Table, T': Table)
    requires StillServed(T, T') && Attended(T)
    requires forall fd :: InHandshake(T', fd) ==> InHandshake(T, fd) || exists l :: ServedBy(T', l, fd)
    ensures Attended(T')
  {
    forall fd | InHandshake(T', fd) ensures exists l :: ServedBy(T', l, fd) {
      if InHandshake(T, fd) {
        var l :| ServedBy(T, l, fd);
        assert ServedBy(T', l, fd);
      }
    }
  }

  /** No listener and no handshake changes; new listeners have no queue. */
  ghost predicate Undisturbed(T: Table, T': Table) {
    && (forall l :: Listening(T, l) ==> Listening(T', l) && ReadyOf(T', l) == ReadyOf(T, l)
                                        && T'.sockets[l].bound == T.sockets[l].bound)
    && (forall l :: Listening(T', l) && !Listening(T, l) ==> ReadyOf(T', l) == [])
    && (forall fd :: InHandshake(T', fd) ==> InHandshake(T, fd) && T'.sockets[fd].bound == T.sockets[fd].bound)
    && (forall fd :: fd in T'.sockets && T'.sockets[fd].fdClosed ==> T'.sockets[fd].tcb.Some?)
  }

  lemma UndisturbedQueues(T: Table, T': Table, fd: Fd)
    requires Undisturbed(T, T')
    ensures InQueue(T', fd) <==> InQueue(T, fd)
  {
    forall l ensures Queued(T', l, fd) <==> Queued(T, l, fd) {
    }
  }

  lemma UndisturbedFollows(T: Table, handles: set<Fd>, T': Table, handles': set<Fd>)
    requires Undisturbed(T, T') && Attended(T) && QueuesAgree(T, handles)
    requires forall fd :: Waiting(T', handles', fd) ==>
               if Waiting(T, handles, fd) then AbortedAt(T, fd) ==> AbortedAt(T', fd)
               else InHandshake(T, fd) && AbortedAt(T', fd)
    ensures Follows(T, handles, T', handles')
  {
    StaysAttended(T, T');
    forall fd | Waiting(T', handles', fd) ensures Arrives(T, handles, T', fd) {
      UndisturbedQueues(T, T', fd);
      if !Waiting(T, handles, fd) {
        NotWaiting(T, handles, fd);
      }
    }
  }

  lemma SetTcbUndisturbed(T: Table, fd: Fd, t: Tcb)
    requires Attended(T) && HasBlock(T.sockets, fd) && T.sockets[fd].listen.None?
    requires t.state == SynReceived ==> InHandshake(T, fd)
    ensures Undisturbed(T, SetTcb(T, fd, t))
  {
  }

  lemma CallFollows(T: Table, handles: set<Fd>, fd: Fd, t: Tcb)
    requires Coherent(T, handles) && Attended(T) && HasBlock(T.sockets, fd) && fd in handles
    requires t.state == SynReceived ==> InHandshake(T, fd)
    ensures Follows(T, handles, SetTcb(T, fd, t), handles)
  {
    assert SocketOk(T, fd);
    SetTcbUndisturbed(T, fd, t);
    UndisturbedFollows(T, handles, SetTcb(T, fd, t), handles);
  }

  lemma OpenFollows(T: Table, handles: set<Fd>, s: Socket, bindings: map<BindKey, seq<Fd>>)
    requires Coherent(T, handles) && Attended(T) && s.tcb.None? && s.listen.None? && !s.fdClosed
    ensures Follows(T, handles, Insert(T, s).(bindings := bindings), handles + {T.nextId})
  {
    var T' := Insert(T, s).(bindings := bindings);
    assert T.nextId !in T.sockets;
    assert Undisturbed(T, T');
    UndisturbedFollows(T, handles, T', handles + {T.nextId});
  }

  lemma ListenFollows(T: Table, handles: set<Fd>, fd: Fd, backlog: nat)
    requires Coherent(T, handles) && Attended(T) && fd in T.sockets && T.sockets[fd].tcb.None?
    requires T.sockets[fd].listen.None?
    ensures Follows(T, handles, SetSocket(T, fd, T.sockets[fd].(listen := Some(ListenState(backlog, [])))), handles)
  {
    var T' := SetSocket(T, fd, T.sockets[fd].(listen := Some(ListenState(backlog, []))));
    assert Undisturbed(T, T');
    UndisturbedFollows(T, handles, T', handles);
  }

  lemma AttachUndisturbed(T: Table, fd: Fd, s: Socket)
    requires Attended(T) && s.bound.Some? && s.tcb.Some? && s.listen.None? && !s.fdClosed
    requires fd in T.sockets ==> T.sockets[fd].listen.None?
    requires s.tcb.value.state != SynReceived
    ensures Undisturbed(T, Attach(T, fd, s))
  {
  }

  lemma ConnectFollows(T: Table, handles: set<Fd>, fd: Fd, s: Socket)
    requires Coherent(T, handles) && Attended(T) && fd in handles && Attachable(T, fd, s)
    requires s.tcb.value.state != SynReceived
    ensures Follows(T, handles, Attach(T, fd, s), handles)
  {
    AttachUndisturbed(T, fd, s);
    UndisturbedFollows(T, handles, Attach(T, fd, s), handles);
  }

  lemma LingerUndisturbed(T: Table, fd: Fd)
    requires Attended(T) && HasBlock(T.sockets, fd) && T.sockets[fd].listen.None?
    ensures Undisturbed(T, SetSocket(T, fd, LingeringSocket(T.sockets[fd])))
  {
  }

  lemma LingerFollows(T: Table, handles: set<Fd>, fd: Fd)
    requires Coherent(T, handles) && Attended(T) && HasBlock(T.sockets, fd) && fd in handles
    ensures Follows(T, handles, SetSocket(T, fd, LingeringSocket(T.sockets[fd])), handles - {fd})
  {
    assert SocketOk(T, fd);
    var T' := SetSocket(T, fd, LingeringSocket(T.sockets[fd]));
    LingerUndisturbed(T, fd);
    UndisturbedFollows(T, handles, T', handles - {fd});
  }

  lemma RemoveFollows(T: Table, handles: set<Fd>, fd: Fd)
    requires Coherent(T, handles) && Attended(T) && fd in T.sockets && T.sockets[fd].listen.None?
    ensures Follows(T, handles, Remove(T, fd), handles - {fd})
  {
    assert Undisturbed(T, Remove(T, fd));
    UndisturbedFollows(T, handles, Remove(T, fd), handles - {fd});
  }

  // ---- sweeps ----

  lemma VisitAborts(s: Socket, lim: Limits, sweep: Sweep)
    requires LimitsOk(lim) && s.tcb.Some? && TcbOk(s.tcb.value)
    ensures var t := Visit(s, lim, sweep).0.tcb.value;
            && (s.tcb.value.state == SynReceived ==> t.state == SynReceived || Aborted(t))
            && (Aborted(s.tcb.value) ==> Aborted(t))
  {
  }

  lemma {:induction false} SweepFollows(T: Table, handles: set<Fd>, lim: Limits, sweep: Sweep)
    requires Coherent(T, handles) && Attended(T) && LimitsOk(lim)
    ensures Follows(T, handles, SweepTable(T, lim, sweep), handles)
  {
    var T' := SweepTable(T, lim, sweep);
    SweepQuiet(T, lim, sweep);
    assert Undisturbed(T, T');
    forall fd | Waiting(T', handles, fd)
      ensures InHandshake(T, fd) || AbortedAt(T, fd) ==> AbortedAt(T', fd)
    {
      assert SocketOk(T, fd);
      VisitAborts(T.sockets[fd], lim, sweep);
    }
    UndisturbedFollows(T, handles, T', handles);
  }

  // ---- accepting ----

  lemma TailHasRest(s: seq<Fd>, x: Fd)
    requires s != []
    ensures x in s <==> x == s[0] || x in s[1..]
  {
  }

  lemma SetReadyAttends(T: Table, l: Fd, ready: seq<Fd>)
    requires Attended(T) && Listening(T, l)
    ensures Attended(SetReady(T, l, ready))
  {
    var T' := SetReady(T, l, ready);
    forall m, fd | InHandshake(T', fd) && InHandshake(T, fd) && ServedBy(T, m, fd) ensures ServedBy(T', m, fd) {
    }
    StaysAttended(T, T');
  }

  lemma AcceptFollows(T: Table, handles: set<Fd>, l: Fd)
    requires Coherent(T, handles) && Attended(T) && Listening(T, l) && ReadyOf(T, l) != []
    ensures Follows(T, handles, SetReady(T, l, ReadyOf(T, l)[1..]), handles + {ReadyOf(T, l)[0]})
  {
    var ready := ReadyOf(T, l);
    var T' := SetReady(T, l, ready[1..]);
    SetReadyAttends(T, l, ready[1..]);
    forall fd | Waiting(T', handles + {ready[0]}, fd) ensures Arrives(T, handles, T', fd) {
      TailHasRest(ready, fd);
      forall m ensures Queued(T', m, fd) <==> Queued(T, m, fd) {
      }
    }
  }

  // ---- arrivals ----

  lemma SetTcbAttends(T: Table, fd: Fd, t: Tcb)
    requires Attended(T) && InHandshake(T, fd) && T.sockets[fd].listen.None? && t.state != SynReceived
    ensures Attended(SetTcb(T, fd, t))
  {
    var T' := SetTcb(T, fd, t);
    forall m, g | InHandshake(T', g) && InHandshake(T, g) && ServedBy(T, m, g) ensures ServedBy(T', m, g) {
    }
    StaysAttended(T, T');
  }

  lemma PromoteQueues(T: Table, fd: Fd, t: Tcb, l: Fd, g: Fd)
    requires fd in T.sockets && T.sockets[fd].listen.None? && Listening(T, l) && fd != l
    ensures InQueue(Promote(T, fd, t, l), g) <==> InQueue(T, g) || g == fd
  {
    var T' := Promote(T, fd, t, l);
    assert Queued(T', l, fd);
    forall m | g != fd ensures Queued(T', m, g) <==> Queued(T, m, g) {
    }
  }

  lemma PromoteFollows(T: Table, handles: set<Fd>, fd: Fd, t: Tcb, l: Fd)
    requires Coherent(T, handles) && Attended(T) && InHandshake(T, fd) && Listening(T, l) && fd != l
    requires t.state == Established && !Aborted(t)
    ensures Follows(T, handles, Promote(T, fd, t, l), handles)
  {
    var T' := Promote(T, fd, t, l);
    assert SocketOk(T, fd);
    SetTcbAttends(T, fd, t);
    SetReadyAttends(SetTcb(T, fd, t), l, ReadyOf(T, l) + [fd]);
    forall g | Waiting(T', handles, g) ensures Arrives(T, handles, T', g) {
      PromoteQueues(T, fd, t, l, g);
    }
  }

  lemma ChildAttends(T: Table, s: Socket, l: Fd)
    requires Attended(T) && s.bound.Some? && s.tcb.Some? && s.listen.None? && T.nextId !in T.sockets
    requires Serves(T, l, s.bound.value.At())
    ensures Attended(AddChild(T, s))
  {
    var T' := AddChild(T, s);
    assert ServedBy(T', l, T.nextId);
    StaysAttended(T, T');
  }

  lemma ChildFollows(T: Table, handles: set<Fd>, s: Socket, l: Fd)
    requires Coherent(T, handles) && Attended(T) && s.bound.Some? && s.tcb.Some? && s.listen.None? && !s.fdClosed
    requires s.tcb.value.state == SynReceived && Serves(T, l, s.bound.value.At())
    ensures Follows(T, handles, AddChild(T, s), handles)
  {
    var T' := AddChild(T, s);
    assert T.nextId !in T.sockets;
    ChildAttends(T, s, l);
    forall g | Waiting(T', handles, g) ensures Arrives(T, handles, T', g) {
      assert g != T.nextId && T'.sockets[g] == T.sockets[g];
      forall m ensures Queued(T', m, g) <==> Queued(T, m, g) {
      }
    }
  }

  /** A segment takes a child out of its handshake by completing or aborting it. */
  lemma OnSynReceived(t: Tcb, s: Segment, cap: nat)
    requires TcbOk(t)
    ensures var t' := OnSegment(t, s, cap).0;
            && (Promotes(t, s) ==> t'.state == Established && !Aborted(t'))
            && (t'.state == SynReceived ==> t.state == SynReceived)
            && (t.state == SynReceived && !Promotes(t, s) ==> t'.state == SynReceived || Aborted(t'))
            && (Aborted(t) ==> Aborted(t'))
  {
  }

  lemma SegmentFollows(T: Table, handles: set<Fd>, fd: Fd, t': Tcb)
    requires Coherent(T, handles) && Attended(T) && HasBlock(T.sockets, fd)
    requires t'.state == SynReceived ==> InHandshake(T, fd)
    requires InHandshake(T, fd) ==> t'.state == SynReceived || Aborted(t')
    requires AbortedAt(T, fd) ==> Aborted(t')
    ensures Follows(T, handles, SetTcb(T, fd, t'), handles)
  {
    assert SocketOk(T, fd);
    SetTcbUndisturbed(T, fd, t');
    UndisturbedFollows(T, handles, SetTcb(T, fd, t'), handles);
  }

  lemma {:induction false} ConnectionFollows(T: Table, handles: set<Fd>, isn: U32, cap: nat, local: Endpoint,
      remote: Endpoint, s: Segment)
    requires Coherent(T, handles) && Attended(T) && (local, remote) in T.connections
    ensures Follows(T, handles, Inbound(T, isn, cap, local, remote, s).table, handles)
  {
    var fd := T.connections[(local, remote)];
    assert IsConnection(T, fd, local, remote) && SocketOk(T, fd);
    var t := T.sockets[fd].tcb.value;
    var t' := OnSegment(t, s, cap).0;
    OnSynReceived(t, s, cap);
    if Promotes(t, s) {
      FindListenerExact(T, local);
      assert InHandshake(T, fd);
      var m :| ServedBy(T, m, fd);
      var l := FindListener(T, local).value;
      assert SocketOk(T, l);
      PromoteFollows(T, handles, fd, t', l);
    } else {
      SegmentFollows(T, handles, fd, t');
    }
  }

  lemma {:induction false} InboundFollows(T: Table, handles: set<Fd>, isn: U32, cap: nat, local: Endpoint,
      remote: Endpoint, s: Segment)
    requires Coherent(T, handles) && Attended(T) && !local.ip.Unspecified()
    ensures Follows(T, handles, Inbound(T, isn, cap, local, remote, s).table, handles)
  {
    if (local, remote) in T.connections {
      ConnectionFollows(T, handles, isn, cap, local, remote, s);
    } else {
      FindListenerExact(T, local);
      var l, T' := FindListener(T, local), Inbound(T, isn, cap, local, remote, s).table;
      if T' == T {
        assert Undisturbed(T, T);
        UndisturbedFollows(T, handles, T, handles);
      } else {
        ChildFollows(T, handles, ChildSocket(T, l.value, local, remote, isn, s), l.value);
      }
    }
  }

  // ---- closing ----

  /** Closing a listener takes its unaccepted children, and no other listener. */
  lemma {:induction false} AfterClosing(T: Table, handles: set<Fd>, l: Fd, fd: Fd)
    requires Coherent(T, handles) && Listening(T, l)
    ensures var T' := Remove(RemoveAll(T, Unaccepted(T, l)), l);
            && (fd in T'.sockets <==> fd in T.sockets && fd != l && !Queued(T, l, fd) && !Unfinished(T, l, fd))
            && (fd in T'.sockets ==> T'.sockets[fd] == T.sockets[fd])
            && (Listening(T', fd) <==> Listening(T, fd) && fd != l)
  {
    RemoveAllSockets(T, Unaccepted(T, l));
    UnacceptedExact(T, handles, l, fd);
    if Listening(T, fd) {
      assert SocketOk(T, fd);
    }
  }

  lemma {:induction false} ClosingServes(T: Table, handles: set<Fd>, l: Fd, T': Table)
    requires Coherent(T, handles) && Attended(T) && Listening(T, l)
    requires T' == Remove(RemoveAll(T, Unaccepted(T, l)), l)
    ensures Attended(T')
  {
    forall fd ensures InHandshake(T', fd) ==> InHandshake(T, fd)
              ensures fd in T'.sockets ==> fd in T.sockets && T'.sockets[fd] == T.sockets[fd] {
      AfterClosing(T, handles, l, fd);
    }
    forall m, fd | InHandshake(T', fd) && InHandshake(T, fd) && ServedBy(T, m, fd) ensures ServedBy(T', m, fd) {
      AfterClosing(T, handles, l, fd);
      AfterClosing(T, handles, l, m);
    }
    StaysAttended(T, T');
  }

  lemma {:induction false} CloseListenerFollows(T: Table, handles: set<Fd>, l: Fd)
    requires Coherent(T, handles) && Attended(T) && Listening(T, l)
    ensures Follows(T, handles, Remove(RemoveAll(T, Unaccepted(T, l)), l), handles - {l})
  {
    var T' := Remove(RemoveAll(T, Unaccepted(T, l)), l);
    ClosingServes(T, handles, l, T');
    assert SocketOk(T, l);
    forall fd | Waiting(T', handles - {l}, fd) ensures Arrives(T, handles, T', fd) {
      AfterClosing(T, handles, l, fd);
      forall m ensures Queued(T', m, fd) <==> Queued(T, m, fd) {
        AfterClosing(T, handles, l, m);
      }
    }
  }

  lemma {:induction false} DropFollows(T: Table, handles: set<Fd>, fd: Fd)
    requires Coherent(T, handles) && Attended(T) && fd in handles && fd in T.sockets
    ensures Follows(T, handles, Drop(T, fd).0, handles - {fd})
  {
    var s := T.sockets[fd];
    if s.listen.Some? {
      CloseListenerFollows(T, handles, fd);
    } else if s.tcb.Some? && !Abandons(s.tcb.value) && s.tcb.value.recvBuf == [] {
      LingerFollows(T, handles, fd);
    } else {
      RemoveFollows(T, handles, fd);
    }
  }

  // ---- every event, every run ----

  lemma {:induction false} CallEventFollows(k: Stack, setup: Setup, e: Event)
    requires setup.Ok() && StackOk(k) && Attended(k.table) && Able(k, e) && (e.Wrote? || e.ShutDown? || e.Received?)
    ensures var k' := Perform(k, setup, e).0; Follows(k.table, k.handles, k'.table, k'.handles)
  {
    assert SocketOk(k.table, e.fd);
    var t := k.table.sockets[e.fd].tcb.value;
    match e
    case Wrote(fd, buf) =>
      CallsAreOk(t, buf, setup.sendCap, [], 0);
      CallFollows(k.table, k.handles, fd, Send(t, buf, setup.sendCap).0);
    case ShutDown(fd) =>
      CallsAreOk(t, [], setup.sendCap, [], 0);
      CallFollows(k.table, k.handles, fd, ShutdownWrite(t).0);
    case Received(fd, lens) =>
      CallsAreOk(t, [], setup.sendCap, lens, setup.lim.recvCap);
      CallFollows(k.table, k.handles, fd, Recv(t, lens, setup.lim.recvCap).0);
  }

  lemma {:induction false} SocketEventFollows(k: Stack, setup: Setup, e: Event)
    requires setup.Ok() && StackOk(k) && Attended(k.table) && Able(k, e)
    requires e.Opened? || e.Bound? || e.Listened? || e.Connected? || e.Accepted?
    ensures var k' := Perform(k, setup, e).0; Follows(k.table, k.handles, k'.table, k'.handles)
  {
    var T := k.table;
    match e
    case Opened(domain, ty) => OpenFollows(T, k.handles, NewSocket(domain, ty), T.bindings);
    case Bound(key) =>
      OpenFollows(T, k.handles, NewSocket(key.domain, key.ty).(bound := Some(key)), BindNew(T, key).bindings);
    case Listened(fd, backlog) => ListenFollows(T, k.handles, fd, backlog);
    case Connected(fd, src, peer) =>
      ClientAttachable(T, fd, src, peer, k.isn);
      ConnectFollows(T, k.handles, fd, ClientSocket(T.sockets[fd], src, peer, k.isn));
    case Accepted(fd) => AcceptFollows(T, k.handles, fd);
  }

  /** Whatever happens: a socket that waits to be accepted either waited before,
      and is queued as before; or it just left its handshake, and is queued
      exactly if it was not aborted. */
  lemma {:induction false} PerformFollows(k: Stack, setup: Setup, e: Event)
    requires setup.Ok() && StackOk(k) && Attended(k.table)
    ensures var k' := Perform(k, setup, e).0; Follows(k.table, k.handles, k'.table, k'.handles)
  {
    if Able(k, e) {
      match e
      case Arrived(p) =>
        if p.Tcp? {
          InboundFollows(k.table, k.handles, k.isn, setup.lim.recvCap, p.dst, p.src, p.seg);
        } else {
          UndisturbedFollows(k.table, k.handles, k.table, k.handles);
        }
      case Swept(sweep) => SweepFollows(k.table, k.handles, setup.lim, sweep);
      case Dropped(fd) => DropFollows(k.table, k.handles, fd);
      case Reaped(fd) =>
        assert SocketOk(k.table, fd);
        NotWaiting(k.table, k.handles, fd);
        RemoveFollows(k.table, k.handles, fd);
        assert k.handles - {fd} == k.handles;
      case Wrote(_, _) => CallEventFollows(k, setup, e);
      case ShutDown(_) => CallEventFollows(k, setup, e);
      case Received(_, _) => CallEventFollows(k, setup, e);
      case _ => SocketEventFollows(k, setup, e);
    } else {
      UndisturbedFollows(k.table, k.handles, k.table, k.handles);
    }
  }

  /** Every finished handshake nobody was given is in an accept queue, unless the
      connection was aborted. */
  ghost predicate AllListed(k: Stack) {
    forall fd :: Waiting(k.table, k.handles, fd) && !AbortedAt(k.table, fd) ==> InQueue(k.table, fd)
  }

  /** From any such state, for good: a reset connection does not come back. */
  lemma {:induction false} FinishedIsQueued(k: Stack, setup: Setup, es: seq<Event>)
    requires setup.Ok() && StackOk(k) && Attended(k.table) && AllListed(k)
    ensures var k' := Play(k, setup, es).0; StackOk(k') && Attended(k'.table) && AllListed(k')
  {
    if es != [] {
      var before, e := es[..|es| - 1], es[|es| - 1];
      FinishedIsQueued(k, setup, before);
      var k1 := Play(k, setup, before).0;
      PerformKeeps(k1, setup, e);
      PerformFollows(k1, setup, e);
    }
  }

  /** A child whose handshake is reset waits for ever: no queue has it, the
      tuple stays taken, and a new SYN on it is not answered. */
  lemma {:induction false} ResetChildIsForgotten(k: Stack, setup: Setup, p: Packet, syn: Segment)
    requires setup.Ok() && StackOk(k) && p.Tcp? && !p.dst.ip.Unspecified() && p.seg.flags.rst
    requires (p.dst, p.src) in k.table.connections && InHandshake(k.table, k.table.connections[(p.dst, p.src)])
    requires syn.flags.syn && !syn.flags.rst && !syn.flags.ack
    ensures var fd := k.table.connections[(p.dst, p.src)];
            var k' := Perform(k, setup, Arrived(p)).0;
            && Waiting(k'.table, k'.handles, fd) && !InQueue(k'.table, fd)
            && Perform(k', setup, Arrived(Tcp(p.src, p.dst, syn))) == (k', [])
  {
    var T, fd := k.table, k.table.connections[(p.dst, p.src)];
    assert IsConnection(T, fd, p.dst, p.src) && SocketOk(T, fd);
    PerformKeeps(k, setup, Arrived(p));
    NotWaiting(T, k.handles, fd);
    var t' := Abort(T.sockets[fd].tcb.value, true);
    var T' := SetTcb(T, fd, t');
    ArrivalPerforms(k, setup, p);
    forall m ensures !Queued(T', m, fd) {
      assert !Queued(T, m, fd);
    }
    ArrivalPerforms(k.(table := T'), setup, Tcp(p.src, p.dst, syn));
    assert T'.sockets[fd := T'.sockets[fd].(tcb := Some(t'))] == T'.sockets;
  }

  // ---- resets on close ----

  /** The packet resets the connection that the socket holds. */
  predicate Resets(p: Packet, T: Table, fd: Fd) {
    && HasBlock(T.sockets, fd) && T.sockets[fd].bound.Some?
    && p.Tcp? && p.src == T.sockets[fd].bound.value.At() && p.dst == T.sockets[fd].tcb.value.peer
    && p.seg.flags.rst && p.seg.seqNo == T.sockets[fd].tcb.value.sndNxt && p.seg.payload == []
  }

  lemma {:induction false} RstsExact(T: Table, fds: seq<Fd>)
    requires forall fd :: fd in fds ==> HasBlock(T.sockets, fd) && T.sockets[fd].bound.Some?
    ensures |Rsts(T, fds)| == |fds| && forall i :: 0 <= i < |fds| ==> Resets(Rsts(T, fds)[i], T, fds[i])
  {
    if fds != [] {
      var before, fd := fds[..|fds| - 1], fds[|fds| - 1];
      assert fd in fds && forall g :: g in before ==> g in fds;
      RstsExact(T, before);
      assert Resets(RstOf(T, fd)[0], T, fd);
    }
  }

  lemma {:induction false} UnacceptedReset(T: Table, handles: set<Fd>, l: Fd)
    requires Coherent(T, handles) && Listening(T, l)
    ensures var out := Rsts(T, Unaccepted(T, l));
            && |out| == |Unaccepted(T, l)|
            && (forall i :: 0 <= i < |out| ==> Resets(out[i], T, Unaccepted(T, l)[i]))
  {
    forall fd | fd in Unaccepted(T, l) ensures HasBlock(T.sockets, fd) && T.sockets[fd].bound.Some? {
      UnacceptedExact(T, handles, l, fd);
      assert SocketOk(T, fd);
    }
    RstsExact(T, Unaccepted(T, l));
  }

  /** Closing a listener resets each child that nobody accepted, once, and
      nothing else; and the children are gone. */
  lemma {:induction false} ListenerCloseResets(T: Table, handles: set<Fd>, l: Fd)
    requires Coherent(T, handles) && Listening(T, l)
    ensures var (T', out) := Drop(T, l);
            && |out| == |Unaccepted(T, l)|
            && (forall i :: 0 <= i < |out| ==> Resets(out[i], T, Unaccepted(T, l)[i]))
            && (forall fd :: Queued(T, l, fd) || Unfinished(T, l, fd) ==> fd in Unaccepted(T, l) && fd !in T'.sockets)
  {
    UnacceptedReset(T, handles, l);
    forall fd | Queued(T, l, fd) || Unfinished(T, l, fd)
      ensures fd in Unaccepted(T, l) && fd !in Remove(RemoveAll(T, Unaccepted(T, l)), l).sockets
    {
      UnacceptedExact(T, handles, l, fd);
      AfterClosing(T, handles, l, fd);
    }
  }

  /** Closing a live connection resets it exactly if received bytes were never
      read; otherwise it is shut down and stays until it is done. */
  lemma CloseResetsIff(k: Stack, setup: Setup, fd: Fd)
    requires setup.Ok() && StackOk(k) && fd in k.handles && HasBlock(k.table.sockets, fd)
    requires !Abandons(k.table.sockets[fd].tcb.value)
    ensures var (k', out) := Perform(k, setup, Dropped(fd));
            if k.table.sockets[fd].tcb.value.recvBuf != []
            then |out| == 1 && Resets(out[0], k.table, fd) && fd !in k'.table.sockets
            else out == [] && HasBlock(k'.table.sockets, fd) && k'.table.sockets[fd].tcb.value.wrClosed
                 && k'.table.sockets[fd].tcb.value.sendBuf == k.table.sockets[fd].tcb.value.sendBuf
  {
    assert SocketOk(k.table, fd);
  }

  /** A dropped connection that is done is reaped, and with it its tuple and,
      unless others are bound there too, its port are free again. */
  lemma {:induction false} DoneIsReaped(k: Stack, setup: Setup, fd: Fd)
    requires setup.Ok() && StackOk(k) && HasBlock(k.table.sockets, fd) && k.table.sockets[fd].fdClosed
    requires k.table.sockets[fd].tcb.value.state == Closed
    ensures k.table.sockets[fd].bound.Some?
    ensures var k' := Perform(k, setup, Reaped(fd)).0;
            var key := k.table.sockets[fd].bound.value;
            && fd !in k'.table.sockets && k'.table.sockets == k.table.sockets - {fd}
            && (key.At(), k.table.sockets[fd].tcb.value.peer) !in k'.table.connections
            && (BoundAt(k.table, key) == [fd] ==> key !in k'.table.bindings)
  {
    assert SocketOk(k.table, fd);
    if BoundAt(k.table, k.table.sockets[fd].bound.value) == [fd] {
      assert Without([fd], fd) == Without([fd][1..], fd) == [];
    }
  }

  // ---- the whole way to accept ----

  lemma {:induction false} FirstListeningSame(T: Table, T': Table, fds: seq<Fd>)
    requires forall fd :: fd in fds ==> (Listening(T', fd) <==> Listening(T, fd))
    ensures FirstListening(T', fds) == FirstListening(T, fds)
  {
    if fds != [] {
      FirstListeningSame(T, T', fds[1..]);
    }
  }

  lemma {:induction false} FirstListeningSnoc(T: Table, fds: seq<Fd>, fd: Fd)
    requires !Listening(T, fd)
    ensures FirstListening(T, fds + [fd]) == FirstListening(T, fds)
  {
    if fds != [] {
      FirstListeningSnoc(T, fds[1..], fd);
      assert (fds + [fd])[1..] == fds[1..] + [fd];
    }
  }

  lemma ChildHidesNoListener(T: Table, s: Socket, key: BindKey)
    requires IndicesAgree(T) && s.bound.Some? && s.tcb.Some? && s.listen.None?
    ensures FirstListening(AddChild(T, s), BoundAt(AddChild(T, s), key)) == FirstListening(T, BoundAt(T, key))
  {
    var T', fds := AddChild(T, s), BoundAt(T, key);
    forall fd | fd in fds ensures Listening(T', fd) <==> Listening(T, fd) {
      FindByBindIsLinearScan(T, fd, key);
      assert SocketOk(T, fd);
    }
    FirstListeningSame(T, T', fds);
    FirstListeningSnoc(T', fds, T.nextId);
  }

  lemma ChildKeepsListener(T: Table, s: Socket, local: Endpoint)
    requires IndicesAgree(T) && s.bound.Some? && s.tcb.Some? && s.listen.None?
    ensures FindListener(AddChild(T, s), local) == FindListener(T, local)
  {
    ChildHidesNoListener(T, s, ExactKey(local));
    ChildHidesNoListener(T, s, WildcardKey(local));
  }

  /** The tuple has this block. */
  ghost predicate Holds(k: Stack, local: Endpoint, remote: Endpoint, fd: Fd, t: Tcb) {
    && StackOk(k) && (local, remote) in k.table.connections && k.table.connections[(local, remote)] == fd
    && HasBlock(k.table.sockets, fd) && k.table.sockets[fd].tcb.value == t
  }

  lemma {:induction false} ConnectSends(k: Stack, setup: Setup, fd: Fd, client: Endpoint, server: Endpoint)
    requires setup.Ok() && StackOk(k) && Able(k, Connected(fd, client, server))
    ensures var (k1, out) := Perform(k, setup, Connected(fd, client, server));
            && out == [Tcp(client, server, Syn(k.isn))]
            && Holds(k1, client, server, fd, NewTcb(SynSent, server, k.isn, DEFAULT_WINDOW, 0))
  {
    PerformKeeps(k, setup, Connected(fd, client, server));
  }

  /** A segment on the tuple that does not complete a passive open. */
  lemma {:induction false} ArrivesAt(k: Stack, setup: Setup, local: Endpoint, remote: Endpoint, fd: Fd, t: Tcb,
      s: Segment)
    requires setup.Ok() && Holds(k, local, remote, fd, t) && !local.ip.Unspecified() && !Promotes(t, s)
    ensures SendSideOk(t)
    ensures var (k', out) := Perform(k, setup, Arrived(Tcp(remote, local, s)));
            && out == Reply(local, remote, OnSegment(t, s, setup.lim.recvCap).1)
            && Holds(k', local, remote, fd, OnSegment(t, s, setup.lim.recvCap).0)
  {
    assert IsConnection(k.table, fd, local, remote) && SocketOk(k.table, fd);
    PerformKeeps(k, setup, Arrived(Tcp(remote, local, s)));
    ArrivalPerforms(k, setup, Tcp(remote, local, s));
  }

  /** The server's answer to a SYN it admits. */
  function ServerBlock(k: Stack, client: Endpoint, syn: Segment): Tcb {
    NewTcb(SynReceived, client, k.isn, syn.window, WrappingAdd(syn.seqNo, 1))
  }

  predicate Admits(T: Table, l: Fd, server: Endpoint, client: Endpoint) {
    && !server.ip.Unspecified() && (server, client) !in T.connections && FindListener(T, server) == Some(l)
    && Listening(T, l) && |Children(T, server)| + |ReadyOf(T, l)| < T.sockets[l].listen.value.backlog
  }

  lemma {:induction false} SynIsAnswered(k: Stack, setup: Setup, l: Fd, server: Endpoint, client: Endpoint,
      syn: Segment)
    requires setup.Ok() && StackOk(k) && Admits(k.table, l, server, client) && syn.flags == NO_FLAGS.(syn := true)
    ensures var (k1, out) := Perform(k, setup, Arrived(Tcp(client, server, syn)));
            && out == [Tcp(server, client, SynAck(k.isn, syn))]
            && Holds(k1, server, client, k.table.nextId, ServerBlock(k, client, syn))
            && FindListener(k1.table, server) == Some(l) && Listening(k1.table, l)
            && ReadyOf(k1.table, l) == ReadyOf(k.table, l) && k1.handles == k.handles
  {
    HandshakesAreChildren(k.table, server);
    PerformKeeps(k, setup, Arrived(Tcp(client, server, syn)));
    ArrivalPerforms(k, setup, Tcp(client, server, syn));
    assert SocketOk(k.table, l);
    ChildKeepsListener(k.table, ChildSocket(k.table, l, server, client, k.isn, syn), server);
  }

  lemma {:induction false} AckIsQueued(k: Stack, setup: Setup, l: Fd, server: Endpoint, client: Endpoint, fd: Fd,
      t: Tcb,
      s: Segment)
    requires setup.Ok() && Holds(k, server, client, fd, t) && !server.ip.Unspecified() && Promotes(t, s)
    requires FindListener(k.table, server) == Some(l)
    ensures SendSideOk(t) && Listening(k.table, l)
    ensures var k' := Perform(k, setup, Arrived(Tcp(client, server, s))).0;
            && Holds(k', server, client, fd, OnSegment(t, s, setup.lim.recvCap).0) && k'.handles == k.handles
            && Listening(k'.table, l) && ReadyOf(k'.table, l) == ReadyOf(k.table, l) + [fd]
  {
    FindListenerExact(k.table, server);
    assert SocketOk(k.table, fd) && SocketOk(k.table, l);
    PerformKeeps(k, setup, Arrived(Tcp(client, server, s)));
    ArrivalPerforms(k, setup, Tcp(client, server, s));
    CompletionIsQueued(k.table, k.handles, k.isn, setup.lim.recvCap, server, client, s, l);
  }

  /** An open connection between the two kernels, as both see it. */
  ghost predicate Joined(c: Stack, s: Stack, fd: Fd, child: Fd, client: Endpoint, server: Endpoint) {
    && HasBlock(c.table.sockets, fd) && HasBlock(s.table.sockets, child)
    && var t, u := c.table.sockets[fd].tcb.value, s.table.sockets[child].tcb.value;
    && Holds(c, client, server, fd, t) && Holds(s, server, client, child, u)
    && t.peer == server && u.peer == client && Handshake.OpenPair(t, u)
  }

  lemma AcceptTakes(k: Stack, setup: Setup, l: Fd, child: Fd)
    requires setup.Ok() && StackOk(k) && Listening(k.table, l) && ReadyOf(k.table, l) == [child]
    ensures var k' := Perform(k, setup, Accepted(l)).0;
            k'.handles == k.handles + {child} && Listening(k'.table, l) && ReadyOf(k'.table, l) == []
  {
  }

  lemma {:induction false} SynAckIsAnswered(c: Stack, cs: Setup, s: Stack, fd: Fd, client: Endpoint, server: Endpoint,
      isn: U32, sCap: nat)
    requires cs.Ok() && !client.ip.Unspecified()
    requires Holds(c, client, server, fd, NewTcb(SynSent, server, isn, DEFAULT_WINDOW, 0))
    ensures var (c2, out) := Perform(c, cs, Arrived(Tcp(server, client, SynAck(s.isn, Syn(isn)))));
            && |out| == 1 && out[0].Tcp? && out[0].src == client && out[0].dst == server
            && var u := ServerBlock(s, client, Syn(isn));
            && Promotes(u, out[0].seg) && SendSideOk(u)
            && HasBlock(c2.table.sockets, fd)
            && var t := c2.table.sockets[fd].tcb.value;
            && Holds(c2, client, server, fd, t) && t.peer == server
            && Handshake.OpenPair(t, OnSegment(u, out[0].seg, sCap).0)
  {
    var t0, synAck := NewTcb(SynSent, server, isn, DEFAULT_WINDOW, 0), SynAck(s.isn, Syn(isn));
    ArrivesAt(c, cs, client, server, fd, t0, synAck);
    Handshake.OpeningCompletes(client, server, isn, s.isn, cs.lim.recvCap, sCap);
  }

  /** The ACK that answers the SYN-ACK joins the two, in the listener's queue. */
  lemma {:induction false} AckJoins(c2: Stack, s1: Stack, ss: Setup, fd: Fd, child: Fd, client: Endpoint,
      server: Endpoint, l: Fd, u: Tcb, ack: Segment)
    requires ss.Ok() && !server.ip.Unspecified() && SendSideOk(u) && u.peer == client
    requires HasBlock(c2.table.sockets, fd) && Holds(c2, client, server, fd, c2.table.sockets[fd].tcb.value)
    requires c2.table.sockets[fd].tcb.value.peer == server
    requires Handshake.OpenPair(c2.table.sockets[fd].tcb.value, OnSegment(u, ack, ss.lim.recvCap).0)
    requires Holds(s1, server, client, child, u) && Promotes(u, ack) && FindListener(s1.table, server) == Some(l)
    ensures Listening(s1.table, l)
    ensures var s2 := Perform(s1, ss, Arrived(Tcp(client, server, ack))).0;
            && Joined(c2, s2, fd, child, client, server) && s2.handles == s1.handles
            && Listening(s2.table, l) && ReadyOf(s2.table, l) == ReadyOf(s1.table, l) + [child]
            && (ReadyOf(s1.table, l) == [] ==>
                  var s3 := Perform(s2, ss, Accepted(l)).0;
                  s3.handles == s1.handles + {child} && Listening(s3.table, l) && ReadyOf(s3.table, l) == [])
  {
    AckIsQueued(s1, ss, l, server, client, child, u, ack);
    assert OnSegment(u, ack, ss.lim.recvCap).0.peer == client;
    if ReadyOf(s1.table, l) == [] {
      AcceptTakes(Perform(s1, ss, Arrived(Tcp(client, server, ack))).0, ss, l, child);
    }
  }

  /** Between any two kernels: connecting to an endpoint whose listener has room
      leads, by SYN, SYN-ACK and ACK, to an open connection at the end of that
      listener's queue; and if nobody else was waiting, the next `accept` hands
      it over. */
  lemma {:induction false} ConnectIsAccepted(c: Stack, cs: Setup, s: Stack, ss: Setup, fd: Fd, client: Endpoint,
      server: Endpoint, l: Fd)
    requires cs.Ok() && ss.Ok() && StackOk(c) && StackOk(s)
    requires Able(c, Connected(fd, client, server)) && Admits(s.table, l, server, client)
    ensures var (c1, syn) := Perform(c, cs, Connected(fd, client, server));
            && |syn| == 1
            && var (s1, synAck) := Perform(s, ss, Arrived(syn[0]));
            && |synAck| == 1
            && var (c2, ack) := Perform(c1, cs, Arrived(synAck[0]));
            && |ack| == 1
            && var (s2, child) := (Perform(s1, ss, Arrived(ack[0])).0, s.table.nextId);
            && Joined(c2, s2, fd, child, client, server)
            && Listening(s2.table, l) && ReadyOf(s2.table, l) == ReadyOf(s.table, l) + [child]
            && (ReadyOf(s.table, l) == [] ==>
                  var s3 := Perform(s2, ss, Accepted(l)).0;
                  s3.handles == s.handles + {child} && Listening(s3.table, l) && ReadyOf(s3.table, l) == [])
  {
    ConnectSends(c, cs, fd, client, server);
    var c1 := Perform(c, cs, Connected(fd, client, server)).0;
    SynIsAnswered(s, ss, l, server, client, Syn(c.isn));
    var s1 := Perform(s, ss, Arrived(Tcp(client, server, Syn(c.isn)))).0;
    SynAckIsAnswered(c1, cs, s, fd, client, server, c.isn, ss.lim.recvCap);
    var ack := Perform(c1, cs, Arrived(Tcp(server, client, SynAck(s.isn, Syn(c.isn))))).1[0].seg;
    var c2 := Perform(c1, cs, Arrived(Tcp(server, client, SynAck(s.isn, Syn(c.isn))))).0;
    AckJoins(c2, s1, ss, fd, s.table.nextId, client, server, l, ServerBlock(s, client, Syn(c.isn)), ack);
  }
}
