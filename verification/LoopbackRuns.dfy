/** One kernel that holds both ends of a connection: what the loopback pump is
    for. Its runs, too, are runs of `Connection`. */
module LoopbackRuns {
  import opened Common
  import opened SeqSpace
  import opened Addresses
  import opened TcbSpec
  import opened SocketTable
  import opened KernelSpec
  import opened StackSpec
  import opened Projection
  import Connection
  import ConnectionSafety
  import KernelRuns

  /** The kernel, what the applications did at either end, and every packet it
      ever queued. */
  datatype Lone = Lone(stack: Stack, client: Tape, server: Tape, out: seq<Packet>)

  datatype Loop = Loop(client: Endpoint, server: Endpoint, setup: Setup) {
    predicate Ok() { setup.Ok() && client != server }

    function ClientEnd(): End { End(client, server) }

    function ServerEnd(): End { End(server, client) }

    function Net(): (net: Connection.Net)
      requires Ok()
      ensures net.Ok()
    {
      Connection.Net(CfgOf(setup, ClientEnd()), CfgOf(setup, ServerEnd()))
    }
  }

  const START := Lone(Stack(Table(1, map[], map[], map[]), 0x0100_0000, {}), BLANK, BLANK, [])

  ghost function Advance(l: Loop, w: Lone, e: Event): Lone {
    var (k, out) := Perform(w.stack, l.setup, e);
    Lone(k,
         Extend(w.client, k.table, l.ClientEnd(), WrittenBy(w.stack, l.setup, e, l.ClientEnd()),
                ReadBy(w.stack, l.setup, e, l.ClientEnd())),
         Extend(w.server, k.table, l.ServerEnd(), WrittenBy(w.stack, l.setup, e, l.ServerEnd()),
                ReadBy(w.stack, l.setup, e, l.ServerEnd())),
         w.out + out)
  }

  /** Any sequence of events. */
  ghost function Run(l: Loop, es: seq<Event>): Lone {
    if es == [] then START else Advance(l, Run(l, es[..|es| - 1]), es[|es| - 1])
  }

  /** Packets that carry the pair of endpoints were queued before, and may come
      any number of times, in any order, or never; others may come from
      anywhere. Each end is opened once, one by connect, the other by a SYN. */
  ghost predicate Allowed(l: Loop, w: Lone, e: Event) {
    && (e.Arrived? && (OnTuple(e.packet, l.ClientEnd()) || OnTuple(e.packet, l.ServerEnd())) ==> e.packet in w.out)
    && OpensOnce(w.stack, l.setup, e, l.ClientEnd(), w.client, false)
    && OpensOnce(w.stack, l.setup, e, l.ServerEnd(), w.server, true)
  }

  ghost predicate Legal(l: Loop, es: seq<Event>) {
    es != [] ==>
      var before := es[..|es| - 1];
      Legal(l, before) && Allowed(l, Run(l, before), es[|es| - 1])
  }

  // ---- the run of the connection ----

  function ActionOf(byClient: bool, op: Option<Connection.Op>): seq<Connection.Action> {
    if op.Some? then [Connection.Action(byClient, op.value)] else []
  }

  /** What an event is for the two ends. */
  function ProjectEvent(l: Loop, w: Lone, e: Event): seq<Connection.Action> {
    ActionOf(true, Project(w.stack, e, l.ClientEnd())) + ActionOf(false, Project(w.stack, e, l.ServerEnd()))
  }

  ghost function ProjectRun(l: Loop, es: seq<Event>): seq<Connection.Action> {
    if es == [] then []
    else ProjectRun(l, es[..|es| - 1]) + ProjectEvent(l, Run(l, es[..|es| - 1]), es[|es| - 1])
  }

  /** Both ends and the hosts of `Connection` they are. */
  ghost predicate Twins(l: Loop, w: Lone, c: Connection.World) {
    && StackOk(w.stack)
    && Mirrors(w.stack.table, w.client, c.client, l.ClientEnd()) && !c.client.listens
    && Mirrors(w.stack.table, w.server, c.server, l.ServerEnd()) && c.server.listens
    && c.fromClient == Carried(w.out, l.ClientEnd()) && c.fromServer == Carried(w.out, l.ServerEnd())
  }

  lemma {:induction false} OneActs(l: Loop, before: seq<Connection.Action>, byClient: bool, op: Option<Connection.Op>)
    requires l.Ok()
    ensures var c := Connection.Run(l.Net(), before);
            Connection.Run(l.Net(), before + ActionOf(byClient, op))
            == if byClient then
                 var (h, out) := StepOf(c.client, l.setup, l.ClientEnd(), op, c.fromServer);
                 c.(client := h, fromClient := c.fromClient + out)
               else
                 var (h, out) := StepOf(c.server, l.setup, l.ServerEnd(), op, c.fromClient);
                 c.(server := h, fromServer := c.fromServer + out)
  {
    if op.None? {
      assert before + [] == before;
    } else {
      ConnectionSnoc(l.Net(), before, byClient, op.value);
    }
  }

  lemma {:induction false} BothAct(l: Loop, before: seq<Connection.Action>, forClient: Option<Connection.Op>,
      forServer: Option<Connection.Op>)
    requires l.Ok()
    ensures var c := Connection.Run(l.Net(), before);
            var (x, fromX) := StepOf(c.client, l.setup, l.ClientEnd(), forClient, c.fromServer);
            var (y, fromY) := StepOf(c.server, l.setup, l.ServerEnd(), forServer, c.fromClient + fromX);
            Connection.Run(l.Net(), before + (ActionOf(true, forClient) + ActionOf(false, forServer)))
            == Connection.World(x, y, c.fromClient + fromX, c.fromServer + fromY)
  {
    OneActs(l, before, true, forClient);
    OneActs(l, before + ActionOf(true, forClient), false, forServer);
    assert before + (ActionOf(true, forClient) + ActionOf(false, forServer))
        == (before + ActionOf(true, forClient)) + ActionOf(false, forServer);
  }

  lemma QueuedIsCarried(out: seq<Packet>, p: Packet, end: End)
    requires OnTuple(p, end) && p in out
    ensures p.seg in Carried(out, End(end.remote, end.local))
  {
  }

  /** One end's part in an event. */
  lemma {:induction false} EndSteps(k: Stack, setup: Setup, e: Event, end: End, tape: Tape, out: seq<Packet>, h: Host,
      inbound: set<Segment>)
    requires setup.Ok() && StackOk(k) && Mirrors(k.table, tape, h, end) && Connection.Sane(h)
    requires OpensOnce(k, setup, e, end, tape, h.listens)
    requires e.Arrived? && OnTuple(e.packet, end) ==> e.packet in out
    requires Carried(out, End(end.remote, end.local)) <= inbound
    ensures var (h', more) := StepOf(h, setup, end, Project(k, e, end), inbound);
            var (k', queued) := Perform(k, setup, e);
            && Mirrors(k'.table, Extend(tape, k'.table, end, WrittenBy(k, setup, e, end), ReadBy(k, setup, e, end)),
                h', end)
            && Carried(out + queued, end) == Carried(out, end) + more
            && h'.listens == h.listens
  {
    if e.Arrived? && OnTuple(e.packet, end) {
      QueuedIsCarried(out, e.packet, end);
    }
    EventSteps(k, setup, e, end, tape, h, inbound);
    CarriedAppend(out, Perform(k, setup, e).1, end);
  }

  lemma {:induction false} EventIsSteps(l: Loop, w: Lone, e: Event, before: seq<Connection.Action>)
    requires l.Ok() && Twins(l, w, Connection.Run(l.Net(), before)) && Allowed(l, w, e)
    ensures Twins(l, Advance(l, w, e), Connection.Run(l.Net(), before + ProjectEvent(l, w, e)))
  {
    var c := Connection.Run(l.Net(), before);
    var forClient, forServer := Project(w.stack, e, l.ClientEnd()), Project(w.stack, e, l.ServerEnd());
    var fromX := StepOf(c.client, l.setup, l.ClientEnd(), forClient, c.fromServer).1;
    BothAct(l, before, forClient, forServer);
    EndSteps(w.stack, l.setup, e, l.ClientEnd(), w.client, w.out, c.client, c.fromServer);
    EndSteps(w.stack, l.setup, e, l.ServerEnd(), w.server, w.out, c.server, c.fromClient + fromX);
    PerformKeeps(w.stack, l.setup, e);
  }

  lemma StartsAsTwins(l: Loop)
    requires l.Ok()
    ensures Twins(l, Run(l, []), Connection.Run(l.Net(), []))
  {
    assert Carried([], l.ClientEnd()) == {} == Carried([], l.ServerEnd());
  }

  /** The kernel's run, projected on both ends, is the run of the connection. */
  lemma {:induction false} LoopbackIsConnection(l: Loop, es: seq<Event>)
    requires l.Ok() && Legal(l, es)
    ensures Twins(l, Run(l, es), Connection.Run(l.Net(), ProjectRun(l, es)))
  {
    if es == [] {
      StartsAsTwins(l);
    } else {
      var before := es[..|es| - 1];
      LoopbackIsConnection(l, before);
      EventIsSteps(l, Run(l, before), es[|es| - 1], ProjectRun(l, before));
    }
  }

  // ---- so it is safe ----

  predicate Bounded(w: Lone) {
    FitsSequenceSpace(|w.client.written|) && FitsSequenceSpace(|w.server.written|)
  }

  /** What `recv` returned at either end is a prefix of what `send` accepted at
      the other. */
  lemma {:induction false} LoopbackPrefixSafety(l: Loop, es: seq<Event>)
    requires l.Ok() && Legal(l, es) && Bounded(Run(l, es))
    ensures var w := Run(l, es); w.server.read <= w.client.written && w.client.read <= w.server.written
  {
    LoopbackIsConnection(l, es);
    ConnectionSafety.PrefixSafety(l.Net(), ProjectRun(l, es));
  }

  lemma {:induction false} LoopbackNoTruncatedEof(l: Loop, es: seq<Event>, lens: seq<nat>)
    requires l.Ok() && Legal(l, es) && Bounded(Run(l, es))
    ensures var w := Run(l, es);
            && (SeesEof(w.stack.table, l.ServerEnd(), lens, l.setup.lim.recvCap) ==>
                  w.server.read == w.client.written && w.client.finished)
            && (SeesEof(w.stack.table, l.ClientEnd(), lens, l.setup.lim.recvCap) ==>
                  w.client.read == w.server.written && w.server.finished)
  {
    LoopbackIsConnection(l, es);
    if TcbSpec.Total(lens) > 0 {
      ConnectionSafety.NoTruncatedEof(l.Net(), ProjectRun(l, es), lens);
    }
  }
  // ---- there are such runs ----

  /** A listener and a client of the same kernel, and the SYN looped back. */
  function OpeningEvents(l: Loop): seq<Event> {
    [Bound(ExactKey(l.server)), Listened(1, 1), Opened(l.client.ip.Family(), Stream),
     Connected(2, l.client, l.server), Arrived(Tcp(l.client, l.server, Syn(0x0100_0000)))]
  }

  predicate Openable(l: Loop) {
    l.Ok() && !l.client.ip.Unspecified() && !l.server.ip.Unspecified() && l.client.port != l.server.port
  }

  /** The kernel with its listener. */
  function Listener(l: Loop): Stack {
    Stack(KernelRuns.ListeningTable(l.server), 0x0100_0000, {1})
  }

  ghost function WithClient(l: Loop): Stack {
    Perform(Listener(l), l.setup, Opened(l.client.ip.Family(), Stream)).0
  }

  lemma ListenerIsOk(l: Loop)
    requires l.Ok()
    ensures StackOk(Listener(l))
  {
    KernelRuns.ListenerOpens(l.server, l.setup);
  }

  /** The kernel with a connecting client beside the listener. */
  ghost predicate Connecting(l: Loop, k: Stack) {
    && IndicesAgree(k.table) && k.table.nextId == 3
    && k.table.connections == map[l.ClientEnd().Key() := 2] && HasBlock(k.table.sockets, 2)
    && 1 in k.table.sockets && k.table.sockets[1] == Listener(l).table.sockets[1]
    && BoundAt(k.table, ExactKey(l.server)) == [1]
  }

  lemma ClientConnects(l: Loop)
    requires Openable(l)
    ensures var (k, out) := Perform(WithClient(l), l.setup, Connected(2, l.client, l.server));
            && WithClient(l).table.connections == map[] && Connecting(l, k)
            && out == [Tcp(l.client, l.server, Syn(0x0100_0000))]
  {
    ListenerIsOk(l);
    PerformKeeps(Listener(l), l.setup, Opened(l.client.ip.Family(), Stream));
    PerformKeeps(WithClient(l), l.setup, Connected(2, l.client, l.server));
  }

  lemma SynLoopsBack(l: Loop, k: Stack)
    requires Openable(l) && Connecting(l, k)
    ensures var k' := Perform(k, l.setup, Arrived(Tcp(l.client, l.server, Syn(0x0100_0000)))).0;
            Connects(k'.table, l.ServerEnd())
  {
    assert FindListener(k.table, l.server) == Some(1);
    assert HandshakesOn(k.table, l.server) == {};
  }

  lemma Prefixes(l: Loop, n: nat)
    requires n < 5
    ensures var es := OpeningEvents(l);
            var next := es[..n + 1];
            next[..|next| - 1] == es[..n] && next[|next| - 1] == es[n] && es[..5] == es
  {
  }

  /** One event further. */
  lemma {:induction false} NextEvent(l: Loop, n: nat, w: Lone)
    requires n < 5 && Legal(l, OpeningEvents(l)[..n]) && Run(l, OpeningEvents(l)[..n]) == w
    requires Allowed(l, w, OpeningEvents(l)[n])
    ensures Legal(l, OpeningEvents(l)[..n + 1])
    ensures Run(l, OpeningEvents(l)[..n + 1]) == Advance(l, w, OpeningEvents(l)[n])
  {
    Prefixes(l, n);
  }

  lemma ListenAllowed(l: Loop)
    requires l.Ok()
    ensures var w := Advance(l, START, Bound(ExactKey(l.server)));
            && Allowed(l, START, Bound(ExactKey(l.server))) && Allowed(l, w, Listened(1, 1))
            && Advance(l, w, Listened(1, 1)) == Lone(Listener(l), BLANK, BLANK, [])
  {
    KernelRuns.ListenerOpens(l.server, l.setup);
  }

  lemma {:induction false} LoopbackListens(l: Loop)
    requires l.Ok()
    ensures Legal(l, OpeningEvents(l)[..2]) && Run(l, OpeningEvents(l)[..2]) == Lone(Listener(l), BLANK, BLANK, [])
  {
    ListenAllowed(l);
    assert OpeningEvents(l)[..0] == [];
    NextEvent(l, 0, START);
    NextEvent(l, 1, Advance(l, START, Bound(ExactKey(l.server))));
  }

  lemma OpenAllowed(l: Loop)
    requires WithClient(l).table.connections == map[]
    ensures var w, e := Lone(Listener(l), BLANK, BLANK, []), Opened(l.client.ip.Family(), Stream);
            Allowed(l, w, e) && Advance(l, w, e) == Lone(WithClient(l), BLANK, BLANK, [])
  {
    Silent(Listener(l), l.setup, Opened(l.client.ip.Family(), Stream));
  }

  lemma {:induction false} LoopbackOpens(l: Loop)
    requires Openable(l)
    ensures Legal(l, OpeningEvents(l)[..3]) && Run(l, OpeningEvents(l)[..3]) == Lone(WithClient(l), BLANK, BLANK, [])
  {
    LoopbackListens(l);
    ClientConnects(l);
    OpenAllowed(l);
    NextEvent(l, 2, Lone(Listener(l), BLANK, BLANK, []));
  }

  /** The client's block is the first on either end. */
  lemma ConnectAllowed(l: Loop)
    requires Openable(l)
    ensures var w, e := Lone(WithClient(l), BLANK, BLANK, []), Connected(2, l.client, l.server);
            && Allowed(l, w, e) && !Advance(l, w, e).server.used && Connecting(l, Advance(l, w, e).stack)
            && Advance(l, w, e).out == [Tcp(l.client, l.server, Syn(0x0100_0000))]
  {
    ClientConnects(l);
    NothingBefore([Tcp(l.client, l.server, Syn(0x0100_0000))]);
  }

  lemma NothingBefore(ps: seq<Packet>)
    ensures [] + ps == ps
  {
  }

  /** The SYN opens the one end and leaves the other alone. */
  lemma SynAllowed(l: Loop, w: Lone)
    requires l.Ok() && Connecting(l, w.stack) && !w.server.used && Tcp(l.client, l.server, Syn(0x0100_0000)) in w.out
    ensures var e := Arrived(Tcp(l.client, l.server, Syn(0x0100_0000)));
            Allowed(l, w, e) && Connects(Advance(l, w, e).stack.table, l.ClientEnd())
  {
    OtherEvent(w.stack, l.setup, Arrived(Tcp(l.client, l.server, Syn(0x0100_0000))), l.ClientEnd());
  }

  /** Any two endpoints with different ports can be connected within a kernel. */
  lemma {:induction false} LoopbackCanOpen(l: Loop)
    requires Openable(l)
    ensures var w := Run(l, OpeningEvents(l));
            && Legal(l, OpeningEvents(l))
            && Connects(w.stack.table, l.ClientEnd()) && Connects(w.stack.table, l.ServerEnd())
  {
    LoopbackOpens(l);
    ConnectAllowed(l);
    var w3 := Lone(WithClient(l), BLANK, BLANK, []);
    NextEvent(l, 3, w3);
    var w4 := Advance(l, w3, Connected(2, l.client, l.server));
    SynLoopsBack(l, w4.stack);
    SynAllowed(l, w4);
    NextEvent(l, 4, w4);
    Prefixes(l, 4);
  }
}
