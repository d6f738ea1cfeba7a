/**
  The edge-triggered epoll loop of Server::InitServer as a labelled transition system.

  A state is the kernel side (sockets, interest list, pending edges, accept backlog) and the
  program counter of the one server thread. Every system call is a step of its own, so the
  environment may act between any two of them. An action label carries whatever the kernel
  or the network decides; `Enabled` is the documented contract of the calls and `Apply` the
  effect, which the label determines.
 */
module EpollModel {
  import opened Basics
  import opened Bytes

  const MAX_EVENTS: nat := 1024

  /** A file status flag word, as the set of the positions of its one bits. */
  type Word = set<nat>

  /** O_NONBLOCK is 04000, bit 11. */
  const O_NONBLOCK: Word := {11}

  datatype Flag = EPOLLIN | EPOLLOUT | EPOLLERR | EPOLLHUP | EPOLLET

  /** struct epoll_event: a mask and the user data, here always the `fd` member. */
  datatype EpollEvent = EpollEvent(events: set<Flag>, data: int)

  /** The mask that the server registers with, for the listener and for every connection. */
  const WATCHED: set<Flag> := {EPOLLIN, EPOLLET}

  /** An accepted socket. `original`, `delivered` and `chunks` are its history: the flags that it
      was accepted with, what the peer sent so far, and what each successful read returned. */
  datatype Conn = Conn(
    original: Word,
    flags: Word,
    delivered: seq<Byte>,
    chunks: seq<seq<Byte>>,
    unread: seq<Byte>,
    eof: bool)

  /** A connection that waits in the backlog of the listener; its peer may already send. */
  datatype Pending = Pending(data: seq<Byte>, eof: bool)

  /** `listenOriginal`, `waits`, `connects`, `listenerEvents`, `lost` and `dropped` are history: the
      flags of the listener before SetNonblocking, returns from epoll_wait, connections that reached
      the backlog, batch entries of the listener handled, connections that a failing accept took
      from the backlog, and accepted descriptors given up. */
  datatype Kernel = Kernel(
    listener: int,
    listenOriginal: Word,
    listenFlags: Word,
    open: set<int>,
    conns: map<int, Conn>,
    interest: map<int, EpollEvent>,
    edges: set<int>,
    backlog: seq<Pending>,
    waits: nat,
    connects: nat,
    listenerEvents: nat,
    lost: nat,
    dropped: set<int>)

  /** Where the thread is: the system call that comes next, or the dispatch of entry i. */
  datatype Pc =
    | Wait
    | Handle(batch: seq<EpollEvent>, i: nat)
    | GetFl(batch: seq<EpollEvent>, i: nat, fd: int)
    | SetFl(batch: seq<EpollEvent>, i: nat, fd: int, opts: Word)
    | Add(batch: seq<EpollEvent>, i: nat, fd: int)
    | Drain(batch: seq<EpollEvent>, i: nat)

  datatype State = State(k: Kernel, pc: Pc)

  datatype Action =
      // The network
    | Connect
    | PendingArrive(p: nat, bytes: seq<Byte>)
    | PendingClose(p: nat)
    | Arrive(fd: int, bytes: seq<Byte>)
    | Close(fd: int)
      // epoll_wait and the for loop over the batch
    | WaitOk(who: seq<int>, masks: seq<set<Flag>>)
    | WaitFails
    | ForEnd
      // The listener branch
    | AcceptOk(fd: int, flags: Word)
    | AcceptFails
    | AcceptLoses
    | GetFlOk
    | GetFlFails
    | SetFlOk
    | SetFlFails
    | AddOk
    | AddFails
      // The other branches
    | Enter
    | Skip
    | ReadOk(n: nat)
    | ReadEmpty

  predicate Nonblocking(flags: Word) { O_NONBLOCK <= flags }

  predicate IsEnv(a: Action) {
    a.Connect? || a.PendingArrive? || a.PendingClose? || a.Arrive? || a.Close?
  }

  /** Steps of the server while the network is silent and no signal interrupts epoll_wait. */
  predicate IsQuiet(a: Action) { !IsEnv(a) && !a.WaitFails? }

  predicate Distinct(s: seq<int>) {
    forall i, j :: 0 <= i < j < |s| ==> s[i] != s[j]
  }

  predicate Readable(k: Kernel, fd: int) {
    if fd == k.listener then k.backlog != []
    else fd in k.conns && (k.conns[fd].unread != [] || k.conns[fd].eof)
  }

  /** May epoll_wait report `fd`? An edge-triggered registration is reported once per edge, any
      other one as long as it is readable. */
  predicate Reportable(k: Kernel, fd: int) {
    && fd in k.interest && EPOLLIN in k.interest[fd].events
    && if EPOLLET in k.interest[fd].events then fd in k.edges else Readable(k, fd)
  }

  /** The conditions under which epoll_wait may report `who`: descriptors that are due, none twice,
      at most MAX_EVENTS; whoever has bytes buffered is reported readable. */
  predicate WaitAllowed(k: Kernel, who: seq<int>, masks: seq<set<Flag>>) {
    && 1 <= |who| <= MAX_EVENTS
    && |who| == |masks|
    && Distinct(who)
    && (forall j :: 0 <= j < |who| ==> Reportable(k, who[j]))
    && (forall j :: 0 <= j < |who| && who[j] in k.conns && k.conns[who[j]].unread != [] ==> EPOLLIN in masks[j])
  }

  predicate Enabled(s: State, a: Action) {
    match a
    case Connect => true
    case PendingArrive(p, bytes) => p < |s.k.backlog| && !s.k.backlog[p].eof && bytes != []
    case PendingClose(p) => p < |s.k.backlog|
    case Arrive(fd, bytes) => fd in s.k.conns && !s.k.conns[fd].eof && bytes != []
    case Close(fd) => fd in s.k.conns
    case WaitOk(who, masks) => s.pc.Wait? && WaitAllowed(s.k, who, masks)
    case WaitFails => s.pc.Wait?
    case ForEnd => s.pc.Handle? && |s.pc.batch| <= s.pc.i
    case AcceptOk(fd, flags) => AtListener(s) && s.k.backlog != [] && fd >= 0 && fd !in s.k.open
    // Only a nonblocking listener returns from accept while nothing waits.
    case AcceptFails => AtListener(s) && (s.k.backlog == [] ==> Nonblocking(s.k.listenFlags))
    // The address length passed to accept is not initialised: the call may then dequeue the
    // connection, fail to store its address, and close it.
    case AcceptLoses => AtListener(s) && s.k.backlog != []
    case GetFlOk => s.pc.GetFl? && s.pc.fd in s.k.conns
    case GetFlFails => s.pc.GetFl?
    case SetFlOk => s.pc.SetFl? && s.pc.fd in s.k.conns
    case SetFlFails => s.pc.SetFl?
    case AddOk => s.pc.Add? && s.pc.fd in s.k.conns && s.pc.fd !in s.k.interest
    case AddFails => s.pc.Add?
    case Enter => AtOther(s) && EPOLLIN in s.pc.batch[s.pc.i].events && s.pc.batch[s.pc.i].data >= 0
    case Skip => AtOther(s) && (EPOLLIN in s.pc.batch[s.pc.i].events ==> s.pc.batch[s.pc.i].data < 0)
    case ReadOk(n) => AtDrain(s) && Target(s) in s.k.conns && 1 <= n <= Min(BUFFER_SIZE, |s.k.conns[Target(s)].unread|)
    // On a blocking socket read would wait for bytes or for the end of the stream.
    case ReadEmpty => AtDrain(s) && (Target(s) in s.k.conns ==>
        s.k.conns[Target(s)].unread == [] && (s.k.conns[Target(s)].eof || Nonblocking(s.k.conns[Target(s)].flags)))
  }

  predicate AtEntry(s: State) { s.pc.Handle? && s.pc.i < |s.pc.batch| }

  predicate AtListener(s: State) { AtEntry(s) && s.pc.batch[s.pc.i].data == s.k.listener }

  predicate AtOther(s: State) { AtEntry(s) && s.pc.batch[s.pc.i].data != s.k.listener }

  predicate AtDrain(s: State) { s.pc.Drain? && s.pc.i < |s.pc.batch| }

  function Target(s: State): int
    requires AtDrain(s)
  {
    s.pc.batch[s.pc.i].data
  }

  function Apply(s: State, a: Action): State
    requires Enabled(s, a)
  {
    match a
    case Connect => s.(k := DoConnect(s.k))
    case PendingArrive(p, bytes) => s.(k := DoPendingArrive(s.k, p, bytes))
    case PendingClose(p) => s.(k := s.k.(backlog := s.k.backlog[p := s.k.backlog[p].(eof := true)]))
    case Arrive(fd, bytes) => s.(k := DoArrive(s.k, fd, bytes))
    case Close(fd) => s.(k := Raise(SetConn(s.k, fd, s.k.conns[fd].(eof := true)), fd))
    case WaitOk(who, masks) => State(DoWait(s.k, who), Handle(Reported(s.k, who, masks), 0))
    case WaitFails => State(DoWait(s.k, []), Handle([], 0))
    case ForEnd => s.(pc := Wait)
    case AcceptOk(fd, flags) => State(DoAccept(s.k, fd, flags), GetFl(s.pc.batch, s.pc.i, fd))
    case AcceptFails => State(s.k.(listenerEvents := s.k.listenerEvents + 1), Next(s.pc))
    case AcceptLoses => State(DoLose(s.k), Next(s.pc))
    case GetFlOk => s.(pc := SetFl(s.pc.batch, s.pc.i, s.pc.fd, s.k.conns[s.pc.fd].flags + O_NONBLOCK))
    case GetFlFails => State(Drop(s.k, s.pc.fd), Next(s.pc))
    case SetFlOk =>
      State(SetConn(s.k, s.pc.fd, s.k.conns[s.pc.fd].(flags := s.pc.opts)), Add(s.pc.batch, s.pc.i, s.pc.fd))
    case SetFlFails => State(Drop(s.k, s.pc.fd), Next(s.pc))
    case AddOk => State(DoRegister(s.k, s.pc.fd, EpollEvent(WATCHED, s.pc.fd)), Next(s.pc))
    case AddFails => State(Drop(s.k, s.pc.fd), Next(s.pc))
    case Enter => s.(pc := Drain(s.pc.batch, s.pc.i))
    case Skip => s.(pc := Next(s.pc))
    case ReadOk(n) => s.(k := DoRead(s.k, Target(s), n))
    case ReadEmpty => s.(pc := Next(s.pc))
  }

  function Next(pc: Pc): Pc
    requires !pc.Wait?
  {
    Handle(pc.batch, pc.i + 1)
  }

  function Members(who: seq<int>): set<int> { set fd | fd in who }

  /** The events array as epoll_wait fills it: the mask and the data given at registration. */
  function Reported(k: Kernel, who: seq<int>, masks: seq<set<Flag>>): (r: seq<EpollEvent>)
    requires WaitAllowed(k, who, masks)
  {
    seq(|who|, j requires 0 <= j < |who| => EpollEvent(masks[j], k.interest[who[j]].data))
  }

  function DoWait(k: Kernel, who: seq<int>): Kernel {
    k.(edges := k.edges - Members(who), waits := k.waits + 1)
  }

  function SetConn(k: Kernel, fd: int, c: Conn): Kernel { k.(conns := k.conns[fd := c]) }

  /** An edge is raised for a descriptor whose registration asks for edges of input. */
  function Raise(k: Kernel, fd: int): Kernel {
    if fd in k.interest && {EPOLLIN, EPOLLET} <= k.interest[fd].events then k.(edges := k.edges + {fd}) else k
  }

  function DoConnect(k: Kernel): Kernel {
    Raise(k.(backlog := k.backlog + [Pending([], false)], connects := k.connects + 1), k.listener)
  }

  function DoPendingArrive(k: Kernel, p: nat, bytes: seq<Byte>): Kernel
    requires p < |k.backlog|
  {
    k.(backlog := k.backlog[p := k.backlog[p].(data := k.backlog[p].data + bytes)])
  }

  function DoArrive(k: Kernel, fd: int, bytes: seq<Byte>): Kernel
    requires fd in k.conns
  {
    var c := k.conns[fd];
    Raise(SetConn(k, fd, c.(delivered := c.delivered + bytes, unread := c.unread + bytes)), fd)
  }

  function DoAccept(k: Kernel, fd: int, flags: Word): Kernel
    requires k.backlog != []
  {
    var p := k.backlog[0];
    SetConn(k, fd, Conn(flags, flags, p.data, [], p.data, p.eof)).(
      open := k.open + {fd},
      backlog := k.backlog[1..],
      listenerEvents := k.listenerEvents + 1)
  }

  function DoLose(k: Kernel): Kernel
    requires k.backlog != []
  {
    k.(backlog := k.backlog[1..], listenerEvents := k.listenerEvents + 1, lost := k.lost + 1)
  }

  function Drop(k: Kernel, fd: int): Kernel { k.(dropped := k.dropped + {fd}) }

  /** EPOLL_CTL_ADD; a descriptor that is already readable gets its edge at once. */
  function DoRegister(k: Kernel, fd: int, ev: EpollEvent): Kernel
    requires fd in k.conns
  {
    var k' := k.(interest := k.interest[fd := ev]);
    if k.conns[fd].unread != [] || k.conns[fd].eof then Raise(k', fd) else k'
  }

  function DoRead(k: Kernel, fd: int, n: nat): Kernel
    requires fd in k.conns && n <= |k.conns[fd].unread|
  {
    var c := k.conns[fd];
    SetConn(k, fd, c.(chunks := c.chunks + [c.unread[..n]], unread := c.unread[n..]))
  }

  /** After the set-up: the listener is open, nonblocking and registered with its own number as
      data; it may have an edge from being registered before listen(). */
  predicate Init(s: State) {
    && s.pc.Wait?
    && s.k.listener in s.k.open && s.k.listener >= 0
    && s.k.listenFlags == s.k.listenOriginal + O_NONBLOCK
    && s.k.conns == map[] && s.k.dropped == {}
    && s.k.interest == map[s.k.listener := EpollEvent(WATCHED, s.k.listener)]
    && s.k.edges <= {s.k.listener}
    && s.k.backlog == [] && s.k.waits == 0 && s.k.connects == 0
    && s.k.listenerEvents == 0 && s.k.lost == 0
  }

  /** A run is a sequence of actions, each enabled where it is taken. */
  predicate CanRun(s: State, acts: seq<Action>)
    decreases |acts|, 0
  {
    acts == [] ||
    (CanRun(s, Front(acts)) && Enabled(Run(s, Front(acts)), Last(acts)))
  }

  function Run(s: State, acts: seq<Action>): State
    requires CanRun(s, acts)
    decreases |acts|, 1
  {
    if acts == [] then s else Apply(Run(s, Front(acts)), Last(acts))
  }

  ghost predicate Reaches(init: State, acts: seq<Action>, s: State) {
    Init(init) && CanRun(init, acts) && Run(init, acts) == s
  }

  ghost predicate Reachable(s: State) { exists init, acts :: Reaches(init, acts, s) }

  lemma RunSnoc(s: State, acts: seq<Action>, a: Action)
    requires CanRun(s, acts) && Enabled(Run(s, acts), a)
    ensures CanRun(s, acts + [a]) && Run(s, acts + [a]) == Apply(Run(s, acts), a)
  {
    assert Front(acts + [a]) == acts;
  }

  lemma {:induction false} RunConcat(s: State, a: seq<Action>, b: seq<Action>)
    requires CanRun(s, a) && CanRun(Run(s, a), b)
    ensures CanRun(s, a + b) && Run(s, a + b) == Run(Run(s, a), b)
    decreases |b|
  {
    if b == [] {
      assert a + b == a;
    } else {
      RunConcat(s, a, Front(b));
      RunSnoc(s, a + Front(b), Last(b));
      assert a + b == a + Front(b) + [Last(b)];
    }
  }
}
