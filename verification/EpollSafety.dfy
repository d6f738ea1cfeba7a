/** What every step of the epoll loop keeps, whatever the network does in between. */
module EpollSafety {
  import opened Basics
  import opened Bytes
  import opened EpollModel

  // ---------------------------------------------------------------- the properties

  /** Entries of the current batch that are not handled yet. */
  function Tail(pc: Pc): seq<EpollEvent> {
    match pc
    case Wait => []
    case Handle(batch, i) => if i <= |batch| then batch[i..] else []
    case _ => if pc.i + 1 <= |pc.batch| then pc.batch[pc.i + 1..] else []
  }

  predicate Draining(s: State, fd: int) { AtDrain(s) && Target(s) == fd }

  /** The loop will come back to `fd`: an edge is pending, the unhandled part of the batch
      reports it readable, or it is being drained right now. */
  predicate WillRead(s: State, fd: int) {
    || fd in s.k.edges
    || (exists e :: e in Tail(s.pc) && e.data == fd && EPOLLIN in e.events)
    || Draining(s, fd)
  }

  /** No lost edge: bytes of a registered connection never wait without the loop coming back. */
  ghost predicate NoLostEdge(s: State) {
    forall fd :: fd in s.k.conns && fd in s.k.interest && s.k.conns[fd].unread != [] ==> WillRead(s, fd)
  }

  /** Conservation and order: what the peer sent is what was read, chunk after chunk, followed
      by what is still unread; no chunk is empty or larger than the buffer. */
  predicate ConnConserved(c: Conn) {
    && c.delivered == Flatten(c.chunks) + c.unread
    && forall j :: 0 <= j < |c.chunks| ==> 1 <= |c.chunks[j]| <= BUFFER_SIZE
  }

  predicate Conserved(k: Kernel) { forall fd :: fd in k.conns ==> ConnConserved(k.conns[fd]) }

  /** The descriptor between accept and epoll_ctl, if there is one. */
  function InFlight(pc: Pc): set<int> {
    if pc.GetFl? || pc.SetFl? || pc.Add? then {pc.fd} else {}
  }

  function Registered(k: Kernel): set<int> { k.interest.Keys - {k.listener} }

  /** Every accepted descriptor is registered, given up or in flight, and only one of these. */
  predicate Partitioned(s: State) {
    && s.k.conns.Keys == Registered(s.k) + s.k.dropped + InFlight(s.pc)
    && Registered(s.k) !! s.k.dropped !! InFlight(s.pc)
  }

  /** Connections that ever arrived are waiting, accepted or lost in accept; at most one accept per
      listener event. */
  predicate Counted(k: Kernel) {
    && |k.backlog| + |k.conns.Keys| + k.lost == k.connects
    && |k.conns.Keys| + k.lost <= k.listenerEvents
  }

  /** O_NONBLOCK was added to the flags and nothing else changed. */
  predicate MadeNonblocking(c: Conn) { c.flags == c.original + O_NONBLOCK }

  /** Descriptors: none is ever reused, so a connection is never mistaken for the listener;
      each registration carries the descriptor itself; whatever is registered is nonblocking, and
      has otherwise the flags it was accepted with. */
  ghost predicate Descriptors(k: Kernel) {
    && k.listener in k.open && k.listener >= 0 && k.listener !in k.conns
    && k.conns.Keys <= k.open
    && (forall fd :: fd in k.conns ==> fd >= 0)
    && k.listenFlags == k.listenOriginal + O_NONBLOCK
    && k.listener in k.interest
    && k.interest.Keys <= k.conns.Keys + {k.listener}
    && (forall fd :: fd in k.interest ==> k.interest[fd] == EpollEvent(WATCHED, fd))
    && (forall fd :: fd in k.interest && fd in k.conns ==> MadeNonblocking(k.conns[fd]))
    && k.edges <= k.interest.Keys
  }

  /** The batch names registered descriptors, none twice, and fits the events array. */
  ghost predicate BatchSound(k: Kernel, batch: seq<EpollEvent>) {
    && |batch| <= MAX_EVENTS
    && (forall j :: 0 <= j < |batch| ==> batch[j].data in k.interest)
    && (forall i, j :: 0 <= i < j < |batch| ==> batch[i].data != batch[j].data)
  }

  ghost predicate PcSound(s: State) {
    match s.pc
    case Wait => true
    case Handle(batch, i) => BatchSound(s.k, batch) && i <= |batch|
    case GetFl(batch, i, fd) => BatchSound(s.k, batch) && i < |batch| && batch[i].data == s.k.listener
                                && fd in s.k.conns && s.k.conns[fd].flags == s.k.conns[fd].original
    case SetFl(batch, i, fd, opts) => BatchSound(s.k, batch) && i < |batch| && batch[i].data == s.k.listener
                                      && fd in s.k.conns && opts == s.k.conns[fd].original + O_NONBLOCK
    case Add(batch, i, fd) => BatchSound(s.k, batch) && i < |batch| && batch[i].data == s.k.listener
                              && fd in s.k.conns && MadeNonblocking(s.k.conns[fd])
    case Drain(batch, i) => BatchSound(s.k, batch) && i < |batch| && batch[i].data != s.k.listener
  }

  ghost predicate Inv(s: State) {
    && Descriptors(s.k)
    && PcSound(s)
    && NoLostEdge(s)
    && Conserved(s.k)
    && Partitioned(s)
    && Counted(s.k)
  }

  // ---------------------------------------------------------------- one step keeps them

  lemma RaiseDescriptors(k: Kernel, fd: int)
    requires Descriptors(k)
    ensures Descriptors(Raise(k, fd))
  {
  }

  lemma SetConnDescriptors(k: Kernel, fd: int, c: Conn)
    requires Descriptors(k) && fd in k.conns
    requires MadeNonblocking(k.conns[fd]) ==> MadeNonblocking(c)
    ensures Descriptors(SetConn(k, fd, c))
  {
  }

  lemma AcceptDescriptors(k: Kernel, fd: int, flags: Word)
    requires Descriptors(k) && k.backlog != [] && fd >= 0 && fd !in k.open
    ensures Descriptors(DoAccept(k, fd, flags))
  {
  }

  lemma RegisterDescriptors(k: Kernel, fd: int)
    requires Descriptors(k) && fd in k.conns && fd !in k.interest && MadeNonblocking(k.conns[fd])
    ensures Descriptors(DoRegister(k, fd, EpollEvent(WATCHED, fd)))
  {
  }

  lemma StepDescriptors(s: State, a: Action)
    requires Descriptors(s.k) && PcSound(s) && Enabled(s, a)
    ensures Descriptors(Apply(s, a).k)
  {
    var k := s.k;
    match a
    case Connect =>
      RaiseDescriptors(k.(backlog := k.backlog + [Pending([], false)], connects := k.connects + 1), k.listener);
    case Arrive(fd, bytes) =>
      var c := k.conns[fd].(delivered := k.conns[fd].delivered + bytes, unread := k.conns[fd].unread + bytes);
      SetConnDescriptors(k, fd, c);
      RaiseDescriptors(SetConn(k, fd, c), fd);
    case Close(fd) =>
      SetConnDescriptors(k, fd, k.conns[fd].(eof := true));
      RaiseDescriptors(SetConn(k, fd, k.conns[fd].(eof := true)), fd);
    case AcceptOk(fd, flags) => AcceptDescriptors(k, fd, flags);
    case SetFlOk => SetConnDescriptors(k, s.pc.fd, k.conns[s.pc.fd].(flags := s.pc.opts));
    case AddOk => RegisterDescriptors(k, s.pc.fd);
    case _ =>
  }

  lemma BatchGrows(k: Kernel, k': Kernel, batch: seq<EpollEvent>)
    requires BatchSound(k, batch) && k.interest.Keys <= k'.interest.Keys
    ensures BatchSound(k', batch)
  {
  }

  lemma ReportedSound(k: Kernel, who: seq<int>, masks: seq<set<Flag>>)
    requires Descriptors(k) && WaitAllowed(k, who, masks)
    ensures BatchSound(k, Reported(k, who, masks))
    ensures forall j :: 0 <= j < |who| ==> Reported(k, who, masks)[j].data == who[j]
  {
    var batch := Reported(k, who, masks);
    assert forall j :: 0 <= j < |who| ==> batch[j].data == who[j];
  }

  lemma StepPc(s: State, a: Action)
    requires Descriptors(s.k) && PcSound(s) && Enabled(s, a)
    ensures PcSound(Apply(s, a))
  {
    var s' := Apply(s, a);
    assert s'.k.listener == s.k.listener;
    assert s.k.interest.Keys <= s'.k.interest.Keys;
    if a.WaitOk? {
      ReportedSound(s.k, a.who, a.masks);
      BatchGrows(s.k, s'.k, s'.pc.batch);
    } else if !s.pc.Wait? {
      BatchGrows(s.k, s'.k, s.pc.batch);
    }
  }

  lemma StepConserved(s: State, a: Action)
    requires Conserved(s.k) && Enabled(s, a)
    ensures Conserved(Apply(s, a).k)
  {
    var k' := Apply(s, a).k;
    forall fd | fd in k'.conns ensures ConnConserved(k'.conns[fd]) {
      if fd !in s.k.conns || k'.conns[fd] != s.k.conns[fd] {
        ConnStep(s, a, fd);
      }
    }
  }

  lemma ArriveConserved(c: Conn, bytes: seq<Byte>)
    requires ConnConserved(c)
    ensures ConnConserved(c.(delivered := c.delivered + bytes, unread := c.unread + bytes))
  {
    assert Flatten(c.chunks) + (c.unread + bytes) == (Flatten(c.chunks) + c.unread) + bytes;
  }

  lemma ReadConserved(c: Conn, n: nat)
    requires ConnConserved(c) && 1 <= n <= BUFFER_SIZE && n <= |c.unread|
    ensures ConnConserved(c.(chunks := c.chunks + [c.unread[..n]], unread := c.unread[n..]))
  {
    FlattenSnoc(c.chunks, c.unread[..n]);
    assert Flatten(c.chunks) + c.unread == Flatten(c.chunks) + c.unread[..n] + c.unread[n..];
  }

  /** The only steps that touch a connection's history: bytes arrive, close, accept, fcntl, read. */
  lemma ConnStep(s: State, a: Action, fd: int)
    requires Conserved(s.k) && Enabled(s, a)
    requires var k' := Apply(s, a).k; fd in k'.conns && (fd !in s.k.conns || k'.conns[fd] != s.k.conns[fd])
    ensures ConnConserved(Apply(s, a).k.conns[fd])
  {
    if a.AcceptOk? {
      assert Flatten([]) == [];
    } else {
      assert ConnConserved(s.k.conns[fd]);
      if a.ReadOk? {
        ReadConserved(s.k.conns[fd], a.n);
      } else if a.Arrive? {
        ArriveConserved(s.k.conns[fd], a.bytes);
      }
    }
  }

  lemma KeysStep(s: State, a: Action)
    requires Enabled(s, a)
    ensures Apply(s, a).k.conns.Keys == s.k.conns.Keys + (if a.AcceptOk? then {a.fd} else {})
  {
  }

  lemma StepPartitioned(s: State, a: Action)
    requires Descriptors(s.k) && Partitioned(s) && Enabled(s, a)
    ensures Partitioned(Apply(s, a))
  {
    var s' := Apply(s, a);
    KeysStep(s, a);
    if a.AcceptOk? {
      assert Registered(s'.k) == Registered(s.k);
    } else {
      assert Registered(s'.k) == Registered(s.k) + (if a.AddOk? then {s.pc.fd} else {});
      if a.AddFails? || a.GetFlFails? || a.SetFlFails? {
        assert s'.k.dropped == s.k.dropped + {s.pc.fd};
      }
    }
  }

  lemma CountersStep(s: State, a: Action)
    requires Enabled(s, a)
    ensures var k' := Apply(s, a).k;
      && k'.connects == s.k.connects + (if a.Connect? then 1 else 0)
      && |k'.backlog| == |s.k.backlog| + (if a.Connect? then 1 else if a.AcceptOk? || a.AcceptLoses? then -1 else 0)
      && k'.lost == s.k.lost + (if a.AcceptLoses? then 1 else 0)
      && k'.listenerEvents >= s.k.listenerEvents + (if a.AcceptOk? || a.AcceptLoses? then 1 else 0)
  {
  }

  lemma StepCounted(s: State, a: Action)
    requires s.k.conns.Keys <= s.k.open && Counted(s.k) && Enabled(s, a)
    ensures Counted(Apply(s, a).k)
  {
    KeysStep(s, a);
    CountersStep(s, a);
    if a.AcceptOk? {
      assert a.fd !in s.k.conns.Keys;
      assert |s.k.conns.Keys + {a.fd}| == |s.k.conns.Keys| + 1;
    } else {
      assert Apply(s, a).k.conns.Keys == s.k.conns.Keys;
    }
  }

  /** Everything that made the loop come back to `fd` is still there. */
  lemma StillWillRead(s: State, s': State, fd: int)
    requires WillRead(s, fd)
    requires s.k.edges <= s'.k.edges
    requires forall e :: e in Tail(s.pc) && e.data == fd && EPOLLIN in e.events ==> e in Tail(s'.pc) || Draining(s', fd)
    requires Draining(s, fd) ==> Draining(s', fd)
    ensures WillRead(s', fd)
  {
  }

  lemma NoLostEdgeEnv(s: State, a: Action)
    requires NoLostEdge(s) && Descriptors(s.k) && Enabled(s, a) && IsEnv(a)
    ensures NoLostEdge(Apply(s, a))
  {
    var s' := Apply(s, a);
    forall fd | fd in s'.k.conns && fd in s'.k.interest && s'.k.conns[fd].unread != []
      ensures WillRead(s', fd)
    {
      if s.k.conns[fd].unread != [] {
        StillWillRead(s, s', fd);
      } else {
        assert a.Arrive? && a.fd == fd;
        assert fd in s'.k.edges;
      }
    }
  }

  lemma NoLostEdgeWait(s: State, who: seq<int>, masks: seq<set<Flag>>)
    requires NoLostEdge(s) && Descriptors(s.k) && Enabled(s, WaitOk(who, masks))
    ensures NoLostEdge(Apply(s, WaitOk(who, masks)))
  {
    var s' := Apply(s, WaitOk(who, masks));
    ReportedSound(s.k, who, masks);
    forall fd | fd in s'.k.conns && fd in s'.k.interest && s'.k.conns[fd].unread != []
      ensures WillRead(s', fd)
    {
      assert fd in s.k.edges;
      if fd in who {
        var j :| 0 <= j < |who| && who[j] == fd;
        assert s'.pc.batch[j] in Tail(s'.pc);
      }
    }
  }

  /** The entry at which a branch is taken leaves the unhandled part of the batch; nothing else does. */
  lemma TailMoves(s: State, a: Action)
    requires PcSound(s) && Enabled(s, a) && !IsEnv(a) && !a.WaitOk?
    ensures AtEntry(s) ==> Tail(s.pc) == [s.pc.batch[s.pc.i]] + Tail(Apply(s, a).pc)
    ensures !AtEntry(s) ==> Tail(Apply(s, a).pc) == Tail(s.pc)
  {
  }

  /** A readable connection whose entry is left behind is being drained now. */
  lemma EntryIsEntered(s: State, a: Action, fd: int)
    requires Descriptors(s.k) && AtEntry(s) && Enabled(s, a) && !IsEnv(a) && fd in s.k.conns
    requires s.pc.batch[s.pc.i].data == fd && EPOLLIN in s.pc.batch[s.pc.i].events
    ensures Draining(Apply(s, a), fd)
  {
    assert a.Enter?;
  }

  /** A connection that is left by the read loop has nothing unread. */
  lemma DrainGoesOn(s: State, a: Action, fd: int)
    requires Draining(s, fd) && fd in s.k.conns && s.k.conns[fd].unread != [] && Enabled(s, a) && !IsEnv(a)
    ensures Draining(Apply(s, a), fd)
  {
    assert a.ReadOk?;
  }

  lemma ServerKeepsReading(s: State, a: Action, fd: int)
    requires Descriptors(s.k) && PcSound(s) && Enabled(s, a) && !IsEnv(a) && !a.WaitOk?
    requires fd in s.k.conns && s.k.conns[fd].unread != [] && WillRead(s, fd)
    ensures WillRead(Apply(s, a), fd)
  {
    TailMoves(s, a);
    if Draining(s, fd) {
      DrainGoesOn(s, a, fd);
    } else if AtEntry(s) && s.pc.batch[s.pc.i].data == fd && EPOLLIN in s.pc.batch[s.pc.i].events {
      EntryIsEntered(s, a, fd);
    } else {
      EdgesKept(s, a);
    }
  }

  lemma EdgesKept(s: State, a: Action)
    requires Enabled(s, a) && !a.WaitOk?
    ensures s.k.edges <= Apply(s, a).k.edges
  {
  }

  /** Where unread bytes of a registered connection come from, when the server moves. */
  lemma UnreadBefore(s: State, a: Action, fd: int)
    requires Enabled(s, a) && !IsEnv(a) && s.k.conns.Keys <= s.k.open && s.k.interest.Keys <= s.k.open
    requires fd in Apply(s, a).k.conns && fd in Apply(s, a).k.interest && Apply(s, a).k.conns[fd].unread != []
    ensures fd in s.k.conns && s.k.conns[fd].unread != []
    ensures fd in s.k.interest || (a.AddOk? && fd == s.pc.fd && fd in Apply(s, a).k.edges)
  {
  }

  /** A batch entry that is left behind has nothing unread, or is now being drained. */
  lemma NoLostEdgeServer(s: State, a: Action)
    requires NoLostEdge(s) && Descriptors(s.k) && PcSound(s) && Enabled(s, a) && !IsEnv(a) && !a.WaitOk?
    ensures NoLostEdge(Apply(s, a))
  {
    var s' := Apply(s, a);
    forall fd | fd in s'.k.conns && fd in s'.k.interest && s'.k.conns[fd].unread != []
      ensures WillRead(s', fd)
    {
      UnreadBefore(s, a, fd);
      if fd in s.k.interest {
        ServerKeepsReading(s, a, fd);
      }
    }
  }

  lemma StepKeepsInv(s: State, a: Action)
    requires Inv(s) && Enabled(s, a)
    ensures Inv(Apply(s, a))
  {
    StepDescriptors(s, a);
    StepPc(s, a);
    StepConserved(s, a);
    StepPartitioned(s, a);
    StepCounted(s, a);
    if IsEnv(a) {
      NoLostEdgeEnv(s, a);
    } else if a.WaitOk? {
      NoLostEdgeWait(s, a.who, a.masks);
    } else {
      NoLostEdgeServer(s, a);
    }
  }

  // ---------------------------------------------------------------- whole runs

  lemma {:induction false} RunKeepsInv(s: State, acts: seq<Action>)
    requires Inv(s) && CanRun(s, acts)
    ensures Inv(Run(s, acts))
    decreases |acts|
  {
    if acts != [] {
      RunKeepsInv(s, Front(acts));
      StepKeepsInv(Run(s, Front(acts)), Last(acts));
    }
  }

  lemma InitInv(s: State)
    requires Init(s)
    ensures Inv(s)
  {
    assert s.k.conns.Keys == {};
    assert Registered(s.k) == {};
  }

  lemma ReachableInv(s: State)
    requires Reachable(s)
    ensures Inv(s)
  {
    var init, acts :| Reaches(init, acts, s);
    InitInv(init);
    RunKeepsInv(init, acts);
  }

  /** No lost edge, in every reachable state. */
  lemma NeverLosesAnEdge(s: State, fd: int)
    requires Reachable(s) && fd in s.k.conns && fd in s.k.interest && s.k.conns[fd].unread != []
    ensures
      || fd in s.k.edges
      || (exists e :: e in Tail(s.pc) && e.data == fd && EPOLLIN in e.events)
      || (s.pc.Drain? && s.pc.i < |s.pc.batch| && s.pc.batch[s.pc.i].data == fd)
  {
    ReachableInv(s);
    assert WillRead(s, fd);
  }

  /** Every byte a peer sent was read once, in order, or still waits behind what was read. */
  lemma BytesConserved(s: State, fd: int)
    requires Reachable(s) && fd in s.k.conns
    ensures s.k.conns[fd].delivered == Flatten(s.k.conns[fd].chunks) + s.k.conns[fd].unread
    ensures forall c :: c in s.k.conns[fd].chunks ==> 1 <= |c| <= 1024
  {
    ReachableInv(s);
    assert ConnConserved(s.k.conns[fd]);
  }

  /** Whatever epoll watches is nonblocking; SetNonblocking kept every other flag bit of it. */
  lemma WatchedIsNonblocking(s: State, fd: int)
    requires Reachable(s) && fd in s.k.interest
    ensures fd == s.k.listener ==> fd !in s.k.conns && OnlyNonblockAdded(s.k.listenOriginal, s.k.listenFlags)
    ensures fd != s.k.listener ==>
      fd in s.k.conns && OnlyNonblockAdded(s.k.conns[fd].original, s.k.conns[fd].flags)
  {
    ReachableInv(s);
    assert fd != s.k.listener ==> MadeNonblocking(s.k.conns[fd]);
  }

  ghost predicate OnlyNonblockAdded(before: Word, after: Word) {
    11 in after && forall bit :: bit != 11 ==> (bit in after <==> bit in before)
  }

  /** The events of a batch say truly whose they are: the dispatch test on the user data singles out
      the listener and nothing else, and no connection is taken for an illegal descriptor. */
  lemma DispatchIsTrue(s: State, who: seq<int>, masks: seq<set<Flag>>, j: nat)
    requires Reachable(s) && Enabled(s, WaitOk(who, masks)) && j < |who|
    ensures var e := Apply(s, WaitOk(who, masks)).pc.batch[j];
      && e.data == who[j] >= 0
      && (e.data == s.k.listener <==> who[j] !in s.k.conns)
  {
    ReachableInv(s);
    ReportedSound(s.k, who, masks);
    assert who[j] in s.k.interest;
  }

  /** Between accept and the end of its branch a descriptor is in flight; apart from that one,
      accepted descriptors are registered or given up, never both; nothing is lost in counting. */
  lemma AcceptedAreAccountedFor(s: State)
    requires Reachable(s)
    ensures forall fd :: fd in s.k.conns && fd !in InFlight(s.pc) ==> (fd in s.k.interest <==> fd !in s.k.dropped)
    ensures |s.k.backlog| == s.k.connects - |s.k.conns.Keys| - s.k.lost
    ensures |s.k.conns.Keys| + s.k.lost <= s.k.listenerEvents
    ensures s.pc.Wait? ==> |s.k.conns.Keys| == |Registered(s.k)| + |s.k.dropped|
  {
    ReachableInv(s);
    if s.pc.Wait? {
      assert s.k.conns.Keys == Registered(s.k) + s.k.dropped;
    }
  }

  predicate ConnExtends(c: Conn, c': Conn) { c.delivered <= c'.delivered && c.chunks <= c'.chunks }

  /** Nothing in one history is ever taken back in a later one. */
  predicate Extends(k: Kernel, k': Kernel) { HistoryExtends(k, k') && ConnsExtend(k, k') }

  predicate HistoryExtends(k: Kernel, k': Kernel) {
    && k.listener == k'.listener && k.listenOriginal == k'.listenOriginal
    && k.open <= k'.open && k.dropped <= k'.dropped && k.lost <= k'.lost
    && k.connects <= k'.connects && k.listenerEvents <= k'.listenerEvents
    && (forall fd :: fd in k.interest ==> fd in k'.interest && k'.interest[fd] == k.interest[fd])
  }

  predicate ConnsExtend(k: Kernel, k': Kernel) {
    && k.conns.Keys <= k'.conns.Keys
    && (forall fd :: fd in k.conns ==> ConnExtends(k.conns[fd], k'.conns[fd]))
  }

  lemma StepExtends(s: State, a: Action)
    requires s.k.conns.Keys <= s.k.open && Enabled(s, a)
    ensures Extends(s.k, Apply(s, a).k)
  {
    StepHistoryExtends(s, a);
    StepConnsExtend(s, a);
  }

  lemma StepHistoryExtends(s: State, a: Action)
    requires Enabled(s, a)
    ensures HistoryExtends(s.k, Apply(s, a).k)
  {
  }

  lemma StepConnsExtend(s: State, a: Action)
    requires s.k.conns.Keys <= s.k.open && Enabled(s, a)
    ensures ConnsExtend(s.k, Apply(s, a).k)
  {
  }

  /** The open set only grows, a registration is never changed or removed, and the bytes and
      chunks recorded for a connection are only ever appended to. */
  lemma {:induction false} RunExtends(s: State, acts: seq<Action>)
    requires Inv(s) && CanRun(s, acts)
    ensures Extends(s.k, Run(s, acts).k)
    decreases |acts|
  {
    if acts != [] {
      var mid := Run(s, Front(acts));
      RunExtends(s, Front(acts));
      RunKeepsInv(s, Front(acts));
      StepExtends(mid, Last(acts));
      ExtendsTransitive(s.k, mid.k, Run(s, acts).k);
    }
  }

  lemma ExtendsTransitive(a: Kernel, b: Kernel, c: Kernel)
    requires Extends(a, b) && Extends(b, c)
    ensures Extends(a, c)
  {
    forall fd | fd in a.conns ensures ConnExtends(a.conns[fd], c.conns[fd]) {
      assert fd in b.conns;
    }
  }

  /** Why the read loop must run until nothing is buffered: leaving it earlier keeps the no-lost-edge
      property exactly when nothing is unread or another edge has arrived in the meantime. */
  lemma LeavingTheDrainEarly(s: State)
    requires Reachable(s) && AtDrain(s) && Target(s) in s.k.conns
    ensures NoLostEdge(s.(pc := Next(s.pc))) <==> (s.k.conns[Target(s)].unread == [] || Target(s) in s.k.edges)
  {
    ReachableInv(s);
    LeavingEarly(s);
  }

  lemma LeavingEarly(s: State)
    requires PcSound(s) && NoLostEdge(s) && AtDrain(s) && Target(s) in s.k.conns
    ensures NoLostEdge(s.(pc := Next(s.pc))) <==> (s.k.conns[Target(s)].unread == [] || Target(s) in s.k.edges)
  {
    var s' := s.(pc := Next(s.pc));
    var fd := Target(s);
    assert Tail(s'.pc) == Tail(s.pc) == s.pc.batch[s.pc.i + 1..];
    assert forall e :: e in Tail(s'.pc) ==> e.data != fd;
    assert WillRead(s', fd) <==> fd in s.k.edges;
    assert forall x :: x != fd && WillRead(s, x) ==> WillRead(s', x);
  }
}
