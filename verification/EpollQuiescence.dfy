/**
  How much the epoll loop works: never more than the traffic pays for. So once the network falls
  silent it stops after a bounded number of steps, and then everything was read from every
  registered connection.
 */
module EpollQuiescence {
  import opened Basics
  import opened Bytes
  import opened EpollModel
  import opened EpollSafety

  predicate AllQuiet(acts: seq<Action>) { forall a :: a in acts ==> IsQuiet(a) }

  /** The server thread sleeps in epoll_wait and no edge will wake it. */
  predicate Asleep(s: State) { s.pc.Wait? && s.k.edges == {} }

  lemma HasMember(s: set<int>)
    requires s != {}
    ensures exists x :: x in s
  {
    assert (forall x :: x !in s) ==> s == {};
  }

  // ---------------------------------------------------------------- never stuck

  lemma CanWait(s: State, fd: int)
    requires Descriptors(s.k) && s.pc.Wait? && fd in s.k.edges
    ensures Enabled(s, WaitOk([fd], [{EPOLLIN}]))
  {
  }

  /** The read of the drain loop never blocks: it returns bytes, or at once. */
  lemma CanRead(s: State)
    requires Descriptors(s.k) && PcSound(s) && s.pc.Drain?
    ensures Enabled(s, ReadOk(1)) || Enabled(s, ReadEmpty)
  {
    assert Target(s) in s.k.interest;
    assert Target(s) in s.k.conns;
  }

  lemma CanDispatch(s: State)
    requires Descriptors(s.k) && PcSound(s) && s.pc.Handle?
    ensures exists a :: a in {ForEnd, AcceptFails, Enter, Skip} && Enabled(s, a)
  {
    var a := if s.pc.i == |s.pc.batch| then ForEnd
             else if AtListener(s) then AcceptFails
             else if EPOLLIN in s.pc.batch[s.pc.i].events && s.pc.batch[s.pc.i].data >= 0 then Enter else Skip;
    assert Enabled(s, a);
  }

  lemma CanStep(s: State)
    requires Descriptors(s.k) && PcSound(s) && !Asleep(s)
    ensures exists a :: IsQuiet(a) && Enabled(s, a)
  {
    match s.pc
    case Wait =>
      HasMember(s.k.edges);
      var fd :| fd in s.k.edges;
      CanWait(s, fd);
      assert IsQuiet(WaitOk([fd], [{EPOLLIN}]));
    case Handle(_, _) =>
      CanDispatch(s);
      var a :| a in {ForEnd, AcceptFails, Enter, Skip} && Enabled(s, a);
      assert IsQuiet(a);
    case GetFl(_, _, _) => assert IsQuiet(GetFlFails) && Enabled(s, GetFlFails);
    case SetFl(_, _, _, _) => assert IsQuiet(SetFlFails) && Enabled(s, SetFlFails);
    case Add(_, _, _) => assert IsQuiet(AddFails) && Enabled(s, AddFails);
    case Drain(_, _) =>
      CanRead(s);
      assert IsQuiet(ReadOk(1)) && IsQuiet(ReadEmpty);
  }

  /** Unless it sleeps with no edge pending, the server has a step of its own to take: no system
      call of the loop ever waits for the network except epoll_wait. */
  lemma NeverStuck(s: State)
    requires Reachable(s) && !Asleep(s)
    ensures exists a :: IsQuiet(a) && Enabled(s, a)
  {
    ReachableInv(s);
    CanStep(s);
  }

  // ---------------------------------------------------------------- counting unread bytes

  ghost function UnreadIn(conns: map<int, Conn>, fds: set<int>): nat
    requires fds <= conns.Keys
    decreases fds
  {
    if fds == {} then 0
    else
      HasMember(fds);
      var fd :| fd in fds;
      |conns[fd].unread| + UnreadIn(conns, fds - {fd})
  }

  /** The choice made by UnreadIn does not matter. */
  lemma {:induction false} UnreadSplit(conns: map<int, Conn>, fds: set<int>, fd: int)
    requires fds <= conns.Keys && fd in fds
    ensures UnreadIn(conns, fds) == |conns[fd].unread| + UnreadIn(conns, fds - {fd})
    decreases fds
  {
    var first :| first in fds && UnreadIn(conns, fds) == |conns[first].unread| + UnreadIn(conns, fds - {first});
    if first != fd {
      UnreadSplit(conns, fds - {first}, fd);
      UnreadSplit(conns, fds - {fd}, first);
      assert fds - {first} - {fd} == fds - {fd} - {first};
    }
  }

  lemma {:induction false} UnreadFrame(c1: map<int, Conn>, c2: map<int, Conn>, fds: set<int>)
    requires fds <= c1.Keys && fds <= c2.Keys
    requires forall fd :: fd in fds ==> c1[fd].unread == c2[fd].unread
    ensures UnreadIn(c1, fds) == UnreadIn(c2, fds)
    decreases fds
  {
    if fds != {} {
      HasMember(fds);
      var fd :| fd in fds;
      UnreadSplit(c1, fds, fd);
      UnreadSplit(c2, fds, fd);
      UnreadFrame(c1, c2, fds - {fd});
    }
  }

  lemma UnreadUpdate(conns: map<int, Conn>, fd: int, c: Conn)
    ensures UnreadIn(conns[fd := c], conns.Keys + {fd})
         == UnreadIn(conns, conns.Keys) - (if fd in conns then |conns[fd].unread| else 0) + |c.unread|
  {
    var conns' := conns[fd := c];
    var rest := conns.Keys - {fd};
    assert conns.Keys + {fd} - {fd} == rest;
    UnreadSplit(conns', conns.Keys + {fd}, fd);
    UnreadFrame(conns, conns', rest);
    if fd in conns {
      UnreadSplit(conns, conns.Keys, fd);
    } else {
      assert rest == conns.Keys;
    }
  }

  function Waiting(backlog: seq<Pending>): nat {
    if backlog == [] then 0 else |backlog[0].data| + Waiting(backlog[1..])
  }

  /** All bytes that sit in a socket buffer, of accepted and of waiting connections. */
  ghost function Buffered(k: Kernel): nat { UnreadIn(k.conns, k.conns.Keys) + Waiting(k.backlog) }

  // ---------------------------------------------------------------- potentials

  predicate HandlesListener(a: Action) { a.AcceptOk? || a.AcceptFails? || a.AcceptLoses? }

  function One(b: bool): nat { if b then 1 else 0 }

  predicate ListenerIn(s: State) { exists e :: e in Tail(s.pc) && e.data == s.k.listener }

  /** Listener events that are still to be handled: one at most is pending, one in the batch. */
  function ListenerDue(s: State): nat { One(s.k.listener in s.k.edges) + One(ListenerIn(s)) }

  /** Bounds the epoll_wait rounds to come: a listener event may bring one edge more. */
  function RoundsDue(s: State): nat { |s.k.edges| + ListenerDue(s) + |InFlight(s.pc)| }

  function PcCost(pc: Pc): nat {
    match pc
    case Wait => 0
    case Handle(_, _) => 1
    case GetFl(_, _, _) => 8
    case SetFl(_, _, _, _) => 7
    case Add(_, _, _) => 6
    case Drain(_, _) => 2
  }

  /** Bounds the server steps to come. */
  ghost function StepsDue(s: State): nat {
    Buffered(s.k) + 4 * |s.k.edges| + 2 * |Tail(s.pc)| + 6 * ListenerDue(s) + PcCost(s.pc)
  }

  lemma SetConnBuffered(k: Kernel, fd: int, c: Conn)
    requires fd in k.conns
    ensures Buffered(SetConn(k, fd, c)) == Buffered(k) - |k.conns[fd].unread| + |c.unread|
  {
    assert k.conns[fd := c].Keys == k.conns.Keys + {fd};
    UnreadUpdate(k.conns, fd, c);
  }

  lemma AcceptBuffered(k: Kernel, fd: int, flags: Word)
    requires k.backlog != [] && fd !in k.conns
    ensures Buffered(DoAccept(k, fd, flags)) == Buffered(k)
  {
    var c := DoAccept(k, fd, flags).conns[fd];
    assert k.conns[fd := c].Keys == k.conns.Keys + {fd};
    UnreadUpdate(k.conns, fd, c);
  }

  /** Server steps move bytes between buffers; a read takes them out, and so does an accept that
      loses its connection. */
  lemma BufferedStep(s: State, a: Action)
    requires s.k.conns.Keys <= s.k.open && Enabled(s, a) && IsQuiet(a)
    ensures Buffered(Apply(s, a).k) <= Buffered(s.k) - (if a.ReadOk? then a.n else 0)
    ensures !a.AcceptLoses? ==> Buffered(Apply(s, a).k) == Buffered(s.k) - (if a.ReadOk? then a.n else 0)
  {
    var k := s.k;
    if a.AcceptOk? {
      AcceptBuffered(k, a.fd, a.flags);
    } else if a.AcceptLoses? {
      assert Waiting(k.backlog) == |k.backlog[0].data| + Waiting(k.backlog[1..]);
    } else if a.SetFlOk? {
      SetConnBuffered(k, s.pc.fd, k.conns[s.pc.fd].(flags := s.pc.opts));
    } else if a.ReadOk? {
      SetConnBuffered(k, Target(s), DoRead(k, Target(s), a.n).conns[Target(s)]);
    } else {
      assert Apply(s, a).k.conns == k.conns && Apply(s, a).k.backlog == k.backlog;
    }
  }

  lemma WaitTakesEdges(edges: set<int>, who: seq<int>)
    requires Distinct(who) && forall j :: 0 <= j < |who| ==> who[j] in edges
    ensures |edges - Members(who)| == |edges| - |who|
  {
    MembersCount(who);
    assert Members(who) <= edges;
    assert edges == (edges - Members(who)) + Members(who);
  }

  /** epoll_wait moves a pending listener event from the edges to the batch. */
  lemma WaitMovesListener(s: State, who: seq<int>, masks: seq<set<Flag>>)
    requires Descriptors(s.k) && Enabled(s, WaitOk(who, masks))
    ensures ListenerDue(Apply(s, WaitOk(who, masks))) == ListenerDue(s)
    ensures Tail(Apply(s, WaitOk(who, masks)).pc) == Reported(s.k, who, masks)
  {
    var s' := Apply(s, WaitOk(who, masks));
    var batch := Reported(s.k, who, masks);
    ReportedSound(s.k, who, masks);
    assert Tail(s'.pc) == batch;
    if s.k.listener in who {
      var j :| 0 <= j < |who| && who[j] == s.k.listener;
      assert batch[j] in Tail(s'.pc);
    } else {
      assert forall e :: e in batch ==> e.data in who;
    }
  }

  lemma {:induction false} MembersCount(who: seq<int>)
    requires Distinct(who)
    ensures |Members(who)| == |who|
  {
    if who != [] {
      var rest := who[..|who| - 1];
      MembersCount(rest);
      assert Members(who) == Members(rest) + {who[|who| - 1]};
    } else {
      assert Members(who) == {};
    }
  }

  lemma EntryLeaves(s: State)
    requires PcSound(s) && AtEntry(s)
    ensures Tail(s.pc) == [s.pc.batch[s.pc.i]] + Tail(Next(s.pc))
    ensures ListenerIn(s) <==> AtListener(s) || ListenerIn(s.(pc := Next(s.pc)))
    ensures AtListener(s) ==> !ListenerIn(s.(pc := Next(s.pc)))
  {
    var rest := s.pc.batch[s.pc.i + 1..];
    assert Tail(s.pc) == [s.pc.batch[s.pc.i]] + rest;
    assert forall e :: e in Tail(s.pc) <==> e == s.pc.batch[s.pc.i] || e in rest;
    assert forall e :: e in rest ==> e.data != s.pc.batch[s.pc.i].data;
  }

  lemma ListenerInStep(s: State, a: Action)
    requires PcSound(s) && Enabled(s, a) && IsQuiet(a) && !a.WaitOk?
    ensures One(ListenerIn(Apply(s, a))) == One(ListenerIn(s)) - One(HandlesListener(a))
  {
    var s' := Apply(s, a);
    assert s'.k.listener == s.k.listener;
    if AtEntry(s) {
      EntryLeaves(s);
      assert Tail(s'.pc) == Tail(Next(s.pc));
    } else {
      assert Tail(s'.pc) == Tail(s.pc);
    }
  }

  /** Handling the listener's entry takes its event out; every other step leaves it where it is. */
  lemma ListenerDueStep(s: State, a: Action)
    requires Descriptors(s.k) && PcSound(s) && Enabled(s, a) && IsQuiet(a)
    ensures ListenerDue(Apply(s, a)) == ListenerDue(s) - One(HandlesListener(a))
  {
    if a.WaitOk? {
      WaitMovesListener(s, a.who, a.masks);
    } else {
      ListenerInStep(s, a);
      assert s.k.listener in Apply(s, a).k.edges <==> s.k.listener in s.k.edges;
    }
  }

  lemma EdgesStep(s: State, a: Action)
    requires Inv(s) && Enabled(s, a) && IsQuiet(a) && !a.WaitOk?
    ensures |Apply(s, a).k.edges| <= |s.k.edges| + One(a.AddOk?)
  {
    if a.AddOk? {
      assert Apply(s, a).k.edges <= s.k.edges + {s.pc.fd};
      assert |Apply(s, a).k.edges| <= |s.k.edges + {s.pc.fd}| by {
        SubsetCount(Apply(s, a).k.edges, s.k.edges + {s.pc.fd});
      }
    } else {
      assert Apply(s, a).k.edges == s.k.edges;
    }
  }

  lemma SubsetCount(a: set<int>, b: set<int>)
    requires a <= b
    ensures |a| <= |b|
  {
    assert b == a + (b - a);
  }

  lemma InFlightStep(s: State, a: Action)
    requires Enabled(s, a) && IsQuiet(a)
    ensures |InFlight(Apply(s, a).pc)| <= |InFlight(s.pc)| + One(a.AcceptOk?) - One(a.AddOk?)
  {
  }

  /** A round of the loop costs at least one unit, and nothing else adds one. */
  lemma RoundsStep(s: State, a: Action)
    requires Inv(s) && Enabled(s, a) && IsQuiet(a)
    ensures RoundsDue(Apply(s, a)) + One(a.WaitOk?) <= RoundsDue(s)
  {
    ListenerDueStep(s, a);
    InFlightStep(s, a);
    if a.WaitOk? {
      WaitTakesEdges(s.k.edges, a.who);
    } else {
      EdgesStep(s, a);
    }
  }

  lemma TailStep(s: State, a: Action)
    requires Inv(s) && Enabled(s, a) && IsQuiet(a) && !a.WaitOk?
    ensures |Tail(Apply(s, a).pc)| == |Tail(s.pc)| - One(AtEntry(s))
  {
  }

  /** Every step of the server brings it closer to sleep. */
  lemma StepsStep(s: State, a: Action)
    requires Inv(s) && Enabled(s, a) && IsQuiet(a)
    ensures StepsDue(Apply(s, a)) < StepsDue(s)
  {
    BufferedStep(s, a);
    ListenerDueStep(s, a);
    if a.WaitOk? {
      WaitTakesEdges(s.k.edges, a.who);
      WaitMovesListener(s, a.who, a.masks);
    } else {
      EdgesStep(s, a);
      TailStep(s, a);
      PcCostStep(s, a);
    }
  }

  lemma PcCostStep(s: State, a: Action)
    requires Enabled(s, a) && IsQuiet(a) && !a.WaitOk?
    ensures PcCost(Apply(s, a).pc) <= PcCost(s.pc) - One(!a.ReadOk?) - 4 * One(a.AddOk?)
                                      + 2 * One(AtEntry(s)) + 6 * One(HandlesListener(a))
  {
  }

  // ---------------------------------------------------------------- silent runs

  lemma AllQuietFront(acts: seq<Action>)
    requires AllQuiet(acts) && acts != []
    ensures AllQuiet(Front(acts)) && IsQuiet(Last(acts))
  {
    assert Last(acts) in acts;
    assert forall a :: a in Front(acts) ==> a in acts;
  }

  function Rounds(acts: seq<Action>): nat {
    if acts == [] then 0 else Rounds(Front(acts)) + One(Last(acts).WaitOk?)
  }

  /** Steps of the server, of whatever kind. */
  function Work(acts: seq<Action>): nat {
    if acts == [] then 0 else Work(Front(acts)) + One(!IsEnv(Last(acts)))
  }

  /** How many steps an action of the network, or an interruption of epoll_wait, can cost the server. */
  function Price(a: Action): nat {
    match a
    case Connect => 10
    case PendingArrive(_, bytes) => |bytes|
    case Arrive(_, bytes) => |bytes| + 4
    case Close(_) => 4
    case WaitFails => 2
    case _ => 0
  }

  /** How many returns of epoll_wait with events. */
  function RoundPrice(a: Action): nat {
    match a
    case Connect => 2
    case Arrive(_, _) => 1
    case Close(_) => 1
    case _ => 0
  }

  function Paid(acts: seq<Action>): nat { if acts == [] then 0 else Paid(Front(acts)) + Price(Last(acts)) }

  function RoundsPaid(acts: seq<Action>): nat {
    if acts == [] then 0 else RoundsPaid(Front(acts)) + RoundPrice(Last(acts))
  }

  lemma {:induction false} WaitingUpdate(backlog: seq<Pending>, p: nat, x: Pending)
    requires p < |backlog|
    ensures Waiting(backlog[p := x]) == Waiting(backlog) - |backlog[p].data| + |x.data|
  {
    if p > 0 {
      WaitingUpdate(backlog[1..], p - 1, x);
      assert backlog[p := x][1..] == backlog[1..][p - 1 := x];
    } else {
      assert backlog[0 := x][1..] == backlog[1..];
    }
  }

  lemma {:induction false} WaitingSnoc(backlog: seq<Pending>, x: Pending)
    ensures Waiting(backlog + [x]) == Waiting(backlog) + |x.data|
  {
    if backlog == [] {
      assert [] + [x] == [x] && [x][1..] == [];
    } else {
      WaitingSnoc(backlog[1..], x);
      assert (backlog + [x])[1..] == backlog[1..] + [x];
    }
  }

  /** The network adds bytes to the buffers, and nothing else does. */
  lemma BufferedNetwork(s: State, a: Action)
    requires Enabled(s, a) && IsEnv(a)
    ensures Buffered(Apply(s, a).k) == Buffered(s.k) + (if a.Arrive? || a.PendingArrive? then |a.bytes| else 0)
  {
    var k := s.k;
    if a.Connect? {
      WaitingSnoc(k.backlog, Pending([], false));
    } else if a.PendingArrive? {
      WaitingUpdate(k.backlog, a.p, k.backlog[a.p].(data := k.backlog[a.p].data + a.bytes));
    } else if a.PendingClose? {
      WaitingUpdate(k.backlog, a.p, k.backlog[a.p].(eof := true));
    } else if a.Arrive? {
      var c := k.conns[a.fd];
      SetConnBuffered(k, a.fd, c.(delivered := c.delivered + a.bytes, unread := c.unread + a.bytes));
    } else {
      SetConnBuffered(k, a.fd, k.conns[a.fd].(eof := true));
    }
  }

  /** It raises at most one edge, and the listener's only by a connect. */
  lemma EdgesNetwork(s: State, a: Action)
    requires Descriptors(s.k) && Enabled(s, a) && IsEnv(a)
    ensures |Apply(s, a).k.edges| <= |s.k.edges| + One(a.Connect? || a.Arrive? || a.Close?)
    ensures ListenerDue(Apply(s, a)) <= ListenerDue(s) + One(a.Connect?)
  {
    var s' := Apply(s, a);
    assert s'.k.listener == s.k.listener && Tail(s'.pc) == Tail(s.pc);
    if a.PendingArrive? || a.PendingClose? {
      assert s'.k.edges == s.k.edges;
    } else {
      var fd := if a.Connect? then s.k.listener else a.fd;
      assert s'.k.edges <= s.k.edges + {fd};
      SubsetCount(s'.k.edges, s.k.edges + {fd});
    }
  }

  lemma NetworkPays(s: State, a: Action)
    requires Inv(s) && Enabled(s, a) && IsEnv(a)
    ensures StepsDue(Apply(s, a)) <= StepsDue(s) + Price(a)
    ensures RoundsDue(Apply(s, a)) <= RoundsDue(s) + RoundPrice(a)
  {
    BufferedNetwork(s, a);
    EdgesNetwork(s, a);
    assert Apply(s, a).pc == s.pc;
  }

  lemma InterruptionPays(s: State)
    requires Inv(s) && s.pc.Wait?
    ensures StepsDue(Apply(s, WaitFails)) == StepsDue(s) + 1 && RoundsDue(Apply(s, WaitFails)) == RoundsDue(s)
  {
    var s' := Apply(s, WaitFails);
    assert Members([]) == {} && s'.k.edges == s.k.edges;
    assert s'.k.conns == s.k.conns && s'.k.backlog == s.k.backlog;
  }

  /** In every run, whatever the network does and when, the server works no more than was due at the
      start and than the traffic pays for: a fixed price per connect, arrival, close and interruption
      and one step per byte. The same for returns of epoll_wait with events, where bytes are free. */
  lemma {:induction false} WorkIsPaidFor(s: State, acts: seq<Action>)
    requires Inv(s) && CanRun(s, acts)
    ensures Work(acts) + StepsDue(Run(s, acts)) <= StepsDue(s) + Paid(acts)
    ensures Rounds(acts) + RoundsDue(Run(s, acts)) <= RoundsDue(s) + RoundsPaid(acts)
    decreases |acts|
  {
    if acts != [] {
      var mid, a := Run(s, Front(acts)), Last(acts);
      WorkIsPaidFor(s, Front(acts));
      RunKeepsInv(s, Front(acts));
      if IsEnv(a) {
        NetworkPays(mid, a);
      } else if a.WaitFails? {
        InterruptionPays(mid);
      } else {
        StepsStep(mid, a);
        RoundsStep(mid, a);
      }
    }
  }

  lemma {:induction false} SilenceIsFree(acts: seq<Action>)
    requires AllQuiet(acts)
    ensures Work(acts) == |acts| && Paid(acts) == 0 && RoundsPaid(acts) == 0
  {
    if acts != [] {
      AllQuietFront(acts);
      SilenceIsFree(Front(acts));
    }
  }

  /** With the network silent, the loop runs at most StepsDue steps and at most RoundsDue rounds:
      at epoll_wait the latter is the number of pending edges, plus one for the listener's. */
  lemma QuietRunIsBounded(s: State, acts: seq<Action>)
    requires Inv(s) && CanRun(s, acts) && AllQuiet(acts)
    ensures |acts| + StepsDue(Run(s, acts)) <= StepsDue(s)
    ensures Rounds(acts) + RoundsDue(Run(s, acts)) <= RoundsDue(s)
    ensures s.pc.Wait? ==> RoundsDue(s) == |s.k.edges| + One(s.k.listener in s.k.edges)
  {
    WorkIsPaidFor(s, acts);
    SilenceIsFree(acts);
  }

  /** Everything the peer sent was read, in order, and nothing waits. */
  predicate FullyRead(c: Conn) { c.unread == [] && c.delivered == Flatten(c.chunks) }

  lemma AsleepMeansRead(s: State, fd: int)
    requires Inv(s) && Asleep(s) && fd in Registered(s.k)
    ensures fd in s.k.conns && FullyRead(s.k.conns[fd])
  {
    assert s.k.conns[fd].unread != [] ==> WillRead(s, fd);
    assert ConnConserved(s.k.conns[fd]);
  }

  /** Quiescence. From every reachable state, a silent run that cannot go on has ended asleep,
      within the bounds above, and everything that reached a registered connection was read:
      in order, with nothing left over. */
  lemma EverythingIsReadAtRest(s: State, acts: seq<Action>)
    requires Reachable(s) && CanRun(s, acts) && AllQuiet(acts)
    requires forall a :: IsQuiet(a) ==> !Enabled(Run(s, acts), a)
    ensures Asleep(Run(s, acts))
    ensures |acts| <= StepsDue(s) && Rounds(acts) <= RoundsDue(s)
    ensures var k := Run(s, acts).k;
      forall fd :: fd in Registered(k) ==> fd in k.conns && FullyRead(k.conns[fd])
  {
    var end := Run(s, acts);
    ReachableInv(s);
    RunKeepsInv(s, acts);
    QuietRunIsBounded(s, acts);
    if !Asleep(end) {
      CanStep(end);
    }
    forall fd | fd in Registered(end.k)
      ensures fd in end.k.conns && FullyRead(end.k.conns[fd])
    {
      AsleepMeansRead(end, fd);
    }
  }

  /** Such a run exists from every reachable state. */
  lemma {:induction false} RestIsReached(s: State) returns (acts: seq<Action>)
    requires Inv(s)
    ensures CanRun(s, acts) && AllQuiet(acts) && Asleep(Run(s, acts))
    decreases StepsDue(s)
  {
    acts := [];
    if !Asleep(s) {
      CanStep(s);
      var a :| IsQuiet(a) && Enabled(s, a);
      StepKeepsInv(s, a);
      StepsStep(s, a);
      var rest := RestIsReached(Apply(s, a));
      RunCons(s, a, rest);
      acts := [a] + rest;
    }
  }

  lemma RunCons(s: State, a: Action, acts: seq<Action>)
    requires Enabled(s, a) && CanRun(Apply(s, a), acts)
    ensures CanRun(s, [a] + acts) && Run(s, [a] + acts) == Run(Apply(s, a), acts)
  {
    RunSnoc(s, [], a);
    assert [] + [a] == [a];
    RunConcat(s, [a], acts);
  }

  // ---------------------------------------------------------------- one drain

  /** Consecutive reads of the drain loop. */
  predicate OnlyReads(acts: seq<Action>) { forall i :: 0 <= i < |acts| ==> acts[i].ReadOk? }

  lemma {:induction false} ReadsTakeBytes(s: State, acts: seq<Action>)
    requires CanRun(s, acts) && OnlyReads(acts) && AtDrain(s) && Target(s) in s.k.conns
    ensures var end := Run(s, acts); end.pc == s.pc && Target(s) in end.k.conns
    ensures var n := |s.k.conns[Target(s)].unread| - |Run(s, acts).k.conns[Target(s)].unread|;
      |acts| <= n <= BUFFER_SIZE * |acts|
    decreases |acts|
  {
    if acts != [] {
      ReadsTakeBytes(s, Front(acts));
    }
  }

  /** With L bytes buffered and none arriving, the loop body runs between ceil(L / 1024) and L
      times before read returns nothing. */
  lemma DrainIterations(s: State, acts: seq<Action>)
    requires CanRun(s, acts) && OnlyReads(acts) && AtDrain(s) && Target(s) in s.k.conns
    requires Enabled(Run(s, acts), ReadEmpty)
    ensures var L := |s.k.conns[Target(s)].unread|; (L + 1023) / 1024 <= |acts| <= L
  {
    ReadsTakeBytes(s, acts);
  }
}
