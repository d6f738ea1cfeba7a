/** Who owns what over whole libevent runs: bufferevents, descriptors, and the order of calls. */
module EventOwnership {
  import opened Basics
  import opened EventModel

  // ---------------------------------------------------------------- the rules of the library

  predicate Names(c: Call, id: nat) {
    match c
    case SocketNew(i, _) => i == id
    case SetCb(i) => i == id
    case Enable(i, _) => i == id
    case ReadBuf(i) => i == id
    case Peek(i) => i == id
    case WriteBuf(i) => i == id
    case FreeBev(i) => i == id
    case _ => false
  }

  /** The bufferevent exists: made by an earlier call and not freed yet. */
  predicate Usable(before: seq<Call>, id: nat) { SocketNew(id, true) in before && FreeBev(id) !in before }

  /** May `c` be made after the calls `before`? */
  predicate Allowed(before: seq<Call>, c: Call) {
    match c
    case SocketNew(id, _) => forall b :: b in before ==> !Names(b, id)
    case SetCb(id) => Usable(before, id)
    case Enable(id, _) => Usable(before, id) && SetCb(id) in before
    case ReadBuf(id) => Usable(before, id)
    case Peek(id) => Usable(before, id)
    case WriteBuf(id) => Usable(before, id)
    case FreeBev(id) => Usable(before, id)
    case LoopExit => BaseFree !in before
    case ListenerFree => c !in before && BaseFree !in before
    case SignalFree => c !in before && BaseFree !in before
    case BaseFree => c !in before
  }

  predicate Lawful(calls: seq<Call>) {
    forall i :: 0 <= i < |calls| ==> Allowed(calls[..i], calls[i])
  }

  lemma LawfulSnoc(calls: seq<Call>, c: Call)
    requires Lawful(calls) && Allowed(calls, c)
    ensures Lawful(calls + [c])
  {
    var more := calls + [c];
    forall i | 0 <= i < |more| ensures Allowed(more[..i], more[i]) {
      assert more[..i] == calls[..i];
      assert i < |calls| ==> more[i] == calls[i];
      assert i == |calls| ==> calls[..i] == calls;
    }
  }

  /** What lawfulness means for one bufferevent: its callbacks are set before it is enabled, it
      is freed at most once, and nothing mentions it after that. */
  lemma LawfulMeans(calls: seq<Call>, id: nat, i: nat, j: nat)
    requires Lawful(calls) && i < |calls| && j < |calls|
    ensures calls[j].Enable? && calls[j].id == id ==> exists k :: 0 <= k < j && calls[k] == SetCb(id)
    ensures calls[i] == FreeBev(id) && i < j ==> !Names(calls[j], id)
    ensures calls[i] == FreeBev(id) && calls[j] == FreeBev(id) ==> i == j
  {
    assert Allowed(calls[..j], calls[j]) && Allowed(calls[..i], calls[i]);
    if calls[j].Enable? && calls[j].id == id {
      var k :| 0 <= k < |calls[..j]| && calls[..j][k] == SetCb(id);
      assert calls[k] == SetCb(id);
    }
    assert Names(FreeBev(id), id);
    if i < j {
      assert calls[..j][i] == calls[i];
      assert calls[i] in calls[..j];
    } else if j < i {
      assert calls[..i][j] == calls[j];
      assert calls[j] in calls[..i];
    }
  }

  // ---------------------------------------------------------------- the invariant

  /** Every accept is live, freed or failed, and only one of these. */
  ghost predicate Partitioned(s: Server) {
    && (forall id :: id in s.live || id in s.freed || id in s.failed ==> id < s.accepted)
    && (forall id: nat :: id < s.accepted ==> id in s.live || id in s.freed || id in s.failed)
    && s.live.Keys !! s.freed.Keys !! s.failed
  }

  /** The record of calls tells which bufferevents are live and which are freed. */
  ghost predicate Recorded(s: Server) {
    && (forall c, id: nat :: c in s.calls && Names(c, id) ==> id < s.accepted)
    && (forall id :: id in s.live ==> Usable(s.calls, id) && SetCb(id) in s.calls)
    && (forall id :: id in s.freed ==> FreeBev(id) in s.calls)
    && (forall id :: id in s.failed ==> SocketNew(id, false) in s.calls && SocketNew(id, true) !in s.calls)
  }

  /** Each live bufferevent owns one open descriptor; the only others are the leaked ones. */
  ghost predicate Descriptors(s: Server) {
    && (forall id :: id in s.live ==> s.live[id].fd in s.openFds && s.live[id].fd !in s.leaked)
    && (forall i, j :: i in s.live && j in s.live && i != j ==> s.live[i].fd != s.live[j].fd)
    && (forall fd :: fd in s.openFds ==> fd in s.leaked || exists id :: id in s.live && s.live[id].fd == fd)
    && s.leaked <= s.openFds
  }

  ghost predicate Armed(s: Server) { BevsArmed(s) && LoopArmed(s) }

  ghost predicate BevsArmed(s: Server) {
    forall id :: id in s.live ==> s.live[id].hasCallbacks && s.live[id].enabled == {EV_READ, EV_WRITE}
  }

  ghost predicate LoopArmed(s: Server) {
    && (!s.phase.Destroyed? ==> s.hasListener && s.hasSignal && s.hasBase)
    && (!s.phase.Destroyed? ==> ListenerFree !in s.calls && SignalFree !in s.calls && BaseFree !in s.calls)
  }

  ghost predicate Inv(s: Server) {
    Partitioned(s) && Recorded(s) && Descriptors(s) && Armed(s) && Lawful(s.calls)
  }

  lemma StepPartitioned(s: Server, a: Action)
    requires Partitioned(s) && Enabled(s, a)
    ensures Partitioned(Apply(s, a))
  {
  }

  lemma AcceptRecorded(s: Server, fd: int, ok: bool)
    requires Partitioned(s) && Recorded(s)
    ensures Recorded(OnAccept(s, fd, ok))
  {
    var id, s' := s.accepted, OnAccept(s, fd, ok);
    assert Names(FreeBev(id), id) && Names(SocketNew(id, true), id);
    assert FreeBev(id) !in s.calls && SocketNew(id, true) !in s.calls;
    assert forall c :: c in s'.calls ==> c in s.calls || Names(c, id);
    assert forall c :: c in s.calls ==> c in s'.calls;
    if ok {
      var n := |s.calls|;
      assert s'.calls[n] == SocketNew(id, true) && s'.calls[n + 1] == SetCb(id);
    } else {
      assert s'.calls[|s.calls|] == SocketNew(id, false);
    }
    forall c, i: nat | c in s'.calls && Names(c, i) ensures i < s'.accepted {
      if c !in s.calls {
        NamesOne(c, i, id);
      }
    }
  }

  lemma NamesOne(c: Call, i: nat, j: nat)
    requires Names(c, i) && Names(c, j)
    ensures i == j
  {
  }

  /** Calls about a live bufferevent other than its release change nothing in the record. */
  lemma UseRecorded(s: Server, s': Server, id: nat, more: seq<Call>)
    requires Partitioned(s) && Recorded(s) && id in s.live
    requires forall c :: c in more ==> Names(c, id) && !c.FreeBev? && !c.SocketNew?
    requires s'.calls == s.calls + more && s'.accepted == s.accepted
    requires s'.live.Keys == s.live.Keys && s'.freed == s.freed && s'.failed == s.failed
    ensures Recorded(s')
  {
    forall c, i: nat | c in s'.calls && Names(c, i) ensures i < s'.accepted {
      if c !in s.calls {
        NamesOne(c, i, id);
      }
    }
  }

  lemma ReadRecorded(s: Server, id: nat, wrote: bool)
    requires Partitioned(s) && Recorded(s) && id in s.live
    ensures Recorded(OnRead(s, id, wrote))
  {
    UseRecorded(s, OnRead(s, id, wrote), id, [ReadBuf(id), Peek(id), WriteBuf(id)]);
  }

  lemma EventRecorded(s: Server, id: nat, what: set<What>)
    requires Partitioned(s) && Recorded(s) && id in s.live
    ensures Recorded(OnEvent(s, id, what))
  {
    var s' := OnEvent(s, id, what);
    assert forall c :: c in s'.calls ==> c in s.calls || c == Peek(id) || c == FreeBev(id);
    assert forall c :: c in s.calls ==> c in s'.calls;
    assert s'.calls[|s'.calls| - 1] == FreeBev(id);
    forall c, i: nat | c in s'.calls && Names(c, i) ensures i < s'.accepted {
      if c !in s.calls {
        NamesOne(c, i, id);
      }
    }
  }

  lemma StepRecorded(s: Server, a: Action)
    requires Partitioned(s) && Recorded(s) && Enabled(s, a)
    ensures Recorded(Apply(s, a))
  {
    var s' := Apply(s, a);
    if a.Accepted? {
      AcceptRecorded(s, a.fd, a.ok);
    } else if a.EventCb? {
      EventRecorded(s, a.id, a.what);
    } else if a.ReadCb? {
      ReadRecorded(s, a.id, a.wrote);
    } else if a.Signal? {
      OtherRecorded(s, s', [LoopExit]);
    } else if a.Destroy? {
      DestroyRecorded(s);
    } else {
      OtherRecorded(s, s', []);
    }
  }

  lemma DestroyRecorded(s: Server)
    requires Recorded(s)
    ensures Recorded(OnDestroy(s))
  {
    var more := ReleaseCalls(s.hasListener, s.hasSignal, s.hasBase);
    assert OnDestroy(s).calls == s.calls + more;
    OtherRecorded(s, OnDestroy(s), more);
  }

  lemma OtherRecorded(s: Server, s': Server, more: seq<Call>)
    requires Recorded(s)
    requires forall c :: c in more ==> c in [LoopExit, ListenerFree, SignalFree, BaseFree]
    requires s'.calls == s.calls + more && s'.accepted == s.accepted
    requires s'.live.Keys == s.live.Keys && s'.freed == s.freed && s'.failed == s.failed
    ensures Recorded(s')
  {
    assert forall c :: c in s.calls ==> c in s'.calls;
  }

  lemma AcceptDescriptors(s: Server, fd: int, ok: bool)
    requires Partitioned(s) && Descriptors(s) && fd !in s.openFds
    ensures Descriptors(OnAccept(s, fd, ok))
  {
    var s' := OnAccept(s, fd, ok);
    forall x | x in s'.openFds ensures x in s'.leaked || exists id :: id in s'.live && s'.live[id].fd == x {
      if x == fd {
        assert ok ==> s.accepted in s'.live && s'.live[s.accepted].fd == fd;
      } else if x !in s.leaked {
        var id :| id in s.live && s.live[id].fd == x;
        assert id in s'.live && s'.live[id].fd == x;
      }
    }
  }

  lemma EventDescriptors(s: Server, id: nat, what: set<What>)
    requires Descriptors(s) && id in s.live
    ensures Descriptors(OnEvent(s, id, what))
  {
    var s' := OnEvent(s, id, what);
    forall x | x in s'.openFds ensures x in s'.leaked || exists i :: i in s'.live && s'.live[i].fd == x {
      if x !in s.leaked {
        var i :| i in s.live && s.live[i].fd == x;
        assert i in s'.live && s'.live[i].fd == x;
      }
    }
  }

  lemma StepDescriptors(s: Server, a: Action)
    requires Partitioned(s) && Descriptors(s) && Enabled(s, a)
    ensures Descriptors(Apply(s, a))
  {
    var s' := Apply(s, a);
    if a.Accepted? {
      AcceptDescriptors(s, a.fd, a.ok);
    } else if a.EventCb? {
      EventDescriptors(s, a.id, a.what);
    } else {
      SameDescriptors(s, s');
    }
  }

  lemma SameDescriptors(s: Server, s': Server)
    requires Descriptors(s) && s'.live.Keys == s.live.Keys && s'.openFds == s.openFds && s'.leaked == s.leaked
    requires forall id :: id in s.live ==> s'.live[id].fd == s.live[id].fd
    ensures Descriptors(s')
  {
    forall x | x in s'.openFds && x !in s'.leaked ensures exists i :: i in s'.live && s'.live[i].fd == x {
      var i :| i in s.live && s.live[i].fd == x;
      assert i in s'.live && s'.live[i].fd == x;
    }
  }

  lemma StepArmed(s: Server, a: Action)
    requires Armed(s) && Enabled(s, a)
    ensures Armed(Apply(s, a))
  {
    StepBevsArmed(s, a);
    StepLoopArmed(s, a);
  }

  lemma StepBevsArmed(s: Server, a: Action)
    requires BevsArmed(s) && Enabled(s, a)
    ensures BevsArmed(Apply(s, a))
  {
  }

  lemma StepLoopArmed(s: Server, a: Action)
    requires LoopArmed(s) && Enabled(s, a)
    ensures LoopArmed(Apply(s, a))
  {
    if !a.Destroy? {
      var calls := Apply(s, a).calls;
      assert forall c :: c in calls ==> c in s.calls || !(c.ListenerFree? || c.SignalFree? || c.BaseFree?);
    }
  }

  /** The calls of a callback, one after the other. */
  lemma StepLawful(s: Server, a: Action)
    requires Inv(s) && Enabled(s, a)
    ensures Lawful(Apply(s, a).calls)
  {
    var c := s.calls;
    if a.Accepted? {
      AcceptLawful(s, a.ok);
    } else if a.ReadCb? {
      UsesLawful(c, a.id);
    } else if a.EventCb? {
      ReleaseLawful(c, a.id, EOF in a.what);
    } else if a.Signal? {
      LawfulSnoc(c, LoopExit);
    } else if a.Destroy? {
      LawfulSnoc(c, ListenerFree);
      LawfulSnoc(c + [ListenerFree], SignalFree);
      LawfulSnoc(c + [ListenerFree] + [SignalFree], BaseFree);
    }
  }

  lemma AcceptLawful(s: Server, ok: bool)
    requires Recorded(s) && Lawful(s.calls)
    ensures var c, id := s.calls, s.accepted;
      if ok then Lawful(c + [SocketNew(id, true), SetCb(id), Enable(id, EV_WRITE), Enable(id, EV_READ)])
      else Lawful(c + [SocketNew(id, false)])
  {
    var c, id := s.calls, s.accepted;
    assert forall b :: b in c ==> !Names(b, id);
    LawfulSnoc(c, SocketNew(id, ok));
    if ok {
      assert Names(FreeBev(id), id);
      ArmLawful(c + [SocketNew(id, true)], id);
      assert c + [SocketNew(id, true)] + [SetCb(id)] + [Enable(id, EV_WRITE)] + [Enable(id, EV_READ)]
          == c + [SocketNew(id, true), SetCb(id), Enable(id, EV_WRITE), Enable(id, EV_READ)];
    }
  }

  lemma ArmLawful(c: seq<Call>, id: nat)
    requires Lawful(c) && Usable(c, id)
    ensures Lawful(c + [SetCb(id)] + [Enable(id, EV_WRITE)] + [Enable(id, EV_READ)])
  {
    LawfulSnoc(c, SetCb(id));
    var c1 := c + [SetCb(id)];
    assert SetCb(id) in c1 && Usable(c1, id);
    LawfulSnoc(c1, Enable(id, EV_WRITE));
    LawfulSnoc(c1 + [Enable(id, EV_WRITE)], Enable(id, EV_READ));
  }

  lemma UsesLawful(c: seq<Call>, id: nat)
    requires Lawful(c) && Usable(c, id)
    ensures Lawful(c + [ReadBuf(id), Peek(id), WriteBuf(id)])
  {
    LawfulSnoc(c, ReadBuf(id));
    LawfulSnoc(c + [ReadBuf(id)], Peek(id));
    LawfulSnoc(c + [ReadBuf(id)] + [Peek(id)], WriteBuf(id));
    assert c + [ReadBuf(id)] + [Peek(id)] + [WriteBuf(id)] == c + [ReadBuf(id), Peek(id), WriteBuf(id)];
  }

  lemma ReleaseLawful(c: seq<Call>, id: nat, eof: bool)
    requires Lawful(c) && Usable(c, id)
    ensures Lawful(c + (if eof then [Peek(id), Peek(id)] else []) + [FreeBev(id)])
  {
    if eof {
      LawfulSnoc(c, Peek(id));
      LawfulSnoc(c + [Peek(id)], Peek(id));
      LawfulSnoc(c + [Peek(id)] + [Peek(id)], FreeBev(id));
      assert c + [Peek(id), Peek(id)] == c + [Peek(id)] + [Peek(id)];
    } else {
      LawfulSnoc(c, FreeBev(id));
      assert c + [] == c;
    }
  }

  lemma StepKeepsInv(s: Server, a: Action)
    requires Inv(s) && Enabled(s, a)
    ensures Inv(Apply(s, a))
  {
    StepPartitioned(s, a);
    StepRecorded(s, a);
    StepDescriptors(s, a);
    StepArmed(s, a);
    StepLawful(s, a);
  }

  // ---------------------------------------------------------------- whole runs

  lemma {:induction false} RunKeepsInv(init: Server, acts: seq<Action>)
    requires IsRun(init, acts)
    ensures Inv(Run(init, acts))
    decreases |acts|
  {
    if acts != [] {
      RunKeepsInv(init, Front(acts));
      StepKeepsInv(Run(init, Front(acts)), Last(acts));
    }
  }

  /** Accepts are live bufferevents, freed ones and failed ones; which of the bufferevents were
      freed can be read off the calls. */
  lemma AcceptsAreAccountedFor(init: Server, acts: seq<Action>)
    requires IsRun(init, acts)
    ensures var s := Run(init, acts);
      && s.accepted == |s.live.Keys| + |s.freed.Keys| + |s.failed|
      && forall id: nat :: FreeBev(id) in s.calls <==> id in s.freed
  {
    RunKeepsInv(init, acts);
    var s := Run(init, acts);
    Count(s.live.Keys + s.freed.Keys + s.failed, s.accepted);
    forall id: nat | FreeBev(id) in s.calls ensures id in s.freed {
      assert Names(FreeBev(id), id);
      if id in s.failed {
        FreedWasMade(s.calls, id);
      }
    }
  }

  lemma FreedWasMade(calls: seq<Call>, id: nat)
    requires Lawful(calls) && FreeBev(id) in calls
    ensures SocketNew(id, true) in calls
  {
    var i :| 0 <= i < |calls| && calls[i] == FreeBev(id);
    assert Allowed(calls[..i], calls[i]);
  }

  lemma {:induction false} Count(ids: set<nat>, n: nat)
    requires forall id: nat :: id in ids <==> id < n
    ensures |ids| == n
  {
    if n == 0 {
      assert ids == {};
    } else {
      Count(ids - {n - 1}, n - 1);
    }
  }

  /** A bufferevent is freed exactly if its event callback ran, whatever the event was. */
  lemma {:induction false} FreedExactlyByItsEvent(init: Server, acts: seq<Action>, id: nat)
    requires IsRun(init, acts)
    ensures id in Run(init, acts).freed <==> exists i :: 0 <= i < |acts| && acts[i].EventCb? && acts[i].id == id
    decreases |acts|
  {
    if acts != [] {
      var front, a := Front(acts), Last(acts);
      FreedExactlyByItsEvent(init, front, id);
      assert forall i :: 0 <= i < |front| ==> acts[i] == front[i];
      assert a == acts[|acts| - 1];
      FreedStep(Run(init, front), a, id);
      if id in Run(init, front).freed {
        var i :| 0 <= i < |front| && front[i].EventCb? && front[i].id == id;
        assert acts[i].EventCb? && acts[i].id == id;
      }
    }
  }

  lemma FreedStep(s: Server, a: Action, id: nat)
    requires Enabled(s, a)
    ensures id in Apply(s, a).freed <==> id in s.freed || (a.EventCb? && a.id == id)
  {
  }

  /** The order of calls, for every bufferevent of every run. */
  lemma CallsAreLawful(init: Server, acts: seq<Action>, id: nat, i: nat, j: nat)
    requires IsRun(init, acts) && i < |Run(init, acts).calls| && j < |Run(init, acts).calls|
    ensures var calls := Run(init, acts).calls;
      && (calls[j].Enable? && calls[j].id == id ==> exists k :: 0 <= k < j && calls[k] == SetCb(id))
      && (calls[i] == FreeBev(id) && i < j ==> !Names(calls[j], id))
      && (calls[i] == FreeBev(id) && calls[j] == FreeBev(id) ==> i == j)
  {
    RunKeepsInv(init, acts);
    LawfulMeans(Run(init, acts).calls, id, i, j);
  }

  // ---------------------------------------------------------------- told from the run alone

  function Accepts(acts: seq<Action>): nat {
    if acts == [] then 0 else Accepts(Front(acts)) + if Last(acts).Accepted? then 1 else 0
  }

  /** Accept number `id` of the run. */
  function NthAccept(acts: seq<Action>, id: nat): (r: Option<Action>)
    ensures r.Some? ==> r.value.Accepted? && r.value in acts
  {
    if acts == [] then None
    else if Last(acts).Accepted? && Accepts(Front(acts)) == id then Some(Last(acts))
    else NthAccept(Front(acts), id)
  }

  /** What became of accept number `id`: nothing yet, a bufferevent on its descriptor, or a failure. */
  ghost predicate BecameOf(s: Server, id: nat, a: Option<Action>)
    requires a.Some? ==> a.value.Accepted?
  {
    match a
    case None => s.accepted <= id
    case Some(a) => if a.ok then Made(s, id) && RecordOf(s, id).fd == a.fd else id in s.failed
  }

  lemma StepBecame(s: Server, a: Action, id: nat, was: Option<Action>)
    requires Partitioned(s) && Enabled(s, a) && (was.Some? ==> was.value.Accepted?) && BecameOf(s, id, was)
    ensures BecameOf(Apply(s, a), id, if a.Accepted? && s.accepted == id then Some(a) else was)
    ensures Apply(s, a).accepted == s.accepted + if a.Accepted? then 1 else 0
  {
  }

  /** Which accepts have a bufferevent, on which descriptor, and which have failed. */
  lemma {:induction false} MadeExactlyByItsAccept(init: Server, acts: seq<Action>, id: nat)
    requires IsRun(init, acts)
    ensures Run(init, acts).accepted == Accepts(acts) && BecameOf(Run(init, acts), id, NthAccept(acts, id))
    ensures forall fd :: NthAccept(acts, id) == Some(Accepted(fd, true)) <==>
      Made(Run(init, acts), id) && RecordOf(Run(init, acts), id).fd == fd
    ensures id in Run(init, acts).failed <==> exists fd :: NthAccept(acts, id) == Some(Accepted(fd, false))
    decreases |acts|
  {
    if acts != [] {
      MadeExactlyByItsAccept(init, Front(acts), id);
      RunKeepsInv(init, Front(acts));
      StepBecame(Run(init, Front(acts)), Last(acts), id, NthAccept(Front(acts), id));
    }
    RunKeepsInv(init, acts);
    BecameExactly(Run(init, acts), id, NthAccept(acts, id));
  }

  lemma BecameExactly(s: Server, id: nat, was: Option<Action>)
    requires Partitioned(s) && (was.Some? ==> was.value.Accepted?) && BecameOf(s, id, was)
    ensures forall fd :: was == Some(Accepted(fd, true)) <==> Made(s, id) && RecordOf(s, id).fd == fd
    ensures id in s.failed <==> exists fd :: was == Some(Accepted(fd, false))
  {
    if was.Some? && !was.value.ok {
      assert was == Some(Accepted(was.value.fd, false));
    }
  }

  /** A descriptor whose bufferevent could not be made stays open for good: nothing closes it. */
  lemma {:induction false} LeakedExactlyByFailure(init: Server, acts: seq<Action>, fd: int)
    requires IsRun(init, acts)
    ensures fd in Run(init, acts).leaked <==> Accepted(fd, false) in acts
    decreases |acts|
  {
    if acts != [] {
      LeakedExactlyByFailure(init, Front(acts), fd);
      LeakedStep(Run(init, Front(acts)), Last(acts), fd);
      assert acts == Front(acts) + [Last(acts)];
    }
  }

  lemma LeakedStep(s: Server, a: Action, fd: int)
    requires Enabled(s, a)
    ensures fd in Apply(s, a).leaked <==> fd in s.leaked || a == Accepted(fd, false)
  {
  }

  predicate HasEvent(acts: seq<Action>, id: nat) {
    exists i :: 0 <= i < |acts| && acts[i].EventCb? && acts[i].id == id
  }

  /** Which descriptors are open: those of accepts that failed to get a bufferevent, and those of
      accepts that got one and have not had its event callback. */
  lemma OpenExactlyWhen(init: Server, acts: seq<Action>, fd: int)
    requires IsRun(init, acts)
    ensures fd in Run(init, acts).openFds <==>
      || Accepted(fd, false) in acts
      || exists id: nat :: NthAccept(acts, id) == Some(Accepted(fd, true)) && !HasEvent(acts, id)
  {
    var s := Run(init, acts);
    RunKeepsInv(init, acts);
    OpenOf(s);
    LeakedExactlyByFailure(init, acts, fd);
    forall id: nat
      ensures NthAccept(acts, id) == Some(Accepted(fd, true)) && !HasEvent(acts, id) <==>
        id in s.live && s.live[id].fd == fd
    {
      MadeExactlyByItsAccept(init, acts, id);
      FreedExactlyByItsEvent(init, acts, id);
    }
  }

  /** The library calls that `a` makes, when `n` accepts came before it. */
  function CallsBy(a: Action, n: nat): seq<Call> {
    match a
    case Accepted(_, ok) =>
      if ok then [SocketNew(n, true), SetCb(n), Enable(n, EV_WRITE), Enable(n, EV_READ)] else [SocketNew(n, false)]
    case ReadCb(id, _) => [ReadBuf(id), Peek(id), WriteBuf(id)]
    case EventCb(id, what) => if EOF in what then [Peek(id), Peek(id), FreeBev(id)] else [FreeBev(id)]
    case Signal => [LoopExit]
    case Destroy => [ListenerFree, SignalFree, BaseFree]
    case _ => []
  }

  function CallsOf(acts: seq<Action>): seq<Call> {
    if acts == [] then [] else CallsOf(Front(acts)) + CallsBy(Last(acts), Accepts(Front(acts)))
  }

  lemma StepCalls(s: Server, a: Action)
    requires LoopArmed(s) && Enabled(s, a)
    ensures Apply(s, a).calls == s.calls + CallsBy(a, s.accepted)
  {
  }

  /** The record of a run is the calls of its callbacks, in their order, and no others. */
  lemma {:induction false} CallsAreThoseOfTheRun(init: Server, acts: seq<Action>)
    requires IsRun(init, acts)
    ensures Run(init, acts).calls == CallsOf(acts)
    decreases |acts|
  {
    if acts != [] {
      CallsAreThoseOfTheRun(init, Front(acts));
      RunKeepsInv(init, Front(acts));
      MadeExactlyByItsAccept(init, Front(acts), 0);
      StepCalls(Run(init, Front(acts)), Last(acts));
    }
  }

  function Signals(acts: seq<Action>): nat {
    if acts == [] then 0 else Signals(Front(acts)) + if Last(acts).Signal? then 1 else 0
  }

  function Exits(calls: seq<Call>): nat {
    if calls == [] then 0 else Exits(Front(calls)) + if Last(calls).LoopExit? then 1 else 0
  }

  lemma {:induction false} ExitsConcat(a: seq<Call>, b: seq<Call>)
    ensures Exits(a + b) == Exits(a) + Exits(b)
    decreases |b|
  {
    if b == [] {
      assert a + b == a;
    } else {
      ExitsConcat(a, Front(b));
      assert Front(a + b) == a + Front(b);
    }
  }

  lemma {:induction false} NoExits(calls: seq<Call>)
    requires LoopExit !in calls
    ensures Exits(calls) == 0
  {
    if calls != [] {
      assert Last(calls) in calls;
      NoExits(Front(calls));
    }
  }

  /** The loop is asked to exit once per signal. */
  lemma ExitsAreSignals(init: Server, acts: seq<Action>)
    requires IsRun(init, acts)
    ensures Exits(Run(init, acts).calls) == Signals(acts)
  {
    CallsAreThoseOfTheRun(init, acts);
    ExitsOf(acts);
  }

  lemma {:induction false} ExitsOf(acts: seq<Action>)
    ensures Exits(CallsOf(acts)) == Signals(acts)
  {
    if acts != [] {
      ExitsOf(Front(acts));
      ExitsBy(CallsOf(Front(acts)), Last(acts), Accepts(Front(acts)));
    }
  }

  lemma ExitsBy(calls: seq<Call>, a: Action, n: nat)
    ensures Exits(calls + CallsBy(a, n)) == Exits(calls) + if a.Signal? then 1 else 0
  {
    if a.Signal? {
      assert Front(calls + [LoopExit]) == calls;
    } else {
      NoExitBy(a, n);
      NoExits(CallsBy(a, n));
      ExitsConcat(calls, CallsBy(a, n));
    }
  }

  lemma NoExitBy(a: Action, n: nat)
    requires !a.Signal?
    ensures LoopExit !in CallsBy(a, n)
  {
  }

  predicate IsRelease(c: Call) { c.ListenerFree? || c.SignalFree? || c.BaseFree? }

  /** A destroyed server has released listener, signal event and base, as its last three calls, in
      this order, and none of them before. */
  lemma {:induction false} DestroyedReleasesAll(init: Server, acts: seq<Action>)
    requires IsRun(init, acts) && Run(init, acts).phase.Destroyed?
    ensures var calls := Run(init, acts).calls; var n := |calls| - 3;
      && n >= 0 && calls[n..] == [ListenerFree, SignalFree, BaseFree]
      && forall c :: c in calls[..n] ==> !IsRelease(c)
  {
    var mid := Run(init, Front(acts));
    RunKeepsInv(init, Front(acts));
    assert Last(acts).Destroy? by {
      NothingAfterDestroy(mid, Last(acts));
    }
    StepCalls(mid, Last(acts));
    assert Run(init, acts).calls[..|mid.calls|] == mid.calls;
  }

  lemma NothingAfterDestroy(s: Server, a: Action)
    requires Enabled(s, a)
    ensures !s.phase.Destroyed? && (Apply(s, a).phase.Destroyed? ==> a.Destroy?)
  {
  }

  /** Until the server object is destroyed, no callback takes the listener, the signal event or
      the base away; destroying it frees the three, and none of the bufferevents still live. */
  lemma LoopKeepsItsEvents(init: Server, acts: seq<Action>)
    requires IsRun(init, acts)
    ensures var s := Run(init, acts);
      && (!s.phase.Destroyed? ==> s.hasListener && s.hasSignal && s.hasBase)
      && (!s.phase.Destroyed? ==> ListenerFree !in s.calls && SignalFree !in s.calls && BaseFree !in s.calls)
      && (forall id :: id in s.live ==> FreeBev(id) !in s.calls)
  {
    RunKeepsInv(init, acts);
  }

  // ---------------------------------------------------------------- the destructor

  /** The order in which the destructor releases. */
  function Rank(c: Call): nat { if c.ListenerFree? then 0 else if c.SignalFree? then 1 else 2 }

  /** `more` are releases, in order and none twice, of exactly the members that are set. */
  ghost predicate Releases(more: seq<Call>, listener: bool, signal: bool, base: bool) {
    && (forall c :: c in more ==> IsRelease(c))
    && (forall i, j :: 0 <= i < j < |more| ==> Rank(more[i]) < Rank(more[j]))
    && (ListenerFree in more <==> listener)
    && (SignalFree in more <==> signal)
    && (BaseFree in more <==> base)
  }

  lemma DestroyReleases(s: Server)
    ensures s.calls <= OnDestroy(s).calls
    ensures Releases(OnDestroy(s).calls[|s.calls|..], s.hasListener, s.hasSignal, s.hasBase)
  {
    var more := ReleaseCalls(s.hasListener, s.hasSignal, s.hasBase);
    assert OnDestroy(s).calls == s.calls + more;
    assert (s.calls + more)[|s.calls|..] == more;
  }

  function ReleaseCalls(listener: bool, signal: bool, base: bool): (r: seq<Call>)
    ensures Releases(r, listener, signal, base)
  {
    (if listener then [ListenerFree] else []) + (if signal then [SignalFree] else [])
    + (if base then [BaseFree] else [])
  }

  /** Descriptors in use are those of the live bufferevents, each owned by one of them, and those
      left over from failed ones. */
  lemma OpenDescriptors(init: Server, acts: seq<Action>)
    requires IsRun(init, acts)
    ensures var s := Run(init, acts);
      && s.openFds == (set id | id in s.live :: s.live[id].fd) + s.leaked
      && (forall i, j :: i in s.live && j in s.live && s.live[i].fd == s.live[j].fd ==> i == j)
      && (forall id :: id in s.live ==> s.live[id].fd !in s.leaked)
  {
    RunKeepsInv(init, acts);
    OpenOf(Run(init, acts));
  }

  lemma OpenOf(s: Server)
    requires Descriptors(s)
    ensures s.openFds == (set id | id in s.live :: s.live[id].fd) + s.leaked
  {
    var fds := set id | id in s.live :: s.live[id].fd;
    forall fd | fd in s.openFds ensures fd in fds + s.leaked {
      if fd !in s.leaked {
        var id :| id in s.live && s.live[id].fd == fd;
        assert s.live[id].fd in fds;
      }
    }
  }
}
