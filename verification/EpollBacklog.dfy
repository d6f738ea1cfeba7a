/**
  Who is left waiting: the epoll loop accepts one connection per listener event, accept may fail
  although a connection waits, and a failing accept may cost the connection.
 */
module EpollBacklog {
  import opened Basics
  import opened EpollModel
  import opened EpollSafety
  import opened EpollQuiescence

  /** accept fails although a connection waits (no descriptor left, for instance). */
  predicate AcceptRefused(s: State, a: Action) { a.AcceptFails? && s.k.backlog != [] }

  function Refusals(s: State, acts: seq<Action>): nat
    requires CanRun(s, acts)
    decreases |acts|
  {
    if acts == [] then 0
    else Refusals(s, Front(acts)) + One(AcceptRefused(Run(s, Front(acts)), Last(acts)))
  }

  /** By how much the waiting connections exceed the listener events to come. */
  function Over(s: State): int { |s.k.backlog| - ListenerDue(s) }

  /** A server step changes it only by spending a listener event on nothing; and it fills no backlog. */
  lemma OverStep(s: State, a: Action)
    requires Inv(s) && Enabled(s, a) && IsQuiet(a)
    ensures Over(Apply(s, a)) == Over(s) + One(a.AcceptFails?)
    ensures s.k.backlog == [] ==> Apply(s, a).k.backlog == []
  {
    ListenerDueStep(s, a);
    CountersStep(s, a);
  }

  lemma {:induction false} OverRun(s: State, acts: seq<Action>)
    requires Inv(s) && CanRun(s, acts) && AllQuiet(acts)
    ensures var e, over := Run(s, acts), Over(s) + Refusals(s, acts);
      Over(e) == over || (e.k.backlog == [] && over <= Over(e))
    decreases |acts|
  {
    if acts != [] {
      AllQuietFront(acts);
      OverRun(s, Front(acts));
      RunKeepsInv(s, Front(acts));
      OverStep(Run(s, Front(acts)), Last(acts));
    }
  }

  lemma NothingDueAsleep(s: State)
    requires Asleep(s)
    ensures Over(s) == |s.k.backlog|
  {
  }

  lemma AtMostTwoDue(s: State)
    ensures ListenerDue(s) <= 2
  {
  }

  lemma OverAtRest(s: State, acts: seq<Action>)
    requires Inv(s) && CanRun(s, acts) && AllQuiet(acts) && Asleep(Run(s, acts))
    ensures |Run(s, acts).k.backlog| == Max(0, Over(s) + Refusals(s, acts))
  {
    OverRun(s, acts);
    NothingDueAsleep(Run(s, acts));
  }

  lemma LeftAtRest(s: State, acts: seq<Action>)
    requires Inv(s) && CanRun(s, acts) && AllQuiet(acts) && Asleep(Run(s, acts))
    ensures |Run(s, acts).k.backlog| == Max(0, |s.k.backlog| - ListenerDue(s) + Refusals(s, acts))
    ensures Run(s, acts).k.backlog == [] <==> |s.k.backlog| + Refusals(s, acts) <= ListenerDue(s)
    ensures ListenerDue(s) <= 2
  {
    OverAtRest(s, acts);
    AtMostTwoDue(s);
  }

  /** When the network has fallen silent and the loop sleeps, this many still wait: those that
      waited, less the listener events that were due, of which there are two at most, and more by
      every event that a refused accept wasted. */
  lemma BacklogAtRest(s: State, acts: seq<Action>)
    requires Reachable(s) && CanRun(s, acts) && AllQuiet(acts) && Asleep(Run(s, acts))
    ensures |Run(s, acts).k.backlog| == Max(0, |s.k.backlog| - ListenerDue(s) + Refusals(s, acts))
    ensures Run(s, acts).k.backlog == [] <==> |s.k.backlog| + Refusals(s, acts) <= ListenerDue(s)
    ensures ListenerDue(s) <= 2
  {
    ReachableInv(s);
    LeftAtRest(s, acts);
  }

  /** Server steps lose exactly the connections that a failing accept took. */
  lemma {:induction false} LostBy(s: State, acts: seq<Action>)
    requires CanRun(s, acts) && AllQuiet(acts)
    ensures Run(s, acts).k.connects == s.k.connects && s.k.lost <= Run(s, acts).k.lost
    ensures Run(s, acts).k.lost == s.k.lost <==> AcceptLoses !in acts
    decreases |acts|
  {
    if acts != [] {
      AllQuietFront(acts);
      LostBy(s, Front(acts));
      CountersStep(Run(s, Front(acts)), Last(acts));
      assert acts == Front(acts) + [Last(acts)];
    }
  }

  /** Whoever waits is accepted by the time the loop sleeps again exactly if no accept loses its
      connection, and the listener events that are due, less those wasted by refused accepts, are
      as many as the connections that wait. */
  lemma AllAcceptedExactlyWhen(s: State, acts: seq<Action>)
    requires Reachable(s) && CanRun(s, acts) && AllQuiet(acts) && Asleep(Run(s, acts))
    ensures |Run(s, acts).k.conns.Keys| == |s.k.conns.Keys| + |s.k.backlog| <==>
      AcceptLoses !in acts && |s.k.backlog| + Refusals(s, acts) <= ListenerDue(s)
  {
    BacklogAtRest(s, acts);
    LostBy(s, acts);
    ReachableInv(s);
    RunKeepsInv(s, acts);
    assert Counted(s.k) && Counted(Run(s, acts).k);
  }

  /** The property "whoever connects is accepted" is false: two peers connect while the loop
      sleeps, their edges merge into one, and whatever the server does then, one more connection
      than before is still waiting when it sleeps again. */
  lemma SecondPeerIsStranded(s: State, acts: seq<Action>)
    requires Reachable(s) && Asleep(s)
    requires var two := Apply(Apply(s, Connect), Connect); CanRun(two, acts) && AllQuiet(acts) && Asleep(Run(two, acts))
    ensures |Run(Apply(Apply(s, Connect), Connect), acts).k.backlog| >= |s.k.backlog| + 1
  {
    TwoConnects(s);
    InvAfterTwo(s);
    AllButOneAreLeft(Apply(Apply(s, Connect), Connect), acts);
  }

  lemma AllButOneAreLeft(s: State, acts: seq<Action>)
    requires Inv(s) && CanRun(s, acts) && AllQuiet(acts) && Asleep(Run(s, acts)) && ListenerDue(s) <= 1
    ensures |Run(s, acts).k.backlog| >= |s.k.backlog| - 1
  {
    LeftAtRest(s, acts);
  }

  lemma InvAfterTwo(s: State)
    requires Reachable(s)
    ensures Inv(Apply(Apply(s, Connect), Connect))
  {
    ReachableInv(s);
    StepKeepsInv(s, Connect);
    StepKeepsInv(Apply(s, Connect), Connect);
  }

  lemma TwoConnects(s: State)
    requires Asleep(s)
    ensures var two := Apply(Apply(s, Connect), Connect);
      |two.k.backlog| == |s.k.backlog| + 2 && ListenerDue(two) <= 1
  {
  }

  /** It is false for a single peer too: an accept that fails after taking the connection from the
      backlog leaves nobody waiting and nobody accepted. */
  lemma OnlyPeerIsLost(s: State)
    requires Reachable(s) && Asleep(s) && s.k.backlog == []
    ensures var one, acts := Apply(s, Connect), [WaitOk([s.k.listener], [{EPOLLIN}]), AcceptLoses, ForEnd];
      && CanRun(one, acts) && AllQuiet(acts) && Asleep(Run(one, acts))
      && Run(one, acts).k.backlog == [] && Run(one, acts).k.conns == s.k.conns
  {
    ReachableInv(s);
    LostAtRest(s);
  }

  lemma LostAtRest(s: State)
    requires Descriptors(s.k) && Asleep(s) && s.k.backlog == []
    ensures var one, acts := Apply(s, Connect), [WaitOk([s.k.listener], [{EPOLLIN}]), AcceptLoses, ForEnd];
      && CanRun(one, acts) && AllQuiet(acts) && Asleep(Run(one, acts))
      && Run(one, acts).k.backlog == [] && Run(one, acts).k.conns == s.k.conns
  {
    TheOnlyEvent(s);
    ThreeSteps(Apply(s, Connect), WaitOk([s.k.listener], [{EPOLLIN}]), AcceptLoses, ForEnd);
  }

  lemma TheOnlyEvent(s: State)
    requires Descriptors(s.k) && Asleep(s) && s.k.backlog == []
    ensures var one, a1 := Apply(s, Connect), WaitOk([s.k.listener], [{EPOLLIN}]);
      && Enabled(one, a1) && Enabled(Apply(one, a1), AcceptLoses)
      && Enabled(Apply(Apply(one, a1), AcceptLoses), ForEnd)
      && var end := Apply(Apply(Apply(one, a1), AcceptLoses), ForEnd);
      Asleep(end) && end.k.backlog == [] && end.k.conns == s.k.conns
  {
    var l, one := s.k.listener, Apply(s, Connect);
    assert one.k.edges == {l} && one.k.interest[l].data == l && l !in one.k.conns;
    assert Enabled(one, WaitOk([l], [{EPOLLIN}]));
    var s1 := Apply(one, WaitOk([l], [{EPOLLIN}]));
    assert Members([l]) == {l} && s1.k.edges == {} && s1.pc.batch == [EpollEvent({EPOLLIN}, l)];
  }

  lemma ThreeSteps(s: State, a1: Action, a2: Action, a3: Action)
    requires Enabled(s, a1) && Enabled(Apply(s, a1), a2) && Enabled(Apply(Apply(s, a1), a2), a3)
    ensures CanRun(s, [a1, a2, a3]) && Run(s, [a1, a2, a3]) == Apply(Apply(Apply(s, a1), a2), a3)
  {
    TwoSteps(s, a1, a2);
    OneMore(s, [a1, a2], a3, [a1, a2, a3]);
  }

  lemma TwoSteps(s: State, a1: Action, a2: Action)
    requires Enabled(s, a1) && Enabled(Apply(s, a1), a2)
    ensures CanRun(s, [a1, a2]) && Run(s, [a1, a2]) == Apply(Apply(s, a1), a2)
  {
    RunSnoc(s, [], a1);
    assert [] + [a1] == [a1];
    OneMore(s, [a1], a2, [a1, a2]);
  }

  lemma OneMore(s: State, acts: seq<Action>, a: Action, all: seq<Action>)
    requires CanRun(s, acts) && Enabled(Run(s, acts), a) && all == acts + [a]
    ensures CanRun(s, all) && Run(s, all) == Apply(Run(s, acts), a)
  {
    RunSnoc(s, acts, a);
  }
}
