/**
  Server::InitServer as it is written: nested loops over an events array and a byte buffer that
  is cleared in place. What the network does and what the kernel replies is given as a script, a
  run of the transition system; the system calls take their replies from it. Every loop and branch
  is proved to follow the script: the state that it leaves behind is the state that the transition
  system has after the actions taken, and the log has the lines of these actions. So whatever is
  proved about runs holds for the code as written.
 */
module EpollLoop {
  import opened Basics
  import opened Bytes
  import opened EpollModel
  import opened EpollSafety
  import opened EpollQuiescence
  import opened EpollStreams

  /** The replies to the calls of the set-up, in the order in which they are made. */
  datatype SetUp = SetUp(
    sock: int,
    reuse: bool,
    getFl: Option<Word>,
    setFl: bool,
    epollFd: int,
    ctl: bool,
    bind: bool,
    listen: bool)

  predicate SetUpOk(r: SetUp) {
    r.sock != -1 && r.reuse && r.getFl.Some? && r.setFl && r.epollFd != -1 && r.ctl && r.bind && r.listen
  }

  /** The set-up got as far as to call epoll_create. */
  predicate ReachesEpollCreate(r: SetUp) { r.sock != -1 && r.reuse && r.getFl.Some? && r.setFl }

  /** The kernel when the loop is entered. Listen comes after EPOLL_CTL_ADD, so the registration of
      the listener may itself have raised an edge. */
  function StartKernel(r: SetUp, open: set<int>, edges: set<int>): Kernel
    requires r.getFl.Some?
  {
    Kernel(r.sock, r.getFl.value, r.getFl.value + O_NONBLOCK, open + {r.sock, r.epollFd}, map[],
           map[r.sock := EpollEvent({EPOLLIN, EPOLLET}, r.sock)], edges, [], 0, 0, 0, 0, {})
  }

  /** The state and the log at some time. */
  datatype Snap = Snap(s: State, log: seq<Line>)

  /** Action j of the script leads from one snapshot to the next. */
  ghost predicate StepAt(trace: seq<Snap>, script: seq<Action>, j: nat)
    requires j < |script| < |trace|
  {
    && Enabled(trace[j].s, script[j])
    && trace[j + 1] == Snap(Apply(trace[j].s, script[j]), trace[j].log + LinesBy(trace[j].s, script[j]))
  }

  ghost predicate InvAt(trace: seq<Snap>, j: nat)
    requires j < |trace|
  {
    Inv(trace[j].s)
  }

  /** `trace` has the snapshots before and after each action of a run of the transition system. */
  ghost predicate Traced(trace: seq<Snap>, script: seq<Action>) {
    && |trace| == |script| + 1
    && (forall j :: 0 <= j < |script| ==> StepAt(trace, script, j))
    && (forall j :: 0 <= j < |trace| ==> InvAt(trace, j))
  }

  /** A run of the transition system that ends in epoll_wait. */
  ghost predicate IsScript(start: State, script: seq<Action>) {
    CanRun(start, script) && Run(start, script).pc.Wait?
  }

  /** Any run is the beginning of one that ends in epoll_wait. */
  lemma AnyRunIsScripted(start: State, acts: seq<Action>) returns (script: seq<Action>)
    requires Inv(start) && CanRun(start, acts)
    ensures acts <= script && IsScript(start, script)
  {
    RunKeepsInv(start, acts);
    var more := RestIsReached(Run(start, acts));
    RunConcat(start, acts, more);
    script := acts + more;
  }

  lemma {:induction false} MakeTrace(start: State, log: seq<Line>, script: seq<Action>) returns (trace: seq<Snap>)
    requires Inv(start) && CanRun(start, script)
    ensures Traced(trace, script) && trace[0] == Snap(start, log)
    ensures trace[|script|] == Snap(Run(start, script), log + Lines(start, script))
    decreases |script|
  {
    if script == [] {
      trace := [Snap(start, log)];
      assert log + [] == log;
    } else {
      var front := Front(script);
      var before := MakeTrace(start, log, front);
      var lines := LinesBy(Run(start, front), Last(script));
      assert log + Lines(start, script) == log + Lines(start, front) + lines;
      trace := TraceSnoc(before, script);
    }
  }

  lemma TraceSnoc(before: seq<Snap>, script: seq<Action>) returns (trace: seq<Snap>)
    requires script != [] && Traced(before, Front(script)) && Enabled(before[|script| - 1].s, Last(script))
    ensures Traced(trace, script) && trace[..|script|] == before
    ensures var last := before[|script| - 1];
      trace[|script|] == Snap(Apply(last.s, Last(script)), last.log + LinesBy(last.s, Last(script)))
  {
    var last, a := before[|script| - 1], Last(script);
    var end := Snap(Apply(last.s, a), last.log + LinesBy(last.s, a));
    trace := before + [end];
    assert StepAt(trace, script, |script| - 1);
    TraceGrows(before, script, end);
  }

  lemma TraceGrows(before: seq<Snap>, script: seq<Action>, end: Snap)
    requires script != [] && Traced(before, Front(script)) && StepAt(before + [end], script, |script| - 1)
    ensures Traced(before + [end], script)
  {
    var trace, n := before + [end], |script| - 1;
    forall j | 0 <= j < |script| ensures StepAt(trace, script, j) {
      if j < n {
        assert StepAt(before, Front(script), j);
        StepAtStill(before, script, end, j);
      }
    }
    forall j | 0 <= j < |trace| ensures InvAt(trace, j) {
      InvAtStill(before, end, Min(j, n));
      if j == |script| {
        InvAtNext(trace, script, n);
      }
    }
  }

  lemma InvAtStill(before: seq<Snap>, end: Snap, j: nat)
    requires j < |before| && InvAt(before, j)
    ensures InvAt(before + [end], j)
  {
  }

  lemma StepAtStill(before: seq<Snap>, script: seq<Action>, end: Snap, j: nat)
    requires |before| == |script| && j < |script| - 1 && StepAt(before, Front(script), j)
    ensures StepAt(before + [end], script, j)
  {
  }

  lemma InvAtNext(trace: seq<Snap>, script: seq<Action>, j: nat)
    requires j < |script| < |trace| && StepAt(trace, script, j) && InvAt(trace, j)
    ensures InvAt(trace, j + 1)
  {
    StepKeepsInv(trace[j].s, script[j]);
  }

  /** `acts` leads from one snapshot to another. */
  ghost predicate Ran(before: Snap, acts: seq<Action>, after: Snap) {
    CanRun(before.s, acts) && Run(before.s, acts) == after.s && after.log == before.log + Lines(before.s, acts)
  }

  lemma {:induction false} TraceRuns(trace: seq<Snap>, script: seq<Action>, i: nat, j: nat)
    requires Traced(trace, script) && i <= j <= |script|
    ensures Ran(trace[i], script[i..j], trace[j])
    decreases j
  {
    if i == j {
      assert script[i..j] == [];
    } else {
      TraceRuns(trace, script, i, j - 1);
      assert StepAt(trace, script, j - 1);
      assert Front(script[i..j]) == script[i..j - 1] && Last(script[i..j]) == script[j - 1];
    }
  }

  /** From `from` to `to` the network acts, and then the server takes one step. */
  predicate OneStep(script: seq<Action>, from: nat, to: nat) {
    && from < to <= |script| && !IsEnv(script[to - 1])
    && forall j :: from <= j < to - 1 ==> IsEnv(script[j])
  }

  lemma Served(s: State, log: seq<Line>, acts: seq<Action>, k: Kernel, log': seq<Line>)
    requires Inv(s) && CanRun(s, acts) && Run(s, acts).k == k && log' == log + Lines(s, acts)
    ensures Shows(log'[|log|..], s.k, k) && Extends(s.k, k)
  {
    RunExtends(s, acts);
    LogShowsWhatWasRead(s, acts);
    assert log'[|log|..] == Lines(s, acts);
  }

  /** What the network leaves alone. */
  ghost predicate Undisturbed(k: Kernel, k': Kernel) {
    && SameRound(k, k') && k'.interest == k.interest && k'.conns.Keys == k.conns.Keys && k'.dropped == k.dropped
    && forall fd :: fd in k.conns ==>
      k'.conns[fd].chunks == k.conns[fd].chunks && k'.conns[fd].flags == k.conns[fd].flags
  }

  /** The same listener, and neither epoll_wait nor the listener branch happened in between. */
  predicate SameRound(k: Kernel, k': Kernel) {
    k'.listener == k.listener && k'.waits == k.waits && k'.listenerEvents == k.listenerEvents
  }

  /** Where the server is does not matter to the network. */
  lemma NetworkStep(k: Kernel, pc: Pc, a: Action)
    requires IsEnv(a) && Enabled(State(k, pc), a)
    ensures Enabled(State(k, Wait), a) && Apply(State(k, pc), a) == State(Apply(State(k, Wait), a).k, pc)
    ensures Undisturbed(k, Apply(State(k, Wait), a).k)
  {
  }

  /** Until epoll_ctl the new descriptor is neither registered nor given up. */
  lemma FlightFacts(s: State)
    requires Inv(s) && s.pc.Add?
    ensures s.pc.fd !in s.k.interest && s.pc.fd !in s.k.dropped
  {
    assert s.pc.fd in InFlight(s.pc);
  }

  lemma DrainFacts(s: State)
    requires Inv(s) && s.pc.Drain?
    ensures AtDrain(s) && Target(s) in s.k.conns
  {
    assert Target(s) in s.k.interest;
  }

  lemma DroppedIsUnwatched(s: State, fd: int)
    requires Inv(s) && fd in s.k.dropped
    ensures fd !in s.k.interest
  {
    assert fd in s.k.conns.Keys;
  }

  class Reactor {
    /** The kernel, as far as the server can see it through system calls. */
    var k: Kernel
    /** What the network does and the kernel replies, and how much of it has happened. */
    var script: seq<Action>
    var at: nat
    /** The lines written to the log. */
    var log: seq<Line>
    /** Where the server thread is, and the run that the script stands for. */
    ghost var pc: Pc
    ghost var trace: seq<Snap>

    constructor (k: Kernel)
      ensures this.k == k && log == []
    {
      this.k, this.script, this.at, this.log := k, [], 0, [];
      this.pc, this.trace := Wait, [];
    }

    /** The server follows the script, which ends in epoll_wait. */
    ghost predicate Valid()
      reads this
    {
      Follows(log)
    }

    /** The same, when the log ought to be `log'`. */
    ghost predicate Follows(log': seq<Line>)
      reads this
    {
      && Traced(trace, script) && trace[|script|].s.pc.Wait?
      && at <= |script| && trace[at] == Snap(State(k, pc), log')
    }

    /** The next action of the script, which exists wherever the server is not in epoll_wait, can be
        taken now. */
    lemma Ahead()
      requires Valid()
      ensures !pc.Wait? ==> at < |script|
      ensures at < |script| ==> Enabled(State(k, pc), script[at])
      ensures at < |script| && !script[at].ReadOk? ==> trace[at + 1] == Snap(Apply(State(k, pc), script[at]), log)
      ensures at < |script| && script[at].ReadOk? ==>
        trace[at + 1] == Snap(Apply(State(k, pc), script[at]), log + LinesBy(State(k, pc), script[at]))
    {
      if at < |script| {
        assert StepAt(trace, script, at);
        assert log + [] == log;
      }
    }

    /** The network has its turn. */
    method Network()
      requires Valid()
      modifies this`k, this`at
      ensures Valid() && Undisturbed(old(k), k)
      ensures old(at) <= at && forall j :: old(at) <= j < at ==> IsEnv(script[j])
      ensures at < |script| ==> !IsEnv(script[at])
    {
      while at < |script| && IsEnv(script[at])
        invariant old(at) <= at <= |script|
        invariant Valid() && Undisturbed(old(k), k)
        invariant forall j :: old(at) <= j < at ==> IsEnv(script[j])
      {
        Ahead();
        NetworkStep(k, pc, script[at]);
        k := Apply(State(k, Wait), script[at]).k;
        at := at + 1;
      }
    }

    lemma InFlightNow()
      requires Valid() && pc.Add?
      ensures pc.fd !in k.interest && pc.fd !in k.dropped
    {
      assert InvAt(trace, at);
      FlightFacts(State(k, pc));
    }

    lemma DrainingNow()
      requires Valid() && AtDrain(State(k, pc))
      ensures Target(State(k, pc)) in k.conns
    {
      assert InvAt(trace, at);
      DrainFacts(State(k, pc));
    }

    lemma DroppedNow(fd: int)
      requires Valid() && fd in k.dropped
      ensures fd !in k.interest
    {
      assert InvAt(trace, at);
      DroppedIsUnwatched(State(k, pc), fd);
    }

    // -------------------------------------------------------------- system calls

    /** Fills the events array, or fails with -1 (a signal). If the script ends here, it never returns. */
    method EpollWait(events: array<EpollEvent>) returns (nfds: Option<int>)
      requires Valid() && pc == Wait && events.Length == MAX_EVENTS
      modifies this`k, this`at, this`pc, events
      ensures Valid() && k.listener == old(k.listener)
      ensures nfds.None? ==> at == |script| && pc == Wait && k.waits == old(k.waits)
      ensures nfds.Some? ==> OneStep(script, old(at), at) && k.waits == old(k.waits) + 1
      ensures nfds.Some? ==> if script[at - 1].WaitFails? then nfds.value == -1
                             else script[at - 1].WaitOk? && 1 <= nfds.value == |script[at - 1].who| <= 1024
      ensures nfds.Some? ==> pc == Handle(events[..Max(0, nfds.value)], 0)
    {
      Network();
      if at == |script| {
        return None;
      }
      Ahead();
      var reply := script[at];
      if reply.WaitFails? {
        k := DoWait(k, []);
        nfds := Some(-1);
        assert events[..0] == [];
      } else {
        var batch := Reported(k, reply.who, reply.masks);
        k := DoWait(k, reply.who);
        nfds := Some(|batch|);
        forall j | 0 <= j < |batch| {
          events[j] := batch[j];
        }
        assert events[..|batch|] == batch;
      }
      pc := Handle(events[..Max(0, nfds.value)], 0);
      at := at + 1;
    }

    /** A new descriptor for the connection that waited longest; or a failure, which may cost it. */
    method Accept() returns (fd: int)
      requires Valid() && AtListener(State(k, pc))
      modifies this`k, this`at, this`pc
      ensures Valid() && OneStep(script, old(at), at)
      ensures fd == if script[at - 1].AcceptOk? then script[at - 1].fd else -1
      ensures pc == if fd >= 0 then GetFl(old(pc).batch, old(pc).i, fd) else Handle(old(pc).batch, old(pc).i + 1)
      ensures k.listener == old(k.listener) && k.waits == old(k.waits)
      ensures k.listenerEvents == old(k.listenerEvents) + 1
    {
      Network();
      Ahead();
      var reply := script[at];
      if reply.AcceptOk? {
        k := DoAccept(k, reply.fd, reply.flags);
        fd, pc := reply.fd, GetFl(pc.batch, pc.i, reply.fd);
      } else if reply.AcceptLoses? {
        k := DoLose(k);
        fd, pc := -1, Next(pc);
      } else {
        k := k.(listenerEvents := k.listenerEvents + 1);
        fd, pc := -1, Next(pc);
      }
      at := at + 1;
    }

    method FcntlGetFl(fd: int) returns (opts: Option<Word>)
      requires Valid() && pc.GetFl? && pc.fd == fd
      modifies this`k, this`at, this`pc
      ensures Valid() && OneStep(script, old(at), at) && SameRound(old(k), k)
      ensures opts.Some? <==> script[at - 1].GetFlOk?
      ensures opts.Some? ==> fd in old(k).conns && opts.value == old(k).conns[fd].flags
      ensures opts.Some? ==> pc == SetFl(old(pc).batch, old(pc).i, fd, opts.value + O_NONBLOCK)
      ensures opts.None? ==> pc == Handle(old(pc).batch, old(pc).i + 1) && fd in k.dropped
    {
      Network();
      Ahead();
      if script[at].GetFlOk? {
        opts := Some(k.conns[fd].flags);
        pc := SetFl(pc.batch, pc.i, fd, opts.value + O_NONBLOCK);
      } else {
        k := Drop(k, fd);
        opts, pc := None, Next(pc);
      }
      at := at + 1;
    }

    method FcntlSetFl(fd: int, opts: Word) returns (ok: bool)
      requires Valid() && pc.SetFl? && pc.fd == fd && pc.opts == opts
      modifies this`k, this`at, this`pc
      ensures Valid() && OneStep(script, old(at), at) && SameRound(old(k), k)
      ensures ok <==> script[at - 1].SetFlOk?
      ensures ok ==> pc == Add(old(pc).batch, old(pc).i, fd) && fd in k.conns && k.conns[fd].flags == opts
      ensures !ok ==> pc == Handle(old(pc).batch, old(pc).i + 1) && fd in k.dropped
    {
      Network();
      Ahead();
      ok := script[at].SetFlOk?;
      if ok {
        k := SetConn(k, fd, k.conns[fd].(flags := opts));
        pc := Add(pc.batch, pc.i, fd);
      } else {
        k := Drop(k, fd);
        pc := Next(pc);
      }
      at := at + 1;
    }

    /** Success puts the descriptor into the interest list; after a failure nobody watches it. */
    method EpollCtlAdd(fd: int, ev: EpollEvent) returns (ok: bool)
      requires Valid() && pc.Add? && pc.fd == fd && ev == EpollEvent(WATCHED, fd)
      modifies this`k, this`at, this`pc
      ensures Valid() && OneStep(script, old(at), at) && SameRound(old(k), k)
      ensures pc == Handle(old(pc).batch, old(pc).i + 1)
      ensures (ok <==> script[at - 1].AddOk?) && (ok <==> fd in k.interest) && (ok <==> fd !in k.dropped)
    {
      Network();
      Ahead();
      InFlightNow();
      ok := script[at].AddOk?;
      if ok {
        k := DoRegister(k, fd, ev);
      } else {
        k := Drop(k, fd);
      }
      pc := Next(pc);
      at := at + 1;
    }

    /** Copies up to BUFFER_SIZE buffered bytes to the start of `buffer`, whose rest is untouched. It
        returns 0 or -1 only if nothing is buffered: at the end of the stream, or with EAGAIN. A line
        for the log is due exactly if it returns bytes. */
    method Read(fd: int, buffer: array<Byte>) returns (size: int)
      requires Valid() && AtDrain(State(k, pc)) && fd == Target(State(k, pc)) && buffer.Length == BUFFER_SIZE
      modifies this`k, this`at, this`pc, buffer
      ensures OneStep(script, old(at), at) && SameRound(old(k), k) && fd in old(k).conns && fd in k.conns
      ensures size <= 1024 && if script[at - 1].ReadOk? then size == script[at - 1].n > 0 else size <= 0
      ensures size <= 0 ==> Valid() && pc == Handle(old(pc).batch, old(pc).i + 1)
      ensures size <= 0 ==> k.conns[fd].unread == [] && unchanged(buffer)
      ensures size > 0 ==> Follows(log + [Line(fd, Pad(buffer[..size]))]) && pc == old(pc)
      ensures size > 0 ==> k.conns[fd].chunks == old(k).conns[fd].chunks + [buffer[..size]]
      ensures size > 0 ==> buffer[size..] == old(buffer[size..])
    {
      Network();
      Ahead();
      DrainingNow();
      var reply := script[at];
      if reply.ReadOk? {
        size := reply.n;
        var chunk := k.conns[fd].unread[..size];
        k := DoRead(k, fd, size);
        forall j | 0 <= j < size {
          buffer[j] := chunk[j];
        }
        assert buffer[..size] == chunk;
      } else {
        size := if k.conns[fd].eof then 0 else -1;
        pc := Next(pc);
      }
      at := at + 1;
    }

    /** A step of the server that needs no system call: the dispatch of an entry that is not the
        listener's, or the end of the for loop. */
    method Move()
      requires Valid() && pc.Handle? && (AtOther(State(k, pc)) || |pc.batch| <= pc.i)
      modifies this`k, this`at, this`pc
      ensures Valid() && OneStep(script, old(at), at) && SameRound(old(k), k)
      ensures pc == if |old(pc).batch| <= old(pc).i then Wait
                    else if EPOLLIN in old(pc).batch[old(pc).i].events && old(pc).batch[old(pc).i].data >= 0
                    then Drain(old(pc).batch, old(pc).i)
                    else Handle(old(pc).batch, old(pc).i + 1)
    {
      Network();
      Ahead();
      pc := Apply(State(k, pc), script[at]).pc;
      at := at + 1;
    }

    // -------------------------------------------------------------- the server

    /** Adds O_NONBLOCK to the flags of the descriptor, or gives it up. */
    method SetNonblocking(fd: int) returns (ok: bool)
      requires Valid() && pc.GetFl? && pc.fd == fd
      modifies this`k, this`at, this`pc
      ensures Valid() && at > old(at) && SameRound(old(k), k)
      ensures pc == if ok then Add(old(pc).batch, old(pc).i, fd) else Handle(old(pc).batch, old(pc).i + 1)
      ensures ok ==> fd in old(k).conns && fd in k.conns && k.conns[fd].flags == old(k).conns[fd].flags + O_NONBLOCK
      ensures !ok ==> fd in k.dropped
    {
      var opts := FcntlGetFl(fd);
      if opts.None? {
        return false;
      }
      ok := FcntlSetFl(fd, opts.value + O_NONBLOCK);
    }

    /** The listener branch: one accept; the new descriptor ends up watched or given up. */
    method HandleListener()
      requires Valid() && AtListener(State(k, pc))
      modifies this`k, this`at, this`pc
      ensures Valid() && at > old(at) && pc == Handle(old(pc).batch, old(pc).i + 1)
      ensures k.listener == old(k.listener) && k.waits == old(k.waits)
      ensures k.listenerEvents == old(k.listenerEvents) + 1
    {
      var connFd := Accept();
      if connFd < 0 {
        return;
      }
      WatchOrDrop(connFd);
    }

    /** The rest of the listener branch, after accept. */
    method WatchOrDrop(connFd: int)
      requires Valid() && pc.GetFl? && pc.fd == connFd
      modifies this`k, this`at, this`pc
      ensures Valid() && at > old(at) && pc == Handle(old(pc).batch, old(pc).i + 1) && SameRound(old(k), k)
      ensures connFd in k.interest <==> connFd !in k.dropped
    {
      var ok := SetNonblocking(connFd);
      if !ok {
        DroppedNow(connFd);
        return;
      }
      ok := EpollCtlAdd(connFd, EpollEvent({EPOLLIN, EPOLLET}, connFd));
    }

    /** LOG(INFO) << buffer; memset(buffer, 0, BUFFER_SIZE). */
    method LogAndClear(fd: int, buffer: array<Byte>)
      requires buffer.Length == BUFFER_SIZE
      modifies this`log, buffer
      ensures log == old(log) + [Line(fd, old(buffer[..]))] && buffer[..] == Zeros(BUFFER_SIZE)
    {
      log := log + [Line(fd, buffer[..])];
      forall j | 0 <= j < BUFFER_SIZE {
        buffer[j] := 0;
      }
    }

    /** Reading into a cleared buffer: it then holds the bytes read, followed by zeros. */
    method NextRead(fd: int, buffer: array<Byte>) returns (size: int)
      requires Valid() && AtDrain(State(k, pc)) && fd == Target(State(k, pc))
      requires buffer.Length == BUFFER_SIZE && buffer[..] == Zeros(BUFFER_SIZE)
      modifies this`k, this`at, this`pc, buffer
      ensures at > old(at) && SameRound(old(k), k) && fd in k.conns
      ensures size <= 0 ==> Valid() && pc == Handle(old(pc).batch, old(pc).i + 1) && k.conns[fd].unread == []
      ensures size > 0 ==> Follows(log + [Line(fd, buffer[..])]) && pc == old(pc)
    {
      size := Read(fd, buffer);
      if size > 0 {
        assert Zeros(BUFFER_SIZE)[size..] == Zeros(BUFFER_SIZE - size);
        assert buffer[..] == buffer[..size] + buffer[size..] == Pad(buffer[..size]);
      }
    }

    /** The read loop. It leaves nothing unread, and every chunk that it read was logged from a buffer
        that held nothing else: nothing of an earlier, longer chunk survives. */
    method DrainSocket(fd: int)
      requires Valid() && AtDrain(State(k, pc)) && fd == Target(State(k, pc))
      modifies this`k, this`at, this`pc, this`log
      ensures Valid() && at > old(at) && pc == Handle(old(pc).batch, old(pc).i + 1) && SameRound(old(k), k)
      ensures fd in k.conns && k.conns[fd].unread == []
    {
      var buffer := new Byte[BUFFER_SIZE](_ => 0);
      assert buffer[..] == Zeros(BUFFER_SIZE);
      var size := NextRead(fd, buffer);
      while size > 0
        invariant at > old(at) && SameRound(old(k), k) && fd in k.conns
        invariant size <= 0 ==> Valid() && pc == Handle(old(pc).batch, old(pc).i + 1) && k.conns[fd].unread == []
        invariant size > 0 ==> Follows(log + [Line(fd, buffer[..])]) && pc == old(pc)
        decreases |script| - at
      {
        LogAndClear(fd, buffer);
        size := NextRead(fd, buffer);
      }
    }

    /** The dispatch of one entry. */
    method HandleEntry(listenSock: int, e: EpollEvent)
      requires Valid() && AtEntry(State(k, pc)) && e == pc.batch[pc.i] && listenSock == k.listener
      modifies this`k, this`at, this`pc, this`log
      ensures Valid() && at > old(at) && pc == Handle(old(pc).batch, old(pc).i + 1)
      ensures k.listener == old(k.listener) && k.waits == old(k.waits)
      ensures e.data != listenSock && EPOLLIN in e.events && e.data >= 0 ==>
        e.data in k.conns && k.conns[e.data].unread == []
    {
      if e.data == listenSock {
        HandleListener();
      } else if EPOLLIN in e.events {
        var sockFd := e.data;
        Move();
        if sockFd < 0 {
          return;
        }
        DrainSocket(sockFd);
      } else {
        // EPOLLOUT or neither: nothing is done.
        Move();
      }
    }

    /** The for loop over the events that epoll_wait reported. */
    method HandleBatch(listenSock: int, events: array<EpollEvent>, nfds: int)
      requires nfds <= events.Length && pc == Handle(events[..Max(0, nfds)], 0)
      requires Valid() && listenSock == k.listener
      modifies this`k, this`at, this`pc, this`log
      ensures Valid() && at >= old(at) && pc == Handle(old(pc).batch, |old(pc).batch|)
      ensures k.listener == old(k.listener) && k.waits == old(k.waits)
    {
      var i := 0;
      while i < nfds
        invariant 0 <= i <= |old(pc).batch| && pc == Handle(old(pc).batch, i)
        invariant Valid() && at >= old(at)
        invariant k.listener == old(k.listener) && k.waits == old(k.waits)
      {
        assert events[i] == pc.batch[i];
        HandleEntry(listenSock, events[i]);
        i := i + 1;
      }
    }

    /** One iteration of the endless loop around epoll_wait: the run of the actions that it takes from
        the script, with one return of epoll_wait, unless the script ends while it sleeps there. */
    method Round(listenSock: int, events: array<EpollEvent>)
      requires Valid() && pc == Wait && listenSock == k.listener && events.Length == MAX_EVENTS
      modifies this`k, this`at, this`pc, this`log, events
      ensures Valid() && pc == Wait && k.listener == listenSock && old(at) <= at <= |script|
      ensures Ran(Snap(State(old(k), Wait), old(log)), script[old(at)..at], Snap(State(k, Wait), log))
      ensures (k.waits == old(k.waits) + 1 && at > old(at)) || (k.waits == old(k.waits) && at == |script|)
    {
      var nfds := EpollWait(events);
      if nfds.Some? {
        HandleBatch(listenSock, events, nfds.value);
        Move();
      }
      TraceRuns(trace, script, old(at), at);
    }

    /** The endless loop around epoll_wait, for as long as the network and the kernel have anything to
        say. Whatever they say and when: the kernel is left as the transition system leaves it, and
        the log has grown by the lines of the run, which show every chunk that was read meanwhile. */
    method Serve(listenSock: int, choices: seq<Action>)
      requires Inv(State(k, Wait)) && IsScript(State(k, Wait), choices) && listenSock == k.listener
      modifies this
      ensures State(k, Wait) == Run(State(old(k), Wait), choices)
      ensures log == old(log) + Lines(State(old(k), Wait), choices)
      ensures Shows(log[|old(log)|..], old(k), k) && Extends(old(k), k)
    {
      script, at, pc := choices, 0, Wait;
      trace := MakeTrace(State(k, Wait), log, choices);
      Loop(listenSock);
      Served(State(old(k), Wait), old(log), choices, k, log);
    }

    method Loop(listenSock: int)
      requires Valid() && pc == Wait && listenSock == k.listener
      modifies this`k, this`at, this`pc, this`log
      ensures trace[|script|] == Snap(State(k, Wait), log)
    {
      var events := new EpollEvent[MAX_EVENTS](_ => EpollEvent({}, 0));
      while at < |script|
        invariant Valid() && pc == Wait && k.listener == listenSock
        decreases |script| - at
      {
        Round(listenSock, events);
      }
    }

    /** The set-up and the loop: it starts serving exactly if every call of the set-up succeeds, and
        then runs from a state in which the listener is nonblocking and watched. Otherwise it leaves
        the descriptors open that it got so far. */
    method InitServer(r: SetUp, edges: set<int>, choices: seq<Action>) returns (started: bool)
      requires (r.sock == -1 || r.sock >= 0) && edges <= {r.sock}
      requires SetUpOk(r) ==> IsScript(State(StartKernel(r, k.open, edges), Wait), choices)
      modifies this
      ensures started <==> SetUpOk(r)
      ensures started ==>
        var init := State(StartKernel(r, old(k.open), edges), Wait);
        && Init(init) && State(k, Wait) == Run(init, choices) && log == old(log) + Lines(init, choices)
      ensures started ==> k.listener == r.sock && k.listenOriginal == r.getFl.value
      ensures started ==> old(k.open) + {r.sock, r.epollFd} <= k.open
      ensures !started ==> k == old(k).(open := k.open) && log == old(log)
      ensures !started ==> forall fd :: fd in k.open <==>
        || fd in old(k.open) || (fd == r.sock && r.sock != -1)
        || (fd == r.epollFd && r.epollFd != -1 && ReachesEpollCreate(r))
    {
      started := false;
      // CreateSocket
      if r.sock == -1 {
        return;
      }
      k := k.(open := k.open + {r.sock});
      if !r.reuse {
        return;
      }
      // SetNonblocking
      if r.getFl.None? {
        return;
      }
      var opts := r.getFl.value + O_NONBLOCK;
      if !r.setFl || r.epollFd == -1 {
        return;
      }
      k := k.(open := k.open + {r.epollFd});
      assert k.open == old(k.open) + {r.sock, r.epollFd};
      var ev := EpollEvent({EPOLLIN, EPOLLET}, r.sock);
      if !r.ctl || !r.bind || !r.listen {
        return;
      }
      k := Kernel(r.sock, r.getFl.value, opts, k.open, map[], map[r.sock := ev], edges, [], 0, 0, 0, 0, {});
      assert k == StartKernel(r, old(k.open), edges) && Init(State(k, Wait));
      InitInv(State(k, Wait));
      Serve(r.sock, choices);
      started := true;
    }
  }
}
