/**
  The libevent path of server.cc as it is written: InitEventServer, the callbacks with their
  buffer of 1024 bytes, and the destructor. Library calls are methods; each callback is proved
  to have exactly the effect of its step in the transition system, including the order in which
  it makes its calls.
 */
module EventServer {
  import opened Basics
  import opened Bytes
  import opened EventModel
  import opened EventOwnership

  /** The replies to the calls of InitEventServer, in the order in which they are made. */
  datatype Replies = Replies(base: bool, listener: bool, signal: bool, add: bool)

  /** The server made the call `c`, which changed no bufferevent but `id` and nothing else. */
  ghost predicate OnlyTouches(s: Server, s': Server, id: nat, c: Call) {
    && s' == s.(live := s'.live, calls := s.calls + [c])
    && s'.live.Keys == s.live.Keys
    && forall other :: other in s.live && other != id ==> s'.live[other] == s.live[other]
  }

  class FrontServer {
    var s: Server

    constructor ()
      ensures s == BLANK
    {
      s := BLANK;
    }

    // -------------------------------------------------------------- library calls

    method Record(c: Call)
      modifies this
      ensures s == old(s).(calls := old(s.calls) + [c])
    {
      s := s.(calls := s.calls + [c]);
    }

    /** A new bufferevent without callbacks and disabled; or NULL, and nobody owns the descriptor. */
    method BuffereventSocketNew(fd: int, ok: bool) returns (bev: Option<nat>)
      modifies this
      ensures bev == if ok then Some(old(s.accepted)) else None
      ensures var id := old(s.accepted);
        s == old(s).(accepted := id + 1, openFds := old(s.openFds) + {fd}, calls := old(s.calls) + [SocketNew(id, ok)],
          live := if ok then old(s.live)[id := NewBev(fd).(hasCallbacks := false, enabled := {})] else old(s.live),
          failed := if ok then old(s.failed) else old(s.failed) + {id},
          leaked := if ok then old(s.leaked) else old(s.leaked) + {fd})
    {
      var id := s.accepted;
      s := s.(accepted := id + 1, openFds := s.openFds + {fd}, calls := s.calls + [SocketNew(id, ok)]);
      if ok {
        s := s.(live := s.live[id := NewBev(fd).(hasCallbacks := false, enabled := {})]);
        bev := Some(id);
      } else {
        s := s.(failed := s.failed + {id}, leaked := s.leaked + {fd});
        bev := None;
      }
    }

    method BuffereventSetCb(id: nat)
      requires id in s.live
      modifies this
      ensures OnlyTouches(old(s), s, id, SetCb(id))
      ensures s.live[id].hasCallbacks && s.live[id] == old(s.live[id]).(hasCallbacks := s.live[id].hasCallbacks)
    {
      var b := s.live[id].(hasCallbacks := true);
      s := s.(live := s.live[id := b], calls := s.calls + [SetCb(id)]);
    }

    method BuffereventEnable(id: nat, mode: Mode)
      requires id in s.live
      modifies this
      ensures OnlyTouches(old(s), s, id, Enable(id, mode))
      ensures forall m :: m in s.live[id].enabled <==> m == mode || m in old(s.live[id]).enabled
      ensures s.live[id] == old(s.live[id]).(enabled := s.live[id].enabled)
    {
      var b := s.live[id].(enabled := s.live[id].enabled + {mode});
      s := s.(live := s.live[id := b], calls := s.calls + [Enable(id, mode)]);
    }

    /** Moves bytes from the input buffer to the start of `msg`, byte by byte. */
    method BuffereventRead(id: nat, msg: array<Byte>) returns (n: nat)
      requires id in s.live
      modifies this, msg
      ensures var b := old(s.live[id]);
        && n == Min(msg.Length, |b.input|)
        && msg[..n] == b.input[..n] && msg[n..] == old(msg[n..])
        && s == old(s).(live := old(s.live)[id := b.(input := b.input[n..])], calls := old(s.calls) + [ReadBuf(id)])
    {
      var b := s.live[id];
      n := 0;
      while n < msg.Length && n < |b.input|
        invariant n <= msg.Length && n <= |b.input| && s == old(s)
        invariant msg[..n] == b.input[..n]
        invariant forall i :: n <= i < msg.Length ==> msg[i] == old(msg[i])
      {
        msg[n] := b.input[n];
        n := n + 1;
      }
      s := s.(live := s.live[id := b.(input := b.input[n..])], calls := s.calls + [ReadBuf(id)]);
    }

    /** Appends the whole of `msg` to the output buffer, unless it fails. */
    method BuffereventWrite(id: nat, msg: array<Byte>, ok: bool)
      requires id in s.live
      modifies this
      ensures OnlyTouches(old(s), s, id, WriteBuf(id))
      ensures s.live[id].output == old(s.live[id]).output + if ok then msg[..] else []
      ensures s.live[id] == old(s.live[id]).(output := s.live[id].output)
    {
      var b := s.live[id];
      if ok {
        b := b.(output := b.output + msg[..]);
      }
      s := s.(live := s.live[id := b], calls := s.calls + [WriteBuf(id)]);
    }

    /** Frees the bufferevent and, as it was made with BEV_OPT_CLOSE_ON_FREE, closes its socket. */
    method BuffereventFree(id: nat)
      requires id in s.live
      modifies this
      ensures s == old(s).(live := old(s.live) - {id}, freed := old(s.freed)[id := old(s.live[id])],
                           openFds := old(s.openFds) - {old(s.live[id]).fd}, calls := old(s.calls) + [FreeBev(id)])
    {
      s := s.(live := s.live - {id}, freed := s.freed[id := s.live[id]], openFds := s.openFds - {s.live[id].fd},
              calls := s.calls + [FreeBev(id)]);
    }

    // -------------------------------------------------------------- callbacks

    method ListenerCallBack(fd: int, ok: bool)
      requires Enabled(s, Accepted(fd, ok))
      modifies this
      ensures s == Apply(old(s), Accepted(fd, ok))
    {
      var bev := BuffereventSocketNew(fd, ok);
      if bev.None? {
        return;
      }
      var id := bev.value;
      BuffereventSetCb(id);
      BuffereventEnable(id, EV_WRITE);
      BuffereventEnable(id, EV_READ);
      assert s.calls == old(s.calls) + [SocketNew(id, true), SetCb(id), Enable(id, EV_WRITE), Enable(id, EV_READ)];
      assert s.live[id].enabled == {EV_WRITE, EV_READ};
      assert s.live == old(s.live)[id := NewBev(fd)];
    }

    method ConnReadCallBack(id: nat, wrote: bool)
      requires Enabled(s, ReadCb(id, wrote))
      modifies this
      ensures s == Apply(old(s), ReadCb(id, wrote))
    {
      ghost var b := s.live[id];
      var msg := new Byte[1024](_ => 0);
      ghost var zeros := msg[..];
      var n := BuffereventRead(id, msg);
      Record(Peek(id));
      ghost var data := Taken(b);
      assert msg[..] == msg[..n] + msg[n..] && zeros[n..] == Zeros(BUFFER_SIZE - n);
      assert msg[..] == Pad(data);
      BuffereventWrite(id, msg, wrote);
      assert s.live[id].output == if wrote then b.output + Pad(data) else b.output;
      // History: which bytes this callback took.
      var done := s.live[id];
      s := s.(live := s.live[id := done.(drains := done.drains + [Drained(msg[..n], wrote)])]);
      assert s.calls == old(s.calls) + [ReadBuf(id), Peek(id), WriteBuf(id)];
      assert s.live[id] == Echoed(b, wrote);
      assert s.live == old(s.live)[id := Echoed(b, wrote)];
    }

    method ConnWriteCallBack(id: nat)
      requires Enabled(s, WriteCb(id))
      ensures s == Apply(s, WriteCb(id))
    {
    }

    method ConnEventCallBack(id: nat, what: set<What>)
      requires Enabled(s, EventCb(id, what))
      modifies this
      ensures s == Apply(old(s), EventCb(id, what))
    {
      if EOF in what {
        Record(Peek(id));
        Record(Peek(id));
        assert s.calls == old(s.calls) + [Peek(id), Peek(id)];
      }
      BuffereventFree(id);
    }

    method SignalCallBack()
      requires Enabled(s, Signal)
      modifies this
      ensures s == Apply(old(s), Signal)
    {
      Record(LoopExit);
    }

    // -------------------------------------------------------------- life of the server

    /** event_base_dispatch: calls back for one event of the script after the other, then returns. */
    method Dispatch(script: seq<Action>)
      requires CanRun(s, script) && Run(s, script).phase.Running?
      requires forall a :: a in script ==> !a.LoopEnds? && !a.Destroy?
      modifies this
      ensures CanRun(old(s), script) && s == Run(old(s), script).(phase := Returned)
    {
      for i := 0 to |script|
        invariant CanRun(old(s), script[..i]) && s == Run(old(s), script[..i])
      {
        PrefixRuns(old(s), script, i + 1);
        assert Front(script[..i + 1]) == script[..i] && Last(script[..i + 1]) == script[i];
        assert Enabled(s, script[i]) && script[i] in script;
        OneEvent(script[i]);
      }
      assert script[..|script|] == script;
      s := s.(phase := Returned);
    }

    method OneEvent(a: Action)
      requires Enabled(s, a) && !a.LoopEnds? && !a.Destroy?
      modifies this
      ensures s == Apply(old(s), a)
    {
      if a.Accepted? {
        ListenerCallBack(a.fd, a.ok);
      } else if a.ReadCb? {
        ConnReadCallBack(a.id, a.wrote);
      } else if a.WriteCb? {
        ConnWriteCallBack(a.id);
      } else if a.EventCb? {
        ConnEventCallBack(a.id, a.what);
      } else if a.Signal? {
        SignalCallBack();
      } else {
        // The library moves bytes; no callback of the server runs.
        s := Apply(s, a);
      }
    }

    /** It serves exactly if every step of the set-up succeeds; otherwise it keeps what it made. */
    method InitEventServer(r: Replies, script: seq<Action>) returns (ok: bool)
      requires s == BLANK
      requires CanRun(STARTED, script) && Run(STARTED, script).phase.Running?
      requires forall a :: a in script ==> !a.LoopEnds? && !a.Destroy?
      modifies this
      ensures ok <==> r.base && r.listener && r.signal && r.add
      ensures ok ==> s == Run(STARTED, script).(phase := Returned)
      ensures !ok ==> s == BLANK.(hasBase := r.base, hasListener := r.base && r.listener,
                                  hasSignal := r.base && r.listener && r.signal)
    {
      if !r.base {
        return false;
      }
      s := s.(hasBase := true);
      if !r.listener {
        return false;
      }
      s := s.(hasListener := true);
      s := s.(hasSignal := r.signal);
      if !s.hasSignal || !r.add {
        return false;
      }
      s := s.(phase := Running);
      Dispatch(script);
      ok := true;
    }

    /** ~Server: frees each of the three members that is not NULL, the base last. */
    method Destructor()
      modifies this
      ensures s == OnDestroy(old(s))
      ensures old(s.calls) <= s.calls
      ensures Releases(s.calls[|old(s.calls)|..], old(s.hasListener), old(s.hasSignal), old(s.hasBase))
    {
      if s.hasListener {
        Record(ListenerFree);
      }
      if s.hasSignal {
        Record(SignalFree);
      }
      if s.hasBase {
        Record(BaseFree);
      }
      DestroyReleases(old(s));
      s := s.(phase := Destroyed, hasListener := false, hasSignal := false, hasBase := false);
    }
  }

  lemma {:induction false} PrefixRuns(s: Server, acts: seq<Action>, n: nat)
    requires CanRun(s, acts) && n <= |acts|
    ensures CanRun(s, acts[..n])
    decreases |acts|
  {
    if n == |acts| {
      assert acts[..n] == acts;
    } else {
      PrefixRuns(s, Front(acts), n);
      assert Front(acts)[..n] == acts[..n];
    }
  }
}
