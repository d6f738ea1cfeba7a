/**
  The libevent side of the server: its callbacks over per-connection buffers, as a labelled
  transition system. A callback runs to its end before the loop does anything else, so it is
  one step; the library calls it makes are recorded in `calls`.
 */
module EventModel {
  import opened Basics
  import opened Bytes

  datatype Mode = EV_READ | EV_WRITE

  /** BEV_EVENT_* flags of an event callback. */
  datatype What = READING | WRITING | EOF | ERROR | TIMEOUT | CONNECTED

  /** One library call of the server. `Peek` is a read of bev->ev_read.ev_fd. A bufferevent is
      named by the number of the accept it was made for. */
  datatype Call =
    | SocketNew(id: nat, ok: bool)
    | SetCb(id: nat)
    | Enable(id: nat, mode: Mode)
    | ReadBuf(id: nat)
    | Peek(id: nat)
    | WriteBuf(id: nat)
    | FreeBev(id: nat)
    | LoopExit
    | ListenerFree
    | SignalFree
    | BaseFree

  /** What one run of the read callback took from the input, and whether the write succeeded. */
  datatype Drained = Drained(data: seq<Byte>, wrote: bool)

  /** A bufferevent. `delivered`, `drains` and `sent` are history: bytes that arrived, runs of
      the read callback, and bytes that left the output buffer for the socket. */
  datatype Bev = Bev(
    fd: int,
    delivered: seq<Byte>,
    input: seq<Byte>,
    drains: seq<Drained>,
    output: seq<Byte>,
    sent: seq<Byte>,
    hasCallbacks: bool,
    enabled: set<Mode>)

  datatype Phase = Starting | Running | Returned | Destroyed

  /** `freed` keeps the last contents of freed bufferevents; `openFds` are the descriptors from
      accept that are still open, `leaked` those whose bufferevent could not be made. */
  datatype Server = Server(
    phase: Phase,
    accepted: nat,
    live: map<nat, Bev>,
    freed: map<nat, Bev>,
    failed: set<nat>,
    openFds: set<int>,
    leaked: set<int>,
    hasListener: bool,
    hasSignal: bool,
    hasBase: bool,
    calls: seq<Call>)

  datatype Action =
      // The loop calls back
    | Accepted(fd: int, ok: bool)
    | ReadCb(id: nat, wrote: bool)
    | WriteCb(id: nat)
    | EventCb(id: nat, what: set<What>)
    | Signal
      // The library moves bytes between sockets and buffers
    | Arrive(id: nat, bytes: seq<Byte>)
    | Flush(id: nat, n: nat)
      // event_base_dispatch returns; the server object is destroyed
    | LoopEnds
    | Destroy

  predicate Enabled(s: Server, a: Action) {
    match a
    case Accepted(fd, _) => s.phase.Running? && s.hasListener && fd !in s.openFds
    case ReadCb(id, _) => CallsBack(s, id) && EV_READ in s.live[id].enabled
    case WriteCb(id) => CallsBack(s, id) && EV_WRITE in s.live[id].enabled
    case EventCb(id, _) => CallsBack(s, id)
    case Signal => s.phase.Running? && s.hasSignal
    case Arrive(id, bytes) => s.phase.Running? && id in s.live && EV_READ in s.live[id].enabled && bytes != []
    case Flush(id, n) => s.phase.Running? && id in s.live && EV_WRITE in s.live[id].enabled && n <= |s.live[id].output|
    case LoopEnds => s.phase.Running?
    case Destroy => s.phase.Returned?
  }

  predicate CallsBack(s: Server, id: nat) { s.phase.Running? && id in s.live && s.live[id].hasCallbacks }

  function Apply(s: Server, a: Action): Server
    requires Enabled(s, a)
  {
    match a
    case Accepted(fd, ok) => OnAccept(s, fd, ok)
    case ReadCb(id, wrote) => OnRead(s, id, wrote)
    case WriteCb(_) => s
    case EventCb(id, what) => OnEvent(s, id, what)
    case Signal => s.(calls := s.calls + [LoopExit])
    case Arrive(id, bytes) =>
      var b := s.live[id];
      s.(live := s.live[id := b.(delivered := b.delivered + bytes, input := b.input + bytes)])
    case Flush(id, n) =>
      var b := s.live[id];
      s.(live := s.live[id := b.(output := b.output[n..], sent := b.sent + b.output[..n])])
    case LoopEnds => s.(phase := Returned)
    case Destroy => OnDestroy(s)
  }

  function NewBev(fd: int): Bev { Bev(fd, [], [], [], [], [], true, {EV_WRITE, EV_READ}) }

  /** ListenerCallBack: make a bufferevent, set its callbacks, then enable it for both ways. */
  function OnAccept(s: Server, fd: int, ok: bool): Server {
    var id := s.accepted;
    var s' := s.(accepted := id + 1, openFds := s.openFds + {fd});
    if ok then
      s'.(live := s.live[id := NewBev(fd)],
          calls := s.calls + [SocketNew(id, true), SetCb(id), Enable(id, EV_WRITE), Enable(id, EV_READ)])
    else
      s'.(failed := s.failed + {id}, leaked := s.leaked + {fd}, calls := s.calls + [SocketNew(id, false)])
  }

  /** bufferevent_read takes what is there, up to the size of the buffer. */
  function Taken(b: Bev): (r: seq<Byte>)
    ensures |r| == Min(BUFFER_SIZE, |b.input|)
  {
    b.input[..Min(BUFFER_SIZE, |b.input|)]
  }

  function Echoed(b: Bev, wrote: bool): Bev {
    var data := Taken(b);
    b.(input := b.input[|data|..],
       drains := b.drains + [Drained(data, wrote)],
       output := if wrote then b.output + Pad(data) else b.output)
  }

  /** ConnReadCallBack: read up to 1024 bytes into a zeroed array and write the whole array. */
  function OnRead(s: Server, id: nat, wrote: bool): Server
    requires id in s.live
  {
    s.(live := s.live[id := Echoed(s.live[id], wrote)],
       calls := s.calls + [ReadBuf(id), Peek(id), WriteBuf(id)])
  }

  /** ConnEventCallBack: whatever happened, the bufferevent is freed, which closes its socket. */
  function OnEvent(s: Server, id: nat, what: set<What>): Server
    requires id in s.live
  {
    s.(live := s.live - {id},
       freed := s.freed[id := s.live[id]],
       openFds := s.openFds - {s.live[id].fd},
       calls := s.calls + (if EOF in what then [Peek(id), Peek(id)] else []) + [FreeBev(id)])
  }

  /** The destructor frees what InitEventServer made, and nothing else. */
  function OnDestroy(s: Server): Server {
    s.(phase := Destroyed, hasListener := false, hasSignal := false, hasBase := false,
       calls := s.calls + (if s.hasListener then [ListenerFree] else [])
                        + (if s.hasSignal then [SignalFree] else [])
                        + (if s.hasBase then [BaseFree] else []))
  }

  predicate Made(s: Server, id: nat) { id in s.live || id in s.freed }

  /** The record of a bufferevent, live or freed. */
  function RecordOf(s: Server, id: nat): Bev
    requires Made(s, id)
  {
    if id in s.live then s.live[id] else s.freed[id]
  }

  /** A server whose InitEventServer has reached event_base_dispatch. */
  predicate Init(s: Server) { s == STARTED }

  /** A server object before InitEventServer: no base, no listener, no signal event. */
  const BLANK: Server := Server(Starting, 0, map[], map[], {}, {}, {}, false, false, false, [])

  /** The same object when event_base_dispatch is called. */
  const STARTED: Server := BLANK.(phase := Running, hasListener := true, hasSignal := true, hasBase := true)

  predicate CanRun(s: Server, acts: seq<Action>)
    decreases |acts|, 0
  {
    acts == [] || (CanRun(s, Front(acts)) && Enabled(Run(s, Front(acts)), Last(acts)))
  }

  function Run(s: Server, acts: seq<Action>): Server
    requires CanRun(s, acts)
    decreases |acts|, 1
  {
    if acts == [] then s else Apply(Run(s, Front(acts)), Last(acts))
  }

  /** `acts` is a run of a freshly started server. */
  ghost predicate IsRun(init: Server, acts: seq<Action>) { Init(init) && CanRun(init, acts) }
}
