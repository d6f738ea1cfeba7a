/**
  The bytes of the epoll loop from end to end: what a peer sends, told from the run alone, against
  what the server reads and writes to its log.
 */
module EpollStreams {
  import opened Basics
  import opened Bytes
  import opened EpollModel
  import opened EpollSafety
  import opened EpollQuiescence

  // ---------------------------------------------------------------- who sent what

  function Connects(acts: seq<Action>): nat {
    if acts == [] then 0 else Connects(Front(acts)) + One(Last(acts).Connect?)
  }

  /** Connections that accept took from the backlog, to keep or to lose. */
  function Dequeued(acts: seq<Action>): nat {
    if acts == [] then 0 else Dequeued(Front(acts)) + One(Last(acts).AcceptOk? || Last(acts).AcceptLoses?)
  }

  /** Peers are numbered in the order in which they connect, and accept takes them in that order. */
  function PeerOf(acts: seq<Action>, fd: int): (r: Option<nat>)
    ensures r.Some? ==> r.value < Dequeued(acts)
  {
    if acts == [] then None
    else if Last(acts).AcceptOk? && Last(acts).fd == fd then Some(Dequeued(Front(acts)))
    else PeerOf(Front(acts), fd)
  }

  /** The bytes that `a` brings from peer `c`, after the actions `before`. */
  function BytesFrom(before: seq<Action>, a: Action, c: nat): seq<Byte> {
    if a.PendingArrive? && Dequeued(before) + a.p == c then a.bytes
    else if a.Arrive? && PeerOf(before, a.fd) == Some(c) then a.bytes
    else []
  }

  function SentBy(acts: seq<Action>, c: nat): seq<Byte> {
    if acts == [] then [] else SentBy(Front(acts), c) + BytesFrom(Front(acts), Last(acts), c)
  }

  lemma {:induction false} PeersDiffer(acts: seq<Action>, f: int, g: int)
    requires PeerOf(acts, f).Some? && PeerOf(acts, f) == PeerOf(acts, g)
    ensures f == g
  {
    var a := Last(acts);
    if !(a.AcceptOk? && (a.fd == f || a.fd == g)) {
      PeersDiffer(Front(acts), f, g);
    }
  }

  /** The connections are those that were accepted, with the flags that they were accepted with, and
      hold what their peers sent. */
  ghost predicate ConnsMatch(acts: seq<Action>, k: Kernel) {
    && (forall fd :: fd in k.conns <==> PeerOf(acts, fd).Some?)
    && (forall fd :: fd in k.conns ==> k.conns[fd].delivered == SentBy(acts, PeerOf(acts, fd).value))
    && (forall fd :: fd in k.conns ==> AcceptOk(fd, k.conns[fd].original) in acts)
  }

  /** Those who connected and were not dequeued wait in the backlog, and nobody else sent anything. */
  ghost predicate BacklogMatches(acts: seq<Action>, backlog: seq<Pending>) {
    && |backlog| + Dequeued(acts) == Connects(acts)
    && (forall p :: 0 <= p < |backlog| ==> backlog[p].data == SentBy(acts, Dequeued(acts) + p))
    && (forall c: nat :: c >= Connects(acts) ==> SentBy(acts, c) == [])
  }

  lemma SnocFacts(acts: seq<Action>, a: Action)
    ensures Connects(acts + [a]) == Connects(acts) + One(a.Connect?)
    ensures Dequeued(acts + [a]) == Dequeued(acts) + One(a.AcceptOk? || a.AcceptLoses?)
    ensures forall fd :: PeerOf(acts + [a], fd) ==
                         if a.AcceptOk? && a.fd == fd then Some(Dequeued(acts)) else PeerOf(acts, fd)
    ensures forall c: nat :: SentBy(acts + [a], c) == SentBy(acts, c) + BytesFrom(acts, a, c)
  {
    assert Front(acts + [a]) == acts && Last(acts + [a]) == a;
  }

  lemma StepConnsMatch(s: State, acts: seq<Action>, a: Action, fd: int)
    requires ConnsMatch(acts, s.k) && BacklogMatches(acts, s.k.backlog) && s.k.conns.Keys <= s.k.open
    requires Enabled(s, a) && fd in Apply(s, a).k.conns
    ensures var c := Apply(s, a).k.conns[fd];
      && PeerOf(acts + [a], fd).Some? && c.delivered == SentBy(acts + [a], PeerOf(acts + [a], fd).value)
      && AcceptOk(fd, c.original) in acts + [a]
  {
    SnocFacts(acts, a);
    if fd !in s.k.conns {
      assert a.AcceptOk? && a.fd == fd;
      assert s.k.backlog[0].data == SentBy(acts, Dequeued(acts) + 0);
    } else {
      assert !(a.AcceptOk? && a.fd == fd);
      if a.Arrive? && a.fd != fd && PeerOf(acts, a.fd) == PeerOf(acts, fd) {
        PeersDiffer(acts, a.fd, fd);
      }
      DeliveredStep(s, a, fd);
    }
  }

  lemma DeliveredStep(s: State, a: Action, fd: int)
    requires Enabled(s, a) && fd in s.k.conns && s.k.conns.Keys <= s.k.open
    ensures var c, c' := s.k.conns[fd], Apply(s, a).k.conns[fd];
      && c'.original == c.original
      && c'.delivered == c.delivered + if a.Arrive? && a.fd == fd then a.bytes else []
  {
  }

  /** What a step does to the backlog. */
  predicate BacklogMoves(b: seq<Pending>, a: Action, b': seq<Pending>) {
    if a.AcceptOk? || a.AcceptLoses? then b != [] && b' == b[1..]
    else if a.Connect? then b' == b + [Pending([], false)]
    else |b'| == |b| && forall p :: 0 <= p < |b| ==>
      b'[p].data == b[p].data + if a.PendingArrive? && a.p == p then a.bytes else []
  }

  lemma BacklogStep(s: State, a: Action)
    requires Enabled(s, a)
    ensures BacklogMoves(s.k.backlog, a, Apply(s, a).k.backlog) && (a.PendingArrive? ==> a.p < |s.k.backlog|)
  {
  }

  lemma PendingMoves(acts: seq<Action>, b: seq<Pending>, a: Action, b': seq<Pending>, p: nat)
    requires BacklogMatches(acts, b) && BacklogMoves(b, a, b') && p < |b'|
    ensures b'[p].data == SentBy(acts + [a], Dequeued(acts + [a]) + p)
  {
    SnocFacts(acts, a);
    var d := Dequeued(acts);
    if a.AcceptOk? || a.AcceptLoses? {
      assert b[p + 1].data == SentBy(acts, d + (p + 1));
    } else if p < |b| {
      assert b[p].data == SentBy(acts, d + p);
    } else {
      assert SentBy(acts, d + p) == [];
    }
  }

  lemma StepBacklogMatches(acts: seq<Action>, b: seq<Pending>, a: Action, b': seq<Pending>)
    requires BacklogMatches(acts, b) && BacklogMoves(b, a, b')
    requires (a.PendingArrive? ==> a.p < |b|) && (a.Arrive? ==> PeerOf(acts, a.fd).Some?)
    ensures BacklogMatches(acts + [a], b')
  {
    forall p | 0 <= p < |b'| ensures b'[p].data == SentBy(acts + [a], Dequeued(acts + [a]) + p) {
      PendingMoves(acts, b, a, b', p);
    }
    SnocFacts(acts, a);
  }

  lemma StepMatches(s: State, acts: seq<Action>, a: Action)
    requires ConnsMatch(acts, s.k) && BacklogMatches(acts, s.k.backlog) && s.k.conns.Keys <= s.k.open
    requires Enabled(s, a)
    ensures ConnsMatch(acts + [a], Apply(s, a).k)
  {
    forall fd ensures fd in Apply(s, a).k.conns <==> PeerOf(acts + [a], fd).Some? {
      SnocFacts(acts, a);
      KeysStep(s, a);
      assert fd in Apply(s, a).k.conns <==> fd in Apply(s, a).k.conns.Keys;
    }
    forall fd | fd in Apply(s, a).k.conns
      ensures Apply(s, a).k.conns[fd].delivered == SentBy(acts + [a], PeerOf(acts + [a], fd).value)
      ensures AcceptOk(fd, Apply(s, a).k.conns[fd].original) in acts + [a]
    {
      StepConnsMatch(s, acts, a, fd);
    }
  }

  lemma RunMatches(init: State, acts: seq<Action>)
    requires Init(init) && CanRun(init, acts)
    ensures ConnsMatch(acts, Run(init, acts).k) && BacklogMatches(acts, Run(init, acts).k.backlog)
  {
    InitInv(init);
    MatchesOn(init, acts);
  }

  lemma {:induction false} MatchesOn(init: State, acts: seq<Action>)
    requires Inv(init) && Matches([], init.k) && CanRun(init, acts)
    ensures Matches(acts, Run(init, acts).k)
    decreases |acts|
  {
    if acts != [] {
      MatchesOn(init, Front(acts));
      DescriptorsOf(init, Front(acts));
      NextMatches(Run(init, Front(acts)), acts);
    }
  }

  ghost predicate Matches(acts: seq<Action>, k: Kernel) { ConnsMatch(acts, k) && BacklogMatches(acts, k.backlog) }

  lemma DescriptorsOf(s: State, acts: seq<Action>)
    requires Inv(s) && CanRun(s, acts)
    ensures Descriptors(Run(s, acts).k)
  {
    RunKeepsInv(s, acts);
  }

  lemma NextMatches(s: State, acts: seq<Action>)
    requires acts != [] && Matches(Front(acts), s.k) && Descriptors(s.k) && Enabled(s, Last(acts))
    ensures Matches(acts, Apply(s, Last(acts)).k)
  {
    var front, a := Front(acts), Last(acts);
    assert acts == front + [a];
    StepMatches(s, front, a);
    BacklogStep(s, a);
    StepBacklogMatches(front, s.k.backlog, a, Apply(s, a).k.backlog);
  }

  /** Whose bytes are where, told from the run alone: the connection of a descriptor was accepted with
      its original flags, and what was delivered to it is what its peer sent, before the accept and
      after; the peers that were not dequeued wait, with what they have sent. */
  lemma DeliveredIsSent(init: State, acts: seq<Action>)
    requires Init(init) && CanRun(init, acts)
    ensures var k := Run(init, acts).k;
      && (forall fd :: fd in k.conns <==> PeerOf(acts, fd).Some?)
      && (forall fd :: fd in k.conns ==> k.conns[fd].delivered == SentBy(acts, PeerOf(acts, fd).value))
      && (forall fd :: fd in k.conns ==> AcceptOk(fd, k.conns[fd].original) in acts)
      && |k.backlog| == Connects(acts) - Dequeued(acts)
      && (forall p :: 0 <= p < |k.backlog| ==> k.backlog[p].data == SentBy(acts, Dequeued(acts) + p))
    ensures forall f, g :: f != g && PeerOf(acts, f).Some? ==> PeerOf(acts, f) != PeerOf(acts, g)
  {
    RunMatches(init, acts);
    forall f, g | f != g && PeerOf(acts, f).Some? ensures PeerOf(acts, f) != PeerOf(acts, g) {
      if PeerOf(acts, f) == PeerOf(acts, g) {
        PeersDiffer(acts, f, g);
      }
    }
  }

  // ---------------------------------------------------------------- the log

  /** What one "recv:" line of the log is written from: the whole buffer. The line does not show
      which descriptor was read. */
  datatype Line = Line(fd: int, buffer: seq<Byte>)

  /** The line that a step brings about: each successful read is logged from a buffer that holds the
      bytes read, followed by zeros. */
  function LinesBy(s: State, a: Action): seq<Line>
    requires Enabled(s, a)
  {
    if a.ReadOk? then [Line(Target(s), Pad(s.k.conns[Target(s)].unread[..a.n]))] else []
  }

  /** The text that `<<` takes from a buffer: up to its first zero byte. Without one it does not stop
      at the end of the buffer. */
  function CString(buffer: seq<Byte>): Option<seq<Byte>> {
    if buffer == [] then None
    else if buffer[0] == 0 then Some([])
    else match CString(buffer[1..]) case None => None case Some(text) => Some([buffer[0]] + text)
  }

  lemma {:induction false} CStringOf(c: seq<Byte>, zeros: nat)
    ensures NulFree(c) ==> CString(c + Zeros(zeros)) == if zeros == 0 then None else Some(c)
    ensures !NulFree(c) ==> CString(c + Zeros(zeros)).Some? && |CString(c + Zeros(zeros)).value| < |c|
  {
    var buffer := c + Zeros(zeros);
    if c != [] {
      CStringOf(c[1..], zeros);
      assert buffer[0] == c[0] && buffer[1..] == c[1..] + Zeros(zeros);
      assert NulFree(c) <==> c[0] != 0 && NulFree(c[1..]);
      assert c == [c[0]] + c[1..];
    }
  }

  /** The text of a line is the chunk that was read exactly if it is shorter than the buffer and has
      no zero byte. If it fills the buffer without one, the text runs past the end of the buffer. */
  lemma TextIsChunkExactlyWhen(c: seq<Byte>)
    requires |c| <= BUFFER_SIZE
    ensures CString(Pad(c)) == Some(c) <==> |c| < 1024 && NulFree(c)
    ensures CString(Pad(c)).None? <==> |c| == 1024 && NulFree(c)
  {
    CStringOf(c, BUFFER_SIZE - |c|);
  }

  function Lines(s: State, acts: seq<Action>): seq<Line>
    requires CanRun(s, acts)
    decreases |acts|
  {
    if acts == [] then [] else Lines(s, Front(acts)) + LinesBy(Run(s, Front(acts)), Last(acts))
  }

  /** The buffers that were logged for one descriptor. */
  function BuffersOf(lines: seq<Line>, fd: int): seq<seq<Byte>> {
    if lines == [] then []
    else BuffersOf(Front(lines), fd) + if Last(lines).fd == fd then [Last(lines).buffer] else []
  }

  function ChunksOf(k: Kernel, fd: int): seq<seq<Byte>> { if fd in k.conns then k.conns[fd].chunks else [] }

  predicate Fit(chunks: seq<seq<Byte>>) { forall c :: c in chunks ==> |c| <= BUFFER_SIZE }

  function Padded(chunks: seq<seq<Byte>>): (r: seq<seq<Byte>>)
    requires Fit(chunks)
  {
    seq(|chunks|, i requires 0 <= i < |chunks| => Pad(chunks[i]))
  }

  /** `lines` shows the chunks that were read between `k` and `k'`, of every connection, in order. */
  ghost predicate Shows(lines: seq<Line>, k: Kernel, k': Kernel) {
    forall fd :: ShowsOf(lines, k, k', fd)
  }

  ghost predicate ShowsOf(lines: seq<Line>, k: Kernel, k': Kernel, fd: int) {
    && ChunksOf(k, fd) <= ChunksOf(k', fd)
    && var gained := ChunksOf(k', fd)[|ChunksOf(k, fd)|..];
    Fit(gained) && BuffersOf(lines, fd) == Padded(gained)
  }

  lemma ChunksStep(s: State, a: Action, fd: int)
    requires Enabled(s, a) && s.k.conns.Keys <= s.k.open
    ensures ChunksOf(Apply(s, a).k, fd) == ChunksOf(s.k, fd) +
      if a.ReadOk? && Target(s) == fd then [s.k.conns[fd].unread[..a.n]] else []
  {
  }

  lemma ShowsMore(lines: seq<Line>, line: Line, fd: int, chunks: seq<seq<Byte>>, chunk: seq<Byte>)
    requires Fit(chunks) && |chunk| <= BUFFER_SIZE && BuffersOf(lines, fd) == Padded(chunks)
    requires line.fd == fd ==> line.buffer == Pad(chunk)
    ensures line.fd != fd ==> BuffersOf(lines + [line], fd) == Padded(chunks)
    ensures line.fd == fd ==> Fit(chunks + [chunk]) && BuffersOf(lines + [line], fd) == Padded(chunks + [chunk])
  {
    assert Front(lines + [line]) == lines && Last(lines + [line]) == line;
  }

  lemma ShowsStep(lines: seq<Line>, k: Kernel, s: State, a: Action, fd: int)
    requires ShowsOf(lines, k, s.k, fd) && Enabled(s, a) && s.k.conns.Keys <= s.k.open
    ensures ShowsOf(lines + LinesBy(s, a), k, Apply(s, a).k, fd)
  {
    ChunksStep(s, a, fd);
    var was, chunks := |ChunksOf(k, fd)|, ChunksOf(s.k, fd);
    if a.ReadOk? {
      var chunk := s.k.conns[Target(s)].unread[..a.n];
      ShowsMore(lines, Line(Target(s), Pad(chunk)), fd, chunks[was..], chunk);
      assert (chunks + [chunk])[was..] == chunks[was..] + [chunk];
    } else {
      assert lines + [] == lines;
    }
  }

  /** In every run, what the log shows of a connection is the chunks that were read from it, in
      order, each in a zero-padded buffer: no residue of another chunk or another connection. */
  lemma {:induction false} LogShowsWhatWasRead(s: State, acts: seq<Action>)
    requires Inv(s) && CanRun(s, acts)
    ensures Shows(Lines(s, acts), s.k, Run(s, acts).k)
    decreases |acts|
  {
    forall fd ensures ShowsOf(Lines(s, acts), s.k, Run(s, acts).k, fd) {
      if acts != [] {
        LogShowsWhatWasRead(s, Front(acts));
        RunKeepsInv(s, Front(acts));
        assert ShowsOf(Lines(s, Front(acts)), s.k, Run(s, Front(acts)).k, fd);
        ShowsStep(Lines(s, Front(acts)), s.k, Run(s, Front(acts)), Last(acts), fd);
      } else {
        assert ChunksOf(s.k, fd)[|ChunksOf(s.k, fd)|..] == [];
      }
    }
  }

  lemma {:induction false} NonZeroOfPadded(chunks: seq<seq<Byte>>)
    requires Fit(chunks)
    ensures NonZero(Flatten(Padded(chunks))) == NonZero(Flatten(chunks))
  {
    if chunks != [] {
      var front, c := chunks[..|chunks| - 1], chunks[|chunks| - 1];
      NonZeroOfPadded(front);
      assert Padded(chunks) == Padded(front) + [Pad(c)] && chunks == front + [c];
      FlattenSnoc(Padded(front), Pad(c));
      FlattenSnoc(front, c);
      NonZeroConcat(Flatten(Padded(front)), Pad(c));
      NonZeroConcat(Flatten(front), c);
      NonZeroOfPad(c);
    }
  }

  /** From end to end: in every run, what the log shows of a connection and what is still unread on it
      are, but for zero bytes, exactly what its peer sent. */
  lemma LogHoldsWhatWasSent(init: State, acts: seq<Action>, fd: int)
    requires Init(init) && CanRun(init, acts) && fd in Run(init, acts).k.conns
    ensures PeerOf(acts, fd).Some?
    ensures NonZero(Flatten(BuffersOf(Lines(init, acts), fd))) + NonZero(Run(init, acts).k.conns[fd].unread)
         == NonZero(SentBy(acts, PeerOf(acts, fd).value))
  {
    var k := Run(init, acts).k;
    InitInv(init);
    RunKeepsInv(init, acts);
    RunMatches(init, acts);
    LogShowsWhatWasRead(init, acts);
    LogOf(Lines(init, acts), init.k, k, fd);
  }

  lemma LogOf(lines: seq<Line>, k: Kernel, k': Kernel, fd: int)
    requires Shows(lines, k, k') && fd in k'.conns && fd !in k.conns && Conserved(k')
    ensures NonZero(Flatten(BuffersOf(lines, fd))) + NonZero(k'.conns[fd].unread) == NonZero(k'.conns[fd].delivered)
  {
    var c := k'.conns[fd];
    assert ShowsOf(lines, k, k', fd) && ConnConserved(c);
    assert ChunksOf(k', fd)[0..] == c.chunks;
    NonZeroOfPadded(c.chunks);
    NonZeroConcat(Flatten(c.chunks), c.unread);
  }

  /** When the loop sleeps, the log shows all that was sent to the connections that it watches. */
  lemma EverythingIsLoggedAtRest(init: State, acts: seq<Action>, fd: int)
    requires Init(init) && CanRun(init, acts) && Asleep(Run(init, acts)) && fd in Registered(Run(init, acts).k)
    ensures PeerOf(acts, fd).Some?
    ensures NonZero(Flatten(BuffersOf(Lines(init, acts), fd))) == NonZero(SentBy(acts, PeerOf(acts, fd).value))
  {
    InitInv(init);
    RunKeepsInv(init, acts);
    AsleepMeansRead(Run(init, acts), fd);
    LogHoldsWhatWasSent(init, acts, fd);
  }
}
