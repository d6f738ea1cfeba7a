/** The echo as a stream: what comes back for what was sent, and what stays behind. */
module EventStreams {
  import opened Basics
  import opened Bytes
  import opened EventModel
  import opened EventOwnership

  // ---------------------------------------------------------------- streams

  /** All bytes taken from the input, callback after callback. */
  function Data(drains: seq<Drained>): (r: seq<Byte>) {
    if drains == [] then [] else Data(drains[..|drains| - 1]) + drains[|drains| - 1].data
  }

  /** Those of them whose write succeeded. */
  function Written(drains: seq<Drained>): (r: seq<Byte>) {
    if drains == [] then []
    else
      var d := drains[|drains| - 1];
      Written(drains[..|drains| - 1]) + if d.wrote then d.data else []
  }

  predicate Bounded(drains: seq<Drained>) { forall d :: d in drains ==> |d.data| <= BUFFER_SIZE }

  /** What is appended to the output: each written chunk, zero-padded to the size of the buffer. */
  function Echo(drains: seq<Drained>): (r: seq<Byte>)
    requires Bounded(drains)
  {
    if drains == [] then []
    else
      var d := drains[|drains| - 1];
      Echo(drains[..|drains| - 1]) + if d.wrote then Pad(d.data) else []
  }

  function Writes(drains: seq<Drained>): nat {
    if drains == [] then 0
    else Writes(drains[..|drains| - 1]) + if drains[|drains| - 1].wrote then 1 else 0
  }

  predicate AllWritten(drains: seq<Drained>) { forall d :: d in drains ==> d.wrote }

  lemma Snoc(drains: seq<Drained>, d: Drained)
    requires Bounded(drains) && |d.data| <= BUFFER_SIZE
    ensures Bounded(drains + [d])
    ensures Data(drains + [d]) == Data(drains) + d.data
    ensures Written(drains + [d]) == Written(drains) + if d.wrote then d.data else []
    ensures Echo(drains + [d]) == Echo(drains) + if d.wrote then Pad(d.data) else []
  {
    assert (drains + [d])[..|drains|] == drains;
  }

  // ---------------------------------------------------------------- the invariant of a buffer

  /** Conservation on the way in, and the echo law on the way out. */
  predicate Faithful(b: Bev) {
    && Bounded(b.drains)
    && b.delivered == Data(b.drains) + b.input
    && b.sent + b.output == Echo(b.drains)
  }

  lemma EchoedFaithful(b: Bev, wrote: bool)
    requires Faithful(b)
    ensures Faithful(Echoed(b, wrote))
  {
    var d := Drained(Taken(b), wrote);
    Snoc(b.drains, d);
    assert Data(b.drains) + b.input == Data(b.drains) + d.data + b.input[|d.data|..];
    assert wrote ==> b.sent + (b.output + Pad(d.data)) == (b.sent + b.output) + Pad(d.data);
  }

  lemma ArriveFaithful(b: Bev, bytes: seq<Byte>)
    requires Faithful(b)
    ensures Faithful(b.(delivered := b.delivered + bytes, input := b.input + bytes))
  {
    assert Data(b.drains) + (b.input + bytes) == (Data(b.drains) + b.input) + bytes;
  }

  lemma FlushFaithful(b: Bev, n: nat)
    requires Faithful(b) && n <= |b.output|
    ensures Faithful(b.(output := b.output[n..], sent := b.sent + b.output[..n]))
  {
    assert b.sent + b.output[..n] + b.output[n..] == b.sent + b.output;
  }

  /** Live or freed, the record of every bufferevent obeys the law. */
  ghost predicate AllFaithful(s: Server) {
    && (forall id :: id in s.live ==> Faithful(s.live[id]))
    && (forall id :: id in s.freed ==> Faithful(s.freed[id]))
  }

  lemma StepFaithful(s: Server, a: Action)
    requires AllFaithful(s) && Enabled(s, a)
    ensures AllFaithful(Apply(s, a))
  {
    if a.ReadCb? {
      EchoedFaithful(s.live[a.id], a.wrote);
    } else if a.Arrive? {
      ArriveFaithful(s.live[a.id], a.bytes);
    } else if a.Flush? {
      FlushFaithful(s.live[a.id], a.n);
    }
  }

  lemma {:induction false} RunFaithful(init: Server, acts: seq<Action>)
    requires IsRun(init, acts)
    ensures AllFaithful(Run(init, acts))
    decreases |acts|
  {
    if acts != [] {
      RunFaithful(init, Front(acts));
      StepFaithful(Run(init, Front(acts)), Last(acts));
    }
  }

  // ---------------------------------------------------------------- what a client can recover

  /** Padding is invisible once the zero bytes are dropped. */
  lemma {:induction false} NonZeroOfEcho(drains: seq<Drained>)
    requires Bounded(drains)
    ensures NonZero(Echo(drains)) == NonZero(Written(drains))
    ensures |Echo(drains)| == BUFFER_SIZE * Writes(drains)
  {
    if drains != [] {
      var front, d := drains[..|drains| - 1], drains[|drains| - 1];
      NonZeroOfEcho(front);
      if d.wrote {
        NonZeroOfPad(d.data);
        NonZeroConcat(Echo(front), Pad(d.data));
        NonZeroConcat(Written(front), d.data);
      } else {
        assert Echo(drains) == Echo(front) && Written(drains) == Written(front);
      }
    }
  }

  lemma {:induction false} WrittenIsData(drains: seq<Drained>)
    requires AllWritten(drains)
    ensures Written(drains) == Data(drains)
  {
    if drains != [] {
      WrittenIsData(drains[..|drains| - 1]);
      assert drains[|drains| - 1] in drains;
    }
  }

  // ---------------------------------------------------------------- whole runs

  /** Bytes that `a` brings for connection `id`. */
  function BytesBy(a: Action, id: nat): seq<Byte> { if a.Arrive? && a.id == id then a.bytes else [] }

  /** What the peer of connection `id` sends in the course of `acts`. */
  function Sent(acts: seq<Action>, id: nat): seq<Byte> {
    if acts == [] then [] else Sent(Front(acts), id) + BytesBy(Last(acts), id)
  }

  lemma StepDelivered(s: Server, a: Action, id: nat)
    requires Partitioned(s) && Enabled(s, a)
    ensures Made(s, id) ==> Made(Apply(s, a), id)
    ensures Made(s, id) ==> RecordOf(Apply(s, a), id).delivered == RecordOf(s, id).delivered + BytesBy(a, id)
    ensures !Made(s, id) ==> BytesBy(a, id) == []
    ensures !Made(s, id) && Made(Apply(s, a), id) ==> RecordOf(Apply(s, a), id).delivered == []
  {
  }

  /** The history of a connection is what the run brought for it. */
  lemma {:induction false} DeliveredIsSent(init: Server, acts: seq<Action>, id: nat)
    requires IsRun(init, acts)
    ensures if Made(Run(init, acts), id) then RecordOf(Run(init, acts), id).delivered == Sent(acts, id)
            else Sent(acts, id) == []
    decreases |acts|
  {
    if acts != [] {
      DeliveredIsSent(init, Front(acts), id);
      RunKeepsInv(init, Front(acts));
      StepDelivered(Run(init, Front(acts)), Last(acts), id);
    }
  }

  lemma RecordIsFaithful(init: Server, acts: seq<Action>, id: nat)
    requires IsRun(init, acts) && Made(Run(init, acts), id)
    ensures Faithful(RecordOf(Run(init, acts), id))
    ensures RecordOf(Run(init, acts), id).delivered == Sent(acts, id)
  {
    RunFaithful(init, acts);
    DeliveredIsSent(init, acts, id);
  }

  /** The echo law. In every run, the output of a connection, live or freed, is its drained chunks,
      each padded to 1024 bytes, and the chunks are what the peer sent less what is still unread.
      Dropping zero bytes from the output gives the non-zero bytes of the chunks that were written;
      if the peer sent no zeros and no write failed, exactly what was drained of the bytes sent. */
  lemma EchoLaw(init: Server, acts: seq<Action>, id: nat)
    requires IsRun(init, acts) && Made(Run(init, acts), id)
    ensures var b := RecordOf(Run(init, acts), id);
      && Bounded(b.drains) && b.sent + b.output == Echo(b.drains)
      && |b.sent + b.output| == 1024 * Writes(b.drains)
      && Sent(acts, id) == Data(b.drains) + b.input
      && NonZero(b.sent + b.output) == NonZero(Written(b.drains))
    ensures var b := RecordOf(Run(init, acts), id);
      NulFree(Sent(acts, id)) && AllWritten(b.drains) ==>
        NonZero(b.sent + b.output) + b.input == Sent(acts, id)
  {
    var b := RecordOf(Run(init, acts), id);
    RecordIsFaithful(init, acts, id);
    NonZeroOfEcho(b.drains);
    if NulFree(Sent(acts, id)) && AllWritten(b.drains) {
      WrittenIsData(b.drains);
      NonZeroOfNulFree(Data(b.drains));
    }
  }

  lemma DrainedEcho(b: Bev)
    requires Faithful(b) && b.input == [] && AllWritten(b.drains)
    ensures NonZero(b.sent + b.output) == NonZero(b.delivered)
  {
    NonZeroOfEcho(b.drains);
    WrittenIsData(b.drains);
    assert Data(b.drains) + b.input == Data(b.drains);
  }

  /** Connection `id` of the run has nothing unread and no write of it failed. */
  ghost predicate Answered(init: Server, acts: seq<Action>, id: nat) {
    && IsRun(init, acts) && Made(Run(init, acts), id)
    && RecordOf(Run(init, acts), id).input == [] && AllWritten(RecordOf(Run(init, acts), id).drains)
  }

  /** All that was echoed to it, whether it has left the output buffer or not. */
  function EchoTo(s: Server, id: nat): seq<Byte>
    requires Made(s, id)
  {
    RecordOf(s, id).sent + RecordOf(s, id).output
  }

  /** Of a connection that is answered, the non-zero bytes come back. */
  lemma AnsweredEcho(init: Server, acts: seq<Action>, id: nat)
    requires Answered(init, acts, id)
    ensures NonZero(EchoTo(Run(init, acts), id)) == NonZero(Sent(acts, id))
  {
    RecordIsFaithful(init, acts, id);
    DrainedEcho(RecordOf(Run(init, acts), id));
  }

  /** A connection of any other run that was sent the same bytes and is answered has the same non-zero
      bytes echoed, however the bytes were cut into arrivals. */
  lemma SegmentationIsInvisible(init: Server, acts: seq<Action>, id: nat)
    requires Answered(init, acts, id)
    ensures forall i2, a2, id2 :: Answered(i2, a2, id2) && Sent(a2, id2) == Sent(acts, id) ==>
      NonZero(EchoTo(Run(i2, a2), id2)) == NonZero(EchoTo(Run(init, acts), id))
  {
    AnsweredEcho(init, acts, id);
    forall i2, a2, id2 | Answered(i2, a2, id2) && Sent(a2, id2) == Sent(acts, id)
      ensures NonZero(EchoTo(Run(i2, a2), id2)) == NonZero(EchoTo(Run(init, acts), id))
    {
      AnsweredEcho(i2, a2, id2);
    }
  }

  /** The echo is not what was sent: it is so exactly when every callback filled its buffer. */
  lemma EchoIsExact(init: Server, acts: seq<Action>, id: nat)
    requires IsRun(init, acts) && Made(Run(init, acts), id) && AllWritten(RecordOf(Run(init, acts), id).drains)
    ensures var b := RecordOf(Run(init, acts), id);
      b.sent + b.output + b.input == Sent(acts, id) <==> forall d :: d in b.drains ==> |d.data| == 1024
  {
    RecordIsFaithful(init, acts, id);
    ExactMeansFull(RecordOf(Run(init, acts), id));
  }

  lemma ExactMeansFull(b: Bev)
    requires Faithful(b) && AllWritten(b.drains)
    ensures b.sent + b.output + b.input == b.delivered <==> forall d :: d in b.drains ==> |d.data| == BUFFER_SIZE
  {
    DataLength(b.drains);
    assert b.sent + b.output + b.input == Echo(b.drains) + b.input;
    if b.sent + b.output + b.input == b.delivered {
      assert |Echo(b.drains)| == |Data(b.drains)|;
    }
  }

  lemma {:induction false} DataLength(drains: seq<Drained>)
    requires Bounded(drains) && AllWritten(drains)
    ensures |Data(drains)| <= |Echo(drains)|
    ensures |Data(drains)| == |Echo(drains)| <==> forall d :: d in drains ==> |d.data| == BUFFER_SIZE
    ensures |Data(drains)| == |Echo(drains)| ==> Data(drains) == Echo(drains)
  {
    if drains != [] {
      var front, d := drains[..|drains| - 1], drains[|drains| - 1];
      DataLength(front);
      assert d in drains;
      assert drains == front + [d];
      assert |d.data| == BUFFER_SIZE ==> Pad(d.data) == d.data;
    }
  }

  /** A one-byte message does not come back as it was sent. */
  lemma ShortMessageIsPadded(init: Server, c: Byte)
    requires Init(init)
    ensures var acts := [Accepted(7, true), Arrive(0, [c]), ReadCb(0, true)];
      && IsRun(init, acts) && 0 in Run(init, acts).live
      && Run(init, acts).live[0].output == [c] + Zeros(1023) && Run(init, acts).live[0].input == []
  {
    var a1, a2, a3 := Accepted(7, true), Arrive(0, [c]), ReadCb(0, true);
    assert Front([a1, a2, a3]) == [a1, a2] && Front([a1, a2]) == [a1] && Front([a1]) == [];
    var s1 := Apply(init, a1);
    assert Run(init, [a1]) == s1 && CanRun(init, [a1]);
    assert Enabled(s1, a2) && CanRun(init, [a1, a2]);
    var s2 := Apply(s1, a2);
    assert Run(init, [a1, a2]) == s2 && s2.live[0].input == [] + [c] == [c];
    assert Enabled(s2, a3) && CanRun(init, [a1, a2, a3]);
    assert Run(init, [a1, a2, a3]) == Apply(s2, a3);
    assert Taken(s2.live[0]) == [c] && Apply(s2, a3).live[0].output == [] + Pad([c]);
  }
}
