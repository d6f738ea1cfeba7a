/** What the read callback leaves in the input buffer: it takes 1024 bytes per call, whatever arrived. */
module EventBacklog {
  import opened Basics
  import opened Bytes
  import opened EventModel
  import opened EventOwnership
  import opened EventStreams

  function ArrivedBy(a: Action, id: nat): nat { |BytesBy(a, id)| }

  function CallbackBy(a: Action, id: nat): nat { if a.ReadCb? && a.id == id then 1 else 0 }

  /** Bytes that arrive on connection `id` in the course of `acts`. */
  function Arrived(acts: seq<Action>, id: nat): nat { |Sent(acts, id)| }

  /** Runs of its read callback. */
  function Callbacks(acts: seq<Action>, id: nat): nat {
    if acts == [] then 0 else Callbacks(Front(acts), id) + CallbackBy(Last(acts), id)
  }

  /** By how much the arrivals exceed what the callbacks could take. */
  function Excess(acts: seq<Action>, id: nat): int { Arrived(acts, id) - BUFFER_SIZE * Callbacks(acts, id) }

  function Gain(a: Action, id: nat): int { ArrivedBy(a, id) - BUFFER_SIZE * CallbackBy(a, id) }

  lemma ExcessFront(acts: seq<Action>, id: nat, j: nat)
    requires acts != [] && j < |acts|
    ensures Excess(acts[j..], id) == Excess(Front(acts)[j..], id) + Gain(Last(acts), id)
  {
    assert Front(acts[j..]) == Front(acts)[j..] && Last(acts[j..]) == Last(acts);
  }

  /** The length of the input buffer as a queue that serves 1024 bytes at a time. */
  function Queue(acts: seq<Action>, id: nat): nat {
    if acts == [] then 0 else Max(0, Queue(Front(acts), id) + Gain(Last(acts), id))
  }

  lemma StepInput(s: Server, a: Action, id: nat)
    requires Partitioned(s) && Enabled(s, a) && id in Apply(s, a).live
    ensures id in s.live ==> |Apply(s, a).live[id].input| == Max(0, |s.live[id].input| + Gain(a, id))
    ensures id !in s.live ==> id == s.accepted && Apply(s, a).live[id].input == []
  {
  }

  lemma StepBefore(s: Server, a: Action, id: nat)
    requires Partitioned(s) && Enabled(s, a) && Apply(s, a).accepted <= id
    ensures Gain(a, id) == 0 && s.accepted <= id
  {
  }

  /** Nothing can happen to a connection before its accept. */
  lemma {:induction false} NothingBefore(init: Server, acts: seq<Action>, id: nat)
    requires IsRun(init, acts) && Run(init, acts).accepted <= id
    ensures Queue(acts, id) == 0
    decreases |acts|
  {
    if acts != [] {
      RunKeepsInv(init, Front(acts));
      StepBefore(Run(init, Front(acts)), Last(acts), id);
      NothingBefore(init, Front(acts), id);
    }
  }

  lemma {:induction false} InputIsQueue(init: Server, acts: seq<Action>, id: nat)
    requires IsRun(init, acts) && id in Run(init, acts).live
    ensures |Run(init, acts).live[id].input| == Queue(acts, id)
    decreases |acts|
  {
    if acts != [] {
      var mid := Run(init, Front(acts));
      RunKeepsInv(init, Front(acts));
      StepInput(mid, Last(acts), id);
      if id in mid.live {
        InputIsQueue(init, Front(acts), id);
      } else {
        NothingBefore(init, Front(acts), id);
        assert Gain(Last(acts), id) == 0;
      }
    }
  }

  /** The queue is the largest excess over all suffixes of the run. */
  lemma {:induction false} QueueIsMaximalExcess(acts: seq<Action>, id: nat)
    ensures forall j :: 0 <= j <= |acts| ==> Excess(acts[j..], id) <= Queue(acts, id)
    ensures exists j :: 0 <= j <= |acts| && Excess(acts[j..], id) == Queue(acts, id)
    decreases |acts|
  {
    var n := |acts|;
    assert acts[n..] == [];
    assert Excess(acts[n..], id) == 0;
    if acts != [] {
      var front, g := Front(acts), Gain(Last(acts), id);
      QueueIsMaximalExcess(front, id);
      forall j | 0 <= j <= n ensures Excess(acts[j..], id) <= Queue(acts, id) {
        if j < n {
          ExcessFront(acts, id, j);
          assert Excess(front[j..], id) <= Queue(front, id);
        }
      }
      var j :| 0 <= j <= |front| && Excess(front[j..], id) == Queue(front, id);
      ExcessFront(acts, id, j);
      assert Excess(acts[j..], id) == Queue(front, id) + g;
      assert Excess(acts[if Queue(front, id) + g >= 0 then j else n..], id) == Queue(acts, id);
    }
  }

  /** A connection has nothing left unread exactly when, over every stretch of the run up to now, its
      read callback ran often enough: 1024 bytes per call for all that arrived in that stretch. */
  lemma InputIsEmptyExactlyWhen(init: Server, acts: seq<Action>, id: nat)
    requires IsRun(init, acts) && id in Run(init, acts).live
    ensures Run(init, acts).live[id].input == [] <==>
      forall j :: 0 <= j <= |acts| ==> Arrived(acts[j..], id) <= BUFFER_SIZE * Callbacks(acts[j..], id)
  {
    InputIsQueue(init, acts, id);
    QueueIsMaximalExcess(acts, id);
    var m :| 0 <= m <= |acts| && Excess(acts[m..], id) == Queue(acts, id);
    if Run(init, acts).live[id].input == [] {
      forall j | 0 <= j <= |acts| ensures Arrived(acts[j..], id) <= BUFFER_SIZE * Callbacks(acts[j..], id) {
        assert Excess(acts[j..], id) <= Queue(acts, id);
      }
    }
  }

  /** k callbacks take at most 1024 * k bytes, so the rest is still unread. */
  lemma BacklogIsAtLeast(init: Server, acts: seq<Action>, id: nat)
    requires IsRun(init, acts) && id in Run(init, acts).live
    ensures |Run(init, acts).live[id].input| >= Arrived(acts, id) - BUFFER_SIZE * Callbacks(acts, id)
  {
    InputIsQueue(init, acts, id);
    QueueIsMaximalExcess(acts, id);
    assert acts[0..] == acts;
    assert Excess(acts[0..], id) <= Queue(acts, id);
  }

  /** Every arrival on `id` is followed at once by its read callback. */
  predicate Prompt(acts: seq<Action>, id: nat) {
    forall i :: 0 <= i < |acts| && acts[i].Arrive? && acts[i].id == id ==>
      i + 1 < |acts| && acts[i + 1].ReadCb? && acts[i + 1].id == id
  }

  predicate SmallArrivals(acts: seq<Action>, id: nat) {
    forall i :: 0 <= i < |acts| ==> ArrivedBy(acts[i], id) <= BUFFER_SIZE
  }

  lemma PromptPrefix(acts: seq<Action>, id: nat, n: nat)
    requires Prompt(acts, id) && SmallArrivals(acts, id) && n <= |acts|
    requires n > 0 ==> !(acts[n - 1].Arrive? && acts[n - 1].id == id)
    ensures Prompt(acts[..n], id) && SmallArrivals(acts[..n], id)
  {
  }

  lemma {:induction false} PromptQueue(acts: seq<Action>, id: nat)
    requires Prompt(acts, id) && SmallArrivals(acts, id)
    ensures Queue(acts, id) == 0
    decreases |acts|
  {
    if acts != [] {
      var front := Front(acts);
      assert !Last(acts).Arrive? || Last(acts).id != id by {
        assert acts[|acts| - 1] == Last(acts);
      }
      if front != [] && Last(front).Arrive? && Last(front).id == id {
        var before := Front(front);
        assert Last(front) == acts[|acts| - 2];
        PromptPrefix(acts, id, |acts| - 2);
        PromptQueue(before, id);
        assert Gain(Last(acts), id) + BUFFER_SIZE == 0;
        assert ArrivedBy(acts[|acts| - 2], id) <= BUFFER_SIZE;
      } else {
        PromptPrefix(acts, id, |acts| - 1);
        PromptQueue(front, id);
      }
    }
  }

  /** If no arrival exceeds the buffer and each is answered at once, nothing stays behind. */
  lemma SmallAndPromptLeavesNothing(init: Server, acts: seq<Action>, id: nat)
    requires IsRun(init, acts) && id in Run(init, acts).live && Prompt(acts, id) && SmallArrivals(acts, id)
    ensures Run(init, acts).live[id].input == []
  {
    PromptQueue(acts, id);
    InputIsQueue(init, acts, id);
  }

  /** Otherwise bytes do stay behind: one arrival of 1025 bytes, answered at once, leaves a byte. */
  lemma OneByteTooMany(init: Server, bytes: seq<Byte>)
    requires Init(init) && |bytes| == BUFFER_SIZE + 1
    ensures var acts := [Accepted(7, true), Arrive(0, bytes), ReadCb(0, true)];
      && IsRun(init, acts) && Prompt(acts, 0)
      && 0 in Run(init, acts).live && Run(init, acts).live[0].input == bytes[BUFFER_SIZE..]
  {
    var a1, a2, a3 := Accepted(7, true), Arrive(0, bytes), ReadCb(0, true);
    assert Front([a1, a2, a3]) == [a1, a2] && Front([a1, a2]) == [a1] && Front([a1]) == [];
    var s1 := Apply(init, a1);
    assert Run(init, [a1]) == s1 && CanRun(init, [a1]);
    assert Enabled(s1, a2) && CanRun(init, [a1, a2]);
    var s2 := Apply(s1, a2);
    assert Run(init, [a1, a2]) == s2 && s2.live[0].input == [] + bytes == bytes;
    assert Enabled(s2, a3) && CanRun(init, [a1, a2, a3]);
    assert Run(init, [a1, a2, a3]) == Apply(s2, a3);
  }

  // ---------------------------------------------------------------- when the echo is exact

  /** Before every run of the read callback of `id`, at least a full buffer was waiting. */
  ghost predicate AlwaysFull(acts: seq<Action>, id: nat) {
    forall i :: 0 <= i < |acts| && CallbackBy(acts[i], id) == 1 ==> Queue(acts[..i], id) >= BUFFER_SIZE
  }

  /** No write of `id` failed. */
  predicate NoWriteFailed(acts: seq<Action>, id: nat) {
    forall i :: 0 <= i < |acts| && acts[i].ReadCb? && acts[i].id == id ==> acts[i].wrote
  }

  predicate FullChunks(drains: seq<Drained>) { forall d :: d in drains ==> |d.data| == BUFFER_SIZE }

  lemma FrontFacts(acts: seq<Action>, id: nat)
    requires acts != []
    ensures AlwaysFull(acts, id) <==>
      AlwaysFull(Front(acts), id) && (CallbackBy(Last(acts), id) == 1 ==> Queue(Front(acts), id) >= BUFFER_SIZE)
    ensures NoWriteFailed(acts, id) <==>
      NoWriteFailed(Front(acts), id) && (CallbackBy(Last(acts), id) == 1 ==> Last(acts).wrote)
  {
    var front := Front(acts);
    assert forall i :: 0 <= i < |front| ==> acts[i] == front[i];
    assert forall i :: 0 <= i <= |front| ==> acts[..i] == front[..i];
    assert front[..|front|] == front && acts[|front|] == Last(acts);
  }

  lemma StepDrains(s: Server, a: Action, id: nat)
    requires Partitioned(s) && Enabled(s, a) && Made(Apply(s, a), id)
    ensures !Made(s, id) ==> RecordOf(Apply(s, a), id).drains == [] && CallbackBy(a, id) == 0 && id == s.accepted
    ensures Made(s, id) && CallbackBy(a, id) == 0 ==> RecordOf(Apply(s, a), id).drains == RecordOf(s, id).drains
    ensures CallbackBy(a, id) == 1 ==>
      && id in s.live
      && RecordOf(Apply(s, a), id).drains == s.live[id].drains + [Drained(Taken(s.live[id]), a.wrote)]
  {
  }

  /** Before its accept a connection has no callbacks either. */
  lemma {:induction false} NoCallbacksBefore(init: Server, acts: seq<Action>, id: nat)
    requires IsRun(init, acts) && Run(init, acts).accepted <= id
    ensures AlwaysFull(acts, id) && NoWriteFailed(acts, id)
    decreases |acts|
  {
    if acts != [] {
      RunKeepsInv(init, Front(acts));
      StepBefore(Run(init, Front(acts)), Last(acts), id);
      NoCallbacksBefore(init, Front(acts), id);
      FrontFacts(acts, id);
    }
  }

  /** The recorded chunks, told from the run alone. */
  lemma {:induction false} DrainsFromRun(init: Server, acts: seq<Action>, id: nat)
    requires IsRun(init, acts) && Made(Run(init, acts), id)
    ensures FullChunks(RecordOf(Run(init, acts), id).drains) <==> AlwaysFull(acts, id)
    ensures AllWritten(RecordOf(Run(init, acts), id).drains) <==> NoWriteFailed(acts, id)
    decreases |acts|
  {
    if acts != [] {
      var mid, a := Run(init, Front(acts)), Last(acts);
      RunKeepsInv(init, Front(acts));
      StepDrains(mid, a, id);
      FrontFacts(acts, id);
      if Made(mid, id) {
        DrainsFromRun(init, Front(acts), id);
        if CallbackBy(a, id) == 1 {
          InputIsQueue(init, Front(acts), id);
          DrainsSnoc(mid.live[id].drains, Drained(Taken(mid.live[id]), a.wrote));
        }
      } else {
        NoCallbacksBefore(init, Front(acts), id);
      }
    }
  }

  lemma DrainsSnoc(drains: seq<Drained>, d: Drained)
    ensures FullChunks(drains + [d]) <==> FullChunks(drains) && |d.data| == BUFFER_SIZE
    ensures AllWritten(drains + [d]) <==> AllWritten(drains) && d.wrote
  {
    assert d in drains + [d];
    assert forall x :: x in drains ==> x in drains + [d];
  }

  /** The echo of a connection, still open or not, is what was sent exactly if, whenever the read
      callback ran, arrivals and earlier callbacks had left a full buffer waiting. */
  lemma EchoIsExactExactlyWhen(init: Server, acts: seq<Action>, id: nat)
    requires IsRun(init, acts) && Made(Run(init, acts), id) && NoWriteFailed(acts, id)
    ensures var b := RecordOf(Run(init, acts), id);
      b.sent + b.output + b.input == Sent(acts, id) <==> AlwaysFull(acts, id)
  {
    DrainsFromRun(init, acts, id);
    EchoIsExact(init, acts, id);
  }
}
