/**
  What the driver calls of CUDA threads come to, stated in terms of the calls themselves: what they enqueue,
  what they store, and what cuEventQuery answers after cuEventRecord.
 */
module CudaEvents {
  import opened Basics
  import opened CudaModel
  import opened CudaOrder
  import opened CudaStream

  // ---------------------------------------------------------------- commands

  /** The commands that a step puts at the end of stream q: a launch that waits, a copy or callback, or a record. */
  ghost function Appended(s: State, l: Label, q: StreamId): seq<Command> {
    if q >= |s.streams| then []
    else
      match l
      case Configure(_, p, config) =>
        if p == q then [Command(KernelLaunch(config, None, []), [], false, false, q, |s.streams[q].history|)] else []
      case Append(p) => if p == q then [Command(Other, [], true, false, q, |s.streams[q].history|)] else []
      case RecordEnqueue(e, p) => if p == q then [Command(EventRecord(e), [], true, false, q, |s.streams[q].history|)] else []
      case _ => []
  }

  /** Every call that appends a command does so at the end of its own stream, and no other step does. */
  lemma StepAppends(s: State, l: Label, q: StreamId)
    requires Enabled(s, l) && q < |s.streams|
    ensures |Apply(s, l).streams| == |s.streams|
    ensures var h, h' := s.streams[q].history, Apply(s, l).streams[q].history;
            if Appended(s, l, q) == [] then h' == h
            else h' == h + [|s.cmds|] && |Apply(s, l).cmds| == |s.cmds| + 1 && Apply(s, l).cmds[|s.cmds|] == Appended(s, l, q)[0]
  {
  }

  /** The functions and arguments that a run enqueues on stream q, in order. */
  ghost function EnqueuedOn(s: State, run: seq<Label>, q: StreamId): seq<CommandId>
    decreases |run|
  {
    if run == [] || !Enabled(s, run[0]) then []
    else (if Appended(s, run[0], q) == [] then [] else [|s.cmds|]) + EnqueuedOn(Apply(s, run[0]), run[1..], q)
  }

  /** A stream's history is exactly what was enqueued on it, in order: what StreamFifo says, it says about the calls. */
  lemma {:induction false} HistoryIsEnqueued(s: State, run: seq<Label>, s': State, q: StreamId)
    requires Reaches(s, run, s') && q < |s.streams|
    ensures q < |s'.streams| && s'.streams[q].history == s.streams[q].history + EnqueuedOn(s, run, q)
    decreases |run|
  {
    if run != [] {
      StepAppends(s, run[0], q);
      HistoryIsEnqueued(Apply(s, run[0]), run[1..], s', q);
    }
  }

  /** Host memory changes by stores only, and by a store at its address only. */
  lemma StepMemory(s: State, l: Label, addr: nat)
    requires Enabled(s, l)
    ensures Apply(s, l).memory(addr) == if l.HostStore? && l.addr == addr then l.value else s.memory(addr)
  {
  }

  // ---------------------------------------------------------------- events

  /** The step runs a command that records event e. */
  ghost predicate RunsRecord(s: State, l: Label, e: EventId) {
    l.Run? && Enabled(s, l) && s.cmds[s.streams[l.stream].worker.cmd].body == EventRecord(e)
  }

  /** Some step of the run does. */
  ghost predicate SomeRecordRuns(s: State, run: seq<Label>, e: EventId)
    decreases |run|
  {
    run != [] && Enabled(s, run[0]) && (RunsRecord(s, run[0], e) || SomeRecordRuns(Apply(s, run[0]), run[1..], e))
  }

  ghost predicate NoReset(run: seq<Label>, e: EventId) {
    forall i :: 0 <= i < |run| ==> run[i] != RecordReset(e)
  }

  /** Only cuEventRecord resets an event, and only running its command sets it. */
  lemma StepRecorded(s: State, l: Label, e: EventId)
    requires Enabled(s, l) && e < |s.recorded|
    ensures |Apply(s, l).recorded| == |s.recorded|
    ensures Apply(s, l).recorded[e] == (l != RecordReset(e) && (s.recorded[e] || RunsRecord(s, l, e)))
  {
  }

  /** Without a cuEventRecord, an event is recorded if and only if it was, or a command of it has run meanwhile. */
  lemma {:induction false} RecordedExactly(s: State, run: seq<Label>, s': State, e: EventId)
    requires Reaches(s, run, s') && e < |s.recorded| && NoReset(run, e)
    ensures e < |s'.recorded| && (s'.recorded[e] <==> s.recorded[e] || SomeRecordRuns(s, run, e))
    decreases |run|
  {
    if run != [] {
      StepRecorded(s, run[0], e);
      RecordedExactly(Apply(s, run[0]), run[1..], s', e);
    }
  }

  /** After the reset of cuEventRecord, cuEventQuery answers "not ready" in every run in which no command of the event runs. */
  lemma {:induction false} NotReadyBeforeRun(s: State, run: seq<Label>, s': State, e: EventId)
    requires e < |s.recorded| && !s.recorded[e] && Reaches(s, run, s') && !SomeRecordRuns(s, run, e)
    ensures e < |s'.recorded| && !s'.recorded[e]
    decreases |run|
  {
    if run != [] {
      StepRecorded(s, run[0], e);
      NotReadyBeforeRun(Apply(s, run[0]), run[1..], s', e);
    }
  }

  lemma ResetNotReady(s: State, e: EventId, run: seq<Label>, s': State)
    requires Enabled(s, RecordReset(e)) && Reaches(Apply(s, RecordReset(e)), run, s')
    requires !SomeRecordRuns(Apply(s, RecordReset(e)), run, e)
    ensures e < |s'.recorded| && !s'.recorded[e]
  {
    StepRecorded(s, RecordReset(e), e);
    NotReadyBeforeRun(Apply(s, RecordReset(e)), run, s', e);
  }

  /** Commands of the event that have not run are among these. */
  ghost predicate UnrunRecords(s: State, e: EventId, left: set<CommandId>) {
    forall c :: 0 <= c < |s.cmds| && s.cmds[c].body == EventRecord(e) && !HasRun(s.streams, s.cmds, c) ==> c in left
  }

  ghost predicate NoRecordCall(run: seq<Label>, e: EventId) {
    forall i :: 0 <= i < |run| ==> !(run[i].RecordEnqueue? && run[i].event == e)
  }

  /** A step other than a record call of the event leaves its commands as they are. */
  lemma RecordCommandStays(s: State, l: Label, e: EventId, c: CommandId)
    requires Enabled(s, l) && !(l.RecordEnqueue? && l.event == e) && c < |Apply(s, l).cmds|
    requires Apply(s, l).cmds[c].body == EventRecord(e)
    ensures c < |s.cmds| && s.cmds[c].body == EventRecord(e)
  {
  }

  lemma HasRunStays(s: State, l: Label, c: CommandId)
    requires InOrder(s) && Enabled(s, l) && HasRun(s.streams, s.cmds, c)
    ensures HasRun(Apply(s, l).streams, Apply(s, l).cmds, c)
  {
  }

  lemma StepUnrun(s: State, l: Label, e: EventId, left: set<CommandId>)
    requires InOrder(s) && Enabled(s, l) && !(l.RecordEnqueue? && l.event == e) && UnrunRecords(s, e, left)
    ensures UnrunRecords(Apply(s, l), e, left)
  {
    var s' := Apply(s, l);
    forall c | 0 <= c < |s'.cmds| && s'.cmds[c].body == EventRecord(e) && !HasRun(s'.streams, s'.cmds, c)
      ensures c in left
    {
      RecordCommandStays(s, l, e, c);
      if HasRun(s.streams, s.cmds, c) {
        HasRunStays(s, l, c);
      }
    }
  }

  /** A step that runs a command of the event runs one that had not run before, and has afterwards. */
  lemma RunsUnrun(s: State, l: Label, e: EventId, left: set<CommandId>)
    requires InOrder(s) && RunsRecord(s, l, e) && UnrunRecords(s, e, left)
    ensures exists c :: c in left && c < |s.cmds| && !HasRun(s.streams, s.cmds, c) && HasRun(Apply(s, l).streams, s.cmds, c)
  {
    var c := s.streams[l.stream].worker.cmd;
    HeldCommand(s, l.stream);
    assert StreamOk(s.streams[l.stream], l.stream, s.cmds);
    assert EntryOk(s.streams[l.stream], l.stream, s.cmds, s.streams[l.stream].taken);
    assert !HasRun(s.streams, s.cmds, c) && HasRun(Apply(s, l).streams, s.cmds, c);
  }

  /** With one command of the event left to run, some command of it runs if and only if that one does. */
  lemma {:induction false} OnlyThisRecord(s: State, run: seq<Label>, s': State, e: EventId, c: CommandId)
    requires InOrder(s) && Reaches(s, run, s') && NoRecordCall(run, e) && UnrunRecords(s, e, {c})
    requires c < |s.cmds| && s.cmds[c].body == EventRecord(e) && !HasRun(s.streams, s.cmds, c)
    ensures SomeRecordRuns(s, run, e) <==> HasRun(s'.streams, s'.cmds, c)
    decreases |run|
  {
    if run != [] {
      var l, s1 := run[0], Apply(s, run[0]);
      StepInOrder(s, l);
      StepUnrun(s, l, e, {c});
      assert !(l.RecordEnqueue? && l.event == e);
      RecordStays(s, l, c, e);
      if RunsRecord(s, l, e) {
        RunsUnrun(s, l, e, {c});
        RunKeepsHasRun(s1, run[1..], s', c);
      } else {
        NotRunYet(s, l, c, e);
        assert NoRecordCall(run[1..], e);
        OnlyThisRecord(s1, run[1..], s', e, c);
      }
    }
  }

  /** A record command stays one. */
  lemma RecordStays(s: State, l: Label, c: CommandId, e: EventId)
    requires Enabled(s, l) && c < |s.cmds| && s.cmds[c].body == EventRecord(e)
    ensures c < |Apply(s, l).cmds| && Apply(s, l).cmds[c].body == EventRecord(e)
  {
  }

  lemma NotRunYet(s: State, l: Label, c: CommandId, e: EventId)
    requires InOrder(s) && Enabled(s, l) && !RunsRecord(s, l, e)
    requires c < |s.cmds| && s.cmds[c].body == EventRecord(e) && !HasRun(s.streams, s.cmds, c)
    ensures !HasRun(Apply(s, l).streams, Apply(s, l).cmds, c)
  {
    assert CommandsOk(s.streams, s.cmds);
    if l.Run? {
      HeldCommand(s, l.stream);
      assert StreamOk(s.streams[l.stream], l.stream, s.cmds);
      assert EntryOk(s.streams[l.stream], l.stream, s.cmds, s.streams[l.stream].taken);
    }
  }

  lemma {:induction false} RunKeepsHasRun(s: State, run: seq<Label>, s': State, c: CommandId)
    requires InOrder(s) && Reaches(s, run, s') && HasRun(s.streams, s.cmds, c)
    ensures HasRun(s'.streams, s'.cmds, c)
    decreases |run|
  {
    if run != [] {
      StepInOrder(s, run[0]);
      HasRunStays(s, run[0], c);
      RunKeepsHasRun(Apply(s, run[0]), run[1..], s', c);
    }
  }

  /** A command of the event that has run in the meantime is a step of the run. */
  lemma {:induction false} RanInRun(s: State, run: seq<Label>, s': State, e: EventId, c: CommandId)
    requires InOrder(s) && Reaches(s, run, s') && c < |s.cmds| && s.cmds[c].body == EventRecord(e)
    requires !HasRun(s.streams, s.cmds, c) && HasRun(s'.streams, s'.cmds, c)
    ensures SomeRecordRuns(s, run, e)
    decreases |run|
  {
    if !RunsRecord(s, run[0], e) {
      StepInOrder(s, run[0]);
      NotRunYet(s, run[0], c, e);
      RecordStays(s, run[0], c, e);
      RanInRun(Apply(s, run[0]), run[1..], s', e, c);
    }
  }

  /** With no command of the event left to run, none runs. */
  lemma {:induction false} NoRecordLeft(s: State, run: seq<Label>, s': State, e: EventId)
    requires InOrder(s) && Reaches(s, run, s') && NoRecordCall(run, e) && UnrunRecords(s, e, {})
    ensures InOrder(s') && !SomeRecordRuns(s, run, e) && UnrunRecords(s', e, {})
    decreases |run|
  {
    if run != [] {
      var l := run[0];
      assert !(l.RecordEnqueue? && l.event == e);
      StepInOrder(s, l);
      StepUnrun(s, l, e, {});
      if RunsRecord(s, l, e) {
        RunsUnrun(s, l, e, {});
      }
      assert NoRecordCall(run[1..], e);
      NoRecordLeft(Apply(s, l), run[1..], s', e);
    }
  }

  /** The second half of cuEventRecord: a new command of the event, which has not run. */
  lemma NewRecord(s: State, e: EventId, q: StreamId)
    requires InOrder(s) && Enabled(s, RecordEnqueue(e, q))
    ensures var s', c := Apply(s, RecordEnqueue(e, q)), |s.cmds|;
            && InOrder(s') && s'.recorded == s.recorded && |s'.cmds| == c + 1 && q < |s'.streams|
            && s'.cmds[c].body == EventRecord(e) && s'.cmds[c].stream == q && s'.cmds[c].ready
            && !HasRun(s'.streams, s'.cmds, c)
  {
    StepInOrder(s, RecordEnqueue(e, q));
    assert StreamOk(s.streams[q], q, s.cmds);
  }

  lemma RecordAdds(s: State, e: EventId, q: StreamId)
    requires InOrder(s) && Enabled(s, RecordEnqueue(e, q)) && UnrunRecords(s, e, {})
    ensures UnrunRecords(Apply(s, RecordEnqueue(e, q)), e, {|s.cmds|})
  {
    assert StreamOk(s.streams[q], q, s.cmds);
  }

  /**
    cuEventRecord followed by cuEventQuery. Thread calls reset the event and enqueue its command on stream q,
    with anything in between and afterwards but other record calls of this event, and no older command of it is
    left to run. Then the event is recorded if and only if that command has run; in particular it is not
    recorded right after the call, and it is when the stream has been seen empty.
   */
  lemma QueryExactly(s: State, e: EventId, run1: seq<Label>, b: State, q: StreamId, run2: seq<Label>, s': State)
    requires InOrder(s) && UnrunRecords(s, e, {})
    requires Enabled(s, RecordReset(e)) && Reaches(Apply(s, RecordReset(e)), run1, b) && NoRecordCall(run1, e)
    requires Enabled(b, RecordEnqueue(e, q)) && Reaches(Apply(b, RecordEnqueue(e, q)), run2, s')
    requires NoRecordCall(run2, e) && NoReset(run2, e)
    ensures e < |s'.recorded| && q < |s'.streams|
    ensures s'.recorded[e] <==> HasRun(s'.streams, s'.cmds, |b.cmds|)
    ensures s'.streams[q].list == [] ==> s'.recorded[e]
  {
    var a, b1, c := Apply(s, RecordReset(e)), Apply(b, RecordEnqueue(e, q)), |b.cmds|;
    StepInOrder(s, RecordReset(e));
    StepUnrun(s, RecordReset(e), e, {});
    NoRecordLeft(a, run1, b, e);
    ResetNotReady(s, e, run1, b);
    NewRecord(b, e, q);
    RecordAdds(b, e, q);
    RecordedExactly(b1, run2, s', e);
    OnlyThisRecord(b1, run2, s', e, c);
    EmptyHasRun(b1, run2, s', q, c);
  }

  /**
    Whatever other calls do: after cuEventRecord has enqueued its command on stream q, and as long as nobody
    resets the event again, it is recorded once the command has run, and so when the stream has been seen empty.
   */
  lemma RecordIsVisible(b: State, e: EventId, q: StreamId, run: seq<Label>, s': State)
    requires InOrder(b) && Enabled(b, RecordEnqueue(e, q)) && Reaches(Apply(b, RecordEnqueue(e, q)), run, s') && NoReset(run, e)
    ensures e < |s'.recorded| && q < |s'.streams|
    ensures HasRun(s'.streams, s'.cmds, |b.cmds|) || s'.streams[q].list == [] ==> s'.recorded[e]
  {
    var b1, c := Apply(b, RecordEnqueue(e, q)), |b.cmds|;
    NewRecord(b, e, q);
    RecordedExactly(b1, run, s', e);
    EmptyHasRun(b1, run, s', q, c);
    if HasRun(s'.streams, s'.cmds, c) {
      RanInRun(b1, run, s', e, c);
    }
  }

  /** A command of a stream that is seen empty has run. */
  lemma EmptyHasRun(s: State, run: seq<Label>, s': State, q: StreamId, c: CommandId)
    requires InOrder(s) && Reaches(s, run, s') && q < |s.streams| && c < |s.cmds| && s.cmds[c].stream == q
    ensures q < |s'.streams| && (s'.streams[q].list == [] ==> HasRun(s'.streams, s'.cmds, c))
  {
    RunInOrder(s, run, s');
    PlaceStays(s, run, s', c);
    HistoryIsEnqueued(s, run, s', q);
    assert StreamOk(s'.streams[q], q, s'.cmds);
    assert CommandsOk(s'.streams, s'.cmds);
  }
}
