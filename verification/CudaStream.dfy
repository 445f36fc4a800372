/**
  What else holds in every run of the CUDA streams: events are recorded, only launched kernels run, and
  commands that are ready get run.
 */
module CudaStream {
  import opened Basics
  import opened CudaModel
  import opened CudaOrder

  // ---------------------------------------------------------------- events

  /** Unless a cuEventRecord is under way, an event whose last record command has run is recorded. */
  ghost predicate RecordOk(streams: seq<Stream>, cmds: seq<Command>, e: EventId, pending: nat, last: Option<CommandId>, recorded: bool) {
    last.Some? ==>
      && last.value < |cmds| && cmds[last.value].body == EventRecord(e)
      && (pending == 0 && HasRun(streams, cmds, last.value) ==> recorded)
  }

  ghost predicate RecordsOk(s: State) {
    && |s.recorded| == |s.pending| == |s.lastRecord|
    && forall e :: 0 <= e < |s.recorded| ==> RecordOk(s.streams, s.cmds, e, s.pending[e], s.lastRecord[e], s.recorded[e])
  }

  /** Steps in which nothing new runs keep the event flags right. */
  lemma RecordsFrame(s: State, s': State)
    requires RecordsOk(s) && s'.recorded == s.recorded && s'.pending == s.pending && s'.lastRecord == s.lastRecord
    requires |s.cmds| <= |s'.cmds| && |s'.streams| == |s.streams|
    requires forall c :: 0 <= c < |s.cmds| ==>
               && s'.cmds[c].stream == s.cmds[c].stream && s'.cmds[c].pos == s.cmds[c].pos
               && (s.cmds[c].body.EventRecord? ==> s'.cmds[c].body == s.cmds[c].body)
    requires forall q :: 0 <= q < |s.streams| ==> |s'.streams[q].log| == |s.streams[q].log|
    ensures RecordsOk(s')
  {
    forall e | 0 <= e < |s'.recorded|
      ensures RecordOk(s'.streams, s'.cmds, e, s'.pending[e], s'.lastRecord[e], s'.recorded[e])
    {
      assert RecordOk(s.streams, s.cmds, e, s.pending[e], s.lastRecord[e], s.recorded[e]);
    }
  }

  lemma RecordCallKeepsRecords(s: State, l: Label)
    requires InOrder(s) && RecordsOk(s) && Enabled(s, l) && (l.RecordReset? || l.RecordEnqueue?)
    ensures RecordsOk(Apply(s, l))
  {
    var s' := Apply(s, l);
    if l.RecordEnqueue? {
      assert StreamOk(s.streams[l.stream], l.stream, s.cmds);
    }
    forall e | 0 <= e < |s'.recorded|
      ensures RecordOk(s'.streams, s'.cmds, e, s'.pending[e], s'.lastRecord[e], s'.recorded[e])
    {
      assert RecordOk(s.streams, s.cmds, e, s.pending[e], s.lastRecord[e], s.recorded[e]);
    }
  }

  /** Running an event's last record command is what sets the event. */
  lemma RunRecords(s: State, l: Label, e: EventId)
    requires InOrder(s) && RecordsOk(s) && Enabled(s, l) && l.Run? && e < |s.recorded| && s.lastRecord[e].Some?
    ensures s.lastRecord[e].value < |s.cmds|
    ensures HasRun(Apply(s, l).streams, s.cmds, s.lastRecord[e].value) && !HasRun(s.streams, s.cmds, s.lastRecord[e].value) ==>
              Apply(s, l).recorded[e]
  {
    assert RecordOk(s.streams, s.cmds, e, s.pending[e], s.lastRecord[e], s.recorded[e]);
    HeldCommand(s, l.stream);
    assert StreamOk(s.streams[l.stream], l.stream, s.cmds);
    var c := s.lastRecord[e].value;
    assert CommandsOk(s.streams, s.cmds);
  }

  lemma RunKeepsRecords(s: State, l: Label)
    requires InOrder(s) && RecordsOk(s) && Enabled(s, l) && l.Run?
    ensures RecordsOk(Apply(s, l))
  {
    var s' := Apply(s, l);
    forall e | 0 <= e < |s'.recorded|
      ensures RecordOk(s'.streams, s'.cmds, e, s'.pending[e], s'.lastRecord[e], s'.recorded[e])
    {
      assert RecordOk(s.streams, s.cmds, e, s.pending[e], s.lastRecord[e], s.recorded[e]);
      if s.lastRecord[e].Some? {
        RunRecords(s, l, e);
      }
    }
  }

  lemma StepRecords(s: State, l: Label)
    requires InOrder(s) && RecordsOk(s) && Enabled(s, l)
    ensures RecordsOk(Apply(s, l))
  {
    if l.RecordReset? || l.RecordEnqueue? {
      RecordCallKeepsRecords(s, l);
    } else if l.Run? {
      RunKeepsRecords(s, l);
    } else {
      RecordsFrame(s, Apply(s, l));
    }
  }

  // ---------------------------------------------------------------- kernels

  /** A command waits to be made ready only if it is a kernel launch, and becomes ready only with a kernel. */
  ghost predicate KernelOk(c: Command) {
    && (!c.ready ==> c.body.KernelLaunch?)
    && (c.ready && c.body.KernelLaunch? ==> c.body.kernel.Some?)
  }

  ghost predicate CommandKernelsOk(cmds: seq<Command>) {
    forall c :: 0 <= c < |cmds| ==> KernelOk(cmds[c])
  }

  /** A thread between the assignments of cuLaunchKernel has given its command a kernel. */
  ghost predicate FilledOk(threads: seq<Phase>, cmds: seq<Command>) {
    forall t :: 0 <= t < |threads| && threads[t].Filled? ==>
      && threads[t].cmd < |cmds|
      && cmds[threads[t].cmd].body.KernelLaunch? && cmds[threads[t].cmd].body.kernel.Some?
  }

  ghost predicate LogOk(log: seq<Entry>) {
    forall k :: 0 <= k < |log| && log[k].body.KernelLaunch? ==> log[k].body.kernel.Some?
  }

  ghost predicate KernelsOk(s: State) {
    && CommandKernelsOk(s.cmds) && FilledOk(s.threads, s.cmds)
    && forall q :: 0 <= q < |s.streams| ==> LogOk(s.streams[q].log)
  }

  lemma StepCommandKernels(s: State, l: Label)
    requires KernelsOk(s) && Enabled(s, l)
    ensures CommandKernelsOk(Apply(s, l).cmds) && FilledOk(Apply(s, l).threads, Apply(s, l).cmds)
  {
    assert forall c :: 0 <= c < |s.cmds| ==> KernelOk(s.cmds[c]);
  }

  /** Only what is ready gets into a log. */
  lemma StepLogs(s: State, l: Label, q: StreamId)
    requires InOrder(s) && KernelsOk(s) && Enabled(s, l) && q < |s.streams|
    ensures q < |Apply(s, l).streams| && LogOk(Apply(s, l).streams[q].log)
  {
    assert LogOk(s.streams[q].log);
    if l.Run? {
      HeldCommand(s, l.stream);
      assert KernelOk(s.cmds[s.streams[l.stream].worker.cmd]);
    } else {
      assert Apply(s, l).streams[q].log == s.streams[q].log;
    }
  }

  lemma StepKernels(s: State, l: Label)
    requires InOrder(s) && KernelsOk(s) && Enabled(s, l)
    ensures KernelsOk(Apply(s, l))
  {
    StepCommandKernels(s, l);
    forall q | 0 <= q < |Apply(s, l).streams|
      ensures LogOk(Apply(s, l).streams[q].log)
    {
      StepLogs(s, l, q);
    }
  }

  // ---------------------------------------------------------------- every step, every run

  ghost predicate Inv(s: State) {
    InOrder(s) && RecordsOk(s) && KernelsOk(s)
  }

  lemma InitInv(s: State)
    requires Init(s)
    ensures Inv(s)
  {
  }

  lemma StepInv(s: State, l: Label)
    requires Inv(s) && Enabled(s, l)
    ensures Inv(Apply(s, l))
  {
    StepInOrder(s, l);
    StepRecords(s, l);
    StepKernels(s, l);
  }

  lemma {:induction false} RunInv(s: State, run: seq<Label>, s': State)
    requires Inv(s) && Reaches(s, run, s')
    ensures Inv(s')
    decreases |run|
  {
    if run != [] {
      StepInv(s, run[0]);
      RunInv(Apply(s, run[0]), run[1..], s');
    }
  }

  // ---------------------------------------------------------------- results

  /**
    cuStreamSynchronize returns once it has seen an empty list. In every run, an event whose last
    cuEventRecord went to this stream, with no other call on it under way, is then recorded.
   */
  lemma RecordedAfterSynchronize(s0: State, run: seq<Label>, s: State, q: StreamId, e: EventId)
    requires Init(s0) && Reaches(s0, run, s) && q < |s.streams| && s.streams[q].list == []
    requires e < |s.recorded| && e < |s.pending| && e < |s.lastRecord| && s.pending[e] == 0
    requires s.lastRecord[e].Some? && s.lastRecord[e].value < |s.cmds| && s.cmds[s.lastRecord[e].value].stream == q
    ensures s.recorded[e]
  {
    InitInv(s0);
    RunInv(s0, run, s);
    assert StreamOk(s.streams[q], q, s.cmds);
    assert RecordOk(s.streams, s.cmds, e, s.pending[e], s.lastRecord[e], s.recorded[e]);
  }

  /** In every run, a kernel launch that has run was given a kernel by cuLaunchKernel, and was ready. */
  lemma OnlyLaunchedKernelsRun(s0: State, run: seq<Label>, s: State, q: StreamId, k: nat)
    requires Init(s0) && Reaches(s0, run, s) && q < |s.streams| && k < |s.streams[q].log|
    ensures s.streams[q].log[k].body.KernelLaunch? ==> s.streams[q].log[k].body.kernel.Some?
    ensures s.streams[q].log[k].cmd < |s.cmds| && s.cmds[s.streams[q].log[k].cmd].ready
  {
    InitInv(s0);
    RunInv(s0, run, s);
    assert LogOk(s.streams[q].log);
    assert StreamOk(s.streams[q], q, s.cmds) && EntryOk(s.streams[q], q, s.cmds, k);
  }
}
