/**
  What holds in every run of the CUDA streams, however the launch calls are used: commands execute in
  the order in which they were enqueued and once each, and a stream seen empty has run them all.
 */
module CudaOrder {
  import opened Basics
  import opened CudaModel

  /** The stream is its history minus what was dequeued; its worker holds the head of the list. */
  ghost predicate StreamShape(st: Stream) {
    && st.taken <= |st.history| && st.list == st.history[st.taken..]
    && (st.worker.AtHead() ==> st.list != [] && st.list[0] == st.worker.cmd)
    && (st.worker.Dequeued? ==> st.taken > 0 && st.worker.cmd == st.history[st.taken - 1])
    && |st.log| == (if st.worker.Ran? || st.worker.Marked? then st.taken + 1 else st.taken)
  }

  /** The k-th command of a stream's history, as the command table and the log see it. */
  ghost predicate EntryOk(st: Stream, q: StreamId, cmds: seq<Command>, k: nat)
    requires k < |st.history|
  {
    && st.history[k] < |cmds|
    && var c := cmds[st.history[k]];
       && c.stream == q && c.pos == k
       && (c.completed <==> k < st.taken || (k == st.taken && st.worker.Marked?))
       && (k < st.taken || (k == st.taken && (st.worker.Running? || st.worker.Ran? || st.worker.Marked?)) ==> c.ready)
       && (k < |st.log| ==> st.log[k].cmd == st.history[k])
  }

  ghost predicate StreamOk(st: Stream, q: StreamId, cmds: seq<Command>) {
    StreamShape(st) && forall k :: 0 <= k < |st.history| ==> EntryOk(st, q, cmds, k)
  }

  ghost predicate StreamsOk(streams: seq<Stream>, cmds: seq<Command>) {
    forall q :: 0 <= q < |streams| ==> StreamOk(streams[q], q, cmds)
  }

  ghost predicate CommandsOk(streams: seq<Stream>, cmds: seq<Command>) {
    forall c :: 0 <= c < |cmds| ==>
      && cmds[c].stream < |streams| && cmds[c].pos < |streams[cmds[c].stream].history|
      && streams[cmds[c].stream].history[cmds[c].pos] == c
  }

  ghost predicate InOrder(s: State) {
    StreamsOk(s.streams, s.cmds) && CommandsOk(s.streams, s.cmds)
  }

  // ---------------------------------------------------------------- what every step keeps

  /** The commands of a stream keep their place, and only ever become ready. */
  lemma StreamFrame(st: Stream, q: StreamId, cmds: seq<Command>, st': Stream, cmds': seq<Command>)
    requires StreamOk(st, q, cmds) && |cmds| <= |cmds'|
    requires st' == st.(configuring := st'.configuring)
    requires forall c :: 0 <= c < |cmds| && cmds[c].stream == q ==>
               && cmds'[c].stream == q && cmds'[c].pos == cmds[c].pos
               && cmds'[c].completed == cmds[c].completed && (cmds[c].ready ==> cmds'[c].ready)
    ensures StreamOk(st', q, cmds')
  {
    forall k | 0 <= k < |st'.history|
      ensures EntryOk(st', q, cmds', k)
    {
      assert EntryOk(st, q, cmds, k);
    }
  }

  /** Steps that only fill in commands and switch configuring flags. */
  lemma FillingKeepsOrder(s: State, s': State)
    requires InOrder(s) && |s'.cmds| == |s.cmds| && |s'.streams| == |s.streams|
    requires forall q :: 0 <= q < |s.streams| ==> s'.streams[q] == s.streams[q].(configuring := s'.streams[q].configuring)
    requires forall c :: 0 <= c < |s.cmds| ==>
               && s'.cmds[c] == s.cmds[c].(body := s'.cmds[c].body, args := s'.cmds[c].args, ready := s'.cmds[c].ready)
               && (s.cmds[c].ready ==> s'.cmds[c].ready)
    ensures InOrder(s')
  {
    forall q | 0 <= q < |s.streams|
      ensures StreamOk(s'.streams[q], q, s'.cmds)
    {
      StreamFrame(s.streams[q], q, s.cmds, s'.streams[q], s'.cmds);
    }
  }

  lemma EnqueueKeepsOrder(s: State, q: StreamId, body: Body, ready: bool)
    requires InOrder(s) && q < |s.streams|
    ensures InOrder(EnqueueNew(s, q, body, ready))
  {
    var s' := EnqueueNew(s, q, body, ready);
    forall p | 0 <= p < |s.streams|
      ensures StreamOk(s'.streams[p], p, s'.cmds)
    {
      StreamFrame(s.streams[p], p, s.cmds, s.streams[p], s'.cmds);
      if p == q {
        forall k | 0 <= k < |s'.streams[q].history|
          ensures EntryOk(s'.streams[q], q, s'.cmds, k)
        {
          assert k < |s.streams[q].history| ==> EntryOk(s.streams[q], q, s.cmds, k);
        }
      }
    }
  }

  lemma ConfigureKeepsOrder(s: State, l: Label)
    requires InOrder(s) && Enabled(s, l) && l.Configure?
    ensures InOrder(Apply(s, l))
  {
    var body := KernelLaunch(l.config, None, []);
    EnqueueKeepsOrder(s, l.stream, body, false);
    FillingKeepsOrder(EnqueueNew(s, l.stream, body, false), Apply(s, l));
  }

  lemma LaunchStepKeepsOrder(s: State, l: Label)
    requires InOrder(s) && Enabled(s, l)
    requires l.SetupArgument? || l.LaunchRead? || l.LaunchFill? || l.LaunchReady? || l.LaunchClose?
    ensures InOrder(Apply(s, l))
  {
    FillingKeepsOrder(s, Apply(s, l));
  }

  /** A worker's step on its own stream and the command it holds. */
  lemma WorkerKeepsOrder(s: State, q: StreamId, st: Stream, cmds: seq<Command>)
    requires InOrder(s) && q < |s.streams| && |cmds| == |s.cmds| && StreamOk(st, q, cmds)
    requires st.history == s.streams[q].history
    requires forall c :: 0 <= c < |cmds| ==> cmds[c] == s.cmds[c].(completed := cmds[c].completed)
    requires forall c :: 0 <= c < |cmds| && s.cmds[c].stream != q ==> cmds[c] == s.cmds[c]
    ensures InOrder(s.(streams := s.streams[q := st], cmds := cmds))
  {
    forall p | 0 <= p < |s.streams| && p != q
      ensures StreamOk(s.streams[p], p, cmds)
    {
      StreamFrame(s.streams[p], p, s.cmds, s.streams[p], cmds);
    }
  }

  /** The command a worker holds is one of its own stream. */
  lemma HeldCommand(s: State, q: StreamId)
    requires InOrder(s) && q < |s.streams| && s.streams[q].worker.AtHead()
    ensures s.streams[q].worker.cmd < |s.cmds| && s.cmds[s.streams[q].worker.cmd].stream == q
    ensures s.streams[q].worker.cmd == s.streams[q].history[s.streams[q].taken]
    ensures !s.streams[q].worker.Peeked? ==> s.cmds[s.streams[q].worker.cmd].ready
  {
    assert StreamOk(s.streams[q], q, s.cmds);
    assert EntryOk(s.streams[q], q, s.cmds, s.streams[q].taken);
  }

  /** Looking for work leaves the stream in order. */
  lemma PollKeepsStream(s: State, l: Label)
    requires InOrder(s) && Enabled(s, l) && (l.Peek? || l.Test? || l.FreeCommand?)
    ensures StreamOk(Apply(s, l).streams[l.stream], l.stream, s.cmds)
  {
    var q, st, st' := l.stream, s.streams[l.stream], Apply(s, l).streams[l.stream];
    assert StreamOk(st, q, s.cmds);
    assert st.worker.AtHead() ==> EntryOk(st, q, s.cmds, st.taken);
    forall k | 0 <= k < |st'.history|
      ensures EntryOk(st', q, s.cmds, k)
    {
      assert EntryOk(st, q, s.cmds, k);
    }
  }

  /** So does running the head of the list, or taking it out. */
  lemma TakeKeepsStream(s: State, l: Label)
    requires InOrder(s) && Enabled(s, l) && (l.Run? || l.Dequeue?)
    ensures StreamOk(Apply(s, l).streams[l.stream], l.stream, s.cmds)
  {
    var q, st, st' := l.stream, s.streams[l.stream], Apply(s, l).streams[l.stream];
    assert StreamOk(st, q, s.cmds);
    assert st.worker.AtHead() ==> EntryOk(st, q, s.cmds, st.taken);
    forall k | 0 <= k < |st'.history|
      ensures EntryOk(st', q, s.cmds, k)
    {
      assert EntryOk(st, q, s.cmds, k);
    }
  }

  /** completed = 1 */
  lemma MarkKeepsStream(s: State, l: Label)
    requires InOrder(s) && Enabled(s, l) && l.Mark?
    ensures StreamOk(Apply(s, l).streams[l.stream], l.stream, Apply(s, l).cmds)
  {
    var q, st, st' := l.stream, s.streams[l.stream], Apply(s, l).streams[l.stream];
    HeldCommand(s, q);
    assert StreamOk(st, q, s.cmds) && EntryOk(st, q, s.cmds, st.taken);
    forall k | 0 <= k < |st'.history|
      ensures EntryOk(st', q, Apply(s, l).cmds, k)
    {
      assert EntryOk(st, q, s.cmds, k);
    }
  }

  lemma WorkerStepKeepsOrder(s: State, l: Label)
    requires InOrder(s) && Enabled(s, l)
    requires l.Peek? || l.Test? || l.Run? || l.Mark? || l.Dequeue? || l.FreeCommand?
    ensures InOrder(Apply(s, l))
  {
    var s', q := Apply(s, l), l.stream;
    if l.Mark? {
      HeldCommand(s, q);
      MarkKeepsStream(s, l);
    } else if l.Run? || l.Dequeue? {
      TakeKeepsStream(s, l);
    } else {
      PollKeepsStream(s, l);
    }
    WorkerKeepsOrder(s, q, s'.streams[q], s'.cmds);
  }

  lemma InitInOrder(s: State)
    requires Init(s)
    ensures InOrder(s)
  {
  }

  /** Every step of every thread keeps the streams in order. */
  lemma StepInOrder(s: State, l: Label)
    requires InOrder(s) && Enabled(s, l)
    ensures InOrder(Apply(s, l))
  {
    match l
    case Configure(_, _, _) => ConfigureKeepsOrder(s, l);
    case HostStore(_, _) =>
    case Append(q) => EnqueueKeepsOrder(s, q, Other, true);
    case RecordReset(_) =>
    case RecordEnqueue(e, q) => EnqueueKeepsOrder(s, q, EventRecord(e), true);
    case SetupArgument(_, _) => LaunchStepKeepsOrder(s, l);
    case LaunchRead(_) => LaunchStepKeepsOrder(s, l);
    case LaunchFill(_, _) => LaunchStepKeepsOrder(s, l);
    case LaunchReady(_) => LaunchStepKeepsOrder(s, l);
    case LaunchClose(_) => LaunchStepKeepsOrder(s, l);
    case _ => WorkerStepKeepsOrder(s, l);
  }

  lemma {:induction false} RunInOrder(s: State, run: seq<Label>, s': State)
    requires InOrder(s) && Reaches(s, run, s')
    ensures InOrder(s')
    decreases |run|
  {
    if run != [] {
      StepInOrder(s, run[0]);
      RunInOrder(Apply(s, run[0]), run[1..], s');
    }
  }

  /** A command stays at its place in its stream. */
  lemma {:induction false} PlaceStays(s: State, run: seq<Label>, s': State, c: CommandId)
    requires Reaches(s, run, s') && c < |s.cmds|
    ensures c < |s'.cmds| && s'.cmds[c].pos == s.cmds[c].pos && s'.cmds[c].stream == s.cmds[c].stream
    decreases |run|
  {
    if run != [] {
      PlaceStays(Apply(s, run[0]), run[1..], s', c);
    }
  }

  // ---------------------------------------------------------------- results

  /**
    In every run, and for every stream: the commands that ran are the first ones enqueued, in order and
    once each; what the worker dequeues, and then frees, is the command that it ran.
   */
  lemma StreamFifo(s0: State, run: seq<Label>, s: State, q: StreamId)
    requires Init(s0) && Reaches(s0, run, s) && q < |s.streams|
    ensures |s.streams[q].log| <= |s.streams[q].history|
    ensures forall k :: 0 <= k < |s.streams[q].log| ==> s.streams[q].log[k].cmd == s.streams[q].history[k]
    ensures forall j, k :: 0 <= j < k < |s.streams[q].log| ==> s.streams[q].log[j].cmd != s.streams[q].log[k].cmd
    ensures s.streams[q].worker.Marked? ==> s.streams[q].list != [] && s.streams[q].list[0] == s.streams[q].worker.cmd
    ensures s.streams[q].worker.Dequeued? ==> s.streams[q].worker.cmd !in s.streams[q].list
  {
    InitInOrder(s0);
    RunInOrder(s0, run, s);
    var st := s.streams[q];
    assert StreamOk(st, q, s.cmds);
    forall k | 0 <= k < |st.log|
      ensures st.log[k].cmd == st.history[k]
    {
      assert EntryOk(st, q, s.cmds, k);
    }
    forall j, k | 0 <= j < k < |st.log|
      ensures st.log[j].cmd != st.log[k].cmd
    {
      assert EntryOk(st, q, s.cmds, j) && EntryOk(st, q, s.cmds, k);
    }
    if st.worker.Dequeued? {
      forall i | 0 <= i < |st.list|
        ensures st.list[i] != st.worker.cmd
      {
        assert EntryOk(st, q, s.cmds, st.taken - 1) && EntryOk(st, q, s.cmds, st.taken + i);
      }
    }
  }

  /** A command has run. */
  ghost predicate HasRun(streams: seq<Stream>, cmds: seq<Command>, c: CommandId) {
    c < |cmds| && cmds[c].stream < |streams| && cmds[c].pos < |streams[cmds[c].stream].log|
  }

  /**
    cuStreamSynchronize returns once it has seen an empty list. Then everything that was ever enqueued on
    the stream has run, in order, and is marked complete.
   */
  lemma Synchronized(s0: State, run: seq<Label>, s: State, q: StreamId)
    requires Init(s0) && Reaches(s0, run, s) && q < |s.streams| && s.streams[q].list == []
    ensures |s.streams[q].log| == |s.streams[q].history|
    ensures forall c :: 0 <= c < |s.cmds| && s.cmds[c].stream == q ==> s.cmds[c].completed && HasRun(s.streams, s.cmds, c)
  {
    InitInOrder(s0);
    RunInOrder(s0, run, s);
    var st := s.streams[q];
    assert StreamOk(st, q, s.cmds);
    forall c | 0 <= c < |s.cmds| && s.cmds[c].stream == q
      ensures s.cmds[c].completed && HasRun(s.streams, s.cmds, c)
    {
      assert EntryOk(st, q, s.cmds, s.cmds[c].pos);
    }
  }
}
