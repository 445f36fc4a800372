/**
  The launch calls of CUDA threads: which stream and which commands the calls of one thread can reach.
 */
module CudaCalls {
  import opened Basics
  import opened CudaModel
  import opened CudaOrder
  import opened CudaStream

  // ---------------------------------------------------------------- runs

  /** The step is part of a runtime call of thread t. */
  predicate By(l: Label, t: ThreadId) {
    match l
    case Configure(u, _, _) => u == t
    case SetupArgument(u, _) => u == t
    case LaunchRead(u) => u == t
    case LaunchFill(u, _) => u == t
    case LaunchReady(u) => u == t
    case LaunchClose(u) => u == t
    case _ => false
  }

  /** The steps of thread t in a run, in order. */
  ghost function Calls(run: seq<Label>, t: ThreadId): seq<Label> {
    if run == [] then []
    else if By(run[0], t) then [run[0]] + Calls(run[1..], t)
    else Calls(run[1..], t)
  }

  ghost function Setups(t: ThreadId, args: seq<Arg>): (r: seq<Label>)
    ensures |r| == |args|
  {
    seq(|args|, i requires 0 <= i < |args| => SetupArgument(t, args[i]))
  }

  /** Threads configure streams that they created: for others, cudaSetupArgument finds no stream. */
  ghost predicate Own(s: State, l: Label) {
    l.Configure? ==> l.stream < |s.streams| && s.streams[l.stream].user_thread == l.thread
  }

  ghost predicate OwnRun(s: State, run: seq<Label>, s': State)
    decreases |run|
  {
    if run == [] then s' == s
    else Enabled(s, run[0]) && Own(s, run[0]) && OwnRun(Apply(s, run[0]), run[1..], s')
  }

  lemma {:induction false} OwnRunsCompose(s: State, run: seq<Label>, mid: State, run': seq<Label>, s': State)
    requires OwnRun(s, run, mid) && OwnRun(mid, run', s')
    ensures OwnRun(s, run + run', s')
    decreases |run|
  {
    if run == [] {
      assert run + run' == run';
    } else {
      OwnRunsCompose(Apply(s, run[0]), run[1..], mid, run', s');
      assert (run + run')[1..] == run[1..] + run';
    }
  }

  lemma {:induction false} CallsCompose(run: seq<Label>, run': seq<Label>, t: ThreadId)
    ensures Calls(run + run', t) == Calls(run, t) + Calls(run', t)
    decreases |run|
  {
    if run == [] {
      assert run + run' == run';
    } else {
      CallsCompose(run[1..], run', t);
      assert (run + run')[1..] == run[1..] + run';
    }
  }

  // ---------------------------------------------------------------- whose command is whose

  /** A thread in the middle of a launch works on the stream it is configuring. */
  ghost predicate PhaseOk(s: State, t: ThreadId)
    requires t < |s.threads|
  {
    match s.threads[t]
    case Between => true
    case Launching(q, _) => q < |s.streams| && FindStream(s.streams, t, 0) == q
    case Filled(q, c) =>
      q < |s.streams| && FindStream(s.streams, t, 0) == q && c < |s.cmds| && s.cmds[c].stream == q
    case Closing(q) => q < |s.streams| && FindStream(s.streams, t, 0) == q
  }

  ghost predicate Good(s: State) {
    Inv(s) && forall t :: 0 <= t < |s.threads| ==> PhaseOk(s, t)
  }

  /** What a thread finds depends on its own streams only. */
  lemma SameSearch(streams: seq<Stream>, streams': seq<Stream>, t: ThreadId)
    requires |streams'| == |streams|
    requires forall q :: 0 <= q < |streams| ==> streams'[q].user_thread == streams[q].user_thread
    requires forall q :: 0 <= q < |streams| && streams[q].user_thread == t ==> streams'[q].configuring == streams[q].configuring
    ensures FindStream(streams', t, 0) == FindStream(streams, t, 0)
  {
  }

  /** Nobody changes what another thread is configuring. */
  lemma OthersLeaveSearch(s: State, l: Label, t: ThreadId)
    requires Good(s) && Enabled(s, l) && Own(s, l) && !By(l, t)
    ensures |Apply(s, l).streams| == |s.streams| && FindStream(Apply(s, l).streams, t, 0) == FindStream(s.streams, t, 0)
  {
    if l.LaunchClose? {
      assert PhaseOk(s, l.thread);
    }
    SameSearch(s.streams, Apply(s, l).streams, t);
  }

  /** The commands in a list are commands of its stream. */
  lemma ListedCommand(s: State, q: StreamId, i: nat)
    requires InOrder(s) && q < |s.streams| && i < |s.streams[q].list|
    ensures s.streams[q].list[i] < |s.cmds| && s.cmds[s.streams[q].list[i]].stream == q
    ensures s.cmds[s.streams[q].list[i]].pos == s.streams[q].taken + i
    ensures forall j :: 0 <= j < |s.streams[q].list| && s.streams[q].list[j] == s.streams[q].list[i] ==> j == i
  {
    var st := s.streams[q];
    assert StreamOk(st, q, s.cmds);
    assert EntryOk(st, q, s.cmds, st.taken + i);
    forall j | 0 <= j < |st.list| && st.list[j] == st.list[i]
      ensures j == i
    {
      assert EntryOk(st, q, s.cmds, st.taken + j);
    }
  }

  /** A call changes commands of the stream that its thread is configuring, and no others. */
  lemma CallsTouchOwn(s: State, l: Label, t: ThreadId, c: CommandId)
    requires Good(s) && Enabled(s, l) && (l.SetupArgument? || l.LaunchFill? || l.LaunchReady?) && l.thread == t
    requires c < |s.cmds| && s.cmds[c].stream != FindStream(s.streams, t, 0)
    ensures |Apply(s, l).cmds| == |s.cmds| && Apply(s, l).cmds[c] == s.cmds[c]
  {
    var q := FindStream(s.streams, t, 0);
    assert PhaseOk(s, t);
    if l.SetupArgument? {
      ListedCommand(s, q, 0);
    } else if l.LaunchFill? {
      ListedCommand(s, q, FindLaunch(s.streams[q].list, s.cmds, 0));
    }
  }

  lemma OwnPhase(s: State, l: Label, t: ThreadId)
    requires Good(s) && Enabled(s, l) && Own(s, l) && By(l, t) && t < |s.threads|
    ensures |Apply(s, l).threads| == |s.threads| && PhaseOk(Apply(s, l), t)
  {
    var q := FindStream(s.streams, t, 0);
    assert PhaseOk(s, t);
    if l.LaunchFill? {
      ListedCommand(s, q, FindLaunch(s.streams[q].list, s.cmds, 0));
    }
  }

  lemma OtherPhase(s: State, l: Label, t: ThreadId)
    requires Good(s) && Enabled(s, l) && Own(s, l) && !By(l, t) && t < |s.threads|
    ensures |Apply(s, l).threads| == |s.threads| && Apply(s, l).threads[t] == s.threads[t] && PhaseOk(Apply(s, l), t)
  {
    assert PhaseOk(s, t);
    OthersLeaveSearch(s, l, t);
  }

  lemma StepGood(s: State, l: Label)
    requires Good(s) && Enabled(s, l) && Own(s, l)
    ensures Good(Apply(s, l))
  {
    StepInv(s, l);
    forall t | 0 <= t < |Apply(s, l).threads|
      ensures PhaseOk(Apply(s, l), t)
    {
      if By(l, t) {
        OwnPhase(s, l, t);
      } else {
        OtherPhase(s, l, t);
      }
    }
  }

  lemma {:induction false} RunGood(s: State, run: seq<Label>, s': State)
    requires Good(s) && OwnRun(s, run, s')
    ensures Good(s')
    decreases |run|
  {
    if run != [] {
      StepGood(s, run[0]);
      RunGood(Apply(s, run[0]), run[1..], s');
    }
  }
}
