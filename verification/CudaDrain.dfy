/**
  Commands that are ready get run: how many steps a worker needs, whatever happens in between.
 */
module CudaDrain {
  import opened Basics
  import opened CudaModel
  import opened CudaOrder

  /** The step is one of the worker of stream q. */
  predicate WorkerOf(l: Label, q: StreamId) {
    (l.Peek? || l.Test? || l.Run? || l.Mark? || l.Dequeue? || l.FreeCommand?) && l.stream == q
  }

  function WorkerSteps(run: seq<Label>, q: StreamId): nat {
    if run == [] then 0 else (if WorkerOf(run[0], q) then 1 else 0) + WorkerSteps(run[1..], q)
  }

  /** The next step of a worker, if there is something to do. */
  function Next(w: Worker, q: StreamId): (l: Label)
    ensures WorkerOf(l, q)
  {
    match w
    case Poll => Peek(q)
    case Peeked(_) => Test(q)
    case Running(_) => Run(q)
    case Ran(_) => Mark(q)
    case Marked(_) => Dequeue(q)
    case Dequeued(_) => FreeCommand(q)
  }

  function Stage(w: Worker): nat {
    match w
    case Dequeued(_) => 6
    case Poll => 5
    case Peeked(_) => 4
    case Running(_) => 3
    case Ran(_) => 2
    case Marked(_) => 1
  }

  /** The steps the worker still needs until it has run and dequeued the first n commands of its stream. */
  function StepsTo(st: Stream, n: nat): nat {
    if st.taken >= n then 0 else 6 * (n - st.taken - 1) + Stage(st.worker)
  }

  /** The first n commands of the stream may run. */
  ghost predicate ReadyTo(s: State, q: StreamId, n: nat) {
    && q < |s.streams| && n <= |s.streams[q].history|
    && forall k :: 0 <= k < n ==> s.streams[q].history[k] < |s.cmds| && s.cmds[s.streams[q].history[k]].ready
  }

  /** A worker with ready commands before it is never held up, and each of its steps counts. */
  lemma WorkerAdvances(s: State, q: StreamId, n: nat)
    requires InOrder(s) && ReadyTo(s, q, n) && s.streams[q].taken < n
    ensures Enabled(s, Next(s.streams[q].worker, q))
    ensures StepsTo(Apply(s, Next(s.streams[q].worker, q)).streams[q], n) == StepsTo(s.streams[q], n) - 1
  {
    var st := s.streams[q];
    assert StreamOk(st, q, s.cmds) && EntryOk(st, q, s.cmds, st.taken);
  }

  /** A worker has one step at a time. */
  lemma OnlyNext(s: State, l: Label, q: StreamId)
    requires InOrder(s) && Enabled(s, l) && WorkerOf(l, q)
    ensures q < |s.streams| && l == Next(s.streams[q].worker, q)
  {
  }

  /** Nobody else moves the worker, or makes a command wait again. */
  lemma OthersLeaveWorker(s: State, l: Label, q: StreamId)
    requires Enabled(s, l) && q < |s.streams| && !WorkerOf(l, q)
    ensures q < |Apply(s, l).streams|
    ensures var st, st' := s.streams[q], Apply(s, l).streams[q];
            st'.worker == st.worker && st'.taken == st.taken && st'.log == st.log
  {
  }

  lemma StepKeepsReady(s: State, l: Label, q: StreamId, n: nat)
    requires ReadyTo(s, q, n) && Enabled(s, l)
    ensures ReadyTo(Apply(s, l), q, n)
  {
    var st, st' := s.streams[q], Apply(s, l).streams[q];
    assert st.history <= st'.history;
    forall k | 0 <= k < n
      ensures st'.history[k] < |Apply(s, l).cmds| && Apply(s, l).cmds[st'.history[k]].ready
    {
      assert st'.history[k] == st.history[k];
    }
  }

  /**
    In every run, once the first n commands of a stream are ready, each step of its worker brings it one
    nearer to having run them all, and no other step throws it back.
   */
  lemma {:induction false} ReadyCommandsRun(s: State, run: seq<Label>, s': State, q: StreamId, n: nat)
    requires InOrder(s) && ReadyTo(s, q, n) && Reaches(s, run, s')
    ensures q < |s'.streams|
    ensures StepsTo(s'.streams[q], n) ==
            var left := StepsTo(s.streams[q], n) - WorkerSteps(run, q); if left > 0 then left else 0
    ensures WorkerSteps(run, q) >= StepsTo(s.streams[q], n) ==> s'.streams[q].taken >= n
    decreases |run|
  {
    if run != [] {
      var s1 := Apply(s, run[0]);
      StepInOrder(s, run[0]);
      StepKeepsReady(s, run[0], q, n);
      if !WorkerOf(run[0], q) {
        OthersLeaveWorker(s, run[0], q);
      } else {
        OnlyNext(s, run[0], q);
        if s.streams[q].taken < n {
          WorkerAdvances(s, q, n);
        } else {
          TakenGrows(s, run[0], q);
        }
      }
      ReadyCommandsRun(s1, run[1..], s', q, n);
    }
  }

  lemma TakenGrows(s: State, l: Label, q: StreamId)
    requires Enabled(s, l) && q < |s.streams|
    ensures q < |Apply(s, l).streams| && s.streams[q].taken <= Apply(s, l).streams[q].taken
  {
  }

  /** Everything but the progress of the worker of stream q. */
  ghost predicate Undisturbed(s: State, s': State, q: StreamId) {
    && s'.threads == s.threads && s'.memory == s.memory
    && |s'.streams| == |s.streams| && |s'.cmds| == |s.cmds|
    && (forall p :: 0 <= p < |s.streams| && p != q ==> s'.streams[p] == s.streams[p])
    && (forall p :: 0 <= p < |s.streams| ==>
          && s'.streams[p].user_thread == s.streams[p].user_thread && s'.streams[p].configuring == s.streams[p].configuring
          && s'.streams[p].history == s.streams[p].history)
    && (forall c :: 0 <= c < |s.cmds| ==> s'.cmds[c] == s.cmds[c].(completed := s'.cmds[c].completed))
  }

  lemma WorkerLeavesRest(s: State, l: Label, q: StreamId)
    requires Enabled(s, l) && WorkerOf(l, q)
    ensures Undisturbed(s, Apply(s, l), q)
  {
  }

  /** Left alone, the worker runs and dequeues exactly the first n commands, in the computed number of steps. */
  lemma {:induction false} Drain(s: State, q: StreamId, n: nat) returns (run: seq<Label>, s': State)
    requires InOrder(s) && ReadyTo(s, q, n) && s.streams[q].taken <= n
    ensures Reaches(s, run, s') && InOrder(s') && |run| == StepsTo(s.streams[q], n)
    ensures forall i :: 0 <= i < |run| ==> WorkerOf(run[i], q)
    ensures q < |s'.streams| && s'.streams[q].taken == n && Undisturbed(s, s', q)
    decreases StepsTo(s.streams[q], n)
  {
    run, s' := [], s;
    if s.streams[q].taken < n {
      var l := Next(s.streams[q].worker, q);
      WorkerAdvances(s, q, n);
      StepInOrder(s, l);
      StepKeepsReady(s, l, q, n);
      WorkerLeavesRest(s, l, q);
      var rest;
      rest, s' := Drain(Apply(s, l), q, n);
      run := [l] + rest;
    }
  }

  /** A stream all of whose commands are ready becomes empty, and everything in it has run. */
  lemma StreamDrains(s: State, q: StreamId) returns (run: seq<Label>, s': State)
    requires InOrder(s) && q < |s.streams| && ReadyTo(s, q, |s.streams[q].history|)
    ensures Reaches(s, run, s') && |run| == StepsTo(s.streams[q], |s.streams[q].history|)
    ensures q < |s'.streams| && s'.streams[q].list == [] && s'.streams[q].history == s.streams[q].history
    ensures |s'.streams[q].log| == |s.streams[q].history|
    ensures forall k :: 0 <= k < |s'.streams[q].log| ==> s'.streams[q].log[k].cmd == s.streams[q].history[k]
  {
    assert StreamOk(s.streams[q], q, s.cmds);
    run, s' := Drain(s, q, |s.streams[q].history|);
    assert StreamOk(s'.streams[q], q, s'.cmds);
    forall k | 0 <= k < |s'.streams[q].log|
      ensures s'.streams[q].log[k].cmd == s.streams[q].history[k]
    {
      assert EntryOk(s'.streams[q], q, s'.cmds, k);
    }
  }
}
