/**
  How the OpenCL command queues drain: a measure that bounds the steps of the workers, what a flush covers,
  and shutdown.
 */
module OpenCLDrain {
  import opened Basics
  import opened OpenCLModel
  import opened OpenCLSafety
  import opened OpenCLProgress
  import opened OpenCLOrder
  import opened OpenCLDeadlock

  // ---------------------------------------------------------------- the measure

  function CommandWork(c: Command): nat {
    4 + 4 * |c.waits|
  }

  function ListWork(list: seq<CommandId>, cmds: seq<Command>): nat {
    if list == [] then 0
    else (if list[0] < |cmds| then CommandWork(cmds[list[0]]) else 0) + ListWork(list[1..], cmds)
  }

  function WorkerWork(w: Worker, cmds: seq<Command>): nat {
    match w
    case Ready => 1
    case Blocked(signalled) => if signalled then 2 else 0
    case Waiting(c, i, flushed) =>
      if c < |cmds| && i < |cmds[c].waits| then CommandWork(cmds[c]) - 4 * i - (if flushed then 3 else 0) else 4
    case Running(_) => 3
    case Freeing(_) => 2
    case Returned => 0
  }

  function QueueWork(q: Queue, cmds: seq<Command>): nat {
    WorkerWork(q.worker, cmds) + ListWork(q.list, cmds)
  }

  /** A bound on the steps that the workers can still take without the application. */
  function Work(queues: seq<Queue>, cmds: seq<Command>): nat {
    if queues == [] then 0 else Work(queues[..|queues| - 1], cmds) + QueueWork(queues[|queues| - 1], cmds)
  }

  lemma {:induction false} WorkAfterUpdate(queues: seq<Queue>, cmds: seq<Command>, q: QueueId, queue: Queue)
    requires q < |queues|
    ensures Work(queues[q := queue], cmds) == Work(queues, cmds) - QueueWork(queues[q], cmds) + QueueWork(queue, cmds)
  {
    var n := |queues| - 1;
    if q == n {
      assert queues[q := queue][..n] == queues[..n];
    } else {
      assert queues[q := queue][..n] == queues[..n][q := queue];
      WorkAfterUpdate(queues[..n], cmds, q, queue);
    }
  }

  /** The work depends on wait lists only, which are fixed. */
  lemma {:induction false} WorkFrame(queues: seq<Queue>, cmds: seq<Command>, cmds': seq<Command>)
    requires |cmds| == |cmds'| && forall c :: 0 <= c < |cmds| ==> cmds'[c].waits == cmds[c].waits
    ensures Work(queues, cmds') == Work(queues, cmds)
  {
    if queues != [] {
      WorkFrame(queues[..|queues| - 1], cmds, cmds');
      ListWorkFrame(queues[|queues| - 1].list, cmds, cmds');
    }
  }

  lemma {:induction false} ListWorkFrame(list: seq<CommandId>, cmds: seq<Command>, cmds': seq<Command>)
    requires |cmds| == |cmds'| && forall c :: 0 <= c < |cmds| ==> cmds'[c].waits == cmds[c].waits
    ensures ListWork(list, cmds') == ListWork(list, cmds)
  {
    if list != [] {
      ListWorkFrame(list[1..], cmds, cmds');
    }
  }

  lemma FlushWork(q: Queue, cmds: seq<Command>)
    ensures QueueWork(FlushQueue(q), cmds) <= QueueWork(q, cmds) + 2
  {
  }

  /** A flush for a wait costs its own queue more than it can add to the queue it flushes. */
  lemma FlushStepWork(s: State, l: Label)
    requires WorkerStep(s, l) && l.FlushForWait?
    ensures Work(Apply(s, l).queues, s.cmds) < Work(s.queues, s.cmds)
  {
    var q, w := l.queue, s.queues[l.queue].worker;
    var moved := s.queues[q := s.queues[q].(worker := Waiting(w.cmd, w.i, true))];
    assert QueueWork(moved[q], s.cmds) == QueueWork(s.queues[q], s.cmds) - 3;
    WorkAfterUpdate(s.queues, s.cmds, q, moved[q]);
    var target := s.events[s.cmds[w.cmd].waits[w.i]].queue;
    if target.Some? && target.value < |moved| {
      WorkAfterUpdate(moved, s.cmds, target.value, FlushQueue(moved[target.value]));
      FlushWork(moved[target.value], s.cmds);
    }
  }

  lemma IdleStepWork(s: State, l: Label)
    requires WorkerStep(s, l) && (l.Take? || l.Block? || l.Wake?)
    ensures l.queue < |Apply(s, l).queues| && Apply(s, l).queues == s.queues[l.queue := Apply(s, l).queues[l.queue]]
    ensures QueueWork(Apply(s, l).queues[l.queue], s.cmds) < QueueWork(s.queues[l.queue], s.cmds)
  {
    if l.Take? {
      assert Apply(s, l).queues[l.queue].list == s.queues[l.queue].list[1..];
    }
  }

  lemma BusyStepWork(s: State, l: Label)
    requires WorkerStep(s, l) && (l.PassWait? || l.Start? || l.Finish? || l.Free?)
    ensures l.queue < |Apply(s, l).queues| && Apply(s, l).queues == s.queues[l.queue := Apply(s, l).queues[l.queue]]
    ensures QueueWork(Apply(s, l).queues[l.queue], s.cmds) < QueueWork(s.queues[l.queue], s.cmds)
  {
    assert Apply(s, l).queues[l.queue].list == s.queues[l.queue].list;
  }

  /** The other steps of a worker use up work of its own queue. */
  lemma OwnStepWork(s: State, l: Label)
    requires Inv(s) && WorkerStep(s, l) && !l.FlushForWait?
    ensures l.queue < |Apply(s, l).queues| && Apply(s, l).queues == s.queues[l.queue := Apply(s, l).queues[l.queue]]
    ensures QueueWork(Apply(s, l).queues[l.queue], s.cmds) < QueueWork(s.queues[l.queue], s.cmds)
  {
    NeverSkipsWaits(s, l.queue);
    if l.Take? || l.Block? || l.Wake? {
      IdleStepWork(s, l);
    } else {
      BusyStepWork(s, l);
    }
  }

  lemma SameWaitsSameWork(s: State, l: Label)
    requires WorkerStep(s, l)
    ensures Work(Apply(s, l).queues, Apply(s, l).cmds) == Work(Apply(s, l).queues, s.cmds)
  {
    FixedAtCreation(s, l);
    WorkFrame(Apply(s, l).queues, s.cmds, Apply(s, l).cmds);
  }

  /** Every step of a worker uses up work, even one that wakes up another worker. */
  lemma StepWork(s: State, l: Label)
    requires Inv(s) && WorkerStep(s, l)
    ensures Work(Apply(s, l).queues, Apply(s, l).cmds) < Work(s.queues, s.cmds)
  {
    if l.FlushForWait? {
      FlushStepWork(s, l);
    } else {
      OwnStepWork(s, l);
      WorkAfterUpdate(s.queues, s.cmds, l.queue, Apply(s, l).queues[l.queue]);
    }
    SameWaitsSameWork(s, l);
  }

  ghost predicate WorkerRun(s: State, run: seq<Label>, s': State)
    decreases |run|
  {
    if run == [] then s' == s
    else WorkerStep(s, run[0]) && WorkerRun(Apply(s, run[0]), run[1..], s')
  }

  /** Left alone, the workers stop after a number of steps that is known from the start. */
  lemma {:induction false} DrainIsBounded(s: State, run: seq<Label>, s': State)
    requires Inv(s) && WorkerRun(s, run, s')
    ensures |run| + Work(s'.queues, s'.cmds) <= Work(s.queues, s.cmds)
    decreases |run|
  {
    if run != [] {
      StepInv(s, run[0]);
      StepWork(s, run[0]);
      DrainIsBounded(Apply(s, run[0]), run[1..], s');
    }
  }

  // ---------------------------------------------------------------- flush and shutdown

  /** The first n commands of the queue will be taken without another flush. */
  ghost predicate Flushed(s: State, q: QueueId, n: nat) {
    q < |s.queues| && n <= |s.queues[q].history| && (s.queues[q].process || s.queues[q].taken >= n)
  }

  /** A flush covers everything enqueued so far, whether or not the queue was already being processed. */
  lemma FlushCovers(s: State, q: QueueId)
    requires Inv(s) && q < |s.queues|
    ensures Flushed(Apply(s, Flush(q)), q, |s.queues[q].history|)
  {
    assert QueueOk(s.queues[q], q, s.cmds);
  }

  /** A queue's history only grows, and only by Enqueue; the commands taken from it stay taken. */
  lemma HistoryGrows(s: State, l: Label, q: QueueId)
    requires Enabled(s, l) && q < |s.queues|
    ensures q < |Apply(s, l).queues|
    ensures s.queues[q].history <= Apply(s, l).queues[q].history && s.queues[q].taken <= Apply(s, l).queues[q].taken
    ensures (l.Enqueue? && s.cmds[l.cmd].queue == q) || Apply(s, l).queues[q].history == s.queues[q].history
  {
  }

  lemma KindIsFixed(s: State, l: Label, c: CommandId)
    requires Enabled(s, l) && c < |s.cmds|
    ensures c < |Apply(s, l).cmds| && Apply(s, l).cmds[c].kind == s.cmds[c].kind
  {
  }

  lemma StepKeepsFlushed(s: State, l: Label, q: QueueId, n: nat)
    requires Inv(s) && Enabled(s, l) && Flushed(s, q, n)
    ensures Flushed(Apply(s, l), q, n) && s.queues[q].history <= Apply(s, l).queues[q].history
  {
    HistoryGrows(s, l, q);
    if s.queues[q].process {
      ProcessUntilEmpty(s, l, q);
      StepInv(s, l);
      assert QueueOk(Apply(s, l).queues[q], q, Apply(s, l).cmds);
    }
  }

  lemma {:induction false} RunKeepsFlushed(s: State, run: seq<Label>, s': State, q: QueueId, n: nat)
    requires Inv(s) && Flushed(s, q, n) && PoliteRun(s, run, s')
    ensures Flushed(s', q, n) && s.queues[q].history <= s'.queues[q].history
    decreases |run|
  {
    if run != [] {
      StepInv(s, run[0]);
      StepKeepsFlushed(s, run[0], q, n);
      RunKeepsFlushed(Apply(s, run[0]), run[1..], s', q, n);
    }
  }

  /** The first n commands of queue q, everything they need, and no open user event in front of them. */
  ghost predicate Unblocked(s: State, q: QueueId, n: nat, S: set<CommandId>) {
    && q < |s.queues| && n <= |s.queues[q].history| && (forall k :: 0 <= k < n ==> s.queues[q].history[k] in S)
    && Closed(s, S) && UserEventsComplete(s, S)
  }

  /** In a state where the workers are stuck, every flushed command that no user event blocks has run and been freed. */
  lemma FlushedAreDone(s: State, q: QueueId, n: nat, S: set<CommandId>)
    requires Inv(s) && Ordered(s) && Stuck(s) && Flushed(s, q, n) && Unblocked(s, q, n, S)
    ensures s.queues[q].taken >= n && (s.queues[q].taken == n ==> !s.queues[q].worker.Busy())
    ensures n <= |s.queues[q].freed| && s.queues[q].history[..n] == s.queues[q].freed[..n]
    ensures forall k :: 0 <= k < n && s.queues[q].history[k] < |s.cmds| && s.cmds[s.queues[q].history[k]].kind.WORK? ==>
              k < |s.queues[q].ran| && s.queues[q].ran[k] == s.queues[q].history[k]
  {
    FlushedAreTaken(s, q, n, S);
    TakenAreDone(s.queues[q], q, s.cmds, n);
  }

  lemma FlushedAreTaken(s: State, q: QueueId, n: nat, S: set<CommandId>)
    requires Inv(s) && Ordered(s) && Stuck(s) && Flushed(s, q, n) && Unblocked(s, q, n, S)
    ensures s.queues[q].taken >= n && (s.queues[q].taken == n ==> !s.queues[q].worker.Busy())
  {
    var queue := s.queues[q];
    assert QueueOk(queue, q, s.cmds);
    if queue.taken < n {
      assert EntryOk(queue, q, s.cmds, queue.taken);
      NoneActive(s, S, queue.history[queue.taken]);
    } else if queue.taken == n && queue.worker.Busy() {
      WorkersCommand(s, q);
      NoneActive(s, S, queue.worker.cmd);
    }
  }

  /** Commands that were taken, and are not in the worker's hands, have been freed, and have run if they are not END. */
  lemma TakenAreDone(queue: Queue, q: QueueId, cmds: seq<Command>, n: nat)
    requires QueueOk(queue, q, cmds) && queue.taken >= n && (queue.taken == n ==> !queue.worker.Busy())
    ensures n <= |queue.freed| && queue.history[..n] == queue.freed[..n]
    ensures forall k :: 0 <= k < n && queue.history[k] < |cmds| && cmds[queue.history[k]].kind.WORK? ==>
              k < |queue.ran| && queue.ran[k] == queue.history[k]
  {
    forall k | 0 <= k < n && queue.history[k] < |cmds| && cmds[queue.history[k]].kind.WORK?
      ensures k < |queue.ran| && queue.ran[k] == queue.history[k]
    {
      assert EntryOk(queue, q, cmds, k);
    }
  }

  lemma NoneActive(s: State, S: set<CommandId>, c: CommandId)
    requires Inv(s) && Ordered(s) && Stuck(s) && Closed(s, S) && UserEventsComplete(s, S) && c in S
    ensures !Active(s, c)
  {
    if Active(s, c) {
      var l, p := Progress(s, c, S);
      NotAwaitingUser(s, p, S);
    }
  }

  /**
    opencl_command_queue_free: once END has been enqueued and flushed, and nothing is enqueued after it,
    then whatever the other threads do, the workers only stop when this worker has returned with an
    empty list, having run everything before END and freed everything, in the order of enqueueing; unless
    a command of this queue, or one that it needs, is left waiting for a user event.
   */
  lemma Shutdown(s: State, run: seq<Label>, s': State, q: QueueId, S: set<CommandId>)
    requires Inv(s) && Ordered(s) && q < |s.queues|
    requires var h := s.queues[q].history; h != [] && h[|h| - 1] < |s.cmds| && s.cmds[h[|h| - 1]].kind.END?
    requires Flushed(s, q, |s.queues[q].history|)
    requires PoliteRun(s, run, s') && Stuck(s') && Unblocked(s', q, |s.queues[q].history|, S)
    ensures q < |s'.queues| && s'.queues[q].worker.Returned? && s'.queues[q].list == []
    ensures var h := s.queues[q].history;
            s'.queues[q].history == h && s'.queues[q].freed == h && s'.queues[q].ran == h[..|h| - 1]
  {
    var h := s.queues[q].history;
    PoliteRunKeeps(s, run, s');
    RunKeepsFlushed(s, run, s', q, |h|);
    HistoryEndsWithEnd(s, run, s', q);
    FlushedAreDone(s', q, |h|, S);
    var queue := s'.queues[q];
    assert QueueOk(queue, q, s'.cmds);
    assert EntryOk(queue, q, s'.cmds, |h| - 1);
  }

  /**
    The exact condition for the assertion after pthread_join: in every run, when a worker has returned its
    list is empty if and only if no command but the last one enqueued on the queue is END.
   */
  lemma EmptyAfterEndExactly(s0: State, run: seq<Label>, s: State, q: QueueId)
    requires Init(s0) && Reaches(s0, run, s) && q < |s.queues| && s.queues[q].worker.Returned?
    ensures s.queues[q].list == [] <==>
              forall k :: 0 <= k < |s.queues[q].history| - 1 ==>
                s.queues[q].history[k] < |s.cmds| && s.cmds[s.queues[q].history[k]].kind.WORK?
  {
    InitInv(s0);
    RunInv(s0, run, s);
    var queue := s.queues[q];
    assert QueueOk(queue, q, s.cmds);
    assert EntryOk(queue, q, s.cmds, queue.taken - 1);
    if queue.list == [] {
      forall k | 0 <= k < |queue.history| - 1
        ensures queue.history[k] < |s.cmds| && s.cmds[queue.history[k]].kind.WORK?
      {
        assert EntryOk(queue, q, s.cmds, k);
      }
    }
  }

  lemma StepAfterEnd(s: State, l: Label, q: QueueId)
    requires Inv(s) && Enabled(s, l) && Polite(s, l) && q < |s.queues|
    requires var h := s.queues[q].history; h != [] && h[|h| - 1] < |s.cmds| && s.cmds[h[|h| - 1]].kind.END?
    ensures q < |Apply(s, l).queues| && Apply(s, l).queues[q].history == s.queues[q].history
    ensures var d := s.queues[q].history[|s.queues[q].history| - 1];
            d < |Apply(s, l).cmds| && Apply(s, l).cmds[d].kind.END?
  {
    HistoryGrows(s, l, q);
    var d := s.queues[q].history[|s.queues[q].history| - 1];
    KindIsFixed(s, l, d);
    assert QueueOk(s.queues[q], q, s.cmds);
    assert EntryOk(s.queues[q], q, s.cmds, |s.queues[q].history| - 1);
    assert Enqueued(s, d) && s.cmds[d].queue == q;
  }

  lemma {:induction false} HistoryEndsWithEnd(s: State, run: seq<Label>, s': State, q: QueueId)
    requires Inv(s) && PoliteRun(s, run, s') && q < |s.queues|
    requires var h := s.queues[q].history; h != [] && h[|h| - 1] < |s.cmds| && s.cmds[h[|h| - 1]].kind.END?
    ensures q < |s'.queues| && s'.queues[q].history == s.queues[q].history
    ensures var d := s.queues[q].history[|s.queues[q].history| - 1]; d < |s'.cmds| && s'.cmds[d].kind.END?
    decreases |run|
  {
    if run != [] {
      StepInv(s, run[0]);
      StepAfterEnd(s, run[0], q);
      HistoryEndsWithEnd(Apply(s, run[0]), run[1..], s', q);
    }
  }

  // ---------------------------------------------------------------- from the start

  lemma {:induction false} WorkerRunIsPolite(s: State, run: seq<Label>, s': State)
    requires WorkerRun(s, run, s')
    ensures PoliteRun(s, run, s')
    decreases |run|
  {
    if run != [] {
      WorkerRunIsPolite(Apply(s, run[0]), run[1..], s');
    }
  }

  /** The workers can always be run until none of them can go on. */
  lemma {:induction false} DrainEnds(s: State) returns (run: seq<Label>, s': State)
    requires Inv(s)
    ensures WorkerRun(s, run, s') && Stuck(s')
    decreases Work(s.queues, s.cmds)
  {
    run, s' := [], s;
    if !Stuck(s) {
      var l :| WorkerStep(s, l) && !l.Block?;
      StepInv(s, l);
      StepWork(s, l);
      var rest;
      rest, s' := DrainEnds(Apply(s, l));
      run := [l] + rest;
    }
  }

  /**
    No reachable state is a deadlock: while a command is active, some worker can take a step, or the worker
    of that command or of one that it needs waits for a user event that the application has not completed.
   */
  lemma NeverDeadlocked(s0: State, run: seq<Label>, s: State, c: CommandId, S: set<CommandId>) returns (l: Label, p: QueueId)
    requires Init(s0) && PoliteRun(s0, run, s) && Closed(s, S) && c in S && Active(s, c)
    ensures (WorkerStep(s, l) && !l.Block?) || (AwaitsUser(s, p) && s.queues[p].worker.cmd in S)
  {
    InitInv(s0);
    InitOrdered(s0);
    PoliteRunKeeps(s0, run, s);
    l, p := Progress(s, c, S);
  }

  /**
    A flush always gets its commands executed: after any run of the system, however the workers then
    interleave, they stop after a bounded number of steps, and by then the commands of the queue that
    were enqueued before the flush have been run (except END) and freed in order, unless one of them, or one
    that they need, waits for a user event.
   */
  lemma FlushIsHonoured(s0: State, run: seq<Label>, s: State, q: QueueId, drain: seq<Label>, s': State, S: set<CommandId>)
    requires Init(s0) && PoliteRun(s0, run, s) && q < |s.queues|
    requires WorkerRun(Apply(s, Flush(q)), drain, s')
    ensures |drain| <= Work(s.queues, s.cmds) + 2
    ensures Stuck(s') && Unblocked(s', q, |s.queues[q].history|, S) ==>
              && s.queues[q].history <= s'.queues[q].freed
              && forall k :: 0 <= k < |s.queues[q].history| && s.queues[q].history[k] < |s'.cmds|
                             && s'.cmds[s.queues[q].history[k]].kind.WORK? ==>
                   k < |s'.queues[q].ran| && s'.queues[q].ran[k] == s.queues[q].history[k]
  {
    var f, n := Apply(s, Flush(q)), |s.queues[q].history|;
    AfterFlush(s0, run, s, q);
    DrainIsBounded(f, drain, s');
    WorkerRunIsPolite(f, drain, s');
    PoliteRunKeeps(f, drain, s');
    RunKeepsFlushed(f, drain, s', q, n);
    if Stuck(s') && Unblocked(s', q, n, S) {
      FlushedAreDone(s', q, n, S);
      PrefixDone(s', q, s.queues[q].history);
    }
  }

  lemma AfterFlush(s0: State, run: seq<Label>, s: State, q: QueueId)
    requires Init(s0) && PoliteRun(s0, run, s) && q < |s.queues|
    ensures var f := Apply(s, Flush(q));
            && Inv(f) && Ordered(f) && Flushed(f, q, |s.queues[q].history|) && f.queues[q].history == s.queues[q].history
            && Work(f.queues, f.cmds) <= Work(s.queues, s.cmds) + 2
  {
    InitInv(s0);
    InitOrdered(s0);
    PoliteRunKeeps(s0, run, s);
    StepInv(s, Flush(q));
    StepOrdered(s, Flush(q));
    FlushCovers(s, q);
    FlushWork(s.queues[q], s.cmds);
    WorkAfterUpdate(s.queues, s.cmds, q, FlushQueue(s.queues[q]));
  }

  /** What FlushedAreDone says, about a prefix of the history. */
  lemma PrefixDone(s: State, q: QueueId, h: seq<CommandId>)
    requires q < |s.queues| && h <= s.queues[q].history && |h| <= |s.queues[q].freed|
    requires s.queues[q].history[..|h|] == s.queues[q].freed[..|h|]
    ensures h <= s.queues[q].freed
    ensures forall k :: 0 <= k < |h| ==> s.queues[q].history[k] == h[k]
  {
  }

  // ---------------------------------------------------------------- why the conditions are needed

  /** Runs compose. */
  lemma {:induction false} RunsCompose(s: State, run: seq<Label>, mid: State, run': seq<Label>, s': State)
    requires Reaches(s, run, mid) && Reaches(mid, run', s')
    ensures Reaches(s, run + run', s')
    decreases |run|
  {
    if run == [] {
      assert run + run' == run';
    } else {
      RunsCompose(Apply(s, run[0]), run[1..], mid, run', s');
      assert (run + run')[1..] == run[1..] + run';
    }
  }

  lemma OneStep(s: State, l: Label, s': State)
    requires Enabled(s, l) && Apply(s, l) == s'
    ensures Reaches(s, [l], s')
  {
  }

  /** One queue, as opencl_command_queue_create leaves it. */
  const ONE_QUEUE := State([Queue([], false, Ready, [], 0, [], [])], [], [], 0)

  /** ... with END and then another command enqueued. */
  const WORK_AFTER_END :=
    State([Queue([0, 1], false, Ready, [0, 1], 0, [], [])],
          [Command(END, 0, [], None, LISTED, 0, 0), Command(WORK, 0, [], None, LISTED, 1, 1)], [], 2)

  const BOTH_CREATED :=
    State(ONE_QUEUE.queues,
          [Command(END, 0, [], None, CREATED, 0, 0), Command(WORK, 0, [], None, CREATED, 0, 0)], [], 0)

  lemma ReachBothCreated() returns (run: seq<Label>)
    ensures Reaches(ONE_QUEUE, run, BOTH_CREATED)
  {
    var s1 := State(ONE_QUEUE.queues, BOTH_CREATED.cmds[..1], [], 0);
    OneStep(ONE_QUEUE, Create(END, 0, [], false), s1);
    OneStep(s1, Create(WORK, 0, [], false), BOTH_CREATED);
    run := [Create(END, 0, [], false)] + [Create(WORK, 0, [], false)];
    RunsCompose(ONE_QUEUE, [Create(END, 0, [], false)], s1, [Create(WORK, 0, [], false)], BOTH_CREATED);
  }

  lemma ReachWorkAfterEnd() returns (run: seq<Label>)
    ensures Reaches(BOTH_CREATED, run, WORK_AFTER_END)
  {
    var s1 := State([Queue([0], false, Ready, [0], 0, [], [])], [WORK_AFTER_END.cmds[0], BOTH_CREATED.cmds[1]], [], 1);
    assert BOTH_CREATED.queues[0 := s1.queues[0]] == s1.queues && BOTH_CREATED.cmds[0 := s1.cmds[0]] == s1.cmds;
    assert BOTH_CREATED.queues[0].list + [0] == [0];
    OneStep(BOTH_CREATED, Enqueue(0), s1);
    assert s1.queues[0 := WORK_AFTER_END.queues[0]] == WORK_AFTER_END.queues;
    assert s1.cmds[1 := WORK_AFTER_END.cmds[1]] == WORK_AFTER_END.cmds;
    assert s1.queues[0].list + [1] == [0, 1];
    OneStep(s1, Enqueue(1), WORK_AFTER_END);
    run := [Enqueue(0)] + [Enqueue(1)];
    RunsCompose(BOTH_CREATED, [Enqueue(0)], s1, [Enqueue(1)], WORK_AFTER_END);
  }

  /**
    If a command is enqueued after END, the worker returns with that command in the list, and the
    assertion of opencl_command_queue_free that the list is empty fails.
   */
  lemma EnqueueAfterEnd() returns (run: seq<Label>, s: State)
    ensures Init(ONE_QUEUE) && Reaches(ONE_QUEUE, run, s)
    ensures |s.queues| == 1 && s.queues[0].worker.Returned? && s.queues[0].list != []
  {
    var created := ReachBothCreated();
    var enqueued := ReachWorkAfterEnd();
    RunsCompose(ONE_QUEUE, created, BOTH_CREATED, enqueued, WORK_AFTER_END);
    run := created + enqueued;
    var flushed := Apply(WORK_AFTER_END, Flush(0));
    s := Apply(flushed, Take(0));
    OneStep(WORK_AFTER_END, Flush(0), flushed);
    OneStep(flushed, Take(0), s);
    RunsCompose(WORK_AFTER_END, [Flush(0)], flushed, [Take(0)], s);
    RunsCompose(ONE_QUEUE, run, WORK_AFTER_END, [Flush(0)] + [Take(0)], s);
    run := run + ([Flush(0)] + [Take(0)]);
  }
}
