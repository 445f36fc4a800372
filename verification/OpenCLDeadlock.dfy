/**
  Why OpenCL command queues do not deadlock: what an active command waits for is enqueued earlier, and the
  chain ends at a worker that can go on, or at a user event.
 */
module OpenCLDeadlock {
  import opened Basics
  import opened OpenCLModel
  import opened OpenCLSafety
  import opened OpenCLProgress
  import opened OpenCLOrder
  import opened OpenCLCalls

  /** A step that a worker thread can take by itself; waking up counts only if it was signalled. */
  ghost predicate WorkerStep(s: State, l: Label) {
    && Enabled(s, l)
    && (l.Take? || l.Block? || l.Wake? || l.SkipWaits? || l.FlushForWait? || l.PassWait? || l.Start? || l.Finish? || l.Free?)
    && (l.Wake? ==> s.queues[l.queue].worker == Blocked(true))
  }

  /** Command c has been submitted, or is listed on a queue whose worker may go on. */
  ghost predicate Active(s: State, c: CommandId) {
    && c < |s.cmds| && s.cmds[c].queue < |s.queues|
    && match s.cmds[c].phase
       case LISTED => s.queues[s.cmds[c].queue].process
       case TAKEN => true
       case STARTED => true
       case FINISHED => true
       case _ => false
  }

  /** The worker of queue q has flushed for, and now waits for, a user event that is not complete. */
  ghost predicate AwaitsUser(s: State, q: QueueId) {
    && q < |s.queues| && s.queues[q].worker.Waiting? && s.queues[q].worker.flushed
    && var w := s.queues[q].worker;
       && w.cmd < |s.cmds| && w.i < |s.cmds[w.cmd].waits|
       && var e := s.cmds[w.cmd].waits[w.i];
          e < |s.events| && s.events[e].source.None? && s.events[e].status != COMPLETE
  }

  /** Command c cannot run before d: it waits for its event, or comes after it in the same queue. */
  ghost predicate Needs(s: State, c: CommandId, d: CommandId) {
    && c < |s.cmds| && d < |s.cmds|
    && ((exists i :: 0 <= i < |s.cmds[c].waits| && s.cmds[c].waits[i] < |s.events| && s.events[s.cmds[c].waits[i]].source == Some(d))
        || (Enqueued(s, d) && s.cmds[d].queue == s.cmds[c].queue && s.cmds[d].pos < s.cmds[c].pos))
  }

  /** A set of commands that contains everything its members need. */
  ghost predicate Closed(s: State, S: set<CommandId>) {
    && (forall c :: c in S ==> c < |s.cmds|)
    && (forall c: CommandId, d: CommandId :: c in S && Needs(s, c, d) ==> d in S)
  }

  /** No command of the set waits for a user event that is still open. */
  ghost predicate UserEventsComplete(s: State, S: set<CommandId>) {
    forall c, i | c in S && c < |s.cmds| && 0 <= i < |s.cmds[c].waits| && s.cmds[c].waits[i] < |s.events|
      :: s.events[s.cmds[c].waits[i]].source.None? ==> Complete(s.events, s.cmds[c].waits[i])
  }

  lemma EnqueuedStays(s: State, l: Label, c: CommandId)
    requires Inv(s) && Enabled(s, l) && Enqueued(s, c)
    ensures Enqueued(Apply(s, l), c)
    ensures Apply(s, l).cmds[c].queue == s.cmds[c].queue && Apply(s, l).cmds[c].pos == s.cmds[c].pos
  {
  }

  /** What a command that has been enqueued needs is settled. */
  lemma NeedsNothingNew(s: State, l: Label, c: CommandId, d: CommandId)
    requires Inv(s) && Enabled(s, l) && Enqueued(s, c) && Needs(Apply(s, l), c, d)
    ensures Needs(s, c, d)
  {
    var s' := Apply(s, l);
    FixedAtCreation(s, l);
    EnqueuedStays(s, l, c);
    if i :| 0 <= i < |s'.cmds[c].waits| && s'.cmds[c].waits[i] < |s'.events| && s'.events[s'.cmds[c].waits[i]].source == Some(d) {
      assert s.events[s.cmds[c].waits[i]].source == Some(d);
    } else {
      PlacedBefore(s, l, c, d);
    }
  }

  /** A command that comes before an enqueued one in its queue came before it all along. */
  lemma PlacedBefore(s: State, l: Label, c: CommandId, d: CommandId)
    requires Inv(s) && Enabled(s, l) && Enqueued(s, c) && Enqueued(Apply(s, l), c) && Enqueued(Apply(s, l), d)
    requires Apply(s, l).cmds[d].queue == Apply(s, l).cmds[c].queue && Apply(s, l).cmds[d].pos < Apply(s, l).cmds[c].pos
    ensures Enqueued(s, d) && s.cmds[d].queue == s.cmds[c].queue && s.cmds[d].pos < s.cmds[c].pos
  {
    EnqueuedStays(s, l, c);
    if Enqueued(s, d) {
      EnqueuedStays(s, l, d);
    } else {
      OnlyEnqueued(s, l, d);
    }
  }

  /** A command gets its place by being enqueued, after all others of its queue. */
  lemma OnlyEnqueued(s: State, l: Label, d: CommandId)
    requires Inv(s) && Enabled(s, l) && Enqueued(Apply(s, l), d) && !Enqueued(s, d)
    ensures l == Enqueue(d) && d < |s.cmds| && s.cmds[d].queue < |s.queues|
    ensures Apply(s, l).cmds[d].queue == s.cmds[d].queue && Apply(s, l).cmds[d].pos == |s.queues[s.cmds[d].queue].history|
  {
    if !l.Create? && !l.Enqueue? {
      StepSameCommands(s, l);
    }
  }

  /** A closed set of enqueued commands stays closed in every run. */
  lemma {:induction false} RunKeepsClosed(s: State, run: seq<Label>, s': State, S: set<CommandId>)
    requires Inv(s) && Reaches(s, run, s') && Closed(s, S) && forall c :: c in S ==> Enqueued(s, c)
    ensures Closed(s', S) && forall c :: c in S ==> Enqueued(s', c)
    decreases |run|
  {
    if run != [] {
      var s1 := Apply(s, run[0]);
      StepInv(s, run[0]);
      forall c | c in S
        ensures Enqueued(s1, c)
      {
        EnqueuedStays(s, run[0], c);
      }
      forall c: CommandId, d: CommandId | c in S && Needs(s1, c, d)
        ensures d in S
      {
        NeedsNothingNew(s, run[0], c, d);
      }
      RunKeepsClosed(s1, run[1..], s', S);
    }
  }

  /** Waiting for an open user event is what complete user events exclude. */
  lemma NotAwaitingUser(s: State, q: QueueId, S: set<CommandId>)
    requires AwaitsUser(s, q) && UserEventsComplete(s, S)
    ensures s.queues[q].worker.cmd !in S
  {
    var w := s.queues[q].worker;
    assert w.cmd in S ==> Complete(s.events, s.cmds[w.cmd].waits[w.i]);
  }

  /** The command behind an event that is not complete has not finished. */
  lemma UnfinishedSource(s: State, e: EventId)
    requires Inv(s) && e < |s.events| && s.events[e].source.Some? && s.events[e].status != COMPLETE
    ensures s.events[e].source.value < |s.cmds| && Level(s.cmds[s.events[e].source.value].phase) < 4
  {
    var d := s.events[e].source.value;
    if Level(s.cmds[d].phase) == 4 {
      FreedIsComplete(s, d);
    }
  }

  /** A command that is waited for, and has not finished, is active and was enqueued earlier. */
  lemma AwaitedIsActive(s: State, q: QueueId, d: CommandId)
    requires Inv(s) && Ordered(s) && Awaits(s, q, d) && d < |s.cmds| && Level(s.cmds[d].phase) < 4
    ensures Active(s, d) && s.cmds[d].stamp < s.cmds[s.queues[q].worker.cmd].stamp
  {
    var w := s.queues[q].worker;
    AwaitedIsEnqueued(s, q, d);
    WorkersCommand(s, q);
    assert WaitBackwards(s, w.cmd, s.cmds[w.cmd].waits[w.i]);
  }

  /** After its flush, a worker waits for a completed event, a user event, or a command that is active and was enqueued earlier. */
  lemma AwaitedProgress(s: State, q: QueueId) returns (d: CommandId)
    requires Inv(s) && Ordered(s)
    requires q < |s.queues| && s.queues[q].worker.Waiting? && s.queues[q].worker.flushed
    ensures var w := s.queues[q].worker;
            && w.cmd < |s.cmds|
            && (Enabled(s, PassWait(q)) || AwaitsUser(s, q) ||
                (Active(s, d) && Needs(s, w.cmd, d) && s.cmds[d].stamp < s.cmds[w.cmd].stamp))
  {
    var w := s.queues[q].worker;
    assert WaiterOk(w, s.cmds, s.events);
    WorkersCommand(s, q);
    var e := s.cmds[w.cmd].waits[w.i];
    d := w.cmd;
    if s.events[e].status != COMPLETE && s.events[e].source.Some? {
      d := s.events[e].source.value;
      UnfinishedSource(s, e);
      AwaitedIsActive(s, q, d);
    }
  }

  /** Before its flush, a worker flushes for the next event of its wait list, or starts its command. */
  lemma FlushOrStart(s: State, q: QueueId) returns (l: Label)
    requires Inv(s) && q < |s.queues| && s.queues[q].worker.Waiting? && !s.queues[q].worker.flushed
    ensures WorkerStep(s, l) && (l == FlushForWait(q) || l == Start(q))
  {
    var w := s.queues[q].worker;
    assert WaiterOk(w, s.cmds, s.events);
    WorkersCommand(s, q);
    WaitEventsAlive(s, w.cmd);
    l := if w.i < |s.cmds[w.cmd].waits| then FlushForWait(q) else Start(q);
  }

  /** A command whose worker is in its wait list can go on, or waits for a user event or an active command. */
  lemma WaitingProgress(s: State, c: CommandId) returns (l: Label, d: CommandId)
    requires Inv(s) && Ordered(s)
    requires c < |s.cmds| && s.cmds[c].queue < |s.queues| && s.queues[s.cmds[c].queue].worker.Waiting?
    requires s.queues[s.cmds[c].queue].worker.cmd == c && s.cmds[c].phase == TAKEN
    ensures (WorkerStep(s, l) && !l.Block?) || AwaitsUser(s, s.cmds[c].queue) ||
            (Active(s, d) && Needs(s, c, d) && s.cmds[d].stamp < s.cmds[c].stamp)
  {
    var q := s.cmds[c].queue;
    d := c;
    if s.queues[q].worker.flushed {
      l := PassWait(q);
      d := AwaitedProgress(s, q);
    } else {
      l := FlushOrStart(s, q);
    }
  }

  /** What was last taken from the queue of a listed command is an ordinary command enqueued earlier. */
  lemma LastTaken(s: State, c: CommandId)
    requires Inv(s) && Ordered(s) && c < |s.cmds| && s.cmds[c].phase == LISTED
    ensures s.cmds[c].queue < |s.queues|
    ensures var queue := s.queues[s.cmds[c].queue];
            && queue.taken <= |queue.history| && !queue.worker.Returned?
            && (queue.taken > 0 ==>
                  var d := queue.history[queue.taken - 1];
                  Needs(s, c, d) && s.cmds[d].queue == s.cmds[c].queue && s.cmds[d].stamp < s.cmds[c].stamp)
  {
    var q := s.cmds[c].queue;
    ListedInList(s, c);
    assert QueueOk(s.queues[q], q, s.cmds);
    assert s.queues[q].taken > 0 ==> EntryOk(s.queues[q], q, s.cmds, s.queues[q].taken - 1);
  }

  /** The first command in a list exists. */
  lemma FirstInList(s: State, q: QueueId)
    requires Inv(s) && q < |s.queues| && s.queues[q].list != []
    ensures s.queues[q].list[0] < |s.cmds|
  {
    assert QueueOk(s.queues[q], q, s.cmds);
    assert EntryOk(s.queues[q], q, s.cmds, s.queues[q].taken);
  }

  /** A listed command of a processable queue is held up only by the command its worker is busy with. */
  lemma ListedProgress(s: State, c: CommandId) returns (l: Label, d: CommandId)
    requires Inv(s) && Ordered(s) && Active(s, c) && s.cmds[c].phase == LISTED
    ensures (WorkerStep(s, l) && !l.Block?) || (Active(s, d) && Needs(s, c, d) && s.cmds[d].stamp < s.cmds[c].stamp)
  {
    var q := s.cmds[c].queue;
    var queue := s.queues[q];
    assert QueueOk(queue, q, s.cmds);
    LastTaken(s, c);
    if queue.worker.Busy() {
      WorkersCommand(s, q);
      l, d := Start(q), queue.worker.cmd;
    } else {
      FirstInList(s, q);
      l, d := if queue.worker.Ready? then Take(q) else Wake(q), c;
    }
  }

  /** The worker of a command that was taken is at that command. */
  lemma TakenIsAtWorker(s: State, c: CommandId)
    requires Inv(s) && c < |s.cmds| && (s.cmds[c].phase == TAKEN || s.cmds[c].phase == STARTED || s.cmds[c].phase == FINISHED)
    ensures s.cmds[c].queue < |s.queues|
    ensures var w := s.queues[s.cmds[c].queue].worker;
            && w.Busy() && w.cmd == c
            && (s.cmds[c].phase == TAKEN <==> w.Waiting?) && (s.cmds[c].phase == STARTED <==> w.Running?)
  {
    var q := s.cmds[c].queue;
    assert QueueOk(s.queues[q], q, s.cmds);
    assert EntryOk(s.queues[q], q, s.cmds, s.cmds[c].pos);
  }

  /**
    Deadlock freedom: whenever some command is active, some worker can take a step, or the worker of a
    command that it needs waits for an open user event. The argument follows the chain of commands that
    are needed; each was enqueued before the one that needs it.
   */
  lemma {:induction false} Progress(s: State, c: CommandId, S: set<CommandId>) returns (l: Label, p: QueueId)
    requires Inv(s) && Ordered(s) && Closed(s, S) && c in S && Active(s, c)
    ensures (WorkerStep(s, l) && !l.Block?) || (AwaitsUser(s, p) && s.queues[p].worker.cmd in S)
    decreases s.cmds[c].stamp
  {
    p := s.cmds[c].queue;
    var d := c;
    if s.cmds[c].phase == LISTED {
      l, d := ListedProgress(s, c);
    } else {
      TakenIsAtWorker(s, c);
      if s.cmds[c].phase == TAKEN {
        l, d := WaitingProgress(s, c);
      } else {
        l := if s.cmds[c].phase == STARTED then Finish(p) else Free(p);
      }
    }
    if !(WorkerStep(s, l) && !l.Block?) && !(s.cmds[c].phase == TAKEN && AwaitsUser(s, p)) {
      l, p := Progress(s, d, S);
    }
  }

  /** No worker can take a step. */
  ghost predicate Stuck(s: State) {
    forall l :: WorkerStep(s, l) ==> l.Block?
  }

  /** A worker that waits is at an active command. */
  lemma WaiterIsActive(s: State, q: QueueId)
    requires Inv(s) && AwaitsUser(s, q)
    ensures Active(s, s.queues[q].worker.cmd)
  {
    WorkersCommand(s, q);
  }

  /**
    The exact condition for the workers to be stuck on a set of commands that needs no others: one of its
    commands waits for a user event that the application has not completed.
   */
  lemma StuckExactly(s: State, S: set<CommandId>)
    requires Inv(s) && Ordered(s) && Closed(s, S) && Stuck(s)
    ensures (exists c :: c in S && Active(s, c)) <==>
            exists q: QueueId :: AwaitsUser(s, q) && s.queues[q].worker.cmd in S
  {
    if c :| c in S && Active(s, c) {
      var l, p := Progress(s, c, S);
      assert AwaitsUser(s, p);
    }
    if q: QueueId :| AwaitsUser(s, q) && s.queues[q].worker.cmd in S {
      WaiterIsActive(s, q);
    }
  }

  /** Nobody can set a user event that has failed, and nobody else moves the worker that waits for it. */
  lemma StepKeepsFailedWait(s: State, l: Label, q: QueueId)
    requires Inv(s) && Enabled(s, l) && AwaitsUser(s, q)
    requires s.events[s.cmds[s.queues[q].worker.cmd].waits[s.queues[q].worker.i]].status == FAILED
    ensures q < |Apply(s, l).queues| && Apply(s, l).queues[q].worker == s.queues[q].worker && AwaitsUser(Apply(s, l), q)
    ensures var w := s.queues[q].worker; Apply(s, l).cmds[w.cmd].waits[w.i] == s.cmds[w.cmd].waits[w.i]
    ensures var e := s.cmds[s.queues[q].worker.cmd].waits[s.queues[q].worker.i]; Apply(s, l).events[e].status == FAILED
  {
    var w := s.queues[q].worker;
    FixedAtCreation(s, l);
    UserEventStatus(s, l, s.cmds[w.cmd].waits[w.i]);
    WaiterStays(s, l, q);
  }

  /** A worker that waits moves on only when its event is complete. */
  lemma WaiterStays(s: State, l: Label, q: QueueId)
    requires Enabled(s, l) && AwaitsUser(s, q)
    ensures q < |Apply(s, l).queues| && Apply(s, l).queues[q].worker == s.queues[q].worker
  {
  }

  /** A worker that waits for a user event which has failed keeps waiting for it in every run. */
  lemma {:induction false} FailedWaitIsForever(s: State, run: seq<Label>, s': State, q: QueueId)
    requires Inv(s) && Reaches(s, run, s') && AwaitsUser(s, q)
    requires s.events[s.cmds[s.queues[q].worker.cmd].waits[s.queues[q].worker.i]].status == FAILED
    ensures AwaitsUser(s', q) && s'.queues[q].worker == s.queues[q].worker
    decreases |run|
  {
    if run != [] {
      StepInv(s, run[0]);
      StepKeepsFailedWait(s, run[0], q);
      FailedWaitIsForever(Apply(s, run[0]), run[1..], s', q);
    }
  }
}
