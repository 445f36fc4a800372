/**
  Why the OpenCL queues make progress: the order in which applications obtain events rules out
  deadlock between any number of queues, and a measure bounds the work that is left.
 */
module OpenCLProgress {
  import opened Basics
  import opened OpenCLModel
  import opened OpenCLSafety

  // ---------------------------------------------------------------- what applications do

  ghost predicate Enqueued(s: State, c: CommandId) {
    c < |s.cmds| && s.cmds[c].phase != CREATED
  }

  /** The command whose completion event e is has been enqueued; user events have no command. */
  ghost predicate Handed(s: State, e: EventId) {
    e < |s.events| && (s.events[e].source.Some? ==> Enqueued(s, s.events[e].source.value))
  }

  /**
    An application gets an event back from the call that enqueues its command, so it can name it in a
    wait list only afterwards; and it enqueues nothing on a queue that is being released.
   */
  ghost predicate Polite(s: State, l: Label) {
    match l
    case Create(_, _, waits, _) => forall i :: 0 <= i < |waits| ==> Handed(s, waits[i])
    case Enqueue(c) =>
      c < |s.cmds| && s.cmds[c].queue < |s.queues| &&
      forall d :: 0 <= d < |s.cmds| && Enqueued(s, d) && s.cmds[d].queue == s.cmds[c].queue ==> s.cmds[d].kind.WORK?
    case _ => true
  }

  ghost predicate PoliteRun(s: State, run: seq<Label>, s': State)
    decreases |run|
  {
    if run == [] then s' == s
    else Enabled(s, run[0]) && Polite(s, run[0]) && PoliteRun(Apply(s, run[0]), run[1..], s')
  }

  // ---------------------------------------------------------------- order of commands

  /** A wait list names commands that were enqueued, and enqueued earlier than its own command. */
  ghost predicate WaitsBackwards(s: State) {
    forall c, i :: 0 <= c < |s.cmds| && 0 <= i < |s.cmds[c].waits| ==> WaitBackwards(s, c, s.cmds[c].waits[i])
  }

  ghost predicate WaitBackwards(s: State, c: CommandId, e: EventId)
    requires c < |s.cmds|
  {
    && Handed(s, e)
    && (Enqueued(s, c) && s.events[e].source.Some? ==> s.cmds[s.events[e].source.value].stamp < s.cmds[c].stamp)
  }

  /** Stamps grow along each queue, and END is the last command of its queue. */
  ghost predicate StampsOk(cmds: seq<Command>, clock: nat) {
    && (forall c :: 0 <= c < |cmds| && cmds[c].phase != CREATED ==> cmds[c].stamp < clock)
    && (forall c, d | 0 <= c < |cmds| && 0 <= d < |cmds| && cmds[c].phase != CREATED && cmds[d].phase != CREATED
                      && cmds[c].queue == cmds[d].queue && cmds[c].pos < cmds[d].pos
          :: cmds[c].stamp < cmds[d].stamp && cmds[c].kind.WORK?)
  }

  /** The worker of queue q has flushed for, and now waits for, the completion of command d. */
  ghost predicate Awaits(s: State, q: QueueId, d: CommandId) {
    && q < |s.queues| && s.queues[q].worker.Waiting? && s.queues[q].worker.flushed
    && var w := s.queues[q].worker;
       && w.cmd < |s.cmds| && w.i < |s.cmds[w.cmd].waits|
       && var e := s.cmds[w.cmd].waits[w.i];
          e < |s.events| && s.events[e].source == Some(d)
  }

  /** Once a worker has flushed the queue of the command it waits for, that queue stays processable. */
  ghost predicate FlushedWaitsOk(s: State) {
    forall q: QueueId, d: CommandId :: Awaits(s, q, d) && d < |s.cmds| && s.cmds[d].phase == LISTED ==>
      s.cmds[d].queue < |s.queues| && s.queues[s.cmds[d].queue].process
  }

  ghost predicate Ordered(s: State) {
    WaitsBackwards(s) && StampsOk(s.cmds, s.clock) && FlushedWaitsOk(s)
  }

  // ---------------------------------------------------------------- every polite step keeps the order

  /** Only Create and Enqueue touch what the order is about. */
  ghost predicate SameOrder(s: State, s': State) {
    && |s'.cmds| == |s.cmds| && |s'.events| >= |s.events| && s'.clock == s.clock
    && (forall c :: 0 <= c < |s.cmds| ==>
          && s'.cmds[c] == s.cmds[c].(phase := s'.cmds[c].phase)
          && (s'.cmds[c].phase == CREATED <==> s.cmds[c].phase == CREATED))
    && (forall e :: 0 <= e < |s.events| ==> s'.events[e].source == s.events[e].source)
  }

  lemma OrderFrame(s: State, s': State)
    requires SameOrder(s, s') && WaitsBackwards(s) && StampsOk(s.cmds, s.clock)
    ensures WaitsBackwards(s') && StampsOk(s'.cmds, s'.clock)
  {
    forall c, i | 0 <= c < |s'.cmds| && 0 <= i < |s'.cmds[c].waits|
      ensures WaitBackwards(s', c, s'.cmds[c].waits[i])
    {
      assert WaitBackwards(s, c, s.cmds[c].waits[i]);
    }
  }

  /** Wait lists and the commands behind events are fixed when they are created. */
  lemma FixedAtCreation(s: State, l: Label)
    requires Enabled(s, l)
    ensures forall c :: 0 <= c < |s.cmds| ==> c < |Apply(s, l).cmds| && Apply(s, l).cmds[c].waits == s.cmds[c].waits
    ensures forall e :: 0 <= e < |s.events| ==> e < |Apply(s, l).events| && Apply(s, l).events[e].source == s.events[e].source
  {
    var s' := Apply(s, l);
    if l.Create? {
      var retained := RetainAll(s.events, l.waits);
      assert forall e :: 0 <= e < |s.events| ==> s'.events[e] == retained[e];
    }
    assert forall c :: 0 <= c < |s.cmds| ==> c < |s'.cmds| && s'.cmds[c].waits == s.cmds[c].waits;
    assert forall e :: 0 <= e < |s.events| ==> e < |s'.events| && s'.events[e].source == s.events[e].source;
  }

  lemma StepSameOrder(s: State, l: Label)
    requires Inv(s) && Enabled(s, l) && !l.Create? && !l.Enqueue?
    ensures SameOrder(s, Apply(s, l))
  {
    FixedAtCreation(s, l);
    StepSameCommands(s, l);
  }

  lemma StepSameCommands(s: State, l: Label)
    requires Inv(s) && Enabled(s, l) && !l.Create? && !l.Enqueue?
    ensures |Apply(s, l).cmds| == |s.cmds| && Apply(s, l).clock == s.clock
    ensures forall c :: 0 <= c < |s.cmds| ==>
              && Apply(s, l).cmds[c] == s.cmds[c].(phase := Apply(s, l).cmds[c].phase)
              && (Apply(s, l).cmds[c].phase == CREATED <==> s.cmds[c].phase == CREATED)
  {
    if l.Take? {
      TakeKeepsQueue(s.queues[l.queue], l.queue, s.cmds);
    } else if l.Start? || l.Finish? || l.Free? {
      WorkersCommand(s, l.queue);
    } else {
      assert Apply(s, l).cmds == s.cmds;
    }
  }

  /** A command that is not enqueued yet has no place in the order. */
  lemma StampsWithNewCommand(cmds: seq<Command>, c: Command, clock: nat)
    requires StampsOk(cmds, clock) && c.phase == CREATED
    ensures StampsOk(cmds + [c], clock)
  {
  }

  lemma CreateKeepsOrder(s: State, l: Label)
    requires Inv(s) && Ordered(s) && Enabled(s, l) && Polite(s, l) && l.Create?
    ensures WaitsBackwards(Apply(s, l)) && StampsOk(Apply(s, l).cmds, Apply(s, l).clock)
  {
    var s' := Apply(s, l);
    FixedAtCreation(s, l);
    assert forall c :: 0 <= c < |s.cmds| ==> s'.cmds[c] == s.cmds[c];
    StampsWithNewCommand(s.cmds, s'.cmds[|s.cmds|], s.clock);
    forall c, i | 0 <= c < |s'.cmds| && 0 <= i < |s'.cmds[c].waits|
      ensures WaitBackwards(s', c, s'.cmds[c].waits[i])
    {
      if c < |s.cmds| {
        assert WaitBackwards(s, c, s.cmds[c].waits[i]);
      } else {
        assert Handed(s, l.waits[i]);
      }
    }
  }

  lemma EnqueueKeepsOrder(s: State, l: Label)
    requires Inv(s) && Ordered(s) && Enabled(s, l) && Polite(s, l) && l.Enqueue?
    ensures WaitsBackwards(Apply(s, l)) && StampsOk(Apply(s, l).cmds, Apply(s, l).clock)
  {
    var s' := Apply(s, l);
    forall c, i | 0 <= c < |s'.cmds| && 0 <= i < |s'.cmds[c].waits|
      ensures WaitBackwards(s', c, s'.cmds[c].waits[i])
    {
      assert WaitBackwards(s, c, s.cmds[c].waits[i]);
    }
    EnqueueKeepsStamps(s, l.cmd);
  }

  lemma EnqueueKeepsStamps(s: State, c: CommandId)
    requires Inv(s) && Ordered(s) && Enabled(s, Enqueue(c)) && Polite(s, Enqueue(c))
    ensures StampsOk(Apply(s, Enqueue(c)).cmds, s.clock + 1)
  {
    var cmds' := Apply(s, Enqueue(c)).cmds;
    assert forall d :: 0 <= d < |s.cmds| && d != c ==> cmds'[d] == s.cmds[d];
    forall d | 0 <= d < |s.cmds| && d != c && Enqueued(s, d) && s.cmds[d].queue == s.cmds[c].queue
      ensures s.cmds[d].kind.WORK? && cmds'[d].pos < cmds'[c].pos && cmds'[d].stamp < cmds'[c].stamp
    {
    }
  }

  /** A listed command is in the list of its queue, which is therefore not empty. */
  lemma ListedInList(s: State, d: CommandId)
    requires Inv(s) && d < |s.cmds| && s.cmds[d].phase == LISTED
    ensures s.cmds[d].queue < |s.queues|
    ensures var q := s.queues[s.cmds[d].queue];
            && q.taken <= s.cmds[d].pos < |q.history| && q.history[s.cmds[d].pos] == d && q.list != []
  {
    var q := s.queues[s.cmds[d].queue];
    assert QueueOk(q, s.cmds[d].queue, s.cmds);
    assert EntryOk(q, s.cmds[d].queue, s.cmds, s.cmds[d].pos);
  }

  /** A waiting worker waits for a command that was enqueued. */
  lemma AwaitedIsEnqueued(s: State, q: QueueId, d: CommandId)
    requires Inv(s) && WaitsBackwards(s) && Awaits(s, q, d)
    ensures Enqueued(s, d)
  {
    var w := s.queues[q].worker;
    assert WaitBackwards(s, w.cmd, s.cmds[w.cmd].waits[w.i]);
  }

  /** Only FlushForWait lets a worker get to the point after the flush. */
  lemma SameWaiter(s: State, l: Label, q: QueueId)
    requires Enabled(s, l) && !l.FlushForWait? && q < |Apply(s, l).queues|
    requires Apply(s, l).queues[q].worker.Waiting? && Apply(s, l).queues[q].worker.flushed
    ensures q < |s.queues| && Apply(s, l).queues[q].worker == s.queues[q].worker
  {
  }

  lemma AwaitedBefore(s: State, l: Label, q: QueueId, d: CommandId)
    requires Inv(s) && Enabled(s, l) && !l.FlushForWait? && Awaits(Apply(s, l), q, d)
    ensures Awaits(s, q, d)
  {
    SameWaiter(s, l, q);
    FixedAtCreation(s, l);
    WorkersCommand(s, q);
  }

  /** An enqueued command that is listed after a step was listed before it. */
  lemma StillListed(s: State, l: Label, d: CommandId)
    requires Inv(s) && Enabled(s, l) && Enqueued(s, d)
    requires d < |Apply(s, l).cmds| && Apply(s, l).cmds[d].phase == LISTED
    ensures s.cmds[d].phase == LISTED && Apply(s, l).cmds[d].queue == s.cmds[d].queue
  {
  }

  /** `process` is only ever reset by the dequeue that empties the list. */
  lemma ProcessUntilEmpty(s: State, l: Label, q: QueueId)
    requires Enabled(s, l) && q < |s.queues| && s.queues[q].process
    ensures q < |Apply(s, l).queues| && (Apply(s, l).queues[q].process || Apply(s, l).queues[q].list == [])
  {
  }

  lemma AwaitedStaysProcessable(s: State, l: Label, q: QueueId, d: CommandId)
    requires Inv(s) && Ordered(s) && Enabled(s, l) && !l.FlushForWait? && Inv(Apply(s, l))
    requires Awaits(Apply(s, l), q, d) && d < |Apply(s, l).cmds| && Apply(s, l).cmds[d].phase == LISTED
    ensures Apply(s, l).cmds[d].queue < |Apply(s, l).queues| && Apply(s, l).queues[Apply(s, l).cmds[d].queue].process
  {
    AwaitedBefore(s, l, q, d);
    AwaitedIsEnqueued(s, q, d);
    StillListed(s, l, d);
    ListedInList(Apply(s, l), d);
    ProcessUntilEmpty(s, l, s.cmds[d].queue);
  }

  /** The event of a command knows the queue of the command. */
  lemma EventsQueue(s: State, e: EventId, d: CommandId)
    requires Inv(s) && e < |s.events| && s.events[e].source == Some(d)
    ensures d < |s.cmds| && s.cmds[d].done == Some(e) && s.events[e].queue == Some(s.cmds[d].queue)
  {
  }

  lemma FlushesTarget(s: State, q: QueueId, d: CommandId)
    requires Inv(s) && Enabled(s, FlushForWait(q)) && Awaits(Apply(s, FlushForWait(q)), q, d)
    requires d < |s.cmds| && s.cmds[d].queue < |s.queues| && s.queues[s.cmds[d].queue].list != []
    ensures Apply(s, FlushForWait(q)).queues[s.cmds[d].queue].process
  {
    var w := s.queues[q].worker;
    EventsQueue(s, s.cmds[w.cmd].waits[w.i], d);
  }

  /** The flush before a wait reaches the queue of the command waited for. */
  lemma FlushReachesAwaited(s: State, l: Label, q: QueueId, d: CommandId)
    requires Inv(s) && Ordered(s) && Enabled(s, l) && l.FlushForWait?
    requires Awaits(Apply(s, l), q, d) && d < |s.cmds| && s.cmds[d].phase == LISTED
    ensures s.cmds[d].queue < |s.queues| && Apply(s, l).queues[s.cmds[d].queue].process
  {
    ListedInList(s, d);
    if q == l.queue {
      FlushesTarget(s, q, d);
    } else {
      FlushLeavesOthers(s, l, q, d);
    }
  }

  lemma FlushLeavesOthers(s: State, l: Label, q: QueueId, d: CommandId)
    requires FlushedWaitsOk(s) && Enabled(s, l) && l.FlushForWait? && q != l.queue && Awaits(Apply(s, l), q, d)
    requires d < |s.cmds| && s.cmds[d].phase == LISTED && s.cmds[d].queue < |s.queues| && s.queues[s.cmds[d].queue].list != []
    ensures Apply(s, l).queues[s.cmds[d].queue].process
  {
    OtherWaiter(s, l, q, d);
    ProcessUntilEmpty(s, l, s.cmds[d].queue);
  }

  lemma OtherWaiter(s: State, l: Label, q: QueueId, d: CommandId)
    requires Enabled(s, l) && l.FlushForWait? && q != l.queue && Awaits(Apply(s, l), q, d)
    ensures Awaits(s, q, d)
  {
  }

  lemma StepKeepsFlushedWaits(s: State, l: Label)
    requires Inv(s) && Ordered(s) && Enabled(s, l)
    ensures FlushedWaitsOk(Apply(s, l))
  {
    StepInv(s, l);
    forall q: QueueId, d: CommandId | Awaits(Apply(s, l), q, d) && d < |Apply(s, l).cmds| && Apply(s, l).cmds[d].phase == LISTED
      ensures Apply(s, l).cmds[d].queue < |Apply(s, l).queues| && Apply(s, l).queues[Apply(s, l).cmds[d].queue].process
    {
      if l.FlushForWait? {
        FlushReachesAwaited(s, l, q, d);
      } else {
        AwaitedStaysProcessable(s, l, q, d);
      }
    }
  }

  lemma InitOrdered(s: State)
    requires Init(s)
    ensures Ordered(s)
  {
  }

  lemma StepOrdered(s: State, l: Label)
    requires Inv(s) && Ordered(s) && Enabled(s, l) && Polite(s, l)
    ensures Ordered(Apply(s, l))
  {
    if l.Create? {
      CreateKeepsOrder(s, l);
    } else if l.Enqueue? {
      EnqueueKeepsOrder(s, l);
    } else {
      StepSameOrder(s, l);
      OrderFrame(s, Apply(s, l));
    }
    StepKeepsFlushedWaits(s, l);
  }

  lemma {:induction false} PoliteRunKeeps(s: State, run: seq<Label>, s': State)
    requires Inv(s) && Ordered(s) && PoliteRun(s, run, s')
    ensures Inv(s') && Ordered(s')
    decreases |run|
  {
    if run != [] {
      StepInv(s, run[0]);
      StepOrdered(s, run[0]);
      PoliteRunKeeps(Apply(s, run[0]), run[1..], s');
    }
  }
}
