/**
  The results about the OpenCL command queues that hold in every run: order of execution, absence of lost
  wakeups, and conservation of references.
 */
module OpenCLOrder {
  import opened Basics
  import opened OpenCLModel
  import opened OpenCLSafety
  import opened OpenCLProgress

  /** Completion events never lose a status they have been given. */
  lemma StepTrail(s: State, l: Label, e: EventId)
    requires Enabled(s, l) && e < |s.events|
    ensures e < |Apply(s, l).events| && s.events[e].trail <= Apply(s, l).events[e].trail
  {
    var s' := Apply(s, l);
    if l.Create? {
      assert s'.events[e] == RetainAll(s.events, l.waits)[e];
    }
    assert |s'.events| >= |s.events|;
  }

  lemma {:induction false} RunTrail(s: State, run: seq<Label>, s': State, e: EventId)
    requires Reaches(s, run, s') && e < |s.events|
    ensures e < |s'.events| && s.events[e].trail <= s'.events[e].trail
    decreases |run|
  {
    if run != [] {
      StepTrail(s, run[0], e);
      RunTrail(Apply(s, run[0]), run[1..], s', e);
    }
  }

  /** By the status of its event, or if it has none by its own phase, the command has started. */
  ghost predicate HasStarted(s: State, c: CommandId)
    requires c < |s.cmds|
  {
    match s.cmds[c].done
    case Some(e) => e < |s.events| && (s.events[e].status == RUNNING || s.events[e].status == COMPLETE)
    case None => s.cmds[c].phase == STARTED || s.cmds[c].phase == FINISHED || s.cmds[c].phase == FREED
  }

  /** The status of its event tells how far a command has come. */
  lemma StartedLevel(s: State, c: CommandId)
    requires Inv(s) && c < |s.cmds|
    ensures HasStarted(s, c) <==> Level(s.cmds[c].phase) >= 3
  {
    if s.cmds[c].done.Some? {
      var n := Level(s.cmds[c].phase);
      assert s.events[s.cmds[c].done.value].trail == LIFE[..n];
      assert n > 0 ==> LIFE[..n][n - 1] == LIFE[n - 1];
    }
  }

  /**
    In every run a command's event goes through QUEUED, SUBMITTED, RUNNING, COMPLETE in this order and
    once each; and once it is RUNNING or COMPLETE, or the command has started if it has no event, every event
    of the wait list is complete and every command enqueued earlier on the same queue has finished and been
    freed.
   */
  lemma InOrderExecution(s0: State, run: seq<Label>, s: State, c: CommandId)
    requires Init(s0) && Reaches(s0, run, s) && c < |s.cmds|
    ensures s.cmds[c].done.Some? ==>
              var v := s.cmds[c].done.value;
              && v < |s.events| && s.events[v].trail <= LIFE
              && (s.events[v].trail != [] ==> s.events[v].status == s.events[v].trail[|s.events[v].trail| - 1])
    ensures HasStarted(s, c) ==> forall i :: 0 <= i < |s.cmds[c].waits| ==> Complete(s.events, s.cmds[c].waits[i])
    ensures HasStarted(s, c) ==>
              forall d :: 0 <= d < |s.cmds| && Enqueued(s, d) && s.cmds[d].queue == s.cmds[c].queue && s.cmds[d].pos < s.cmds[c].pos ==>
                s.cmds[d].phase == FREED && (s.cmds[d].done.Some? ==> Complete(s.events, s.cmds[d].done.value))
  {
    InitInv(s0);
    RunInv(s0, run, s);
    StartedLevel(s, c);
    if HasStarted(s, c) {
      forall d | 0 <= d < |s.cmds| && Enqueued(s, d) && s.cmds[d].queue == s.cmds[c].queue && s.cmds[d].pos < s.cmds[c].pos
        ensures s.cmds[d].phase == FREED && (s.cmds[d].done.Some? ==> Complete(s.events, s.cmds[d].done.value))
      {
        EarlierIsFreed(s, c, d);
      }
    }
  }

  /**
    What clFinish relies on: it waits for the event of a command that it enqueues last. When that event
    is complete, every command enqueued earlier on the queue has been run and freed.
   */
  lemma FinishCoversEarlier(s0: State, run: seq<Label>, s: State, nop: CommandId, d: CommandId)
    requires Init(s0) && Reaches(s0, run, s) && nop < |s.cmds| && d < |s.cmds|
    requires s.cmds[nop].done.Some? && Complete(s.events, s.cmds[nop].done.value)
    requires Enqueued(s, d) && s.cmds[d].queue == s.cmds[nop].queue && s.cmds[d].pos < s.cmds[nop].pos
    ensures s.cmds[nop].phase == FINISHED || s.cmds[nop].phase == FREED
    ensures s.cmds[d].phase == FREED && s.cmds[d].queue < |s.queues| && d in s.queues[s.cmds[d].queue].freed
  {
    InitInv(s0);
    RunInv(s0, run, s);
    var v := s.cmds[nop].done.value;
    assert s.events[v].trail == LIFE[..Level(s.cmds[nop].phase)];
    InOrderExecution(s0, run, s, nop);
    var q := s.cmds[d].queue;
    assert QueueOk(s.queues[q], q, s.cmds) && EntryOk(s.queues[q], q, s.cmds, s.cmds[d].pos);
    assert EntryOk(s.queues[q], q, s.cmds, s.cmds[nop].pos);
  }

  lemma EarlierIsFreed(s: State, c: CommandId, d: CommandId)
    requires Inv(s) && c < |s.cmds| && d < |s.cmds| && Enqueued(s, c) && Enqueued(s, d)
    requires s.cmds[d].queue == s.cmds[c].queue && s.cmds[d].pos < s.cmds[c].pos && s.cmds[c].phase != LISTED
    ensures s.cmds[d].phase == FREED && (s.cmds[d].done.Some? ==> Complete(s.events, s.cmds[d].done.value))
  {
    var q := s.cmds[c].queue;
    assert QueueOk(s.queues[q], q, s.cmds);
    assert EntryOk(s.queues[q], q, s.cmds, s.cmds[c].pos) && EntryOk(s.queues[q], q, s.cmds, s.cmds[d].pos);
    FreedIsComplete(s, d);
  }

  lemma FreedIsComplete(s: State, d: CommandId)
    requires Inv(s) && d < |s.cmds| && Level(s.cmds[d].phase) == 4
    ensures s.cmds[d].done.Some? ==> Complete(s.events, s.cmds[d].done.value)
  {
    assert LIFE[..4] == LIFE;
  }

  /** In every run, and for every queue: FIFO execution and freeing, and no lost wakeup. */
  lemma QueueDiscipline(s0: State, run: seq<Label>, s: State, q: QueueId)
    requires Init(s0) && Reaches(s0, run, s) && q < |s.queues|
    ensures s.queues[q].ran <= s.queues[q].history && s.queues[q].freed <= s.queues[q].history
    ensures s.queues[q].taken <= |s.queues[q].history| && s.queues[q].list == s.queues[q].history[s.queues[q].taken..]
    ensures s.queues[q].process ==> s.queues[q].list != []
    ensures s.queues[q].worker == Blocked(false) ==> !s.queues[q].process
  {
    InitInv(s0);
    RunInv(s0, run, s);
    assert QueueOk(s.queues[q], q, s.cmds);
  }

  /** Event references are conserved in every run: no event in use is destroyed, and none is leaked. */
  lemma ReferencesConserved(s0: State, run: seq<Label>, s: State, e: EventId)
    requires Init(s0) && Reaches(s0, run, s) && e < |s.events|
    ensures s.events[e].refs == s.events[e].held + Owed(s.cmds, e) >= 0
    ensures (forall c :: 0 <= c < |s.cmds| ==> s.cmds[c].phase == FREED) ==> s.events[e].refs == s.events[e].held
    ensures forall c :: 0 <= c < |s.cmds| && s.cmds[c].phase != FREED && Holds(s.cmds[c], e) > 0 ==> Alive(s.events, e)
  {
    InitInv(s0);
    RunInv(s0, run, s);
    if forall c :: 0 <= c < |s.cmds| ==> s.cmds[c].phase == FREED {
      AllFreed(s.cmds, e);
    }
    forall c | 0 <= c < |s.cmds| && s.cmds[c].phase != FREED && Holds(s.cmds[c], e) > 0
      ensures Alive(s.events, e)
    {
      OwedAfterUpdate(s.cmds, c, s.cmds[c], e);
    }
  }

  lemma {:induction false} AllFreed(cmds: seq<Command>, e: EventId)
    requires forall c :: 0 <= c < |cmds| ==> cmds[c].phase == FREED
    ensures Owed(cmds, e) == 0
  {
    if cmds != [] {
      AllFreed(cmds[..|cmds| - 1], e);
    }
  }
}
