/**
  What the calls of an application come to, stated in terms of the calls themselves: the commands it
  created, with the wait lists it gave, the references it took, the user events it completed, the queues it
  flushed.
 */
module OpenCLCalls {
  import opened Basics
  import opened OpenCLModel
  import opened OpenCLSafety
  import opened OpenCLProgress
  import opened OpenCLOrder

  // ---------------------------------------------------------------- commands

  /** What a command was created with. */
  lemma CreatedAsAsked(s: State, kind: Kind, q: QueueId, waits: seq<EventId>, wantsEvent: bool)
    requires Enabled(s, Create(kind, q, waits, wantsEvent))
    ensures var s', c := Apply(s, Create(kind, q, waits, wantsEvent)), |s.cmds|;
            && |s'.cmds| == c + 1 && s'.cmds[c].kind == kind && s'.cmds[c].queue == q && s'.cmds[c].waits == waits
            && s'.cmds[c].phase == CREATED
            && if wantsEvent then s'.cmds[c].done == Some(|s.events|) && |s'.events| == |s.events| + 1
               else s'.cmds[c].done == None && |s'.events| == |s.events|
  {
  }

  /** Nothing changes what a command was created with. */
  lemma StepKeepsCommand(s: State, l: Label, c: CommandId)
    requires Enabled(s, l) && c < |s.cmds|
    ensures c < |Apply(s, l).cmds|
    ensures var x, x' := s.cmds[c], Apply(s, l).cmds[c];
            x'.kind == x.kind && x'.queue == x.queue && x'.waits == x.waits && x'.done == x.done
  {
  }

  lemma {:induction false} RunKeepsCommand(s: State, run: seq<Label>, s': State, c: CommandId)
    requires Reaches(s, run, s') && c < |s.cmds|
    ensures c < |s'.cmds|
    ensures var x, x' := s.cmds[c], s'.cmds[c];
            x'.kind == x.kind && x'.queue == x.queue && x'.waits == x.waits && x'.done == x.done
    decreases |run|
  {
    if run != [] {
      StepKeepsCommand(s, run[0], c);
      RunKeepsCommand(Apply(s, run[0]), run[1..], s', c);
    }
  }

  /** A command holds a reference for every place of its wait list. */
  lemma WaitsAreHeld(s: State, c: CommandId, e: EventId)
    requires Inv(s) && c < |s.cmds| && s.cmds[c].phase != FREED && e < |s.events|
    ensures s.events[e].refs >= s.events[e].held + multiset(s.cmds[c].waits)[e]
    ensures s.cmds[c].done == Some(e) ==> s.events[e].refs >= s.events[e].held + multiset(s.cmds[c].waits)[e] + 1
  {
    OwedAfterUpdate(s.cmds, c, s.cmds[c], e);
  }

  /** A command has seen the events of this wait list complete, or still holds a reference for each place of it. */
  ghost predicate Heeds(s: State, c: CommandId, waits: seq<EventId>)
    requires c < |s.cmds|
  {
    && (HasStarted(s, c) || s.cmds[c].phase == FREED ==> forall i :: 0 <= i < |waits| ==> Complete(s.events, waits[i]))
    && (s.cmds[c].phase != FREED ==>
          forall i :: 0 <= i < |waits| ==>
            waits[i] < |s.events| && s.events[waits[i]].refs >= s.events[waits[i]].held + multiset(waits)[waits[i]] >= 1)
  }

  lemma HeedsItsWaits(s: State, c: CommandId)
    requires Inv(s) && c < |s.cmds|
    ensures Heeds(s, c, s.cmds[c].waits)
  {
    StartedLevel(s, c);
    var waits := s.cmds[c].waits;
    if s.cmds[c].phase != FREED {
      forall i | 0 <= i < |waits|
        ensures waits[i] < |s.events| && s.events[waits[i]].refs >= s.events[waits[i]].held + multiset(waits)[waits[i]] >= 1
      {
        WaitsAreHeld(s, c, waits[i]);
        assert waits[i] in multiset(waits);
      }
    }
  }

  /**
    The life of a command, from the call that created it with these wait events. In every later state it is
    what was asked for; once it has started, every event that the caller named is complete; and until it is
    freed it holds a reference on each of them for every time it was named.
   */
  lemma StartsAfterItsWaits(s0: State, run0: seq<Label>, s1: State, kind: Kind, q: QueueId, waits: seq<EventId>, wantsEvent: bool,
                            run: seq<Label>, s: State)
    requires Init(s0) && Reaches(s0, run0, s1)
    requires Enabled(s1, Create(kind, q, waits, wantsEvent)) && Reaches(Apply(s1, Create(kind, q, waits, wantsEvent)), run, s)
    ensures var c := |s1.cmds|;
            && c < |s.cmds| && s.cmds[c].kind == kind && s.cmds[c].queue == q
            && s.cmds[c].done == (if wantsEvent then Some(|s1.events|) else None)
            && Heeds(s, c, waits)
  {
    var l, c := Create(kind, q, waits, wantsEvent), |s1.cmds|;
    InitInv(s0);
    RunInv(s0, run0, s1);
    StepInv(s1, l);
    RunInv(Apply(s1, l), run, s);
    CreatedAsAsked(s1, kind, q, waits, wantsEvent);
    RunKeepsCommand(Apply(s1, l), run, s, c);
    HeedsItsWaits(s, c);
  }

  // ---------------------------------------------------------------- queues

  /** The commands that a run enqueues on queue q, in order. */
  ghost function EnqueuedOn(s: State, run: seq<Label>, q: QueueId): seq<CommandId>
    decreases |run|
  {
    if run == [] || !Enabled(s, run[0]) then []
    else
      var rest := EnqueuedOn(Apply(s, run[0]), run[1..], q);
      if run[0].Enqueue? && s.cmds[run[0].cmd].queue == q then [run[0].cmd] + rest else rest
  }

  lemma StepHistory(s: State, l: Label, q: QueueId)
    requires Enabled(s, l) && q < |s.queues|
    ensures q < |Apply(s, l).queues|
    ensures Apply(s, l).queues[q].history ==
            s.queues[q].history + if l.Enqueue? && s.cmds[l.cmd].queue == q then [l.cmd] else []
  {
  }

  /** A queue's history is exactly what was enqueued on it, in order: what QueueDiscipline says, it says about the calls. */
  lemma {:induction false} HistoryIsEnqueued(s: State, run: seq<Label>, s': State, q: QueueId)
    requires Reaches(s, run, s') && q < |s.queues|
    ensures q < |s'.queues| && s'.queues[q].history == s.queues[q].history + EnqueuedOn(s, run, q)
    decreases |run|
  {
    if run != [] {
      StepHistory(s, run[0], q);
      HistoryIsEnqueued(Apply(s, run[0]), run[1..], s', q);
    }
  }

  /** The step flushes queue q, by a call or because a worker is about to wait for an event of that queue. */
  ghost predicate Flushes(s: State, l: Label, q: QueueId) {
    || l == Flush(q)
    || (l.FlushForWait? && Enabled(s, l)
        && var w := s.queues[l.queue].worker; s.events[s.cmds[w.cmd].waits[w.i]].queue == Some(q))
  }

  ghost predicate NeverFlushed(s: State, run: seq<Label>, q: QueueId)
    decreases |run|
  {
    run == [] || !Enabled(s, run[0]) || (!Flushes(s, run[0], q) && NeverFlushed(Apply(s, run[0]), run[1..], q))
  }

  /** Enqueueing alone runs nothing: without a flush, a queue that is not being processed stays as it is. */
  lemma {:induction false} NothingBeforeFlush(s: State, run: seq<Label>, s': State, q: QueueId)
    requires Reaches(s, run, s') && q < |s.queues| && !s.queues[q].process && NeverFlushed(s, run, q)
    ensures q < |s'.queues| && !s'.queues[q].process && s'.queues[q].taken == s.queues[q].taken
    decreases |run|
  {
    if run != [] {
      NoProcessing(s, run[0], q);
      NothingBeforeFlush(Apply(s, run[0]), run[1..], s', q);
    }
  }

  lemma NoProcessing(s: State, l: Label, q: QueueId)
    requires Enabled(s, l) && q < |s.queues| && !s.queues[q].process && !Flushes(s, l, q)
    ensures q < |Apply(s, l).queues| && !Apply(s, l).queues[q].process && Apply(s, l).queues[q].taken == s.queues[q].taken
  {
  }

  // ---------------------------------------------------------------- references

  function Count(run: seq<Label>, l: Label): nat {
    if run == [] then 0 else (if run[0] == l then 1 else 0) + Count(run[1..], l)
  }

  lemma StepHeld(s: State, l: Label, e: EventId)
    requires Enabled(s, l) && e < |s.events|
    ensures e < |Apply(s, l).events|
    ensures Apply(s, l).events[e].held == s.events[e].held + (if l == Retain(e) then 1 else 0) - (if l == Release(e) then 1 else 0)
  {
    if l.Create? {
      assert Apply(s, l).events[e] == RetainAll(s.events, l.waits)[e];
    }
  }

  lemma {:induction false} HeldCounts(s: State, run: seq<Label>, s': State, e: EventId)
    requires Reaches(s, run, s') && e < |s.events|
    ensures e < |s'.events| && s'.events[e].held == s.events[e].held + Count(run, Retain(e)) - Count(run, Release(e))
    decreases |run|
  {
    if run != [] {
      StepHeld(s, run[0], e);
      HeldCounts(Apply(s, run[0]), run[1..], s', e);
    }
  }

  /**
    The reference count of an event, from the call that created it: one for the caller, plus its
    clRetainEvent calls, minus its clReleaseEvent calls, plus what the commands not yet freed hold.
   */
  lemma CountFromCalls(s0: State, run0: seq<Label>, s1: State, l: Label, run: seq<Label>, s: State)
    requires Init(s0) && Reaches(s0, run0, s1) && Enabled(s1, l) && Reaches(Apply(s1, l), run, s)
    requires l.CreateUserEvent? || (l.Create? && l.wantsEvent)
    ensures var e := |s1.events|;
            && e < |s.events|
            && s.events[e].refs == 1 + Count(run, Retain(e)) - Count(run, Release(e)) + Owed(s.cmds, e)
            && s.events[e].source == if l.Create? then Some(|s1.cmds|) else None
  {
    var s2, e := Apply(s1, l), |s1.events|;
    InitInv(s0);
    RunInv(s0, run0, s1);
    StepInv(s1, l);
    assert e < |s2.events| && s2.events[e].held == 1;
    HeldCounts(s2, run, s, e);
    RunInv(s2, run, s);
    RunKeepsSource(s2, run, s, e);
  }

  lemma {:induction false} RunKeepsSource(s: State, run: seq<Label>, s': State, e: EventId)
    requires Reaches(s, run, s') && e < |s.events|
    ensures e < |s'.events| && s'.events[e].source == s.events[e].source
    decreases |run|
  {
    if run != [] {
      FixedAtCreation(s, run[0]);
      RunKeepsSource(Apply(s, run[0]), run[1..], s', e);
    }
  }

  // ---------------------------------------------------------------- user events

  /** The status of a user event is changed by clSetUserEventStatus only, and only while it is open. */
  lemma UserEventStatus(s: State, l: Label, e: EventId)
    requires Inv(s) && Enabled(s, l) && e < |s.events| && s.events[e].source.None?
    ensures e < |Apply(s, l).events|
    ensures Apply(s, l).events[e].status ==
            if l.SetUserEvent? && l.event == e && s.events[e].status == QUEUED then l.status else s.events[e].status
  {
    if l.Create? {
      assert Apply(s, l).events[e] == RetainAll(s.events, l.waits)[e];
    }
  }

  /** What a user event was set to is final. */
  lemma {:induction false} UserEventIsFinal(s: State, run: seq<Label>, s': State, e: EventId)
    requires Inv(s) && Reaches(s, run, s') && e < |s.events| && s.events[e].source.None? && s.events[e].status != QUEUED
    ensures e < |s'.events| && s'.events[e].status == s.events[e].status
    decreases |run|
  {
    if run != [] {
      StepInv(s, run[0]);
      UserEventStatus(s, run[0], e);
      FixedAtCreation(s, run[0]);
      UserEventIsFinal(Apply(s, run[0]), run[1..], s', e);
    }
  }

  /** Completing a user event lets every worker go on that waits for it, now or later. */
  lemma CompletingReleases(s: State, e: EventId, run: seq<Label>, s': State, q: QueueId)
    requires Inv(s) && Enabled(s, SetUserEvent(e, COMPLETE)) && Reaches(Apply(s, SetUserEvent(e, COMPLETE)), run, s')
    requires q < |s'.queues| && s'.queues[q].worker.Waiting? && s'.queues[q].worker.flushed
    requires var w := s'.queues[q].worker;
             w.cmd < |s'.cmds| && w.i < |s'.cmds[w.cmd].waits| && s'.cmds[w.cmd].waits[w.i] == e
    ensures Enabled(s', PassWait(q))
    ensures var w := s'.queues[q].worker; Apply(s', PassWait(q)).queues[q].worker == Waiting(w.cmd, w.i + 1, false)
  {
    StepInv(s, SetUserEvent(e, COMPLETE));
    UserEventIsFinal(Apply(s, SetUserEvent(e, COMPLETE)), run, s', e);
  }
}
