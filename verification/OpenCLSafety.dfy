/**
  What every step of the OpenCL queue protocol keeps, and what follows for every run.
 */
module OpenCLSafety {
  import opened Basics
  import opened OpenCLModel

  /** The phase that the history of a queue prescribes for its k-th command. */
  function PhaseAt(q: Queue, k: nat): Phase {
    if k >= q.taken then LISTED
    else if k + 1 < q.taken then FREED
    else match q.worker
      case Waiting(_, _, _) => TAKEN
      case Running(_) => STARTED
      case Freeing(_) => FINISHED
      case _ => FREED
  }

  /** The queue is its history minus what was taken, and its worker is at the last command taken. */
  ghost predicate QueueShape(q: Queue) {
    && q.taken <= |q.history| && q.list == q.history[q.taken..]
    && (q.worker.Busy() || q.worker.Returned? ==> q.taken > 0)
    && (q.worker.Busy() ==> q.worker.cmd == q.history[q.taken - 1])
  }

  /** `process` is a promise that there is work, and a worker is asleep only while it is not made. */
  ghost predicate NoLostWakeup(q: Queue) {
    && (q.process ==> q.list != [])
    && (q.worker == Blocked(false) ==> !q.process)
  }

  /** Commands run, and are freed, in the order in which they were enqueued and once each. */
  ghost predicate Fifo(q: Queue)
    requires QueueShape(q)
  {
    && q.freed == q.history[..if q.worker.Busy() then q.taken - 1 else q.taken]
    && q.ran == q.history[..if q.worker.Waiting? || q.worker.Running? || q.worker.Returned? then q.taken - 1 else q.taken]
  }

  /** The k-th command of a queue's history agrees with the command table. */
  ghost predicate EntryOk(q: Queue, id: QueueId, cmds: seq<Command>, k: nat)
    requires k < |q.history|
  {
    && q.history[k] < |cmds|
    && var c := cmds[q.history[k]];
       && c.queue == id && c.pos == k && c.phase == PhaseAt(q, k)
       && (k < q.taken ==> (c.kind == END <==> k == q.taken - 1 && q.worker.Returned?))
  }

  ghost predicate QueueOk(q: Queue, id: QueueId, cmds: seq<Command>) {
    && QueueShape(q) && NoLostWakeup(q) && Fifo(q)
    && forall k :: 0 <= k < |q.history| ==> EntryOk(q, id, cmds, k)
  }

  ghost predicate QueuesOk(queues: seq<Queue>, cmds: seq<Command>) {
    forall q :: 0 <= q < |queues| ==> QueueOk(queues[q], q, cmds)
  }

  /** A command that was enqueued is in the history of its queue, at its position. */
  ghost predicate CommandsOk(queues: seq<Queue>, cmds: seq<Command>) {
    forall c :: 0 <= c < |cmds| ==>
      && cmds[c].queue < |queues|
      && (cmds[c].phase != CREATED ==>
            cmds[c].pos < |queues[cmds[c].queue].history| && queues[cmds[c].queue].history[cmds[c].pos] == c)
      && (cmds[c].kind.END? ==> cmds[c].waits == [] && cmds[c].done == None)
  }

  /** The life of a completion event. */
  const LIFE: seq<Status> := [QUEUED, SUBMITTED, RUNNING, COMPLETE]

  /** How much of its event's life a command in this phase has caused. */
  function Level(p: Phase): nat {
    match p
    case CREATED => 0
    case LISTED => 1
    case TAKEN => 2
    case STARTED => 3
    case FINISHED => 4
    case FREED => 4
  }

  ghost predicate CommandEventsOk(cmds: seq<Command>, events: seq<Event>) {
    forall c :: 0 <= c < |cmds| ==>
      && (forall i :: 0 <= i < |cmds[c].waits| ==> cmds[c].waits[i] < |events|)
      && (cmds[c].done.Some? ==>
            && cmds[c].done.value < |events|
            && events[cmds[c].done.value].source == Some(c)
            && events[cmds[c].done.value].queue == Some(cmds[c].queue)
            && events[cmds[c].done.value].trail == LIFE[..Level(cmds[c].phase)])
  }

  ghost predicate EventsOk(cmds: seq<Command>, events: seq<Event>) {
    forall e :: 0 <= e < |events| ==>
      && (events[e].queue.None? <==> events[e].source.None?)
      && (events[e].source.Some? ==>
            && events[e].source.value < |cmds| && cmds[events[e].source.value].done == Some(e)
            && events[e].status == if events[e].trail == [] then QUEUED else events[e].trail[|events[e].trail| - 1])
  }

  ghost predicate Complete(events: seq<Event>, e: EventId) {
    e < |events| && events[e].status == COMPLETE
  }

  /** No command is past its wait list before all events in it are complete. */
  ghost predicate WaitsOk(cmds: seq<Command>, events: seq<Event>) {
    forall c, i :: 0 <= c < |cmds| && Level(cmds[c].phase) >= 3 && 0 <= i < |cmds[c].waits| ==>
      Complete(events, cmds[c].waits[i])
  }

  /** A worker waiting for event i of a wait list has seen the earlier ones complete. */
  ghost predicate WaiterOk(worker: Worker, cmds: seq<Command>, events: seq<Event>) {
    worker.Waiting? ==>
      && worker.cmd < |cmds| && worker.i <= |cmds[worker.cmd].waits|
      && (worker.flushed ==> worker.i < |cmds[worker.cmd].waits|)
      && forall k :: 0 <= k < worker.i ==> Complete(events, cmds[worker.cmd].waits[k])
  }

  ghost predicate WaitersOk(queues: seq<Queue>, cmds: seq<Command>, events: seq<Event>) {
    forall q :: 0 <= q < |queues| ==> WaiterOk(queues[q].worker, cmds, events)
  }

  /** References to e held by all commands that have not been freed. */
  ghost function Owed(cmds: seq<Command>, e: EventId): nat {
    if cmds == [] then 0
    else
      var last := cmds[|cmds| - 1];
      Owed(cmds[..|cmds| - 1], e) + if last.phase == FREED then 0 else Holds(last, e)
  }

  /** Reference conservation: an event's count is what the application and the commands hold. */
  ghost predicate RefsOk(cmds: seq<Command>, events: seq<Event>) {
    forall e :: 0 <= e < |events| ==> events[e].refs == events[e].held + Owed(cmds, e)
  }

  /** What holds in every reachable state. */
  ghost predicate Inv(s: State) {
    && QueuesOk(s.queues, s.cmds) && CommandsOk(s.queues, s.cmds)
    && CommandEventsOk(s.cmds, s.events) && EventsOk(s.cmds, s.events)
    && WaitsOk(s.cmds, s.events) && WaitersOk(s.queues, s.cmds, s.events)
    && RefsOk(s.cmds, s.events)
  }

  // ---------------------------------------------------------------- references

  lemma {:induction false} NothingOwed(cmds: seq<Command>, e: EventId)
    requires forall c :: 0 <= c < |cmds| ==> Holds(cmds[c], e) == 0
    ensures Owed(cmds, e) == 0
  {
    if cmds != [] {
      NothingOwed(cmds[..|cmds| - 1], e);
    }
  }

  /** An event that does not exist yet is not in any wait list or done slot. */
  lemma NotHeldYet(cmds: seq<Command>, events: seq<Event>, e: EventId)
    requires CommandEventsOk(cmds, events) && e >= |events|
    ensures Owed(cmds, e) == 0
  {
    forall c | 0 <= c < |cmds|
      ensures Holds(cmds[c], e) == 0
    {
      assert e !in cmds[c].waits;
    }
    NothingOwed(cmds, e);
  }

  ghost function Share(c: Command, e: EventId): nat {
    if c.phase == FREED then 0 else Holds(c, e)
  }

  lemma {:induction false} OwedAfterUpdate(cmds: seq<Command>, c: CommandId, c': Command, e: EventId)
    requires c < |cmds|
    ensures Owed(cmds[c := c'], e) == Owed(cmds, e) - Share(cmds[c], e) + Share(c', e)
    ensures Owed(cmds, e) >= Share(cmds[c], e)
  {
    var n := |cmds| - 1;
    if c == n {
      assert cmds[c := c'][..n] == cmds[..n];
    } else {
      assert cmds[c := c'][..n] == cmds[..n][c := c'];
      OwedAfterUpdate(cmds[..n], c, c', e);
    }
  }

  /** Changing a command's phase without freeing it moves no references. */
  lemma RefsAfterPhase(cmds: seq<Command>, events: seq<Event>, c: CommandId, c': Command, events': seq<Event>)
    requires RefsOk(cmds, events) && c < |cmds| && |events'| == |events|
    requires cmds[c].phase != FREED && c'.phase != FREED && c'.waits == cmds[c].waits && c'.done == cmds[c].done
    requires forall e :: 0 <= e < |events| ==> events'[e].refs == events[e].refs && events'[e].held == events[e].held
    ensures RefsOk(cmds[c := c'], events')
  {
    forall e | 0 <= e < |events'|
      ensures events'[e].refs == events'[e].held + Owed(cmds[c := c'], e)
    {
      OwedAfterUpdate(cmds, c, c', e);
    }
  }

  /** Freeing a command takes back exactly the references that creating it took. */
  lemma RefsAfterFree(cmds: seq<Command>, events: seq<Event>, c: CommandId)
    requires RefsOk(cmds, events) && c < |cmds| && cmds[c].phase != FREED
    ensures RefsOk(SetPhase(cmds, c, FREED), ReleaseAll(events, cmds[c]))
  {
    forall e | 0 <= e < |events|
      ensures ReleaseAll(events, cmds[c])[e].refs == events[e].held + Owed(SetPhase(cmds, c, FREED), e)
    {
      OwedAfterUpdate(cmds, c, cmds[c].(phase := FREED), e);
    }
  }

  // ---------------------------------------------------------------- events

  lemma NextInLife(n: nat)
    requires n < 4
    ensures LIFE[..n] + [LIFE[n]] == LIFE[..n + 1]
    ensures n > 0 ==> |LIFE[..n]| == n && LIFE[..n][n - 1] != COMPLETE
  {
  }

  lemma AdvanceCommandEvents(cmds: seq<Command>, events: seq<Event>, c: CommandId, c': Command)
    requires CommandEventsOk(cmds, events) && c < |cmds|
    requires c'.waits == cmds[c].waits && c'.done == cmds[c].done && c'.queue == cmds[c].queue
    requires Level(c'.phase) == Level(cmds[c].phase) + 1
    ensures CommandEventsOk(cmds[c := c'], SetStatus(events, cmds[c].done, LIFE[Level(cmds[c].phase)]))
  {
    var n := Level(cmds[c].phase);
    NextInLife(n);
    var cmds', events' := cmds[c := c'], SetStatus(events, cmds[c].done, LIFE[n]);
    forall d | 0 <= d < |cmds'| && cmds'[d].done.Some?
      ensures && cmds'[d].done.value < |events'|
              && events'[cmds'[d].done.value].source == Some(d)
              && events'[cmds'[d].done.value].queue == Some(cmds'[d].queue)
              && events'[cmds'[d].done.value].trail == LIFE[..Level(cmds'[d].phase)]
    {
      assert cmds[d].done == cmds'[d].done && events[cmds[d].done.value].source == Some(d);
    }
  }

  /** One more step in a command's life is one more entry in the trail of its event. */
  lemma AdvanceEvents(cmds: seq<Command>, events: seq<Event>, c: CommandId, c': Command)
    requires CommandEventsOk(cmds, events) && EventsOk(cmds, events) && c < |cmds|
    requires c'.waits == cmds[c].waits && c'.done == cmds[c].done && c'.queue == cmds[c].queue
    requires Level(c'.phase) == Level(cmds[c].phase) + 1
    ensures var events' := SetStatus(events, cmds[c].done, LIFE[Level(cmds[c].phase)]);
            && CommandEventsOk(cmds[c := c'], events') && EventsOk(cmds[c := c'], events')
            && forall e :: Complete(events, e) ==> Complete(events', e)
  {
    AdvanceCommandEvents(cmds, events, c, c');
    var n := Level(cmds[c].phase);
    NextInLife(n);
    if cmds[c].done.Some? {
      var e := cmds[c].done.value;
      assert events[e].trail == LIFE[..n] && events[e].status != COMPLETE;
    }
  }

  /** Steps that only touch reference counts keep what is known about events. */
  lemma CountsOnly(cmds: seq<Command>, events: seq<Event>, events': seq<Event>)
    requires CommandEventsOk(cmds, events) && EventsOk(cmds, events) && |events'| == |events|
    requires forall e :: 0 <= e < |events| ==> events'[e] == events[e].(refs := events'[e].refs, held := events'[e].held)
    ensures CommandEventsOk(cmds, events') && EventsOk(cmds, events')
    ensures forall e :: Complete(events', e) <==> Complete(events, e)
  {
  }

  /** Freeing keeps the level of a command. */
  lemma FreedEvents(cmds: seq<Command>, events: seq<Event>, c: CommandId)
    requires CommandEventsOk(cmds, events) && EventsOk(cmds, events) && c < |cmds|
    requires Level(cmds[c].phase) == 4 || cmds[c].done == None
    ensures CommandEventsOk(SetPhase(cmds, c, FREED), ReleaseAll(events, cmds[c]))
    ensures EventsOk(SetPhase(cmds, c, FREED), ReleaseAll(events, cmds[c]))
    ensures forall e :: Complete(ReleaseAll(events, cmds[c]), e) <==> Complete(events, e)
  {
    CountsOnly(cmds, events, ReleaseAll(events, cmds[c]));
  }

  // ---------------------------------------------------------------- queues

  /** A step of one queue and one of its commands leaves the other queues as they were. */
  lemma OtherQueues(queues: seq<Queue>, cmds: seq<Command>, q: QueueId, queue: Queue, c: CommandId, c': Command)
    requires QueuesOk(queues, cmds) && q < |queues| && c < |cmds| && cmds[c].queue == q
    requires QueueOk(queue, q, cmds[c := c'])
    ensures QueuesOk(queues[q := queue], cmds[c := c'])
  {
    var cmds' := cmds[c := c'];
    forall p | 0 <= p < |queues| && p != q
      ensures QueueOk(queues[p], p, cmds')
    {
      forall k | 0 <= k < |queues[p].history|
        ensures EntryOk(queues[p], p, cmds', k)
      {
        assert QueueOk(queues[p], p, cmds) && EntryOk(queues[p], p, cmds, k);
      }
    }
  }

  /** The worker's move from one program point to another, where the phase of its command follows. */
  lemma WorkerMoves(queue: Queue, next: Queue, q: QueueId, cmds: seq<Command>, phase: Phase)
    requires QueueOk(queue, q, cmds) && queue.worker.Busy() && QueueShape(next) && Fifo(next)
    requires next.history == queue.history && next.taken == queue.taken && next.list == queue.list
    requires next.process == queue.process && !next.worker.Blocked? && !next.worker.Returned?
    requires phase == PhaseAt(next, next.taken - 1)
    ensures queue.worker.cmd < |cmds| && QueueOk(next, q, SetPhase(cmds, queue.worker.cmd, phase))
  {
    var c := queue.worker.cmd;
    assert EntryOk(queue, q, cmds, queue.taken - 1);
    var cmds' := SetPhase(cmds, c, phase);
    forall k | 0 <= k < |next.history|
      ensures EntryOk(next, q, cmds', k)
    {
      assert EntryOk(queue, q, cmds, k);
    }
  }

  /** A queue's history is unaffected by commands that are not in it. */
  lemma QueueFrame(queue: Queue, q: QueueId, cmds: seq<Command>, cmds': seq<Command>)
    requires QueueOk(queue, q, cmds) && |cmds| <= |cmds'|
    requires forall c :: 0 <= c < |cmds| && cmds[c].queue == q && cmds[c].phase != CREATED ==> cmds'[c] == cmds[c]
    ensures QueueOk(queue, q, cmds')
  {
    forall k | 0 <= k < |queue.history|
      ensures EntryOk(queue, q, cmds', k)
    {
      assert EntryOk(queue, q, cmds, k);
    }
  }

  /** Wait lists stay satisfied: completion is final, and only satisfied commands get past their list. */
  lemma WaitsFrame(cmds: seq<Command>, events: seq<Event>, cmds': seq<Command>, events': seq<Event>)
    requires WaitsOk(cmds, events) && |cmds| <= |cmds'|
    requires forall e :: Complete(events, e) ==> Complete(events', e)
    requires forall c :: 0 <= c < |cmds'| && Level(cmds'[c].phase) >= 3 ==>
               c < |cmds| && cmds'[c].waits == cmds[c].waits && (Level(cmds[c].phase) >= 3 || cmds[c].waits == [])
    ensures WaitsOk(cmds', events')
  {
  }

  /** What the waiting workers have seen stays true. */
  lemma WaitersFrame(queues: seq<Queue>, cmds: seq<Command>, events: seq<Event>,
                     queues': seq<Queue>, cmds': seq<Command>, events': seq<Event>)
    requires WaitersOk(queues, cmds, events) && |cmds| <= |cmds'| && |queues| == |queues'|
    requires forall e :: Complete(events, e) ==> Complete(events', e)
    requires forall c :: 0 <= c < |cmds| ==> cmds'[c].waits == cmds[c].waits
    requires forall q :: 0 <= q < |queues| ==>
               queues'[q].worker == queues[q].worker || WaiterOk(queues'[q].worker, cmds, events)
    ensures WaitersOk(queues', cmds', events')
  {
    forall q | 0 <= q < |queues'|
      ensures WaiterOk(queues'[q].worker, cmds', events')
    {
      assert WaiterOk(queues'[q].worker, cmds, events);
    }
  }

  /** Positions stay right when one queue's history grows and one command moves on. */
  lemma CommandsFrame(queues: seq<Queue>, cmds: seq<Command>, q: QueueId, queue: Queue, c: CommandId, c': Command)
    requires CommandsOk(queues, cmds) && q < |queues| && c < |cmds| && queues[q].history <= queue.history
    requires c'.kind == cmds[c].kind && c'.queue == q == cmds[c].queue
    requires c'.waits == cmds[c].waits && c'.done == cmds[c].done
    requires c'.pos < |queue.history| && queue.history[c'.pos] == c
    ensures CommandsOk(queues[q := queue], cmds[c := c'])
  {
  }

  /**
    The common part of Enqueue, Take, Start and Finish: command c moves on by one level together with
    its queue, and its event gets the status that goes with the new level.
   */
  lemma AdvanceKeeps(s: State, q: QueueId, queue: Queue, c: CommandId, c': Command, clock: nat)
    requires Inv(s) && q < |s.queues| && c < |s.cmds| && s.cmds[c].queue == q
    requires QueueOk(queue, q, s.cmds[c := c']) && s.queues[q].history <= queue.history
    requires c' == s.cmds[c].(phase := c'.phase, pos := c'.pos, stamp := c'.stamp)
    requires c'.pos < |queue.history| && queue.history[c'.pos] == c
    requires Level(c'.phase) == Level(s.cmds[c].phase) + 1 && c'.phase != FREED && s.cmds[c].phase != FREED
    requires Level(c'.phase) == 3 ==> forall i :: 0 <= i < |c'.waits| ==> Complete(s.events, c'.waits[i])
    requires WaiterOk(queue.worker, s.cmds, s.events)
    ensures Inv(State(s.queues[q := queue], s.cmds[c := c'],
                      SetStatus(s.events, s.cmds[c].done, LIFE[Level(s.cmds[c].phase)]), clock))
  {
    var events' := SetStatus(s.events, s.cmds[c].done, LIFE[Level(s.cmds[c].phase)]);
    OtherQueues(s.queues, s.cmds, q, queue, c, c');
    AdvanceEvents(s.cmds, s.events, c, c');
    RefsAfterPhase(s.cmds, s.events, c, c', events');
    WaitersFrame(s.queues, s.cmds, s.events, s.queues[q := queue], s.cmds[c := c'], events');
    AdvanceWaits(s.cmds, s.events, c, c', events');
    CommandsFrame(s.queues, s.cmds, q, queue, c, c');
  }

  lemma AdvanceWaits(cmds: seq<Command>, events: seq<Event>, c: CommandId, c': Command, events': seq<Event>)
    requires WaitsOk(cmds, events) && c < |cmds| && c'.waits == cmds[c].waits
    requires forall e :: Complete(events, e) ==> Complete(events', e)
    requires Level(c'.phase) == Level(cmds[c].phase) + 1
    requires Level(c'.phase) == 3 ==> forall i :: 0 <= i < |c'.waits| ==> Complete(events, c'.waits[i])
    ensures WaitsOk(cmds[c := c'], events')
  {
  }

  /** The common part of freeing a command that has finished, or END: its references go back. */
  lemma ReleaseKeeps(s: State, q: QueueId, queue: Queue, c: CommandId)
    requires Inv(s) && q < |s.queues| && c < |s.cmds| && s.cmds[c].queue == q
    requires s.cmds[c].phase == FINISHED || (s.cmds[c].phase == LISTED && s.cmds[c].waits == [] && s.cmds[c].done == None)
    requires QueueOk(queue, q, SetPhase(s.cmds, c, FREED)) && queue.history == s.queues[q].history
    requires WaiterOk(queue.worker, s.cmds, s.events)
    ensures Inv(State(s.queues[q := queue], SetPhase(s.cmds, c, FREED), ReleaseAll(s.events, s.cmds[c]), s.clock))
  {
    var cmds', events' := SetPhase(s.cmds, c, FREED), ReleaseAll(s.events, s.cmds[c]);
    OtherQueues(s.queues, s.cmds, q, queue, c, cmds'[c]);
    FreedEvents(s.cmds, s.events, c);
    RefsAfterFree(s.cmds, s.events, c);
    WaitsFrame(s.cmds, s.events, cmds', events');
    WaitersFrame(s.queues, s.cmds, s.events, s.queues[q := queue], cmds', events');
    CommandsFrame(s.queues, s.cmds, q, queue, c, cmds'[c]);
  }

  // ---------------------------------------------------------------- steps of the application

  lemma CreateKeepsRefs(s: State, l: Label)
    requires Inv(s) && Enabled(s, l) && l.Create?
    ensures RefsOk(Apply(s, l).cmds, Apply(s, l).events)
  {
    var s' := Apply(s, l);
    assert s'.cmds[..|s.cmds|] == s.cmds;
    forall e | 0 <= e < |s'.events|
      ensures s'.events[e].refs == s'.events[e].held + Owed(s'.cmds, e)
    {
      if e == |s.events| {
        NotHeldYet(s.cmds, s.events, e);
        assert e !in l.waits;
      }
    }
  }

  lemma CreateKeepsEvents(s: State, l: Label)
    requires Inv(s) && Enabled(s, l) && l.Create?
    ensures CommandEventsOk(Apply(s, l).cmds, Apply(s, l).events) && EventsOk(Apply(s, l).cmds, Apply(s, l).events)
    ensures forall e :: Complete(s.events, e) ==> Complete(Apply(s, l).events, e)
  {
    var retained := RetainAll(s.events, l.waits);
    CountsOnly(s.cmds, s.events, retained);
    AddEvents(s.cmds, retained, Apply(s, l).cmds, Apply(s, l).events);
  }

  /** A new command and its new event. */
  lemma AddEvents(cmds: seq<Command>, events: seq<Event>, cmds': seq<Command>, events': seq<Event>)
    requires CommandEventsOk(cmds, events) && EventsOk(cmds, events)
    requires |cmds'| == |cmds| + 1 && cmds'[..|cmds|] == cmds
    requires |events| <= |events'| <= |events| + 1 && events'[..|events|] == events
    requires var x := cmds'[|cmds|];
             && x.phase == CREATED && (forall i :: 0 <= i < |x.waits| ==> x.waits[i] < |events|)
             && x.done == (if |events'| > |events| then Some(|events|) else None)
             && (|events'| > |events| ==>
                   var v := events'[|events|];
                   v.source == Some(|cmds|) && v.queue == Some(x.queue) && v.trail == [] && v.status == QUEUED)
    ensures CommandEventsOk(cmds', events') && EventsOk(cmds', events')
    ensures forall e :: Complete(events, e) ==> Complete(events', e)
  {
    assert forall e :: 0 <= e < |events| ==> events'[e] == events[e];
    assert forall c :: 0 <= c < |cmds| ==> cmds'[c] == cmds[c];
  }

  lemma CreateKeeps(s: State, l: Label)
    requires Inv(s) && Enabled(s, l) && l.Create?
    ensures Inv(Apply(s, l))
  {
    var s' := Apply(s, l);
    CreateKeepsRefs(s, l);
    CreateKeepsEvents(s, l);
    forall q | 0 <= q < |s.queues|
      ensures QueueOk(s.queues[q], q, s'.cmds)
    {
      QueueFrame(s.queues[q], q, s.cmds, s'.cmds);
    }
    WaitsFrame(s.cmds, s.events, s'.cmds, s'.events);
    WaitersFrame(s.queues, s.cmds, s.events, s.queues, s'.cmds, s'.events);
    assert CommandsOk(s.queues, s'.cmds);
  }

  lemma EnqueueKeepsQueue(queue: Queue, q: QueueId, cmds: seq<Command>, c: CommandId, clock: nat)
    requires QueueOk(queue, q, cmds) && c < |cmds| && cmds[c].phase == CREATED && cmds[c].queue == q
    ensures QueueOk(queue.(list := queue.list + [c], history := queue.history + [c]), q,
                    cmds[c := cmds[c].(phase := LISTED, pos := |queue.history|, stamp := clock)])
  {
    var queue' := queue.(list := queue.list + [c], history := queue.history + [c]);
    var cmds' := cmds[c := cmds[c].(phase := LISTED, pos := |queue.history|, stamp := clock)];
    forall k | 0 <= k < |queue'.history|
      ensures EntryOk(queue', q, cmds', k)
    {
      if k < |queue.history| {
        assert EntryOk(queue, q, cmds, k);
      }
    }
  }

  lemma EnqueueKeeps(s: State, l: Label)
    requires Inv(s) && Enabled(s, l) && l.Enqueue?
    ensures Inv(Apply(s, l))
  {
    var s' := Apply(s, l);
    var c, q := l.cmd, s.cmds[l.cmd].queue;
    EnqueueKeepsQueue(s.queues[q], q, s.cmds, c, s.clock);
    assert WaiterOk(s.queues[q].worker, s.cmds, s.events);
    AdvanceKeeps(s, q, s'.queues[q], c, s'.cmds[c], s'.clock);
  }

  lemma FlushKeepsQueue(queue: Queue, q: QueueId, cmds: seq<Command>)
    requires QueueOk(queue, q, cmds)
    ensures QueueOk(FlushQueue(queue), q, cmds)
  {
    forall k | 0 <= k < |queue.history|
      ensures EntryOk(FlushQueue(queue), q, cmds, k)
    {
      assert EntryOk(queue, q, cmds, k);
    }
  }

  lemma FlushKeeps(s: State, l: Label)
    requires Inv(s) && Enabled(s, l) && l.Flush?
    ensures Inv(Apply(s, l))
  {
    FlushKeepsQueue(s.queues[l.queue], l.queue, s.cmds);
    WaitersFrame(s.queues, s.cmds, s.events, Apply(s, l).queues, s.cmds, s.events);
  }

  lemma CountStepKeeps(s: State, l: Label)
    requires Inv(s) && Enabled(s, l) && (l.Retain? || l.Release?)
    ensures Inv(Apply(s, l))
  {
    var events' := Apply(s, l).events;
    CountsOnly(s.cmds, s.events, events');
    WaitsFrame(s.cmds, s.events, s.cmds, events');
    WaitersFrame(s.queues, s.cmds, s.events, s.queues, s.cmds, events');
    assert RefsOk(s.cmds, events');
  }

  lemma CreateUserEventKeeps(s: State, l: Label)
    requires Inv(s) && Enabled(s, l) && l.CreateUserEvent?
    ensures Inv(Apply(s, l))
  {
    var events' := Apply(s, l).events;
    UserEventAdded(s.cmds, s.events, events'[|s.events|]);
    WaitsFrame(s.cmds, s.events, s.cmds, events');
    WaitersFrame(s.queues, s.cmds, s.events, s.queues, s.cmds, events');
  }

  lemma UserEventAdded(cmds: seq<Command>, events: seq<Event>, v: Event)
    requires CommandEventsOk(cmds, events) && EventsOk(cmds, events) && RefsOk(cmds, events)
    requires v.queue.None? && v.source.None? && v.refs == v.held
    ensures CommandEventsOk(cmds, events + [v]) && EventsOk(cmds, events + [v]) && RefsOk(cmds, events + [v])
  {
    NotHeldYet(cmds, events, |events|);
  }

  lemma SetUserEventKeeps(s: State, l: Label)
    requires Inv(s) && Enabled(s, l) && l.SetUserEvent?
    ensures Inv(Apply(s, l))
  {
    var events' := Apply(s, l).events;
    assert s.events[l.event].source.None?;
    WaitsFrame(s.cmds, s.events, s.cmds, events');
    WaitersFrame(s.queues, s.cmds, s.events, s.queues, s.cmds, events');
    assert RefsOk(s.cmds, events');
    assert CommandEventsOk(s.cmds, events');
  }

  // ---------------------------------------------------------------- steps of the workers

  /** The command a dequeue takes is the oldest one of the queue that is still listed. */
  lemma TakeKeepsQueue(queue: Queue, q: QueueId, cmds: seq<Command>)
    requires QueueOk(queue, q, cmds) && CanTake(queue)
    ensures queue.list[0] < |cmds| && cmds[queue.list[0]].queue == q && cmds[queue.list[0]].phase == LISTED
    ensures var c := queue.list[0];
            var next := queue.(list := queue.list[1..], taken := queue.taken + 1,
                               process := queue.process && |queue.list| > 1);
            if cmds[c].kind.END? then QueueOk(next.(worker := Returned, freed := queue.freed + [c]), q, SetPhase(cmds, c, FREED))
            else QueueOk(next.(worker := Waiting(c, 0, false)), q, SetPhase(cmds, c, TAKEN))
  {
    var c := queue.list[0];
    assert c == queue.history[queue.taken] && EntryOk(queue, q, cmds, queue.taken);
    var next := queue.(list := queue.list[1..], taken := queue.taken + 1, process := queue.process && |queue.list| > 1);
    var next' := if cmds[c].kind.END? then next.(worker := Returned, freed := queue.freed + [c])
                 else next.(worker := Waiting(c, 0, false));
    var cmds' := SetPhase(cmds, c, if cmds[c].kind.END? then FREED else TAKEN);
    forall k | 0 <= k < |next'.history|
      ensures EntryOk(next', q, cmds', k)
    {
      assert EntryOk(queue, q, cmds, k);
    }
  }

  lemma TakeKeeps(s: State, l: Label)
    requires Inv(s) && Enabled(s, l) && l.Take? && s.cmds[s.queues[l.queue].list[0]].kind.WORK?
    ensures Inv(Apply(s, l))
  {
    var s', q, c := Apply(s, l), l.queue, s.queues[l.queue].list[0];
    TakeKeepsQueue(s.queues[q], q, s.cmds);
    AdvanceKeeps(s, q, s'.queues[q], c, s'.cmds[c], s'.clock);
  }

  lemma TakeEndKeeps(s: State, l: Label)
    requires Inv(s) && Enabled(s, l) && l.Take? && s.cmds[s.queues[l.queue].list[0]].kind.END?
    ensures Inv(Apply(s, l))
  {
    var s', q, c := Apply(s, l), l.queue, s.queues[l.queue].list[0];
    TakeKeepsQueue(s.queues[q], q, s.cmds);
    ReleaseKeeps(s, q, s'.queues[q], c);
  }

  lemma IdleKeepsQueue(queue: Queue, q: QueueId, cmds: seq<Command>, worker: Worker)
    requires QueueOk(queue, q, cmds) && (queue.worker.Ready? || queue.worker.Blocked?)
    requires worker == Ready || (worker == Blocked(false) && !CanTake(queue.(worker := Ready)))
    ensures QueueOk(queue.(worker := worker), q, cmds)
  {
    var next := queue.(worker := worker);
    forall k | 0 <= k < |next.history|
      ensures EntryOk(next, q, cmds, k)
    {
      assert EntryOk(queue, q, cmds, k);
    }
  }

  lemma SleepKeeps(s: State, l: Label)
    requires Inv(s) && Enabled(s, l) && (l.Block? || l.Wake?)
    ensures Inv(Apply(s, l))
  {
    var s' := Apply(s, l);
    IdleKeepsQueue(s.queues[l.queue], l.queue, s.cmds, s'.queues[l.queue].worker);
    WaitersFrame(s.queues, s.cmds, s.events, s'.queues, s.cmds, s.events);
  }

  /** Every event in the wait list of a command that is not freed exists: the command holds it. */
  lemma WaitEventsAlive(s: State, c: CommandId)
    requires Inv(s) && c < |s.cmds| && s.cmds[c].phase != FREED
    ensures AllAlive(s.events, s.cmds[c].waits)
    ensures s.cmds[c].done.Some? ==> Alive(s.events, s.cmds[c].done.value)
  {
    forall e: EventId | Holds(s.cmds[c], e) > 0 && e < |s.events|
      ensures Alive(s.events, e)
    {
      OwedAfterUpdate(s.cmds, c, s.cmds[c], e);
    }
    assert forall i :: 0 <= i < |s.cmds[c].waits| ==> s.cmds[c].waits[i] in multiset(s.cmds[c].waits);
  }

  /** The worker's own command, in the phase its program point prescribes. */
  lemma WorkersCommand(s: State, q: QueueId)
    requires Inv(s) && q < |s.queues| && s.queues[q].worker.Busy()
    ensures s.queues[q].worker.cmd < |s.cmds| && s.cmds[s.queues[q].worker.cmd].queue == q
    ensures s.cmds[s.queues[q].worker.cmd].phase == PhaseAt(s.queues[q], s.queues[q].taken - 1)
    ensures s.cmds[s.queues[q].worker.cmd].kind.WORK?
  {
    assert EntryOk(s.queues[q], q, s.cmds, s.queues[q].taken - 1);
  }

  /** The early return of clWaitForEvents on a destroyed event never happens in opencl_command_run. */
  lemma NeverSkipsWaits(s: State, q: QueueId)
    requires Inv(s)
    ensures !Enabled(s, SkipWaits(q))
  {
    if q < |s.queues| && s.queues[q].worker.Waiting? {
      WorkersCommand(s, q);
      WaitEventsAlive(s, s.queues[q].worker.cmd);
    }
  }

  lemma WaitMoveKeepsQueue(s: State, q: QueueId, worker: Worker)
    requires Inv(s) && q < |s.queues| && s.queues[q].worker.Waiting?
    requires worker.Waiting? && worker.cmd == s.queues[q].worker.cmd
    ensures QueueOk(s.queues[q].(worker := worker), q, s.cmds)
  {
    WorkersCommand(s, q);
    WorkerMoves(s.queues[q], s.queues[q].(worker := worker), q, s.cmds, TAKEN);
    assert SetPhase(s.cmds, worker.cmd, TAKEN) == s.cmds;
  }

  lemma SameHistories(queues: seq<Queue>, queues': seq<Queue>, cmds: seq<Command>)
    requires CommandsOk(queues, cmds) && |queues'| == |queues|
    requires forall q :: 0 <= q < |queues| ==> queues'[q].history == queues[q].history
    ensures CommandsOk(queues', cmds)
  {
  }

  /** A worker's progress through its wait list. */
  lemma WaiterMoves(s: State, q: QueueId, worker: Worker)
    requires Inv(s) && q < |s.queues| && s.queues[q].worker.Waiting?
    requires worker.Waiting? && worker.cmd == s.queues[q].worker.cmd && WaiterOk(worker, s.cmds, s.events)
    ensures Inv(SetQueue(s, q, s.queues[q].(worker := worker)))
  {
    var queues' := s.queues[q := s.queues[q].(worker := worker)];
    WaitMoveKeepsQueue(s, q, worker);
    SameHistories(s.queues, queues', s.cmds);
    WaitersFrame(s.queues, s.cmds, s.events, queues', s.cmds, s.events);
  }

  lemma PassWaitKeeps(s: State, l: Label)
    requires Inv(s) && Enabled(s, l) && l.PassWait?
    ensures Inv(Apply(s, l))
  {
    var w := s.queues[l.queue].worker;
    assert WaiterOk(w, s.cmds, s.events);
    OneMoreSeen(w, s.cmds, s.events);
    WaiterMoves(s, l.queue, Waiting(w.cmd, w.i + 1, false));
  }

  lemma OneMoreSeen(w: Worker, cmds: seq<Command>, events: seq<Event>)
    requires w.Waiting? && WaiterOk(w, cmds, events) && w.flushed && Complete(events, cmds[w.cmd].waits[w.i])
    ensures WaiterOk(Waiting(w.cmd, w.i + 1, false), cmds, events)
  {
  }

  lemma FlushForWaitKeeps(s: State, l: Label)
    requires Inv(s) && Enabled(s, l) && l.FlushForWait?
    ensures Inv(Apply(s, l))
  {
    var q, w := l.queue, s.queues[l.queue].worker;
    assert WaiterOk(w, s.cmds, s.events);
    WaiterMoves(s, q, Waiting(w.cmd, w.i, true));
    var moved := SetQueue(s, q, s.queues[q].(worker := Waiting(w.cmd, w.i, true)));
    var target := s.events[s.cmds[w.cmd].waits[w.i]].queue;
    if target.Some? && target.value < |moved.queues| {
      FlushKeeps(moved, Flush(target.value));
    }
  }

  /** The common part of Start and Finish: the worker and its command move on together. */
  lemma BusyMoves(s: State, q: QueueId, next: Queue, phase: Phase)
    requires Inv(s) && q < |s.queues| && s.queues[q].worker.Busy()
    requires next == s.queues[q].(worker := next.worker, ran := next.ran) && QueueShape(next) && Fifo(next)
    requires (next.worker.Running? && phase == STARTED) || (next.worker.Freeing? && phase == FINISHED)
    requires s.queues[q].worker.cmd < |s.cmds|
    requires Level(phase) == Level(s.cmds[s.queues[q].worker.cmd].phase) + 1
    requires var c := s.cmds[s.queues[q].worker.cmd];
             phase == STARTED ==> forall i :: 0 <= i < |c.waits| ==> Complete(s.events, c.waits[i])
    ensures var c := s.queues[q].worker.cmd;
            Inv(State(s.queues[q := next], SetPhase(s.cmds, c, phase),
                      SetStatus(s.events, s.cmds[c].done, LIFE[Level(s.cmds[c].phase)]), s.clock))
  {
    var c := s.queues[q].worker.cmd;
    WorkersCommand(s, q);
    WorkerMoves(s.queues[q], next, q, s.cmds, phase);
    AdvanceKeeps(s, q, next, c, s.cmds[c].(phase := phase), s.clock);
  }

  lemma StartKeeps(s: State, l: Label)
    requires Inv(s) && Enabled(s, l) && l.Start?
    ensures Inv(Apply(s, l))
  {
    var q := l.queue;
    WorkersCommand(s, q);
    assert WaiterOk(s.queues[q].worker, s.cmds, s.events) && QueueOk(s.queues[q], q, s.cmds);
    BusyMoves(s, q, Apply(s, l).queues[q], STARTED);
  }

  lemma FinishKeeps(s: State, l: Label)
    requires Inv(s) && Enabled(s, l) && l.Finish?
    ensures Inv(Apply(s, l))
  {
    var q := l.queue;
    WorkersCommand(s, q);
    assert QueueOk(s.queues[q], q, s.cmds);
    BusyMoves(s, q, Apply(s, l).queues[q], FINISHED);
  }

  lemma FreeKeeps(s: State, l: Label)
    requires Inv(s) && Enabled(s, l) && l.Free?
    ensures Inv(Apply(s, l))
  {
    var s', q, c := Apply(s, l), l.queue, s.queues[l.queue].worker.cmd;
    WorkersCommand(s, q);
    WorkerMoves(s.queues[q], s'.queues[q], q, s.cmds, FREED);
    ReleaseKeeps(s, q, s'.queues[q], c);
  }

  // ---------------------------------------------------------------- every step, every run

  lemma InitInv(s: State)
    requires Init(s)
    ensures Inv(s)
  {
  }

  /** Every step of every thread keeps the invariant. */
  lemma StepInv(s: State, l: Label)
    requires Inv(s) && Enabled(s, l)
    ensures Inv(Apply(s, l))
  {
    match l
    case Create(_, _, _, _) => CreateKeeps(s, l);
    case Enqueue(_) => EnqueueKeeps(s, l);
    case Flush(_) => FlushKeeps(s, l);
    case Retain(_) => CountStepKeeps(s, l);
    case Release(_) => CountStepKeeps(s, l);
    case CreateUserEvent => CreateUserEventKeeps(s, l);
    case SetUserEvent(_, _) => SetUserEventKeeps(s, l);
    case Take(q) => if s.cmds[s.queues[q].list[0]].kind.END? { TakeEndKeeps(s, l); } else { TakeKeeps(s, l); }
    case Block(_) => SleepKeeps(s, l);
    case Wake(_) => SleepKeeps(s, l);
    case SkipWaits(q) => NeverSkipsWaits(s, q);
    case FlushForWait(_) => FlushForWaitKeeps(s, l);
    case PassWait(_) => PassWaitKeeps(s, l);
    case Start(_) => StartKeeps(s, l);
    case Finish(_) => FinishKeeps(s, l);
    case Free(_) => FreeKeeps(s, l);
  }

  lemma {:induction false} RunInv(s: State, run: seq<Label>, s': State)
    requires Inv(s) && Reaches(s, run, s')
    ensures Inv(s')
    decreases |run|
  {
    if run != [] {
      StepInv(s, run[0]);
      RunInv(Apply(s, run[0]), run[1..], s');
    }
  }
}
