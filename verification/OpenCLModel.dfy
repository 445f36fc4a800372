/**
  The OpenCL command queues of command-queue.c, command.c and event.c as one labelled transition
  system: any number of queues, each with its worker thread, and any number of host threads. A label
  is one step that the locks make atomic; Enabled says when a thread can take it and Apply what it
  does. Fields below a "history" comment are not in the C structures: they record what happened.
 */
module OpenCLModel {
  import opened Basics

  type QueueId = nat
  type CommandId = nat
  type EventId = nat

  /** Event status; FAILED stands for the negative codes of clSetUserEventStatus. */
  datatype Status = QUEUED | SUBMITTED | RUNNING | COMPLETE | FAILED

  datatype Event = Event(
    status: Status,
    queue: Option<QueueId>,       // command_queue; None for user events
    refs: int,                    // reference count of the OpenCL object
    // history
    source: Option<CommandId>,    // the command whose completion the event stands for
    held: nat,                    // references owned by the application
    trail: seq<Status>            // the values given to opencl_event_set_status
  )

  datatype Kind = WORK | END

  /** How far a command has come; FREED covers everything after opencl_command_free. */
  datatype Phase = CREATED | LISTED | TAKEN | STARTED | FINISHED | FREED

  datatype Command = Command(
    kind: Kind,
    queue: QueueId,
    waits: seq<EventId>,
    done: Option<EventId>,
    // history
    phase: Phase,
    pos: nat,                     // index in the history of its queue
    stamp: nat                    // when it was enqueued
  )

  /** Where the worker thread of a queue is. */
  datatype Worker =
    | Ready                                               // before the loop test of dequeue
    | Blocked(signalled: bool)                            // in pthread_cond_wait
    | Waiting(cmd: CommandId, i: nat, flushed: bool)      // in clWaitForEvents, at event i
    | Running(cmd: CommandId)                             // in the command's function
    | Freeing(cmd: CommandId)                             // before opencl_command_free
    | Returned                                            // END was taken
  {
    predicate Busy() {
      Waiting? || Running? || Freeing?
    }
  }

  datatype Queue = Queue(
    list: seq<CommandId>,         // command_list
    process: bool,
    worker: Worker,
    // history
    history: seq<CommandId>,      // every command ever enqueued
    taken: nat,                   // how many of them have been dequeued
    ran: seq<CommandId>,          // the commands whose function was called
    freed: seq<CommandId>         // the commands that were freed
  )

  datatype State = State(queues: seq<Queue>, cmds: seq<Command>, events: seq<Event>, clock: nat)

  datatype Label =
    // application threads
    | Create(kind: Kind, queue: QueueId, waits: seq<EventId>, wantsEvent: bool)
    | Enqueue(cmd: CommandId)
    | Flush(queue: QueueId)
    | Retain(event: EventId)
    | Release(event: EventId)
    | CreateUserEvent
    | SetUserEvent(event: EventId, status: Status)
    // worker thread of a queue
    | Take(queue: QueueId)
    | Block(queue: QueueId)
    | Wake(queue: QueueId)
    | SkipWaits(queue: QueueId)
    | FlushForWait(queue: QueueId)
    | PassWait(queue: QueueId)
    | Start(queue: QueueId)
    | Finish(queue: QueueId)
    | Free(queue: QueueId)

  /** All queues freshly created: opencl_command_queue_create. */
  ghost predicate Init(s: State) {
    && s.cmds == [] && s.events == [] && s.clock == 0
    && forall q :: 0 <= q < |s.queues| ==> s.queues[q] == Queue([], false, Ready, [], 0, [], [])
  }

  /** References that one command holds on event e. */
  ghost function Holds(c: Command, e: EventId): nat {
    multiset(c.waits)[e] + (if c.done == Some(e) then 1 else 0)
  }

  /** opencl_event_set_status on a command's event, if it has one. */
  function SetStatus(events: seq<Event>, done: Option<EventId>, status: Status): (r: seq<Event>)
    ensures |r| == |events|
  {
    if done.Some? && done.value < |events| then
      var v := events[done.value];
      events[done.value := v.(status := status, trail := v.trail + [status])]
    else
      events
  }

  /** opencl_command_queue_flush, clFlush, and the flush at the start of opencl_event_wait. */
  function FlushQueue(q: Queue): Queue {
    if q.list != [] && !q.process then
      q.(process := true, worker := if q.worker.Blocked? then Blocked(true) else q.worker)
    else
      q
  }

  /** clRetainEvent on every wait event. */
  ghost function RetainAll(events: seq<Event>, waits: seq<EventId>): (r: seq<Event>)
    ensures |r| == |events|
  {
    seq(|events|, e requires 0 <= e < |events| => events[e].(refs := events[e].refs + multiset(waits)[e]))
  }

  /** clReleaseEvent on every wait event and on the completion event. */
  ghost function ReleaseAll(events: seq<Event>, c: Command): (r: seq<Event>)
    ensures |r| == |events|
  {
    seq(|events|, e requires 0 <= e < |events| => events[e].(refs := events[e].refs - Holds(c, e)))
  }

  /** opencl_object_verify: the object has not been destroyed. */
  ghost predicate Alive(events: seq<Event>, e: EventId) {
    e < |events| && events[e].refs > 0
  }

  ghost predicate AllAlive(events: seq<Event>, waits: seq<EventId>) {
    forall i :: 0 <= i < |waits| ==> Alive(events, waits[i])
  }

  predicate CanTake(q: Queue) {
    q.worker.Ready? && q.process && q.list != []
  }

  ghost predicate Enabled(s: State, l: Label) {
    match l
    case Create(kind, q, waits, wantsEvent) =>
      // a dead wait event is refused or fatal; END is created by opencl_command_queue_free only
      q < |s.queues| && AllAlive(s.events, waits) && (kind.END? ==> waits == [] && !wantsEvent)
    case Enqueue(c) => c < |s.cmds| && s.cmds[c].phase == CREATED && s.cmds[c].queue < |s.queues|
    case Flush(q) => q < |s.queues|
    case Retain(e) => Alive(s.events, e)
    case Release(e) => e < |s.events| && s.events[e].held > 0
    case CreateUserEvent => true
    case SetUserEvent(e, status) =>
      Alive(s.events, e) && s.events[e].queue.None? && (status.COMPLETE? || status.FAILED?) && s.events[e].status == QUEUED
    case Take(q) => q < |s.queues| && CanTake(s.queues[q]) && s.queues[q].list[0] < |s.cmds|
    case Block(q) => q < |s.queues| && s.queues[q].worker.Ready? && !CanTake(s.queues[q])
    case Wake(q) => q < |s.queues| && s.queues[q].worker.Blocked?
    case SkipWaits(q) =>
      && q < |s.queues| && s.queues[q].worker.Waiting? && s.queues[q].worker.cmd < |s.cmds|
      && s.queues[q].worker.i == 0 && !s.queues[q].worker.flushed
      && !AllAlive(s.events, s.cmds[s.queues[q].worker.cmd].waits)
    case FlushForWait(q) =>
      && q < |s.queues| && s.queues[q].worker.Waiting? && s.queues[q].worker.cmd < |s.cmds|
      && !s.queues[q].worker.flushed
      && var w := s.queues[q].worker; var waits := s.cmds[w.cmd].waits;
         w.i < |waits| && waits[w.i] < |s.events| && (w.i == 0 ==> AllAlive(s.events, waits))
    case PassWait(q) =>
      && q < |s.queues| && s.queues[q].worker.Waiting? && s.queues[q].worker.cmd < |s.cmds|
      && s.queues[q].worker.flushed
      && var w := s.queues[q].worker; var waits := s.cmds[w.cmd].waits;
         w.i < |waits| && waits[w.i] < |s.events| && s.events[waits[w.i]].status == COMPLETE
    case Start(q) =>
      && q < |s.queues| && s.queues[q].worker.Waiting? && s.queues[q].worker.cmd < |s.cmds|
      && !s.queues[q].worker.flushed && s.queues[q].worker.i == |s.cmds[s.queues[q].worker.cmd].waits|
    case Finish(q) => q < |s.queues| && s.queues[q].worker.Running? && s.queues[q].worker.cmd < |s.cmds|
    case Free(q) => q < |s.queues| && s.queues[q].worker.Freeing? && s.queues[q].worker.cmd < |s.cmds|
  }

  /** Moves command c to a new phase. */
  function SetPhase(cmds: seq<Command>, c: CommandId, phase: Phase): (r: seq<Command>)
    requires c < |cmds|
    ensures |r| == |cmds|
  {
    cmds[c := cmds[c].(phase := phase)]
  }

  function SetQueue(s: State, q: QueueId, queue: Queue): State
    requires q < |s.queues|
  {
    s.(queues := s.queues[q := queue])
  }

  /** opencl_command_create */
  ghost function CreateStep(s: State, kind: Kind, q: QueueId, waits: seq<EventId>, wantsEvent: bool): State {
    var retained := RetainAll(s.events, waits);
    var c, e := |s.cmds|, |s.events|;
    // the new event has the reference of opencl_object_create, owned by the caller, and the command's
    var newborn := if wantsEvent then [Event(QUEUED, Some(q), 2, Some(c), 1, [])] else [];
    s.(cmds := s.cmds + [Command(kind, q, waits, if wantsEvent then Some(e) else None, CREATED, 0, 0)],
       events := retained + newborn)
  }

  /** opencl_command_queue_enqueue */
  function EnqueueStep(s: State, c: CommandId): State
    requires c < |s.cmds| && s.cmds[c].queue < |s.queues|
  {
    var q := s.cmds[c].queue;
    var was := s.queues[q];
    s.(queues := s.queues[q := was.(list := was.list + [c], history := was.history + [c])],
       cmds := s.cmds[c := s.cmds[c].(phase := LISTED, pos := |was.history|, stamp := s.clock)],
       events := SetStatus(s.events, s.cmds[c].done, QUEUED),
       clock := s.clock + 1)
  }

  /** opencl_command_queue_dequeue once its loop test has succeeded. */
  ghost function TakeStep(s: State, q: QueueId): State
    requires q < |s.queues| && s.queues[q].list != [] && s.queues[q].list[0] < |s.cmds|
  {
    var was := s.queues[q];
    var c := was.list[0];
    var next := was.(list := was.list[1..], taken := was.taken + 1, process := was.process && |was.list| > 1);
    var submitted := SetStatus(s.events, s.cmds[c].done, SUBMITTED);
    if s.cmds[c].kind.END? then
      s.(queues := s.queues[q := next.(worker := Returned, freed := was.freed + [c])],
         cmds := SetPhase(s.cmds, c, FREED), events := ReleaseAll(submitted, s.cmds[c]))
    else
      s.(queues := s.queues[q := next.(worker := Waiting(c, 0, false))],
         cmds := SetPhase(s.cmds, c, TAKEN), events := submitted)
  }

  /** The flush that opencl_event_wait does on the queue of the event it is about to wait for. */
  function FlushForWaitStep(s: State, q: QueueId, c: CommandId, i: nat): State
    requires q < |s.queues| && c < |s.cmds| && i < |s.cmds[c].waits| && s.cmds[c].waits[i] < |s.events|
  {
    var target := s.events[s.cmds[c].waits[i]].queue;
    var moved := s.queues[q := s.queues[q].(worker := Waiting(c, i, true))];
    if target.Some? && target.value < |moved| then
      s.(queues := moved[target.value := FlushQueue(moved[target.value])])
    else
      s.(queues := moved)
  }

  ghost function Apply(s: State, l: Label): State
    requires Enabled(s, l)
  {
    match l
    case Create(kind, q, waits, wantsEvent) => CreateStep(s, kind, q, waits, wantsEvent)
    case Enqueue(c) => EnqueueStep(s, c)
    case Flush(q) => SetQueue(s, q, FlushQueue(s.queues[q]))
    case Retain(e) =>
      var v := s.events[e]; s.(events := s.events[e := v.(refs := v.refs + 1, held := v.held + 1)])
    case Release(e) =>
      var v := s.events[e]; s.(events := s.events[e := v.(refs := v.refs - 1, held := v.held - 1)])
    case CreateUserEvent => s.(events := s.events + [Event(QUEUED, None, 1, None, 1, [])])
    case SetUserEvent(e, status) => s.(events := s.events[e := s.events[e].(status := status)])
    case Take(q) => TakeStep(s, q)
    case Block(q) => SetQueue(s, q, s.queues[q].(worker := Blocked(false)))
    case Wake(q) => SetQueue(s, q, s.queues[q].(worker := Ready))
    case SkipWaits(q) =>
      var c := s.queues[q].worker.cmd;
      SetQueue(s, q, s.queues[q].(worker := Waiting(c, |s.cmds[c].waits|, false)))
    case FlushForWait(q) => FlushForWaitStep(s, q, s.queues[q].worker.cmd, s.queues[q].worker.i)
    case PassWait(q) =>
      var w := s.queues[q].worker;
      SetQueue(s, q, s.queues[q].(worker := Waiting(w.cmd, w.i + 1, false)))
    case Start(q) =>
      var c := s.queues[q].worker.cmd;
      s.(queues := s.queues[q := s.queues[q].(worker := Running(c))],
         cmds := SetPhase(s.cmds, c, STARTED), events := SetStatus(s.events, s.cmds[c].done, RUNNING))
    case Finish(q) =>
      var c := s.queues[q].worker.cmd;
      s.(queues := s.queues[q := s.queues[q].(worker := Freeing(c), ran := s.queues[q].ran + [c])],
         cmds := SetPhase(s.cmds, c, FINISHED), events := SetStatus(s.events, s.cmds[c].done, COMPLETE))
    case Free(q) =>
      var c := s.queues[q].worker.cmd;
      s.(queues := s.queues[q := s.queues[q].(worker := Ready, freed := s.queues[q].freed + [c])],
         cmds := SetPhase(s.cmds, c, FREED), events := ReleaseAll(s.events, s.cmds[c]))
  }

  /** s' is reached from s by exactly the steps in `run`. */
  ghost predicate Reaches(s: State, run: seq<Label>, s': State)
    decreases |run|
  {
    if run == [] then s' == s
    else Enabled(s, run[0]) && Reaches(Apply(s, run[0]), run[1..], s')
  }
}
