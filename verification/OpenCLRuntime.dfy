/**
  The operations of command-queue.c, command.c and event.c on mutable objects, with their loops. Each one is
  proved to do to its queue and to the events what the step of the same name does in OpenCLModel. A queue
  whose lock is held, or a worker's own thread, runs each of them without interruption.
 */
module OpenCLRuntime {
  import opened CircularList
  import opened Basics
  import opened OpenCLModel

  /** The OpenCL event objects. */
  class EventTable {
    var events: seq<Event>

    constructor ()
      ensures events == []
    {
      events := [];
    }

    /** opencl_event_set_status */
    method SetStatus(done: Option<EventId>, status: Status)
      modifies this
      ensures events == OpenCLModel.SetStatus(old(events), done, status)
    {
      if done.Some? && done.value < |events| {
        var v := events[done.value];
        events := events[done.value := v.(status := status, trail := v.trail + [status])];
      }
    }

    /** opencl_object_ref_update; false where the object does not exist any more. */
    method UpdateRefs(e: EventId, change: int) returns (ok: bool)
      modifies this
      ensures ok <==> Alive(old(events), e)
      ensures events == if ok then old(events)[e := old(events)[e].(refs := old(events)[e].refs + change)] else old(events)
    {
      if e >= |events| || events[e].refs <= 0 {
        return false;
      }
      events := events[e := events[e].(refs := events[e].refs + change)];
      ok := true;
    }

    /** The retain loop of opencl_command_create; false is its fatal error. */
    method RetainWaits(waits: seq<EventId>) returns (ok: bool)
      modifies this
      ensures ok <==> AllAlive(old(events), waits)
      ensures ok ==> events == RetainAll(old(events), waits)
    {
      ghost var before := events;
      var i := 0;
      while i < |waits|
        invariant 0 <= i <= |waits| && |events| == |before|
        invariant AllAlive(before, waits[..i])
        invariant forall e :: 0 <= e < |events| ==>
                    events[e] == before[e].(refs := before[e].refs + multiset(waits[..i])[e])
      {
        assert waits[..i + 1] == waits[..i] + [waits[i]];
        ghost var mid := events;
        ok := UpdateRefs(waits[i], 1);
        if !ok {
          return;
        }
        i := i + 1;
      }
      assert waits[..i] == waits;
      ok := true;
    }

    /** The release loop of opencl_command_free over a wait list that may name an event twice. */
    method ReleaseWaits(waits: seq<EventId>) returns (ok: bool)
      requires forall e :: e in waits ==> e < |events| && events[e].refs >= multiset(waits)[e]
      modifies this
      ensures ok && |events| == |old(events)|
      ensures forall e :: 0 <= e < |events| ==>
                events[e] == old(events)[e].(refs := old(events)[e].refs - multiset(waits)[e])
    {
      ghost var before := events;
      var i := 0;
      while i < |waits|
        invariant 0 <= i <= |waits| && |events| == |before|
        invariant forall e :: 0 <= e < |events| ==>
                    events[e] == before[e].(refs := before[e].refs - multiset(waits[..i])[e])
      {
        ghost var e := waits[i];
        assert waits[..i + 1] == waits[..i] + [e];
        assert waits == waits[..i] + [e] + waits[i + 1..];
        assert e in waits && multiset(waits)[e] > multiset(waits[..i])[e];
        ok := UpdateRefs(waits[i], -1);
        i := i + 1;
      }
      assert waits[..i] == waits;
      ok := true;
    }

    /**
      opencl_command_free; false is its fatal error. A command that still has its references can
      always release them.
     */
    method ReleaseCommand(c: Command) returns (ok: bool)
      requires forall e :: e in c.waits || c.done == Some(e) ==> e < |events| && events[e].refs >= Holds(c, e)
      modifies this
      ensures ok && events == ReleaseAll(old(events), c)
    {
      ghost var before := events;
      ok := ReleaseWaits(c.waits);
      if c.done.Some? {
        assert events[c.done.value].refs >= 1;
        ok := UpdateRefs(c.done.value, -1);
      }
      assert events == ReleaseAll(before, c);
    }
  }

  /** What a pass of opencl_command_queue_dequeue comes to. */
  datatype Taken = SLEPT | END_TAKEN | GOT(cmd: CommandId)

  /** struct opencl_command_queue_t; its command_list is the circular list of list.c. */
  class CommandQueue {
    const command_list: List<int>
    var process: bool
    ghost var worker: Worker          // where the thread is, and what pthread_cond_signal acts on
    ghost var history: seq<CommandId>
    ghost var taken: nat
    ghost var ran: seq<CommandId>
    ghost var freed: seq<CommandId>

    ghost predicate Valid()
      reads this, command_list, command_list.elem
    {
      command_list.Valid() && forall k :: 0 <= k < command_list.count ==> command_list.Contents()[k] >= 0
    }

    /** The queue as the transition system sees it. */
    ghost function View(): Queue
      reads this, command_list, command_list.elem
      requires Valid()
    {
      Queue(command_list.Contents(), process, worker, history, taken, ran, freed)
    }

    /** opencl_command_queue_create */
    constructor ()
      ensures Valid() && fresh(command_list) && fresh(command_list.elem)
      ensures View() == Queue([], false, Ready, [], 0, [], [])
    {
      command_list := new List(8, -1);
      process := false;
      worker, history, taken, ran, freed := Ready, [], 0, [], [];
    }

    /** opencl_command_queue_enqueue */
    method Enqueue(c: CommandId, done: Option<EventId>, table: EventTable)
      requires Valid()
      modifies this, command_list, command_list.elem, table
      ensures Valid() && (command_list.elem == old(command_list.elem) || fresh(command_list.elem))
      ensures View() == old(View()).(list := old(View()).list + [c], history := old(history) + [c])
      ensures table.events == SetStatus(old(table.events), done, QUEUED)
    {
      table.SetStatus(done, QUEUED);
      command_list.Add(c);
      history := history + [c];
    }

    /** opencl_command_queue_flush */
    method Flush()
      requires Valid()
      modifies this
      ensures Valid()
      ensures View() == FlushQueue(old(View()))
    {
      if command_list.count != 0 && !process {
        process := true;
        worker := if worker.Blocked? then Blocked(true) else worker;
      }
    }

    /** "Dequeue an item" */
    method TakeHead() returns (c: CommandId)
      requires Valid() && command_list.count > 0
      modifies this, command_list, command_list.elem
      ensures Valid() && command_list.elem == old(command_list.elem)
      ensures var was := old(View());
              && c == was.list[0]
              && View() == was.(list := was.list[1..], taken := was.taken + 1, process := was.process && |was.list| > 1)
    {
      ghost var was := View();
      c := command_list.RemoveAt(0);
      assert command_list.Contents() == was.list[1..];
      if command_list.count == 0 {
        process := false;
      }
      taken := taken + 1;
    }

    /**
      One pass of opencl_command_queue_dequeue under the lock: either the loop test fails and the worker
      goes to sleep, or the oldest command is taken, and freed at once if it is END.
     */
    method Dequeue(cmds: CommandId -> Command, table: EventTable) returns (result: Taken)
      requires Valid() && worker == Ready
      requires forall c :: cmds(c).kind.END? ==> cmds(c).waits == [] && cmds(c).done == None
      modifies this, command_list, command_list.elem, table
      ensures Valid() && command_list.elem == old(command_list.elem)
      ensures !CanTake(old(View())) ==>
                result == SLEPT && View() == old(View()).(worker := Blocked(false)) && table.events == old(table.events)
      ensures CanTake(old(View())) ==>
                var was := old(View());
                var c, next := was.list[0],
                    was.(list := was.list[1..], taken := was.taken + 1, process := was.process && |was.list| > 1);
                var submitted := SetStatus(old(table.events), cmds(c).done, SUBMITTED);
                if cmds(c).kind.END? then
                  && result == END_TAKEN && View() == next.(worker := Returned, freed := was.freed + [c])
                  && table.events == ReleaseAll(submitted, cmds(c))
                else
                  result == GOT(c) && View() == next.(worker := Waiting(c, 0, false)) && table.events == submitted
    {
      if !process || command_list.count == 0 {
        worker := Blocked(false);
        return SLEPT;
      }
      var c := TakeHead();
      table.SetStatus(cmds(c).done, SUBMITTED);
      if cmds(c).kind.END? {
        var _ := table.ReleaseCommand(cmds(c));
        worker, freed := Returned, freed + [c];
        return END_TAKEN;
      }
      worker := Waiting(c, 0, false);
      result := GOT(c);
    }

    /** The flush at the start of opencl_event_wait for event i; target is the queue of the event, if it has one. */
    method FlushForWait(c: CommandId, i: nat, target: CommandQueue?)
      requires Valid() && worker == Waiting(c, i, false) && (target != null ==> target.Valid())
      modifies this, target
      ensures Valid() && (target != null ==> target.Valid())
      ensures target != this ==> View() == old(View()).(worker := Waiting(c, i, true))
      ensures target == this ==> View() == FlushQueue(old(View()).(worker := Waiting(c, i, true)))
      ensures target != null && target != this ==> target.View() == FlushQueue(old(target.View()))
    {
      worker := Waiting(c, i, true);
      if target != null {
        target.Flush();
      }
    }

    /** One pass of the waiting loop of opencl_event_wait. */
    method PassWait(c: CommandId, i: nat, e: EventId, table: EventTable) returns (passed: bool)
      requires Valid() && worker == Waiting(c, i, true) && e < |table.events|
      modifies this
      ensures Valid() && (passed <==> table.events[e].status == COMPLETE)
      ensures View() == if passed then old(View()).(worker := Waiting(c, i + 1, false)) else old(View())
    {
      passed := table.events[e].status == COMPLETE;
      if passed {
        worker := Waiting(c, i + 1, false);
      }
    }

    /** opencl_command_run up to the call of the command's function. */
    method Start(c: CommandId, done: Option<EventId>, table: EventTable)
      requires Valid()
      modifies this, table
      ensures Valid() && View() == old(View()).(worker := Running(c))
      ensures table.events == SetStatus(old(table.events), done, RUNNING)
    {
      worker := Running(c);
      table.SetStatus(done, RUNNING);
    }

    /** opencl_command_run after the call of the command's function. */
    method Finish(c: CommandId, done: Option<EventId>, table: EventTable)
      requires Valid()
      modifies this, table
      ensures Valid() && View() == old(View()).(worker := Freeing(c), ran := old(ran) + [c])
      ensures table.events == SetStatus(old(table.events), done, COMPLETE)
    {
      worker, ran := Freeing(c), ran + [c];
      table.SetStatus(done, COMPLETE);
    }

    /** opencl_command_free by the worker; it cannot fail while the command holds its references. */
    method Free(c: CommandId, command: Command, table: EventTable) returns (ok: bool)
      requires Valid()
      requires forall e :: e in command.waits || command.done == Some(e) ==>
                 e < |table.events| && table.events[e].refs >= Holds(command, e)
      modifies this, table
      ensures Valid() && ok && View() == old(View()).(worker := Ready, freed := old(freed) + [c])
      ensures table.events == ReleaseAll(old(table.events), command)
    {
      ok := table.ReleaseCommand(command);
      worker, freed := Ready, freed + [c];
    }
  }
}
