/**
  The CUDA calls and the worker's pass as imperative code over shared lists, with the search and copy
  loops of api-rt.c, api.c and stream.c. Each method is proved to be the sequence of steps of CudaModel
  that it consists of; CudaLaunch quantifies over all the ways other threads get in between.
 */
module CudaRuntime {
  import opened Basics
  import opened CudaModel

  class Runtime {
    var streams: seq<Stream>
    var cmds: seq<Command>
    var threads: seq<Phase>
    var memory: nat -> Byte
    var recorded: seq<bool>
    ghost var pending: seq<nat>
    ghost var lastRecord: seq<Option<CommandId>>

    ghost function View(): State
      reads this
    {
      State(streams, cmds, threads, memory, recorded, pending, lastRecord)
    }

    constructor (owners: seq<ThreadId>, threadCount: nat, eventCount: nat)
      ensures Init(View())
      ensures |streams| == |owners| && |threads| == threadCount && |recorded| == eventCount
      ensures forall q :: 0 <= q < |owners| ==> streams[q].user_thread == owners[q]
    {
      streams := seq(|owners|, q requires 0 <= q < |owners| => Stream(owners[q], false, [], Poll, [], 0, []));
      cmds := [];
      threads := seq(threadCount, _ => Between);
      memory := _ => 0;
      recorded := seq(eventCount, _ => false);
      pending := seq(eventCount, _ => 0);
      lastRecord := seq(eventCount, _ => None);
    }

    /** "Find stream" in cudaSetupArgument, cudaLaunch and cuLaunchKernel. */
    method FindConfiguring(t: ThreadId) returns (i: nat)
      ensures i == FindStream(streams, t, 0)
    {
      i := 0;
      while i < |streams|
        invariant i <= |streams| && FindStream(streams, t, 0) == FindStream(streams, t, i)
      {
        if streams[i].user_thread == t && streams[i].configuring {
          break;
        }
        i := i + 1;
      }
    }

    /** "Update command" in cuLaunchKernel: the first command whose function is cuLaunchKernelImpl. */
    method FindKernel(list: seq<CommandId>) returns (i: nat)
      ensures i == FindLaunch(list, cmds, 0)
    {
      i := 0;
      while i < |list|
        invariant i <= |list| && FindLaunch(list, cmds, 0) == FindLaunch(list, cmds, i)
      {
        if list[i] < |cmds| && cmds[list[i]].body.KernelLaunch? {
          break;
        }
        i := i + 1;
      }
    }

    /** The argument copy of cudaLaunch: one fresh block per argument, filled with memcpy. */
    method CopyArguments(args: seq<Arg>) returns (params: seq<seq<Byte>>)
      ensures |params| == |args| && forall i :: 0 <= i < |args| ==> |params[i]| == args[i].size
      ensures forall i, k :: 0 <= i < |args| && 0 <= k < args[i].size ==> params[i][k] == memory(args[i].ptr + k)
      ensures params == ReadArgs(memory, args)
    {
      params := [];
      var i := 0;
      while i < |args|
        invariant 0 <= i <= |args| && |params| == i
        invariant forall k :: 0 <= k < i ==> params[k] == ReadArg(memory, args[k])
      {
        var block: seq<Byte> := [];
        var j := 0;
        while j < args[i].size
          invariant 0 <= j <= args[i].size && |block| == j
          invariant forall k :: 0 <= k < j ==> block[k] == memory(args[i].ptr + k)
        {
          block := block + [memory(args[i].ptr + j)];
          j := j + 1;
        }
        assert block == ReadArg(memory, args[i]);
        params := params + [block];
        i := i + 1;
      }
    }

    /** cuda_stream_command_create followed by cuda_stream_enqueue. */
    method Enqueue(q: StreamId, body: Body, ready: bool)
      requires q < |streams|
      modifies this
      ensures View() == EnqueueNew(old(View()), q, body, ready)
    {
      var was := streams[q];
      streams := streams[q := was.(list := was.list + [|cmds|], history := was.history + [|cmds|])];
      cmds := cmds + [Command(body, [], ready, false, q, |was.history|)];
    }

    /** cuEventRecord up to the creation of its command. */
    method ResetEvent(e: EventId)
      requires Enabled(View(), RecordReset(e))
      modifies this
      ensures e < |recorded| && !recorded[e] && View() == Apply(old(View()), RecordReset(e))
    {
      recorded := recorded[e := false];
      pending := pending[e := pending[e] + 1];
    }

    /** The rest of cuEventRecord. */
    method EnqueueRecord(e: EventId, q: StreamId)
      requires Enabled(View(), RecordEnqueue(e, q))
      modifies this
      ensures View() == Apply(old(View()), RecordEnqueue(e, q))
    {
      ghost var c := |cmds|;
      Enqueue(q, EventRecord(e), true);
      pending := pending[e := pending[e] - 1];
      lastRecord := lastRecord[e := Some(c)];
    }

    /** cuEventQuery; false is CUDA_ERROR_NOT_READY. */
    method EventQuery(e: EventId) returns (success: bool)
      requires e < |recorded|
      ensures success <==> recorded[e]
    {
      success := recorded[e];
    }

    /** cudaConfigureCall */
    method ConfigureCall(t: ThreadId, q: StreamId, config: Config)
      requires Enabled(View(), Configure(t, q, config))
      modifies this
      ensures View() == Apply(old(View()), Configure(t, q, config))
    {
      streams := streams[q := streams[q].(configuring := true)];
      Enqueue(q, KernelLaunch(config, None, []), false);
      assert View().streams == Apply(old(View()), Configure(t, q, config)).streams;
    }

    /** cudaSetupArgument */
    method SetupArgument(t: ThreadId, arg: Arg)
      requires Enabled(View(), Label.SetupArgument(t, arg))
      modifies this
      ensures View() == Apply(old(View()), Label.SetupArgument(t, arg))
    {
      var q := FindConfiguring(t);
      var c := streams[q].list[0];
      cmds := cmds[c := cmds[c].(args := cmds[c].args + [arg])];
    }

    /** cudaLaunch up to the call of cuLaunchKernel. */
    method PrepareLaunch(t: ThreadId)
      requires Enabled(View(), LaunchRead(t))
      modifies this
      ensures View() == Apply(old(View()), LaunchRead(t))
    {
      var q := FindConfiguring(t);
      var c := streams[q].list[0];
      var params := CopyArguments(cmds[c].args);
      threads := threads[t := Launching(q, params)];
    }

    /** cuLaunchKernel on a command that exists, up to the assignment of ready_to_run. */
    method FillLaunch(t: ThreadId, f: FunctionId)
      requires Enabled(View(), LaunchFill(t, f))
      modifies this
      ensures View() == Apply(old(View()), LaunchFill(t, f))
    {
      var q := FindConfiguring(t);
      var i := FindKernel(streams[q].list);
      var c := streams[q].list[i];
      cmds := cmds[c := cmds[c].(body := cmds[c].body.(kernel := Some(f), params := threads[t].params))];
      threads := threads[t := Filled(threads[t].stream, c)];
    }

    /** The end of cuLaunchKernel and of cudaLaunch. */
    method FinishLaunch(t: ThreadId)
      requires Enabled(View(), LaunchReady(t)) && Enabled(Apply(View(), LaunchReady(t)), LaunchClose(t))
      modifies this
      ensures View() == Apply(Apply(old(View()), LaunchReady(t)), LaunchClose(t))
    {
      var c, q := threads[t].cmd, threads[t].stream;
      cmds := cmds[c := cmds[c].(ready := true)];
      streams := streams[q := streams[q].(configuring := false)];
      threads := threads[t := Between];
    }

    /**
      One pass of the loop of cuda_stream_thread_func: nothing happens unless the head of the list is
      ready; then it is run, marked, dequeued and freed.
     */
    method WorkerPass(q: StreamId) returns (ran: bool)
      requires q < |streams| && streams[q].worker == Poll
      requires streams[q].list != [] ==> streams[q].list[0] < |cmds|
      modifies this
      ensures ran <==> old(streams[q].list != [] && cmds[streams[q].list[0]].ready)
      ensures !ran ==> View() == old(View())
      ensures ran ==> Pass(old(View()), q, View())
    {
      if streams[q].list == [] {
        return false;
      }
      var c := streams[q].list[0];
      if !cmds[c].ready {
        return false;
      }
      var body := cmds[c].body;
      if body.EventRecord? && body.event < |recorded| {
        recorded := recorded[body.event := true];
      }
      cmds := cmds[c := cmds[c].(completed := true)];
      var was := streams[q];
      streams := streams[q := was.(list := was.list[1..], taken := was.taken + 1, log := was.log + [Entry(c, body)])];
      PassSteps(old(View()), q, View());
      ran := true;
    }
  }

  /** The six steps of a worker that runs the head of its list without interruption. */
  ghost predicate Pass(s: State, q: StreamId, s': State) {
    && Enabled(s, Peek(q))
    && var peeked := Apply(s, Peek(q));
       && Enabled(peeked, Test(q))
       && RunToFree(Apply(peeked, Test(q)), q, s')
  }

  ghost predicate RunToFree(s: State, q: StreamId, s': State) {
    && Enabled(s, Run(q))
    && var run := Apply(s, Run(q));
       && Enabled(run, Mark(q))
       && var marked := Apply(run, Mark(q));
          && Enabled(marked, Dequeue(q))
          && var dequeued := Apply(marked, Dequeue(q));
             Enabled(dequeued, FreeCommand(q)) && Apply(dequeued, FreeCommand(q)) == s'
  }

  lemma PassSteps(s: State, q: StreamId, s': State)
    requires q < |s.streams| && s.streams[q].worker == Poll && s.streams[q].list != []
    requires s.streams[q].list[0] < |s.cmds| && s.cmds[s.streams[q].list[0]].ready
    requires s' == AfterPass(s, q)
    ensures Pass(s, q, s')
  {
    var c := s.streams[q].list[0];
    var tested := SetWorker(s, q, Running(c));
    assert Apply(Apply(s, Peek(q)), Test(q)) == tested;
    assert AfterPass(tested, q) == s';
    RunSteps(tested, q);
  }

  /** The head of the list taken out, logged and marked, and its effect on events. */
  function AfterPass(s: State, q: StreamId): State
    requires q < |s.streams| && s.streams[q].list != [] && s.streams[q].list[0] < |s.cmds|
  {
    var c, st := s.streams[q].list[0], s.streams[q];
    var body := s.cmds[c].body;
    s.(streams := s.streams[q := st.(worker := Poll, list := st.list[1..], taken := st.taken + 1, log := st.log + [Entry(c, body)])],
       cmds := s.cmds[c := s.cmds[c].(completed := true)],
       recorded := if body.EventRecord? && body.event < |s.recorded| then s.recorded[body.event := true] else s.recorded)
  }

  lemma RunSteps(s: State, q: StreamId)
    requires q < |s.streams| && s.streams[q].list != [] && s.streams[q].list[0] < |s.cmds|
    requires s.streams[q].worker == Running(s.streams[q].list[0])
    ensures RunToFree(s, q, AfterPass(s, q))
  {
    var marked := Apply(Apply(s, Run(q)), Mark(q));
    assert marked.streams[q].list == s.streams[q].list;
    assert Apply(Apply(marked, Dequeue(q)), FreeCommand(q)) == AfterPass(s, q);
  }
}
