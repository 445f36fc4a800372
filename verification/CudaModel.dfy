/**
  CUDA streams as one labelled transition system: the worker of stream.c, the runtime calls
  cudaConfigureCall, cudaSetupArgument and cudaLaunch of api-rt.c with cuLaunchKernel of api.c, and
  other threads that append commands. Every access to a command list is one step. Fields below a
  "history" comment are not in the C structures.
 */
module CudaModel {
  import opened Basics

  type StreamId = nat
  type CommandId = nat
  type ThreadId = nat
  type EventId = nat
  type FunctionId = nat

  datatype Dim3 = Dim3(x: nat, y: nat, z: nat)

  /** What cudaConfigureCall is given. */
  datatype Config = Config(grid: Dim3, block: Dim3, shared_mem: nat)

  /** struct cuda_function_arg_t: where an argument is, not what it is. */
  datatype Arg = Arg(ptr: nat, size: nat)

  /** What a command does when it runs: its function, and the members of the argument union that the function reads. */
  datatype Body =
    | KernelLaunch(config: Config, kernel: Option<FunctionId>, params: seq<seq<Byte>>)
    | EventRecord(event: EventId)
    | Other                       // memory copy or callback

  datatype Command = Command(
    body: Body,
    // k_args.args, empty while it is a null pointer; it lies behind the members that other commands use
    args: seq<Arg>,
    ready: bool,                  // ready_to_run
    completed: bool,
    // history
    stream: StreamId,
    pos: nat                      // index in the history of its stream
  )

  /** Where the worker thread of a stream is. */
  datatype Worker =
    | Poll                        // before list_get
    | Peeked(cmd: CommandId)      // holding the head, before the test of ready_to_run
    | Running(cmd: CommandId)     // before the command's function
    | Ran(cmd: CommandId)         // before completed = 1
    | Marked(cmd: CommandId)      // before cuda_stream_dequeue
    | Dequeued(cmd: CommandId)    // before cuda_stream_command_free
  {
    predicate AtHead() {
      Peeked? || Running? || Ran? || Marked?
    }
  }

  datatype Entry = Entry(cmd: CommandId, body: Body)

  datatype Stream = Stream(
    user_thread: ThreadId,
    configuring: bool,
    list: seq<CommandId>,
    worker: Worker,
    // history
    history: seq<CommandId>,      // every command ever enqueued
    taken: nat,                   // how many were dequeued
    log: seq<Entry>               // the commands that ran, with what they did
  )

  /** Where an application thread is; the fields are local variables of the calls. */
  datatype Phase =
    | Between                                                 // in no launch call
    | Launching(stream: StreamId, params: seq<seq<Byte>>)     // cudaLaunch has copied the arguments
    | Filled(stream: StreamId, cmd: CommandId)                // cuLaunchKernel has stored all but ready_to_run
    | Closing(stream: StreamId)                               // before configuring = 0

  datatype State = State(
    streams: seq<Stream>,
    cmds: seq<Command>,
    threads: seq<Phase>,
    memory: nat -> Byte,          // host memory
    recorded: seq<bool>,          // CUevent.recorded
    // history
    pending: seq<nat>,            // cuEventRecord calls between the reset and the enqueue
    lastRecord: seq<Option<CommandId>>
  )

  datatype Label =
    | Configure(thread: ThreadId, stream: StreamId, config: Config)
    | SetupArgument(thread: ThreadId, arg: Arg)
    | LaunchRead(thread: ThreadId)
    | LaunchFill(thread: ThreadId, function_: FunctionId)
    | LaunchReady(thread: ThreadId)
    | LaunchClose(thread: ThreadId)
    | HostStore(addr: nat, value: Byte)
    | Append(stream: StreamId)
    | RecordReset(event: EventId)
    | RecordEnqueue(event: EventId, stream: StreamId)
    | Peek(stream: StreamId)
    | Test(stream: StreamId)
    | Run(stream: StreamId)
    | Mark(stream: StreamId)
    | Dequeue(stream: StreamId)
    | FreeCommand(stream: StreamId)

  ghost predicate Init(s: State) {
    && s.cmds == []
    && (forall q :: 0 <= q < |s.streams| ==>
          s.streams[q] == Stream(s.streams[q].user_thread, false, [], Poll, [], 0, []))
    && (forall t :: 0 <= t < |s.threads| ==> s.threads[t] == Between)
    && |s.pending| == |s.lastRecord| == |s.recorded|
    && (forall e :: 0 <= e < |s.recorded| ==> s.pending[e] == 0 && s.lastRecord[e] == None)
  }

  /** The search for the stream that a thread is configuring; |streams| if there is none. */
  function FindStream(streams: seq<Stream>, t: ThreadId, from: nat): (q: nat)
    requires from <= |streams|
    ensures from <= q <= |streams|
    ensures q < |streams| ==> streams[q].user_thread == t && streams[q].configuring
    ensures forall i :: from <= i < q ==> !(streams[i].user_thread == t && streams[i].configuring)
    decreases |streams| - from
  {
    if from == |streams| then from
    else if streams[from].user_thread == t && streams[from].configuring then from
    else FindStream(streams, t, from + 1)
  }

  /** The search of cuLaunchKernel for the first kernel launch in a list; |list| if there is none. */
  function FindLaunch(list: seq<CommandId>, cmds: seq<Command>, from: nat): (i: nat)
    requires from <= |list|
    ensures from <= i <= |list|
    ensures i < |list| ==> list[i] < |cmds| && cmds[list[i]].body.KernelLaunch?
    ensures forall k :: from <= k < i ==> list[k] < |cmds| ==> !cmds[list[k]].body.KernelLaunch?
    decreases |list| - from
  {
    if from == |list| then from
    else if list[from] < |cmds| && cmds[list[from]].body.KernelLaunch? then from
    else FindLaunch(list, cmds, from + 1)
  }

  /** `bytes` is what the argument has in memory, from its first byte on. */
  ghost predicate BytesAt(memory: nat -> Byte, a: Arg, bytes: seq<Byte>) {
    |bytes| == a.size && forall k :: 0 <= k < a.size ==> bytes[k] == memory(a.ptr + k)
  }

  /** The bytes an argument has now. */
  function ReadArg(memory: nat -> Byte, a: Arg): (r: seq<Byte>)
    ensures BytesAt(memory, a, r)
  {
    seq(a.size, i requires 0 <= i < a.size => memory(a.ptr + i))
  }

  function ReadArgs(memory: nat -> Byte, args: seq<Arg>): (r: seq<seq<Byte>>)
    ensures |r| == |args|
    ensures forall i :: 0 <= i < |args| ==> r[i] == ReadArg(memory, args[i])
    ensures forall i :: 0 <= i < |args| ==> BytesAt(memory, args[i], r[i])
  {
    seq(|args|, i requires 0 <= i < |args| => ReadArg(memory, args[i]))
  }

  /** The command at index 0 of the stream that thread t is configuring, if there is one. */
  ghost predicate HasHead(s: State, t: ThreadId) {
    && FindStream(s.streams, t, 0) < |s.streams|
    && var list := s.streams[FindStream(s.streams, t, 0)].list; list != [] && list[0] < |s.cmds|
  }

  ghost function Head(s: State, t: ThreadId): CommandId
    requires HasHead(s, t)
  {
    s.streams[FindStream(s.streams, t, 0)].list[0]
  }

  ghost predicate Enabled(s: State, l: Label) {
    match l
    case Configure(t, q, _) => t < |s.threads| && s.threads[t] == Between && q < |s.streams|
    case SetupArgument(t, _) => t < |s.threads| && s.threads[t] == Between && HasHead(s, t)
    case LaunchRead(t) =>
      // an argument list that was never created is a null pointer
      t < |s.threads| && s.threads[t] == Between && HasHead(s, t) && s.cmds[Head(s, t)].args != []
    case LaunchFill(t, _) =>
      && t < |s.threads| && s.threads[t].Launching? && FindStream(s.streams, t, 0) < |s.streams|
      && var list := s.streams[FindStream(s.streams, t, 0)].list; FindLaunch(list, s.cmds, 0) < |list|
    case LaunchReady(t) => t < |s.threads| && s.threads[t].Filled? && s.threads[t].cmd < |s.cmds|
    case LaunchClose(t) => t < |s.threads| && s.threads[t].Closing? && s.threads[t].stream < |s.streams|
    case HostStore(_, _) => true
    case Append(q) => q < |s.streams|
    case RecordReset(e) => e < |s.recorded| && e < |s.pending|
    case RecordEnqueue(e, q) =>
      e < |s.recorded| && e < |s.pending| && e < |s.lastRecord| && s.pending[e] > 0 && q < |s.streams|
    case Peek(q) => q < |s.streams| && s.streams[q].worker == Poll && s.streams[q].list != []
    case Test(q) => q < |s.streams| && s.streams[q].worker.Peeked? && s.streams[q].worker.cmd < |s.cmds|
    case Run(q) => q < |s.streams| && s.streams[q].worker.Running? && s.streams[q].worker.cmd < |s.cmds|
    case Mark(q) => q < |s.streams| && s.streams[q].worker.Ran? && s.streams[q].worker.cmd < |s.cmds|
    case Dequeue(q) => q < |s.streams| && s.streams[q].worker.Marked?
    case FreeCommand(q) => q < |s.streams| && s.streams[q].worker.Dequeued?
  }

  function SetWorker(s: State, q: StreamId, w: Worker): State
    requires q < |s.streams|
  {
    s.(streams := s.streams[q := s.streams[q].(worker := w)])
  }

  /** cuda_stream_command_create and cuda_stream_enqueue. */
  function EnqueueNew(s: State, q: StreamId, body: Body, ready: bool): State
    requires q < |s.streams|
  {
    var c, was := |s.cmds|, s.streams[q];
    s.(cmds := s.cmds + [Command(body, [], ready, false, q, |was.history|)],
       streams := s.streams[q := was.(list := was.list + [c], history := was.history + [c])])
  }

  ghost function Apply(s: State, l: Label): State
    requires Enabled(s, l)
  {
    match l
    case Configure(t, q, config) =>
      var e := EnqueueNew(s, q, KernelLaunch(config, None, []), false);
      e.(streams := e.streams[q := e.streams[q].(configuring := true)])
    case SetupArgument(t, arg) =>
      var c := Head(s, t);
      s.(cmds := s.cmds[c := s.cmds[c].(args := s.cmds[c].args + [arg])])
    case LaunchRead(t) =>
      var copied := ReadArgs(s.memory, s.cmds[Head(s, t)].args);
      s.(threads := s.threads[t := Launching(FindStream(s.streams, t, 0), copied)])
    case LaunchFill(t, f) =>
      var list := s.streams[FindStream(s.streams, t, 0)].list;
      var c := list[FindLaunch(list, s.cmds, 0)];
      s.(cmds := s.cmds[c := s.cmds[c].(body := s.cmds[c].body.(kernel := Some(f), params := s.threads[t].params))],
         threads := s.threads[t := Filled(s.threads[t].stream, c)])
    case LaunchReady(t) =>
      var c := s.threads[t].cmd;
      s.(cmds := s.cmds[c := s.cmds[c].(ready := true)], threads := s.threads[t := Closing(s.threads[t].stream)])
    case LaunchClose(t) =>
      var q := s.threads[t].stream;
      s.(streams := s.streams[q := s.streams[q].(configuring := false)], threads := s.threads[t := Between])
    case HostStore(a, v) =>
      var memory := s.memory;
      s.(memory := (i: nat) => if i == a then v else memory(i))
    case Append(q) => EnqueueNew(s, q, Other, true)
    case RecordReset(e) => s.(recorded := s.recorded[e := false], pending := s.pending[e := s.pending[e] + 1])
    case RecordEnqueue(e, q) =>
      EnqueueNew(s, q, EventRecord(e), true)
        .(pending := s.pending[e := s.pending[e] - 1], lastRecord := s.lastRecord[e := Some(|s.cmds|)])
    case Peek(q) => SetWorker(s, q, Peeked(s.streams[q].list[0]))
    case Test(q) =>
      var c := s.streams[q].worker.cmd;
      SetWorker(s, q, if s.cmds[c].ready then Running(c) else Poll)
    case Run(q) =>
      var c := s.streams[q].worker.cmd;
      var body := s.cmds[c].body;
      s.(streams := s.streams[q := s.streams[q].(worker := Ran(c), log := s.streams[q].log + [Entry(c, body)])],
         recorded := if body.EventRecord? && body.event < |s.recorded| then s.recorded[body.event := true] else s.recorded)
    case Mark(q) =>
      var c := s.streams[q].worker.cmd;
      SetWorker(s, q, Marked(c)).(cmds := s.cmds[c := s.cmds[c].(completed := true)])
    case Dequeue(q) =>
      var was := s.streams[q];
      var next := if was.list == [] then was else was.(list := was.list[1..], taken := was.taken + 1);
      s.(streams := s.streams[q := next.(worker := Dequeued(was.worker.cmd))])
    case FreeCommand(q) => SetWorker(s, q, Poll)
  }

  ghost predicate Reaches(s: State, run: seq<Label>, s': State)
    decreases |run|
  {
    if run == [] then s' == s
    else Enabled(s, run[0]) && Reaches(Apply(s, run[0]), run[1..], s')
  }
}
