/**
  The launch handoff of the CUDA runtime: cudaConfigureCall, cudaSetupArgument and cudaLaunch find their
  command by its place in the stream. When that works, whatever the workers and other threads do in
  between, and that the kernel then runs with what the calls said.
 */
module CudaLaunch {
  import opened Basics
  import opened CudaModel
  import opened CudaOrder
  import opened CudaStream
  import opened CudaDrain
  import opened CudaCalls

  // ---------------------------------------------------------------- a launch at the head of its stream

  /** Thread t is at this point of a launch on stream q, whose command c is at index 0, not ready, and is x. */
  ghost predicate HeadIs(s: State, t: ThreadId, phase: Phase, q: StreamId, c: CommandId, x: Command) {
    && t < |s.threads| && s.threads[t] == phase
    && q < |s.streams| && FindStream(s.streams, t, 0) == q
    && s.streams[q].list != [] && s.streams[q].list[0] == c
    && c < |s.cmds| && s.cmds[c] == x && !x.ready
  }

  /** A worker keeps its hands off a command that is not ready. */
  lemma WorkersLeaveUnready(s: State, l: Label, p: StreamId, q: StreamId)
    requires InOrder(s) && Enabled(s, l) && WorkerOf(l, p) && q < |s.streams|
    requires s.streams[q].list != [] && s.streams[q].list[0] < |s.cmds| && !s.cmds[s.streams[q].list[0]].ready
    ensures |Apply(s, l).streams| == |s.streams| && Apply(s, l).streams[q].list == s.streams[q].list
    ensures |Apply(s, l).cmds| == |s.cmds| && forall c :: 0 <= c < |s.cmds| && !s.cmds[c].ready ==> Apply(s, l).cmds[c] == s.cmds[c]
  {
    if s.streams[p].worker.AtHead() {
      HeldCommand(s, p);
    }
    assert StreamOk(s.streams[p], p, s.cmds);
  }

  /** Nothing that anybody else does disturbs a launch at the head of its stream. */
  lemma OthersLeaveHead(s: State, l: Label, t: ThreadId, phase: Phase, q: StreamId, c: CommandId, x: Command)
    requires Good(s) && Enabled(s, l) && Own(s, l) && !By(l, t) && HeadIs(s, t, phase, q, c, x)
    ensures HeadIs(Apply(s, l), t, phase, q, c, x)
  {
    OthersLeaveSearch(s, l, t);
    OtherPhase(s, l, t);
    ListedCommand(s, q, 0);
    if l.SetupArgument? || l.LaunchFill? || l.LaunchReady? {
      OtherStream(s, l, t);
      CallsTouchOwn(s, l, l.thread, c);
    } else if l.Peek? || l.Test? || l.Run? || l.Mark? || l.Dequeue? || l.FreeCommand? {
      WorkersLeaveUnready(s, l, l.stream, q);
    }
  }

  /** Two threads never configure the same stream. */
  lemma OtherStream(s: State, l: Label, t: ThreadId)
    requires Good(s) && Enabled(s, l) && (l.SetupArgument? || l.LaunchFill? || l.LaunchReady?) && l.thread != t
    requires FindStream(s.streams, t, 0) < |s.streams|
    ensures FindStream(s.streams, l.thread, 0) != FindStream(s.streams, t, 0)
  {
    assert PhaseOk(s, l.thread);
  }

  /** While the thread itself takes no step, its launch stays where it is. */
  lemma {:induction false} HeadWaits(s: State, run: seq<Label>, s': State, t: ThreadId, phase: Phase, q: StreamId, c: CommandId, x: Command)
    requires Good(s) && OwnRun(s, run, s') && Calls(run, t) == [] && HeadIs(s, t, phase, q, c, x)
    ensures Good(s') && HeadIs(s', t, phase, q, c, x)
    decreases |run|
  {
    if run != [] {
      OthersLeaveHead(s, run[0], t, phase, q, c, x);
      StepGood(s, run[0]);
      HeadWaits(Apply(s, run[0]), run[1..], s', t, phase, q, c, x);
    }
  }

  /** A sequence of cudaSetupArgument calls, with anything in between, adds the arguments in order. */
  lemma {:induction false} SetupPhase(s: State, run: seq<Label>, s': State, t: ThreadId, q: StreamId, c: CommandId,
                                      x: Command, args: seq<Arg>)
    requires Good(s) && OwnRun(s, run, s') && Calls(run, t) == Setups(t, args) && HeadIs(s, t, Between, q, c, x)
    ensures Good(s') && HeadIs(s', t, Between, q, c, x.(args := x.args + args))
    decreases |run|
  {
    if run == [] {
      assert x.args + args == x.args;
    } else {
      StepGood(s, run[0]);
      if By(run[0], t) {
        assert run[0] == Setups(t, args)[0];
        assert Calls(run[1..], t) == Setups(t, args)[1..] == Setups(t, args[1..]);
        assert x.args + args == (x.args + [args[0]]) + args[1..];
        SetupPhase(Apply(s, run[0]), run[1..], s', t, q, c, x.(args := x.args + [args[0]]), args[1..]);
      } else {
        OthersLeaveHead(s, run[0], t, Between, q, c, x);
        SetupPhase(Apply(s, run[0]), run[1..], s', t, q, c, x, args);
      }
    }
  }

  /** cuLaunchKernel finds the command at the head. */
  lemma FillsHead(s: State, t: ThreadId, f: FunctionId, phase: Phase, q: StreamId, c: CommandId, x: Command)
    requires Good(s) && HeadIs(s, t, phase, q, c, x) && phase.Launching? && x.body.KernelLaunch?
    ensures Enabled(s, LaunchFill(t, f)) && Good(Apply(s, LaunchFill(t, f)))
    ensures HeadIs(Apply(s, LaunchFill(t, f)), t, Filled(q, c), q, c, x.(body := x.body.(kernel := Some(f), params := phase.params)))
  {
    assert PhaseOk(s, t);
    assert FindLaunch(s.streams[q].list, s.cmds, 0) == 0;
    StepGood(s, LaunchFill(t, f));
  }

  // ---------------------------------------------------------------- what a launch should do

  /**
    What the thread can see before cudaConfigureCall: it is not configuring a stream that it would find
    before q, and no command is left in q.
   */
  ghost predicate Guard(s: State, t: ThreadId, q: StreamId) {
    q < |s.streams| && FindStream(s.streams, t, 0) >= q && s.streams[q].list == []
  }

  ghost predicate Delivered(s: State, c: CommandId, body: Body) {
    c < |s.cmds| && s.cmds[c].ready && s.cmds[c].body == body
  }

  ghost function Wanted(config: Config, f: FunctionId, memory: nat -> Byte, args: seq<Arg>): Body {
    KernelLaunch(config, Some(f), ReadArgs(memory, args))
  }

  /** What Wanted stands for: byte b of argument i is what memory has b places after the argument's address. */
  lemma WantedMeans(config: Config, f: FunctionId, memory: nat -> Byte, args: seq<Arg>, body: Body)
    ensures body == Wanted(config, f, memory, args) <==>
              && body.KernelLaunch? && body.config == config && body.kernel == Some(f)
              && |body.params| == |args| && (forall i :: 0 <= i < |args| ==> |body.params[i]| == args[i].size)
              && forall i, b :: 0 <= i < |args| && 0 <= b < args[i].size ==> body.params[i][b] == memory(args[i].ptr + b)
  {
    var wanted := ReadArgs(memory, args);
    if body.KernelLaunch? && |body.params| == |args| && (forall i :: 0 <= i < |args| ==> |body.params[i]| == args[i].size)
       && (forall i, b :: 0 <= i < |args| && 0 <= b < args[i].size ==> body.params[i][b] == memory(args[i].ptr + b)) {
      forall i | 0 <= i < |args|
        ensures body.params[i] == wanted[i]
      {
        assert BytesAt(memory, args[i], wanted[i]);
      }
      assert body.params == wanted;
    }
  }

  /** However the run goes on, the last step of cuLaunchKernel makes command c ready with this body. */
  ghost predicate Releases(s: State, t: ThreadId, c: CommandId, body: Body) {
    forall run, e :: OwnRun(s, run, e) && Calls(run, t) == [] ==>
      Enabled(e, LaunchReady(t)) && Delivered(Apply(e, LaunchReady(t)), c, body)
  }

  /** However the run goes on, cuLaunchKernel finds a command, and then releases c with this body. */
  ghost predicate Fills(s: State, t: ThreadId, f: FunctionId, c: CommandId, body: Body) {
    forall run, e :: OwnRun(s, run, e) && Calls(run, t) == [] ==>
      Enabled(e, LaunchFill(t, f)) && Releases(Apply(e, LaunchFill(t, f)), t, c, body)
  }

  /** After k arguments, the next call works, and if that is cudaLaunch, so does the rest of the launch. */
  ghost predicate NextWorks(s: State, t: ThreadId, c: CommandId, config: Config, args: seq<Arg>, f: FunctionId, k: nat) {
    if k < |args| then Enabled(s, SetupArgument(t, args[k]))
    else Enabled(s, LaunchRead(t)) && Fills(Apply(s, LaunchRead(t)), t, f, c, Wanted(config, f, s.memory, args))
  }

  /**
    However the workers and other threads interleave with a launch by thread t, none of its calls fails, and
    it makes its own command ready with its own configuration, kernel and argument bytes.
   */
  ghost predicate AlwaysWorks(s: State, t: ThreadId, q: StreamId, config: Config, args: seq<Arg>, f: FunctionId)
    requires Enabled(s, Configure(t, q, config))
  {
    forall run, mid, k: nat | k <= |args| && OwnRun(Apply(s, Configure(t, q, config)), run, mid) && Calls(run, t) == Setups(t, args[..k])
      :: NextWorks(mid, t, |s.cmds|, config, args, f, k)
  }

  // ---------------------------------------------------------------- the guard is enough

  lemma HeadAfterConfigure(s: State, t: ThreadId, q: StreamId, config: Config)
    requires Good(s) && Enabled(s, Configure(t, q, config)) && Own(s, Configure(t, q, config)) && Guard(s, t, q)
    ensures Good(Apply(s, Configure(t, q, config)))
    ensures HeadIs(Apply(s, Configure(t, q, config)), t, Between, q, |s.cmds|,
                   Command(KernelLaunch(config, None, []), [], false, false, q, |s.streams[q].history|))
  {
    StepGood(s, Configure(t, q, config));
    ConfigureFound(s, t, q, config);
  }

  /** After cudaConfigureCall the thread finds the stream with the lowest index among those it is configuring. */
  lemma ConfigureFound(s: State, t: ThreadId, q: StreamId, config: Config)
    requires Enabled(s, Configure(t, q, config)) && Own(s, Configure(t, q, config))
    ensures var p, p' := FindStream(s.streams, t, 0), FindStream(Apply(s, Configure(t, q, config)).streams, t, 0);
            p' == if p < q then p else q
  {
    var s1 := Apply(s, Configure(t, q, config));
    assert s1.streams[q].user_thread == t && s1.streams[q].configuring;
    assert forall i :: 0 <= i < |s.streams| && i != q ==> s1.streams[i] == s.streams[i];
  }

  lemma HeadReleases(s: State, t: ThreadId, q: StreamId, c: CommandId, x: Command)
    requires Good(s) && HeadIs(s, t, Filled(q, c), q, c, x)
    ensures Releases(s, t, c, x.body)
  {
    forall run, e | OwnRun(s, run, e) && Calls(run, t) == []
      ensures Enabled(e, LaunchReady(t)) && Delivered(Apply(e, LaunchReady(t)), c, x.body)
    {
      HeadWaits(s, run, e, t, Filled(q, c), q, c, x);
    }
  }

  lemma HeadFills(s: State, t: ThreadId, f: FunctionId, params: seq<seq<Byte>>, q: StreamId, c: CommandId, x: Command)
    requires Good(s) && HeadIs(s, t, Launching(q, params), q, c, x) && x.body.KernelLaunch?
    ensures Fills(s, t, f, c, KernelLaunch(x.body.config, Some(f), params))
  {
    var body := KernelLaunch(x.body.config, Some(f), params);
    forall run, e | OwnRun(s, run, e) && Calls(run, t) == []
      ensures Enabled(e, LaunchFill(t, f)) && Releases(Apply(e, LaunchFill(t, f)), t, c, body)
    {
      HeadWaits(s, run, e, t, Launching(q, params), q, c, x);
      FillsHead(e, t, f, Launching(q, params), q, c, x);
      HeadReleases(Apply(e, LaunchFill(t, f)), t, q, c, x.(body := body));
    }
  }

  /** cudaLaunch copies the bytes of the arguments of the command at the head. */
  lemma ReadsHead(s: State, t: ThreadId, q: StreamId, c: CommandId, x: Command)
    requires Good(s) && HeadIs(s, t, Between, q, c, x) && x.args != []
    ensures Enabled(s, LaunchRead(t)) && Good(Apply(s, LaunchRead(t)))
    ensures HeadIs(Apply(s, LaunchRead(t)), t, Launching(q, ReadArgs(s.memory, x.args)), q, c, x)
  {
    StepGood(s, LaunchRead(t));
  }

  lemma HeadWorks(s: State, t: ThreadId, q: StreamId, config: Config, args: seq<Arg>, f: FunctionId, k: nat, c: CommandId, x: Command)
    requires Good(s) && HeadIs(s, t, Between, q, c, x) && k <= |args| && args != []
    requires x.body == KernelLaunch(config, None, []) && x.args == args[..k]
    ensures NextWorks(s, t, c, config, args, f, k)
  {
    if k == |args| {
      assert args[..k] == args;
      ReadsHead(s, t, q, c, x);
      HeadFills(Apply(s, LaunchRead(t)), t, f, ReadArgs(s.memory, args), q, c, x);
    }
  }

  lemma GuardSuffices(s: State, t: ThreadId, q: StreamId, config: Config, args: seq<Arg>, f: FunctionId)
    requires Good(s) && Enabled(s, Configure(t, q, config)) && Own(s, Configure(t, q, config)) && Guard(s, t, q) && args != []
    ensures AlwaysWorks(s, t, q, config, args, f)
  {
    var s1, c := Apply(s, Configure(t, q, config)), |s.cmds|;
    var x := Command(KernelLaunch(config, None, []), [], false, false, q, |s.streams[q].history|);
    HeadAfterConfigure(s, t, q, config);
    forall run, mid, k: nat | k <= |args| && OwnRun(s1, run, mid) && Calls(run, t) == Setups(t, args[..k])
      ensures NextWorks(mid, t, c, config, args, f, k)
    {
      SetupPhase(s1, run, mid, t, q, c, x, args[..k]);
      assert x.args + args[..k] == args[..k];
      HeadWorks(mid, t, q, config, args, f, k, c, x.(args := args[..k]));
    }
  }

  // ---------------------------------------------------------------- the guard is needed

  /** Calling cudaSetupArgument for all arguments at once gives them all to the command at the head. */
  lemma {:induction false} SetupsInOneGo(s: State, t: ThreadId, args: seq<Arg>) returns (mid: State)
    requires t < |s.threads| && s.threads[t] == Between && HasHead(s, t)
    ensures OwnRun(s, Setups(t, args), mid) && Calls(Setups(t, args), t) == Setups(t, args)
    ensures var h := Head(s, t); mid == s.(cmds := s.cmds[h := s.cmds[h].(args := s.cmds[h].args + args)])
    decreases |args|
  {
    mid := s;
    var h := Head(s, t);
    if args == [] {
      assert s.cmds[h].args + args == s.cmds[h].args;
      assert s.cmds[h := s.cmds[h]] == s.cmds;
    } else {
      var l := SetupArgument(t, args[0]);
      mid := SetupsInOneGo(Apply(s, l), t, args[1..]);
      assert Setups(t, args)[0] == l && Setups(t, args)[1..] == Setups(t, args[1..]);
      assert (s.cmds[h].args + [args[0]]) + args[1..] == s.cmds[h].args + args;
    }
  }

  /** If cuLaunchKernel works at once, the first kernel launch in the list it searches is the one released. */
  lemma WorksAtOnce(s: State, t: ThreadId, c: CommandId, config: Config, args: seq<Arg>, f: FunctionId)
    requires Good(s) && NextWorks(s, t, c, config, args, f, |args|) && c < |s.cmds| && !s.cmds[c].ready
    ensures var q := FindStream(s.streams, t, 0);
            && q < |s.streams|
            && var list := s.streams[q].list;
               FindLaunch(list, s.cmds, 0) < |list| && list[FindLaunch(list, s.cmds, 0)] == c
  {
    var s1 := Apply(s, LaunchRead(t));
    assert OwnRun(s1, [], s1) && Calls([], t) == [];
    var s2 := Apply(s1, LaunchFill(t, f));
    assert OwnRun(s2, [], s2);
    assert Delivered(Apply(s2, LaunchReady(t)), c, Wanted(config, f, s.memory, args));
  }

  /** A launch that always works also works when its calls come in one go, with the list as it is. */
  lemma WorksInOneGo(s: State, t: ThreadId, q: StreamId, config: Config, args: seq<Arg>, f: FunctionId) returns (mid: State)
    requires Good(s) && Enabled(s, Configure(t, q, config)) && Own(s, Configure(t, q, config)) && args != []
    requires AlwaysWorks(s, t, q, config, args, f)
    ensures var s1 := Apply(s, Configure(t, q, config));
            && HasHead(s1, t) && OwnRun(s1, Setups(t, args), mid) && Calls(Setups(t, args), t) == Setups(t, args)
            && var h := Head(s1, t); mid == s1.(cmds := s1.cmds[h := s1.cmds[h].(args := s1.cmds[h].args + args)])
    ensures Good(mid) && NextWorks(mid, t, |s.cmds|, config, args, f, |args|)
  {
    var s1 := Apply(s, Configure(t, q, config));
    StepGood(s, Configure(t, q, config));
    assert OwnRun(s1, [], s1) && Calls([], t) == Setups(t, args[..0]);
    assert NextWorks(s1, t, |s.cmds|, config, args, f, 0);
    mid := SetupsInOneGo(s1, t, args);
    assert args[..|args|] == args;
    assert NextWorks(mid, t, |s.cmds|, config, args, f, |args|);
    RunGood(s1, Setups(t, args), mid);
  }

  /** The command found by cuLaunchKernel is of stream q only if the thread finds that stream. */
  lemma FoundInOwnStream(s: State, t: ThreadId, q: StreamId, c: CommandId)
    requires InOrder(s) && c < |s.cmds| && s.cmds[c].stream == q
    requires var p := FindStream(s.streams, t, 0);
             && p < |s.streams|
             && var list := s.streams[p].list;
                FindLaunch(list, s.cmds, 0) < |list| && list[FindLaunch(list, s.cmds, 0)] == c
    ensures FindStream(s.streams, t, 0) == q
  {
    var p := FindStream(s.streams, t, 0);
    ListedCommand(s, p, FindLaunch(s.streams[p].list, s.cmds, 0));
  }

  ghost predicate NoLaunch(list: seq<CommandId>, cmds: seq<Command>) {
    forall k :: 0 <= k < |list| ==> list[k] < |cmds| && !cmds[list[k]].body.KernelLaunch?
  }

  /** If the first launch in list + [c] is c, which is new, there is none in the list. */
  lemma NewLaunchIsFirst(list: seq<CommandId>, cmds: seq<Command>, cmds': seq<Command>)
    requires forall k :: 0 <= k < |list| ==> list[k] < |cmds|
    requires |cmds| < |cmds'| && forall i :: 0 <= i < |cmds| ==> cmds'[i].body == cmds[i].body
    requires var i := FindLaunch(list + [|cmds|], cmds', 0); i <= |list| && (list + [|cmds|])[i] == |cmds|
    ensures NoLaunch(list, cmds)
  {
    var all := list + [|cmds|];
    assert forall k :: 0 <= k < |list| ==> all[k] == list[k];
  }

  /** Configuring and setting up leaves the functions of the older commands alone. */
  lemma SetupsLeaveBodies(s: State, t: ThreadId, q: StreamId, config: Config, args: seq<Arg>, mid: State)
    requires Enabled(s, Configure(t, q, config)) && HasHead(Apply(s, Configure(t, q, config)), t)
    requires var s1 := Apply(s, Configure(t, q, config)); var h := Head(s1, t);
             mid == s1.(cmds := s1.cmds[h := s1.cmds[h].(args := s1.cmds[h].args + args)])
    ensures |mid.cmds| == |s.cmds| + 1 && forall i :: 0 <= i < |s.cmds| ==> mid.cmds[i].body == s.cmds[i].body
    ensures mid.cmds[|s.cmds|].stream == q && !mid.cmds[|s.cmds|].ready
    ensures q < |mid.streams| && mid.streams[q].list == s.streams[q].list + [|s.cmds|]
  {
  }

  lemma ListInTable(s: State, q: StreamId)
    requires InOrder(s) && q < |s.streams|
    ensures forall k :: 0 <= k < |s.streams[q].list| ==> s.streams[q].list[k] < |s.cmds|
  {
    forall k | 0 <= k < |s.streams[q].list|
      ensures s.streams[q].list[k] < |s.cmds|
    {
      ListedCommand(s, q, k);
    }
  }

  /** A launch that always works finds its own stream, and no older launch in it. */
  lemma NeedsOwnSearch(s: State, t: ThreadId, q: StreamId, config: Config, args: seq<Arg>, f: FunctionId)
    requires Good(s) && Enabled(s, Configure(t, q, config)) && Own(s, Configure(t, q, config)) && args != []
    requires AlwaysWorks(s, t, q, config, args, f)
    ensures FindStream(s.streams, t, 0) >= q && NoLaunch(s.streams[q].list, s.cmds)
  {
    var s1, c := Apply(s, Configure(t, q, config)), |s.cmds|;
    var mid := WorksInOneGo(s, t, q, config, args, f);
    SetupsLeaveBodies(s, t, q, config, args, mid);
    WorksAtOnce(mid, t, c, config, args, f);
    FoundInOwnStream(mid, t, q, c);
    ConfigureFound(s, t, q, config);
    ListInTable(s, q);
    NewLaunchIsFirst(s.streams[q].list, s.cmds, mid.cmds);
  }

  lemma {:induction false} WorkerRunIsOwn(s: State, run: seq<Label>, s': State, q: StreamId, t: ThreadId)
    requires Reaches(s, run, s') && forall i :: 0 <= i < |run| ==> WorkerOf(run[i], q)
    ensures OwnRun(s, run, s') && Calls(run, t) == []
    decreases |run|
  {
    if run != [] {
      WorkerRunIsOwn(Apply(s, run[0]), run[1..], s', q, t);
    }
  }

  /** Commands that are no kernel launches may run, and so may everything enqueued before them. */
  lemma ReadyWithoutLaunches(s: State, mid: State, q: StreamId)
    requires Good(s) && q < |s.streams| && NoLaunch(s.streams[q].list, s.cmds)
    requires |s.cmds| <= |mid.cmds| && forall i :: 0 <= i < |s.cmds| ==> mid.cmds[i].ready == s.cmds[i].ready
    requires q < |mid.streams| && s.streams[q].history <= mid.streams[q].history
    ensures ReadyTo(mid, q, |s.streams[q].history|)
  {
    var st := s.streams[q];
    assert StreamOk(st, q, s.cmds);
    forall k | 0 <= k < |st.history|
      ensures mid.streams[q].history[k] < |mid.cmds| && mid.cmds[mid.streams[q].history[k]].ready
    {
      assert EntryOk(st, q, s.cmds, k);
      assert k >= st.taken ==> st.list[k - st.taken] == st.history[k];
      assert KernelOk(s.cmds[st.history[k]]);
    }
  }

  /** Once the worker has run everything before the new launch, that is at the head and has no arguments. */
  lemma DrainedBeforeLaunch(s: State, mid: State, q: StreamId, c: CommandId) returns (run: seq<Label>, s': State)
    requires InOrder(mid) && q < |s.streams| && ReadyTo(mid, q, |s.streams[q].history|)
    requires mid.streams[q].history == s.streams[q].history + [c] && mid.streams[q].taken <= |s.streams[q].history|
    requires c < |mid.cmds|
    ensures OwnRun(mid, run, s') && forall i :: 0 <= i < |run| ==> WorkerOf(run[i], q)
    ensures q < |s'.streams| && s'.streams[q].list == [c] && c < |s'.cmds| && s'.cmds[c].args == mid.cmds[c].args
    ensures forall t :: FindStream(s'.streams, t, 0) == FindStream(mid.streams, t, 0)
  {
    run, s' := Drain(mid, q, |s.streams[q].history|);
    WorkerRunIsOwn(mid, run, s', q, 0);
    assert StreamOk(s'.streams[q], q, s'.cmds);
    forall t: ThreadId
      ensures FindStream(s'.streams, t, 0) == FindStream(mid.streams, t, 0)
    {
      SameSearch(mid.streams, s'.streams, t);
    }
  }

  /**
    With commands left in the stream there is an interleaving in which the launch fails: its arguments go to
    an older command, and when cudaLaunch looks for them, that command is gone.
   */
  lemma NeedsEmptyList(s: State, t: ThreadId, q: StreamId, config: Config, args: seq<Arg>, f: FunctionId)
    requires Good(s) && Enabled(s, Configure(t, q, config)) && Own(s, Configure(t, q, config)) && args != []
    requires AlwaysWorks(s, t, q, config, args, f)
    ensures s.streams[q].list == []
  {
    if s.streams[q].list != [] {
      NeedsOwnSearch(s, t, q, config, args, f);
      ConfigureFound(s, t, q, config);
      var s1, c := Apply(s, Configure(t, q, config)), |s.cmds|;
      var mid := WorksInOneGo(s, t, q, config, args, f);
      SetupsLeaveArgs(s, t, q, config, args, mid);
      ReadyWithoutLaunches(s, mid, q);
      assert StreamOk(mid.streams[q], q, mid.cmds) && StreamOk(s.streams[q], q, s.cmds);
      var run, s2 := DrainedBeforeLaunch(s, mid, q, c);
      NotAfterDraining(s1, Setups(t, args), mid, run, s2, t, q, c, config, args, f);
    }
  }

  /** The arguments went to the older head and not to the new launch. */
  lemma SetupsLeaveArgs(s: State, t: ThreadId, q: StreamId, config: Config, args: seq<Arg>, mid: State)
    requires Good(s) && Enabled(s, Configure(t, q, config)) && Own(s, Configure(t, q, config))
    requires FindStream(s.streams, t, 0) >= q && s.streams[q].list != []
    requires var s1 := Apply(s, Configure(t, q, config));
             && HasHead(s1, t)
             && var h := Head(s1, t); mid == s1.(cmds := s1.cmds[h := s1.cmds[h].(args := s1.cmds[h].args + args)])
    ensures |mid.cmds| == |s.cmds| + 1 && mid.cmds[|s.cmds|].args == []
    ensures forall i :: 0 <= i < |s.cmds| ==> mid.cmds[i].ready == s.cmds[i].ready
    ensures q < |mid.streams| && mid.streams[q].history == s.streams[q].history + [|s.cmds|]
    ensures mid.streams[q].taken == s.streams[q].taken && FindStream(mid.streams, t, 0) == q
  {
    ConfigureFound(s, t, q, config);
    ListedCommand(s, q, 0);
  }

  lemma NotAfterDraining(s1: State, setups: seq<Label>, mid: State, run: seq<Label>, s2: State, t: ThreadId, q: StreamId,
                         c: CommandId, config: Config, args: seq<Arg>, f: FunctionId)
    requires OwnRun(s1, setups, mid) && Calls(setups, t) == setups == Setups(t, args)
    requires OwnRun(mid, run, s2) && forall i :: 0 <= i < |run| ==> WorkerOf(run[i], q)
    requires FindStream(s2.streams, t, 0) == q < |s2.streams| && s2.streams[q].list == [c]
    requires c < |s2.cmds| && s2.cmds[c].args == []
    ensures OwnRun(s1, setups + run, s2) && Calls(setups + run, t) == Setups(t, args)
    ensures !NextWorks(s2, t, c, config, args, f, |args|)
  {
    OwnRunsCompose(s1, setups, mid, run, s2);
    CallsCompose(setups, run, t);
    NoCalls(run, q, t);
  }

  lemma {:induction false} NoCalls(run: seq<Label>, q: StreamId, t: ThreadId)
    requires forall i :: 0 <= i < |run| ==> WorkerOf(run[i], q)
    ensures Calls(run, t) == []
    decreases |run|
  {
    if run != [] {
      NoCalls(run[1..], q, t);
    }
  }

  /** A launch without arguments fails: cudaLaunch counts the elements of a list that was never created. */
  lemma NeedsArgument(s: State, t: ThreadId, q: StreamId, config: Config, f: FunctionId)
    requires Enabled(s, Configure(t, q, config))
    ensures !AlwaysWorks(s, t, q, config, [], f)
  {
    var s1, none: seq<Arg> := Apply(s, Configure(t, q, config)), [];
    assert OwnRun(s1, [], s1) && Calls([], t) == Setups(t, none[..0]);
    if NextWorks(s1, t, |s.cmds|, config, [], f, 0) {
      var s2 := Apply(s1, LaunchRead(t));
      assert OwnRun(s2, [], s2) && |s2.threads[t].params| > 0;
      var s3 := Apply(s2, LaunchFill(t, f));
      assert s3.cmds[s3.threads[t].cmd].body.params != ReadArgs(s1.memory, []);
      assert OwnRun(s3, [], s3);
    }
  }

  /**
    The exact condition for the handoff: a launch works under every interleaving with the workers and the
    other threads if and only if it has an argument and, at cudaConfigureCall, no command is left in the
    stream and the thread is not configuring a stream that it would find before this one.
   */
  lemma LaunchWorksExactly(s: State, t: ThreadId, q: StreamId, config: Config, args: seq<Arg>, f: FunctionId)
    requires Good(s) && Enabled(s, Configure(t, q, config)) && Own(s, Configure(t, q, config))
    ensures AlwaysWorks(s, t, q, config, args, f) <==> Guard(s, t, q) && args != []
  {
    if args == [] {
      NeedsArgument(s, t, q, config, f);
    } else if Guard(s, t, q) {
      GuardSuffices(s, t, q, config, args, f);
    } else if AlwaysWorks(s, t, q, config, args, f) {
      NeedsOwnSearch(s, t, q, config, args, f);
      NeedsEmptyList(s, t, q, config, args, f);
    }
  }

  lemma InitGood(s: State)
    requires Init(s)
    ensures Good(s)
  {
    InitInv(s);
  }

  /** One new stream, of thread 0. */
  ghost function OneStream(memory: nat -> Byte): State {
    State([Stream(0, false, [], Poll, [], 0, [])], [], [Between], memory, [], [], [])
  }

  /** ... into which the thread has put a memory copy, ... */
  ghost function Copying(memory: nat -> Byte): State {
    OneStream(memory).(streams := [Stream(0, false, [0], Poll, [0], 0, [])], cmds := [Command(Other, [], true, false, 0, 0)])
  }

  /** ... and then configured a launch and set up some arguments. */
  ghost function CopyThenLaunch(memory: nat -> Byte, config: Config, args: seq<Arg>): State {
    OneStream(memory).(
      streams := [Stream(0, true, [0, 1], Poll, [0, 1], 0, [])],
      cmds := [Command(Other, args, true, false, 0, 0), Command(KernelLaunch(config, None, []), [], false, false, 0, 1)])
  }

  lemma ConfigureAfterCopy(memory: nat -> Byte, config: Config)
    ensures Enabled(Copying(memory), Configure(0, 0, config))
    ensures Apply(Copying(memory), Configure(0, 0, config)) == CopyThenLaunch(memory, config, [])
  {
    var s, s' := Copying(memory), CopyThenLaunch(memory, config, []);
    assert [0] + [1] == [0, 1];
    assert Apply(s, Configure(0, 0, config)).streams == s'.streams && Apply(s, Configure(0, 0, config)).cmds == s'.cmds;
  }

  lemma SetupAfterCopy(memory: nat -> Byte, config: Config, arg: Arg)
    ensures var s := CopyThenLaunch(memory, config, []);
            Enabled(s, SetupArgument(0, arg)) && Apply(s, SetupArgument(0, arg)) == CopyThenLaunch(memory, config, [arg])
  {
    var s, s' := CopyThenLaunch(memory, config, []), CopyThenLaunch(memory, config, [arg]);
    assert HasHead(s, 0) && Head(s, 0) == 0 && s.cmds[0].args + [arg] == [arg];
    assert Apply(s, SetupArgument(0, arg)).cmds == s'.cmds;
  }

  lemma ReachCopyThenLaunch(memory: nat -> Byte, config: Config, arg: Arg)
    ensures Init(OneStream(memory))
    ensures OwnRun(OneStream(memory), [Append(0), Configure(0, 0, config), SetupArgument(0, arg)], CopyThenLaunch(memory, config, [arg]))
  {
    var s0, s1, s2 := OneStream(memory), Copying(memory), CopyThenLaunch(memory, config, []);
    var s3 := CopyThenLaunch(memory, config, [arg]);
    assert s0.streams[0].list + [0] == [0] && s0.streams[0].history + [0] == [0];
    assert Apply(s0, Append(0)) == s1;
    ConfigureAfterCopy(memory, config);
    SetupAfterCopy(memory, config, arg);
    assert OwnRun(s3, [], s3);
    assert OwnRun(s2, [SetupArgument(0, arg)], s3);
    assert OwnRun(s1, [Configure(0, 0, config), SetupArgument(0, arg)], s3);
  }

  /**
    The argument went to the copy. If the worker runs the copy before cudaLaunch, the argument is gone with
    it, and cudaLaunch finds a command without an argument list.
   */
  lemma SetupMissesItsLaunch(memory: nat -> Byte, config: Config, arg: Arg) returns (run: seq<Label>, lost: State)
    ensures OwnRun(CopyThenLaunch(memory, config, [arg]), run, lost) && forall i :: 0 <= i < |run| ==> WorkerOf(run[i], 0)
    ensures HasHead(lost, 0) && Head(lost, 0) == 1 && lost.cmds[1].args == [] && !Enabled(lost, LaunchRead(0))
  {
    var s := CopyThenLaunch(memory, config, [arg]);
    ReachCopyThenLaunch(memory, config, arg);
    InitGood(OneStream(memory));
    RunGood(OneStream(memory), [Append(0), Configure(0, 0, config), SetupArgument(0, arg)], s);
    run, lost := Drain(s, 0, 1);
    WorkerRunIsOwn(s, run, lost, 0, 0);
    assert StreamOk(lost.streams[0], 0, lost.cmds);
    SameSearch(s.streams, lost.streams, 0);
  }

  /** If cudaLaunch comes first, it copies the argument from the copy command and the launch is as called. */
  lemma SameCallsMayWork(memory: nat -> Byte, config: Config, arg: Arg, f: FunctionId)
    ensures var s := CopyThenLaunch(memory, config, [arg]);
            && Enabled(s, LaunchRead(0))
            && var s1 := Apply(s, LaunchRead(0));
               && Enabled(s1, LaunchFill(0, f))
               && var s2 := Apply(s1, LaunchFill(0, f));
                  Enabled(s2, LaunchReady(0)) && Delivered(Apply(s2, LaunchReady(0)), 1, Wanted(config, f, memory, [arg]))
  {
    var s := CopyThenLaunch(memory, config, [arg]);
    assert FindLaunch(s.streams[0].list, s.cmds, 0) == 1;
  }

  // ---------------------------------------------------------------- after the launch

  /** What a command that has run has done is in the log for good; until then nobody may fill it in again. */
  ghost predicate Sent(s: State, t: ThreadId, q: StreamId, c: CommandId, body: Body) {
    && t < |s.threads| && q < |s.streams| && s.streams[q].user_thread == t
    && c < |s.cmds| && s.cmds[c].stream == q && s.cmds[c].ready && s.cmds[c].pos <= s.streams[q].taken
    && if s.cmds[c].pos < |s.streams[q].log| then s.streams[q].log[s.cmds[c].pos] == Entry(c, body)
       else s.cmds[c].body == body && (s.threads[t] == Closing(q) || !s.streams[q].configuring)
  }

  /** Thread t configures stream q only when nothing is left in it. */
  ghost predicate Patient(s: State, l: Label, t: ThreadId, q: StreamId) {
    l.Configure? && l.thread == t && l.stream == q ==> q < |s.streams| && s.streams[q].list == []
  }

  ghost predicate PatientRun(s: State, run: seq<Label>, s': State, t: ThreadId, q: StreamId)
    decreases |run|
  {
    if run == [] then s' == s
    else
      && Enabled(s, run[0]) && Own(s, run[0]) && Patient(s, run[0], t, q)
      && PatientRun(Apply(s, run[0]), run[1..], s', t, q)
  }

  /** A command that has run stays as it is in the log. */
  lemma LogIsFinal(s: State, l: Label, q: StreamId)
    requires Enabled(s, l) && q < |s.streams|
    ensures q < |Apply(s, l).streams| && s.streams[q].log <= Apply(s, l).streams[q].log
    ensures s.streams[q].taken <= Apply(s, l).streams[q].taken && Apply(s, l).streams[q].user_thread == s.streams[q].user_thread
  {
  }

  lemma CommandKeepsPlace(s: State, l: Label, c: CommandId)
    requires Enabled(s, l) && c < |s.cmds|
    ensures c < |Apply(s, l).cmds|
    ensures var x, x' := s.cmds[c], Apply(s, l).cmds[c];
            x'.stream == x.stream && x'.pos == x.pos && (x.ready ==> x'.ready)
  {
  }

  /** The search of a thread does not end at a stream that it is not configuring. */
  lemma NotConfiguring(s: State, q: StreamId, t: ThreadId)
    requires q < |s.streams| && !s.streams[q].configuring
    ensures FindStream(s.streams, t, 0) != q
  {
  }

  /** Until it has run, a released command is filled in by nobody. */
  lemma SentBody(s: State, l: Label, t: ThreadId, q: StreamId, c: CommandId, body: Body)
    requires Good(s) && Enabled(s, l) && Sent(s, t, q, c, body) && s.cmds[c].pos >= |s.streams[q].log|
    ensures c < |Apply(s, l).cmds| && Apply(s, l).cmds[c].body == body
  {
    if l.LaunchFill? {
      assert PhaseOk(s, l.thread);
      if l.thread == t {
        NotConfiguring(s, q, t);
      }
      CallsTouchOwn(s, l, l.thread, c);
    }
  }

  /** The thread does not come back to the stream before the command has run. */
  lemma SentClosed(s: State, l: Label, t: ThreadId, q: StreamId, c: CommandId, body: Body)
    requires Good(s) && Enabled(s, l) && Own(s, l) && Patient(s, l, t, q)
    requires Sent(s, t, q, c, body) && s.cmds[c].pos >= |s.streams[q].log|
    ensures q < |Apply(s, l).streams| && |Apply(s, l).threads| == |s.threads|
    ensures Apply(s, l).threads[t] == Closing(q) || !Apply(s, l).streams[q].configuring
  {
    assert StreamOk(s.streams[q], q, s.cmds);
    if l.LaunchClose? {
      assert PhaseOk(s, l.thread);
    }
  }

  /** What a worker runs is the command as it is, at the next place of the log. */
  lemma RunsAsItIs(s: State, q: StreamId)
    requires InOrder(s) && Enabled(s, Run(q))
    ensures var c := s.streams[q].worker.cmd;
            && |s.streams[q].log| == s.cmds[c].pos && s.cmds[c].stream == q
            && Apply(s, Run(q)).streams[q].log == s.streams[q].log + [Entry(c, s.cmds[c].body)]
            && forall d :: 0 <= d < |s.cmds| && s.cmds[d].stream == q && s.cmds[d].pos == s.cmds[c].pos ==> d == c
  {
    HeldCommand(s, q);
    assert StreamOk(s.streams[q], q, s.cmds) && EntryOk(s.streams[q], q, s.cmds, s.streams[q].taken);
    assert CommandsOk(s.streams, s.cmds);
  }

  lemma StepSent(s: State, l: Label, t: ThreadId, q: StreamId, c: CommandId, body: Body)
    requires Good(s) && Enabled(s, l) && Own(s, l) && Patient(s, l, t, q) && Sent(s, t, q, c, body)
    ensures Sent(Apply(s, l), t, q, c, body)
  {
    LogIsFinal(s, l, q);
    CommandKeepsPlace(s, l, c);
    assert |Apply(s, l).threads| == |s.threads|;
    if s.cmds[c].pos >= |s.streams[q].log| {
      SentBody(s, l, t, q, c, body);
      SentClosed(s, l, t, q, c, body);
      if l == Run(q) {
        RunsAsItIs(s, q);
      } else {
        assert Apply(s, l).streams[q].log == s.streams[q].log;
      }
    }
  }

  lemma {:induction false} RunSent(s: State, run: seq<Label>, s': State, t: ThreadId, q: StreamId, c: CommandId, body: Body)
    requires Good(s) && PatientRun(s, run, s', t, q) && Sent(s, t, q, c, body)
    ensures Good(s') && Sent(s', t, q, c, body)
    decreases |run|
  {
    if run != [] {
      StepGood(s, run[0]);
      StepSent(s, run[0], t, q, c, body);
      RunSent(Apply(s, run[0]), run[1..], s', t, q, c, body);
    }
  }

  /** The last step of cuLaunchKernel sends the command at the head. */
  lemma ReadySends(s: State, t: ThreadId, q: StreamId, c: CommandId, x: Command)
    requires Good(s) && HeadIs(s, t, Filled(q, c), q, c, x)
    ensures Enabled(s, LaunchReady(t)) && Good(Apply(s, LaunchReady(t)))
    ensures Sent(Apply(s, LaunchReady(t)), t, q, c, x.body)
  {
    StepGood(s, LaunchReady(t));
    ListedCommand(s, q, 0);
    assert StreamOk(s.streams[q], q, s.cmds) && EntryOk(s.streams[q], q, s.cmds, s.streams[q].taken);
    assert KernelOk(s.cmds[c]);
  }

  lemma {:induction false} QuietIsPatient(s: State, run: seq<Label>, s': State, t: ThreadId, q: StreamId)
    requires OwnRun(s, run, s') && Calls(run, t) == []
    ensures PatientRun(s, run, s', t, q)
    decreases |run|
  {
    if run != [] {
      QuietIsPatient(Apply(s, run[0]), run[1..], s', t, q);
    }
  }

  /** From the point where only ready_to_run is missing. */
  lemma {:induction false} ReadyPhase(s: State, run: seq<Label>, s': State, t: ThreadId, q: StreamId, c: CommandId, x: Command)
    requires Good(s) && HeadIs(s, t, Filled(q, c), q, c, x)
    requires OwnRun(s, run, s') && Calls(run, t) == [LaunchReady(t)]
    ensures Good(s') && Sent(s', t, q, c, x.body)
    decreases |run|
  {
    var s1 := Apply(s, run[0]);
    if By(run[0], t) {
      assert run[0] == Calls(run, t)[0] == LaunchReady(t);
      assert Calls(run[1..], t) == Calls(run, t)[1..] == [];
      ReadySends(s, t, q, c, x);
      QuietIsPatient(s1, run[1..], s', t, q);
      RunSent(s1, run[1..], s', t, q, c, x.body);
    } else {
      StepGood(s, run[0]);
      OthersLeaveHead(s, run[0], t, Filled(q, c), q, c, x);
      ReadyPhase(s1, run[1..], s', t, q, c, x);
    }
  }

  /** cuLaunchKernel, with anything before, between and after its steps, sends the launch with its kernel. */
  lemma {:induction false} FillPhase(s: State, run: seq<Label>, s': State, t: ThreadId, f: FunctionId, params: seq<seq<Byte>>,
                                     q: StreamId, c: CommandId, x: Command)
    requires Good(s) && HeadIs(s, t, Launching(q, params), q, c, x) && x.body.KernelLaunch?
    requires OwnRun(s, run, s') && Calls(run, t) == [LaunchFill(t, f), LaunchReady(t)]
    ensures Good(s') && Sent(s', t, q, c, KernelLaunch(x.body.config, Some(f), params))
    decreases |run|
  {
    var s1 := Apply(s, run[0]);
    if By(run[0], t) {
      assert run[0] == Calls(run, t)[0] == LaunchFill(t, f);
      assert Calls(run[1..], t) == Calls(run, t)[1..] == [LaunchReady(t)];
      FillsHead(s, t, f, Launching(q, params), q, c, x);
      ReadyPhase(s1, run[1..], s', t, q, c, x.(body := x.body.(kernel := Some(f), params := params)));
    } else {
      StepGood(s, run[0]);
      OthersLeaveHead(s, run[0], t, Launching(q, params), q, c, x);
      FillPhase(s1, run[1..], s', t, f, params, q, c, x);
    }
  }

  /** A command sent from the head of its stream runs after at most six steps of the worker. */
  lemma SentRuns(s: State, run: seq<Label>, s': State, t: ThreadId, q: StreamId, c: CommandId, body: Body)
    requires Good(s) && PatientRun(s, run, s', t, q) && Sent(s, t, q, c, body)
    ensures Good(s') && Sent(s', t, q, c, body)
    ensures WorkerSteps(run, q) >= 6 || s'.streams[q].list == [] ==> Entry(c, body) in s'.streams[q].log
  {
    RunSent(s, run, s', t, q, c, body);
    SentIsReady(s, t, q, c, body);
    PatientReaches(s, run, s', t, q);
    ReadyCommandsRun(s, run, s', q, s.cmds[c].pos + 1);
    PlaceStays(s, run, s', c);
    var st := s'.streams[q];
    assert StreamOk(st, q, s'.cmds);
    assert st.list == [] || WorkerSteps(run, q) >= 6 ==> s'.cmds[c].pos < |st.log|;
    assert s'.cmds[c].pos < |st.log| ==> st.log[s'.cmds[c].pos] == Entry(c, body);
  }

  lemma SentIsReady(s: State, t: ThreadId, q: StreamId, c: CommandId, body: Body)
    requires InOrder(s) && Sent(s, t, q, c, body)
    ensures ReadyTo(s, q, s.cmds[c].pos + 1) && StepsTo(s.streams[q], s.cmds[c].pos + 1) <= 6
  {
    var st := s.streams[q];
    assert StreamOk(st, q, s.cmds);
    assert st.history[s.cmds[c].pos] == c;
    forall k | 0 <= k < s.cmds[c].pos + 1
      ensures st.history[k] < |s.cmds| && s.cmds[st.history[k]].ready
    {
      assert EntryOk(st, q, s.cmds, k);
    }
  }

  lemma {:induction false} PatientReaches(s: State, run: seq<Label>, s': State, t: ThreadId, q: StreamId)
    requires PatientRun(s, run, s', t, q)
    ensures Reaches(s, run, s')
    decreases |run|
  {
    if run != [] {
      PatientReaches(Apply(s, run[0]), run[1..], s', t, q);
    }
  }

  /**
    A launch from one end to the other. In any run, thread t calls cudaConfigureCall on a stream of its own
    under the guard, then cudaSetupArgument once per argument, then cudaLaunch; the workers and other threads
    do anything before, between and after, and the thread itself goes on, as long as it configures this
    stream only when nothing is left in it. Then the command of the launch runs at most once, only with
    these dimensions, this kernel and the bytes that these arguments had, in this order, when cudaLaunch
    read them; and it has run when the worker has taken six steps, or the stream is empty.
   */
  lemma LaunchRunsAsCalled(s0: State, run0: seq<Label>, s: State, t: ThreadId, q: StreamId, config: Config,
                           run1: seq<Label>, args: seq<Arg>, mid: State, run2: seq<Label>, f: FunctionId, sent: State,
                           run3: seq<Label>, s': State)
    requires Init(s0) && OwnRun(s0, run0, s)
    requires Enabled(s, Configure(t, q, config)) && Own(s, Configure(t, q, config)) && Guard(s, t, q)
    requires OwnRun(Apply(s, Configure(t, q, config)), run1, mid) && Calls(run1, t) == Setups(t, args)
    requires Enabled(mid, LaunchRead(t)) && OwnRun(Apply(mid, LaunchRead(t)), run2, sent)
    requires Calls(run2, t) == [LaunchFill(t, f), LaunchReady(t)]
    requires PatientRun(sent, run3, s', t, q)
    ensures q < |s'.streams|
    ensures var c, log := |s.cmds|, s'.streams[q].log;
            && (forall k :: 0 <= k < |log| && log[k].cmd == c ==>
                  && log[k].body.KernelLaunch? && log[k].body.config == config && log[k].body.kernel == Some(f)
                  && var params := log[k].body.params;
                     && |params| == |args| && (forall i :: 0 <= i < |args| ==> |params[i]| == args[i].size)
                     && forall i, b :: 0 <= i < |args| && 0 <= b < args[i].size ==> params[i][b] == mid.memory(args[i].ptr + b))
            && (forall j, k :: 0 <= j < |log| && 0 <= k < |log| && log[j].cmd == log[k].cmd == c ==> j == k)
            && (WorkerSteps(run3, q) >= 6 || s'.streams[q].list == [] ==> exists k :: 0 <= k < |log| && log[k].cmd == c)
  {
    InitGood(s0);
    RunGood(s0, run0, s);
    var c, body := |s.cmds|, Wanted(config, f, mid.memory, args);
    LaunchIsSent(s, t, q, config, run1, args, mid, run2, f, sent);
    SentRuns(sent, run3, s', t, q, c, body);
    OnceInLog(s', q, c);
    WantedMeans(config, f, mid.memory, args, body);
    var log := s'.streams[q].log;
    if Entry(c, body) in log {
      var k :| 0 <= k < |log| && log[k] == Entry(c, body);
      assert log[k].cmd == c;
    }
  }

  lemma LaunchIsSent(s: State, t: ThreadId, q: StreamId, config: Config, run1: seq<Label>, args: seq<Arg>, mid: State,
                     run2: seq<Label>, f: FunctionId, sent: State)
    requires Good(s) && Enabled(s, Configure(t, q, config)) && Own(s, Configure(t, q, config)) && Guard(s, t, q)
    requires OwnRun(Apply(s, Configure(t, q, config)), run1, mid) && Calls(run1, t) == Setups(t, args)
    requires Enabled(mid, LaunchRead(t)) && OwnRun(Apply(mid, LaunchRead(t)), run2, sent)
    requires Calls(run2, t) == [LaunchFill(t, f), LaunchReady(t)]
    ensures Good(sent) && Sent(sent, t, q, |s.cmds|, Wanted(config, f, mid.memory, args))
  {
    var s1, c := Apply(s, Configure(t, q, config)), |s.cmds|;
    var x := Command(KernelLaunch(config, None, []), [], false, false, q, |s.streams[q].history|);
    HeadAfterConfigure(s, t, q, config);
    SetupPhase(s1, run1, mid, t, q, c, x, args);
    assert x.args + args == args;
    ReadsHead(mid, t, q, c, x.(args := args));
    FillPhase(Apply(mid, LaunchRead(t)), run2, sent, t, f, ReadArgs(mid.memory, args), q, c, x.(args := args));
  }

  /** A command is in the log of its stream at its own place only. */
  lemma OnceInLog(s: State, q: StreamId, c: CommandId)
    requires InOrder(s) && q < |s.streams| && c < |s.cmds|
    ensures forall k :: 0 <= k < |s.streams[q].log| && s.streams[q].log[k].cmd == c ==> k == s.cmds[c].pos
  {
    var st := s.streams[q];
    assert StreamOk(st, q, s.cmds);
    forall k | 0 <= k < |st.log| && st.log[k].cmd == c
      ensures k == s.cmds[c].pos
    {
      assert EntryOk(st, q, s.cmds, k);
    }
  }
}
