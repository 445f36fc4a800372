/**
  A buffer together with the map and unmap commands that are still in its queue, as a transition system:
  clEnqueueMapBuffer and clEnqueueUnmapMemObject act at once on the fields of the buffer, their commands
  run later and in order. Which programs can abort, and what the device holds afterwards.
 */
module OpenCLMapping {
  import opened Basics
  import opened OpenCLMem

  datatype Command = MAP | UNMAP

  datatype System = System(
    buffer: Buffer,
    pending: seq<Command>,        // the map and unmap commands of this buffer in its in-order queue
    aborted: bool                 // a fatal error: already mapped, or no longer mapped
  )
  {
    ghost predicate Start() {
      buffer.Valid() && !buffer.mapped && pending == [] && !aborted
    }
  }

  datatype Step =
    | EnqueueMap(flags: Flags, offset: nat, len: nat)
    | EnqueueUnmap(at: int)       // for a pointer that many bytes after host_ptr
    | RunOldest                   // by the worker
    | Access(store: Store)        // by the application, or by another command on the device

  ghost function RunCommand(s: System): (r: System)
    requires s.buffer.Valid() && s.pending != []
    ensures r.buffer.Valid()
  {
    if !s.buffer.mapped then s.(aborted := true)
    else s.(buffer := if s.pending[0] == MAP then MapRun(s.buffer) else UnmapRun(s.buffer), pending := s.pending[1..])
  }

  ghost function Apply(s: System, l: Step): (r: System)
    requires s.buffer.Valid()
    ensures r.buffer.Valid()
  {
    if s.aborted then s
    else
      match l
      case EnqueueMap(flags, offset, len) =>
        if s.buffer.mapped then s.(aborted := true)
        else if offset + len > |s.buffer.device| then s
        else s.(buffer := MapEnqueued(s.buffer, flags, offset, len), pending := s.pending + [MAP])
      case EnqueueUnmap(at) => if Accepted(s.buffer, at) then s.(pending := s.pending + [UNMAP]) else s
      case RunOldest => if s.pending == [] then s else RunCommand(s)
      case Access(store) => s.(buffer := AfterStore(s.buffer, store))
  }

  ghost function After(s: System, run: seq<Step>): (r: System)
    requires s.buffer.Valid()
    ensures r.buffer.Valid()
    decreases |run|
  {
    if run == [] then s else After(Apply(s, run[0]), run[1..])
  }

  /** In every run, a mapped buffer has host memory, its region is inside it, and shared memory has one copy. */
  lemma {:induction false} RunKeepsValid(s: System, run: seq<Step>)
    requires s.buffer.Valid()
    ensures var b := After(s, run).buffer;
            && (b.mapped ==> b.host.Some? && b.offset + b.len <= |b.device|)
            && (b.host.Some? ==> |b.host.value| == |b.device| && (b.shared ==> b.host.value == b.device))
    decreases |run|
  {
    if run != [] {
      RunKeepsValid(Apply(s, run[0]), run[1..]);
    }
  }

  // ---------------------------------------------------------------- when a program aborts

  /** All commands that are in the queue now are run, and no calls come in between. */
  ghost function Drained(s: System): (r: System)
    requires s.buffer.Valid()
    decreases |s.pending|, if s.aborted then 0 else 1
  {
    if s.aborted || s.pending == [] then s
    else
      var t := RunCommand(s);
      if t.aborted then t else Drained(t)
  }

  /** No unmap is followed by another command. */
  ghost predicate UnmapIsLast(pending: seq<Command>) {
    forall i :: 0 <= i < |pending| - 1 ==> pending[i] == MAP
  }

  /** The queue can be drained without an abort if and only if the buffer is mapped and no command follows an unmap. */
  lemma {:induction false} DrainsExactly(s: System)
    requires s.buffer.Valid() && !s.aborted
    ensures !Drained(s).aborted <==> s.pending == [] || (s.buffer.mapped && UnmapIsLast(s.pending))
    decreases |s.pending|
  {
    if s.pending != [] && s.buffer.mapped {
      var t := RunCommand(s);
      DrainsExactly(t);
      assert forall i :: 0 <= i < |t.pending| ==> t.pending[i] == s.pending[i + 1];
      assert forall i :: 0 < i < |s.pending| ==> s.pending[i] == t.pending[i - 1];
    }
  }

  ghost predicate Safe(s: System)
    requires s.buffer.Valid()
  {
    !s.aborted && !Drained(s).aborted
  }

  /** What the application can check before a call: whether the buffer is mapped, and whether an unmap is under way. */
  ghost predicate Disciplined(s: System, l: Step) {
    && (l.EnqueueMap? ==> !s.buffer.mapped)
    && (l.EnqueueUnmap? && Accepted(s.buffer, l.at) ==> UNMAP !in s.pending)
  }

  /** From a safe state, a step leads to a safe state if and only if it is disciplined. */
  lemma StepIsSafeExactly(s: System, l: Step)
    requires s.buffer.Valid() && Safe(s)
    ensures Safe(Apply(s, l)) <==> Disciplined(s, l)
  {
    var t := Apply(s, l);
    DrainsExactly(s);
    if !t.aborted {
      DrainsExactly(t);
    }
    match l
    case EnqueueMap(_, _, _) =>
    case EnqueueUnmap(at) =>
      if Accepted(s.buffer, at) {
        UnmapAdded(s.pending);
      }
    case RunOldest =>
      assert s.pending != [] ==> forall i :: 0 <= i < |t.pending| ==> t.pending[i] == s.pending[i + 1];
    case Access(_) =>
  }

  lemma UnmapAdded(pending: seq<Command>)
    requires UnmapIsLast(pending)
    ensures UnmapIsLast(pending + [UNMAP]) <==> UNMAP !in pending
  {
    var longer := pending + [UNMAP];
    assert forall i :: 0 <= i < |pending| ==> longer[i] == pending[i];
  }

  ghost predicate DisciplinedRun(s: System, run: seq<Step>)
    requires s.buffer.Valid()
    decreases |run|
  {
    run == [] || (Disciplined(s, run[0]) && DisciplinedRun(Apply(s, run[0]), run[1..]))
  }

  /** At every point of the run, nothing has aborted and the queue can be drained. */
  ghost predicate AlwaysSafe(s: System, run: seq<Step>)
    requires s.buffer.Valid()
    decreases |run|
  {
    Safe(s) && (run == [] || AlwaysSafe(Apply(s, run[0]), run[1..]))
  }

  /**
    The exact condition for a program never to abort, nor to be one drained queue away from it: it maps the
    buffer only while it is unmapped, and unmaps it only while no unmap is under way.
   */
  lemma {:induction false} SafeExactly(s: System, run: seq<Step>)
    requires s.buffer.Valid() && Safe(s)
    ensures AlwaysSafe(s, run) <==> DisciplinedRun(s, run)
    decreases |run|
  {
    if run != [] {
      StepIsSafeExactly(s, run[0]);
      if Disciplined(s, run[0]) {
        SafeExactly(Apply(s, run[0]), run[1..]);
      }
    }
  }

  /** A new buffer of one byte, with separate device memory. */
  const NEW_BUFFER := System(Buffer([0], None, false, false, false, 0, 0, 0), [], false)

  const MAP_IT := EnqueueMap(3, 0, 1)
  const UNMAP_IT := EnqueueUnmap(0)

  /** Mapping again right after the unmap call aborts, because the unmap command has not run. */
  lemma RemapAborts()
    ensures NEW_BUFFER.Start() && After(NEW_BUFFER, [MAP_IT, UNMAP_IT, MAP_IT]).aborted
  {
    var s1 := Apply(NEW_BUFFER, MAP_IT);
    var s2 := Apply(s1, UNMAP_IT);
    assert After(s2, [MAP_IT]).aborted;
    assert After(s1, [UNMAP_IT, MAP_IT]).aborted;
  }

  /** The state after a map, two unmaps, and the first two of their commands: unmapped, with an unmap to come. */
  lemma TwoUnmaps() returns (s: System)
    ensures s.buffer.Valid() && s == After(NEW_BUFFER, [MAP_IT, UNMAP_IT, UNMAP_IT, RunOldest, RunOldest])
    ensures !s.aborted && !s.buffer.mapped && s.pending == [UNMAP] && |s.buffer.device| == 1
  {
    var s1 := Apply(NEW_BUFFER, MAP_IT);
    var s2 := Apply(s1, UNMAP_IT);
    var s3 := Apply(s2, UNMAP_IT);
    assert s3.pending == [MAP, UNMAP, UNMAP];
    var s4 := Apply(s3, RunOldest);
    assert s4.pending == [UNMAP, UNMAP];
    s := Apply(s4, RunOldest);
    assert After(s4, [RunOldest]) == s;
    assert After(s3, [RunOldest, RunOldest]) == s;
    assert After(s2, [UNMAP_IT, RunOldest, RunOldest]) == s;
    assert After(s1, [UNMAP_IT, UNMAP_IT, RunOldest, RunOldest]) == s;
  }

  /** A second unmap is accepted while the first is under way, and aborts the program if the queue is drained. */
  lemma SecondUnmapAborts() returns (s: System)
    ensures s.buffer.Valid() && s == After(NEW_BUFFER, [MAP_IT, UNMAP_IT, UNMAP_IT, RunOldest, RunOldest])
    ensures !s.aborted && Apply(s, RunOldest).aborted
  {
    s := TwoUnmaps();
  }

  /**
    But if the program happens to map the buffer again, and once more, at the right times, it gets away with
    it: every command then finds the buffer mapped. So safety is stated at every point of a run.
   */
  lemma SecondUnmapMaySurvive() returns (s: System, t: System)
    ensures s.buffer.Valid() && s == After(NEW_BUFFER, [MAP_IT, UNMAP_IT, UNMAP_IT, RunOldest, RunOldest])
    ensures t == After(s, [MAP_IT, RunOldest, MAP_IT, RunOldest, RunOldest]) && !t.aborted && t.pending == []
  {
    s := TwoUnmaps();
    var s1 := Apply(s, MAP_IT);
    assert s1.pending == [UNMAP, MAP];
    var s2 := Apply(s1, RunOldest);
    assert s2.pending == [MAP];
    var s3 := Apply(s2, MAP_IT);
    assert s3.pending == [MAP, MAP];
    var s4 := Apply(s3, RunOldest);
    t := Apply(s4, RunOldest);
    assert s4.pending == [MAP] && t.pending == [];
    assert After(s4, [RunOldest]) == t;
    assert After(s3, [RunOldest, RunOldest]) == t;
    assert After(s2, [MAP_IT, RunOldest, RunOldest]) == t;
    assert After(s1, [RunOldest, MAP_IT, RunOldest, RunOldest]) == t;
  }

  // ---------------------------------------------------------------- what the device holds

  ghost predicate InRegion(b: Buffer, addr: nat) {
    b.offset <= addr < b.offset + b.len
  }

  /** The application's stores to the region are in host memory, until the unmap command brings them back. */
  ghost predicate HostHolds(s: System) {
    !s.buffer.shared && s.buffer.mapped && MAP !in s.pending && Writes(s.buffer.flags)
  }

  /**
    What an application must do: be disciplined; map for reading if it maps for writing; store to the region
    only while it is mapped for writing and the map command has run; and meanwhile have no command on the
    device store there. Shared memory asks for discipline only.
   */
  ghost predicate WellBehaved(s: System, l: Step) {
    && Disciplined(s, l)
    && (s.buffer.shared ||
        match l
        case EnqueueMap(flags, _, _) => Writes(flags) ==> Reads(flags)
        case Access(HostStore(a, _)) => s.buffer.mapped && InRegion(s.buffer, a) ==> HostHolds(s)
        case Access(DeviceStore(a, _)) => HostHolds(s) ==> !InRegion(s.buffer, a)
        case _ => true)
  }

  ghost predicate WellBehavedRun(s: System, run: seq<Step>)
    requires s.buffer.Valid()
    decreases |run|
  {
    run == [] || (WellBehaved(s, run[0]) && WellBehavedRun(Apply(s, run[0]), run[1..]))
  }

  /** A plain array that takes the stores of the device, and those of the application to the mapped region, at once. */
  ghost function Direct(s: System, l: Step, d: seq<Byte>): (r: seq<Byte>)
    ensures |r| == |d|
  {
    match l
    case Access(DeviceStore(a, v)) => if a < |d| then d[a := v] else d
    case Access(HostStore(a, v)) =>
      if a < |d| && (if s.buffer.shared then s.buffer.host.Some? else s.buffer.mapped && InRegion(s.buffer, a)) then d[a := v] else d
    case _ => d
  }

  ghost function DirectRun(s: System, run: seq<Step>, d: seq<Byte>): (r: seq<Byte>)
    requires s.buffer.Valid()
    ensures |r| == |d|
    decreases |run|
  {
    if run == [] then d else DirectRun(Apply(s, run[0]), run[1..], Direct(s, run[0], d))
  }

  /** The buffer stands for the plain array: the part that is in host memory, if any, and the rest on the device. */
  ghost predicate Tracks(s: System, d: seq<Byte>) {
    && |d| == |s.buffer.device|
    && if HostHolds(s) then
         && s.buffer.host.Some? && |s.buffer.host.value| == |d|
         && forall i :: 0 <= i < |d| ==> d[i] == if InRegion(s.buffer, i) then s.buffer.host.value[i] else s.buffer.device[i]
       else d == s.buffer.device
  }

  /** The queue of a disciplined program: at most one map, and then at most one unmap. */
  ghost predicate Tidy(s: System) {
    && !s.aborted
    && (s.pending == [] || (s.buffer.mapped && (s.pending == [MAP] || s.pending == [MAP, UNMAP] || s.pending == [UNMAP])))
    && (!s.buffer.shared && s.buffer.mapped && Writes(s.buffer.flags) ==> Reads(s.buffer.flags))
  }

  lemma CallTracks(s: System, l: Step, d: seq<Byte>)
    requires s.buffer.Valid() && Tidy(s) && Tracks(s, d) && WellBehaved(s, l) && (l.EnqueueMap? || l.EnqueueUnmap?)
    ensures Tidy(Apply(s, l)) && Tracks(Apply(s, l), d)
  {
    var t := Apply(s, l);
    if l.EnqueueUnmap? && Accepted(s.buffer, l.at) {
      assert t.pending == (if s.pending == [] then [UNMAP] else [MAP, UNMAP]);
      assert MAP in t.pending <==> MAP in s.pending;
    } else if l.EnqueueMap? && t != s {
      assert t.pending == [MAP] && MAP in t.pending;
    }
  }

  lemma CommandTracks(s: System, d: seq<Byte>)
    requires s.buffer.Valid() && Tidy(s) && Tracks(s, d)
    ensures Tidy(Apply(s, RunOldest)) && Tracks(Apply(s, RunOldest), d)
  {
    if s.pending != [] {
      assert s.pending[1..] == (if s.pending == [MAP, UNMAP] then [UNMAP] else []);
    }
  }

  lemma AccessTracks(s: System, store: Store, d: seq<Byte>)
    requires s.buffer.Valid() && Tidy(s) && Tracks(s, d) && WellBehaved(s, Access(store))
    ensures Tidy(Apply(s, Access(store))) && Tracks(Apply(s, Access(store)), Direct(s, Access(store), d))
  {
  }

  lemma StepTracks(s: System, l: Step, d: seq<Byte>)
    requires s.buffer.Valid() && Tidy(s) && Tracks(s, d) && WellBehaved(s, l)
    ensures Tidy(Apply(s, l)) && Tracks(Apply(s, l), Direct(s, l, d))
  {
    match l
    case EnqueueMap(_, _, _) => CallTracks(s, l, d);
    case EnqueueUnmap(_) => CallTracks(s, l, d);
    case RunOldest => CommandTracks(s, d);
    case Access(store) => AccessTracks(s, store, d);
  }

  /** In every well-behaved run, with any number of maps and unmaps, nothing aborts and the buffer stands for the plain array. */
  lemma {:induction false} RunTracks(s: System, run: seq<Step>, d: seq<Byte>)
    requires s.buffer.Valid() && Tidy(s) && Tracks(s, d) && WellBehavedRun(s, run)
    ensures Tidy(After(s, run)) && Tracks(After(s, run), DirectRun(s, run, d))
    decreases |run|
  {
    if run != [] {
      StepTracks(s, run[0], d);
      RunTracks(Apply(s, run[0]), run[1..], Direct(s, run[0], d));
    }
  }

  /**
    The map/unmap round trip: after any well-behaved run on a new buffer, whenever the buffer is unmapped
    again, the device holds exactly what it would hold if every store of the device, and every store of the
    application to a mapped region, had been made on it directly, in order.
   */
  lemma RoundTrip(s: System, run: seq<Step>)
    requires s.Start() && WellBehavedRun(s, run)
    ensures !After(s, run).aborted
    ensures !After(s, run).buffer.mapped ==> After(s, run).buffer.device == DirectRun(s, run, s.buffer.device)
  {
    RunTracks(s, run, s.buffer.device);
  }

  /** Without stores, maps and unmaps leave the device as it was, at every point of the run. */
  lemma {:induction false} NoStores(s: System, run: seq<Step>, d: seq<Byte>)
    requires s.buffer.Valid() && forall i :: 0 <= i < |run| ==> !run[i].Access?
    ensures DirectRun(s, run, d) == d
    decreases |run|
  {
    if run != [] {
      NoStores(Apply(s, run[0]), run[1..], d);
    }
  }

  // ---------------------------------------------------------------- what the application reads

  /** The buffer stays mapped, and no command on the device stores to the region. */
  ghost predicate UndisturbedRun(s: System, run: seq<Step>)
    requires s.buffer.Valid()
    decreases |run|
  {
    && s.buffer.mapped
    && (run != [] ==>
          && (run[0].Access? && run[0].store.DeviceStore? ==> !InRegion(s.buffer, run[0].store.addr))
          && UndisturbedRun(Apply(s, run[0]), run[1..]))
  }

  /** The region of host memory is that of the plain array. */
  ghost predicate ReadsDirect(s: System, d: seq<Byte>) {
    && s.buffer.mapped && s.buffer.host.Some? && |s.buffer.host.value| == |d|
    && forall i :: 0 <= i < |d| && InRegion(s.buffer, i) ==> s.buffer.host.value[i] == d[i]
  }

  /** A map for reading, or for writing too, has fetched the region when its command has run. */
  lemma FetchedReads(s: System, d: seq<Byte>)
    requires s.buffer.Valid() && Tidy(s) && Tracks(s, d) && s.pending != [] && s.pending[0] == MAP
    requires s.buffer.shared || s.buffer.flags % 2 == 1
    ensures ReadsDirect(Apply(s, RunOldest), d)
  {
    MapFetches(s.buffer);
    assert MAP in s.pending;
  }

  lemma StepReads(s: System, l: Step, d: seq<Byte>)
    requires s.buffer.Valid() && Tidy(s) && Tracks(s, d) && WellBehaved(s, l) && ReadsDirect(s, d) && MAP !in s.pending
    requires UndisturbedRun(s, [l])
    ensures ReadsDirect(Apply(s, l), Direct(s, l, d)) && MAP !in Apply(s, l).pending
    ensures Apply(s, l).buffer.offset == s.buffer.offset && Apply(s, l).buffer.len == s.buffer.len
  {
    var t := Apply(s, l);
    assert UndisturbedRun(t, []);
    assert s.pending == [] || s.pending == [UNMAP];
  }

  lemma {:induction false} RunReads(s: System, run: seq<Step>, d: seq<Byte>)
    requires s.buffer.Valid() && Tidy(s) && Tracks(s, d) && WellBehavedRun(s, run) && UndisturbedRun(s, run)
    requires ReadsDirect(s, d) && MAP !in s.pending
    ensures ReadsDirect(After(s, run), DirectRun(s, run, d))
    ensures After(s, run).buffer.offset == s.buffer.offset && After(s, run).buffer.len == s.buffer.len
    decreases |run|
  {
    if run != [] {
      assert UndisturbedRun(Apply(s, run[0]), run[1..]);
      assert UndisturbedRun(Apply(s, run[0]), []);
      assert UndisturbedRun(s, [run[0]]);
      StepReads(s, run[0], d);
      StepTracks(s, run[0], d);
      RunReads(Apply(s, run[0]), run[1..], Direct(s, run[0], d));
    }
  }

  /** Until the map command has run, stores and calls leave the region as the caller gave it. */
  lemma {:induction false} WaitsForMap(s: System, run: seq<Step>, d: seq<Byte>)
    requires s.buffer.Valid() && Tidy(s) && Tracks(s, d) && WellBehavedRun(s, run)
    requires s.pending != [] && s.pending[0] == MAP && RunOldest !in run
    ensures var m := After(s, run);
            && Tidy(m) && Tracks(m, DirectRun(s, run, d)) && m.pending != [] && m.pending[0] == MAP
            && m.buffer.flags == s.buffer.flags && m.buffer.offset == s.buffer.offset && m.buffer.len == s.buffer.len
            && m.buffer.shared == s.buffer.shared
    decreases |run|
  {
    if run != [] {
      StepTracks(s, run[0], d);
      var t := Apply(s, run[0]);
      assert run[0] in run;
      assert t.pending != [] && t.pending[0] == MAP;
      WaitsForMap(t, run[1..], Direct(s, run[0], d));
    }
  }

  /**
    What a map for reading is for. In a well-behaved program, clEnqueueMapBuffer is called with CL_MAP_READ for
    a region, whether or not with CL_MAP_WRITE; the stores and calls of run1 come before its command runs, those
    of run2 after it, and in run2 the buffer stays mapped and the device leaves the region alone. Then the
    application reads, at every place of the region, what the plain array has there.
   */
  lemma MapReads(s: System, d: seq<Byte>, flags: Flags, offset: nat, len: nat, run1: seq<Step>, run2: seq<Step>)
    requires s.buffer.Valid() && Tidy(s) && Tracks(s, d) && flags % 2 == 1
    requires WellBehaved(s, EnqueueMap(flags, offset, len)) && offset + len <= |s.buffer.device|
    requires WellBehavedRun(Apply(s, EnqueueMap(flags, offset, len)), run1) && RunOldest !in run1
    requires var m := Apply(After(Apply(s, EnqueueMap(flags, offset, len)), run1), RunOldest);
             WellBehavedRun(m, run2) && UndisturbedRun(m, run2)
    ensures var e := Apply(s, EnqueueMap(flags, offset, len));
            var m := Apply(After(e, run1), RunOldest);
            var r, direct := After(m, run2), DirectRun(m, run2, DirectRun(e, run1, d));
            && r.buffer.host.Some? && |r.buffer.host.value| == |direct| == |d|
            && forall i :: offset <= i < offset + len ==> i < |d| && r.buffer.host.value[i] == direct[i]
  {
    var e := Apply(s, EnqueueMap(flags, offset, len));
    StepTracks(s, EnqueueMap(flags, offset, len), d);
    MapTakesRegion(s.buffer, flags, offset, len);
    assert e.pending == [MAP];
    WaitsForMap(e, run1, d);
    var a, da := After(e, run1), DirectRun(e, run1, d);
    FetchedReads(a, da);
    MapFetches(a.buffer);
    StepTracks(a, RunOldest, da);
    var m := Apply(a, RunOldest);
    assert m.pending == a.pending[1..] && MAP !in m.pending;
    RunReads(m, run2, da);
  }
}
