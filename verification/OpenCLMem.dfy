/**
  Mapping a buffer into host memory: clEnqueueMapBuffer and clEnqueueUnmapMemObject of
  command-queue.c, and the map and unmap commands of command.c.
 */
module OpenCLMem {
  import opened Basics

  /** cl_map_flags: bit 0 is CL_MAP_READ, bit 1 is CL_MAP_WRITE. */
  type Flags = nat

  predicate Reads(f: Flags) {
    f % 2 == 1
  }

  predicate Writes(f: Flags) {
    f / 2 % 2 == 1
  }

  /** The state of a cl_mem: the contents behind device_ptr and host_ptr (None is NULL) and the map fields. */
  datatype Buffer = Buffer(
    device: seq<Byte>,
    host: Option<seq<Byte>>,
    shared: bool,                 // opencl_device_shared_memory: host_ptr, if any, is device_ptr
    use_host_ptr: bool,
    mapped: bool,
    flags: Flags,
    offset: nat,
    len: nat
  )
  {
    /** Sizes agree, a mapped buffer has host memory, and shared memory has one copy. */
    ghost predicate Valid() {
      && (host.Some? ==> |host.value| == |device| && (shared ==> host.value == device))
      && (mapped ==> host.Some? && offset + len <= |device|)
      && (use_host_ptr ==> host.Some?)
    }
  }

  function Zeros(n: nat): (s: seq<Byte>)
    ensures |s| == n
  {
    seq(n, _ => 0)
  }

  /** t with the bytes [from, from + len) of s. */
  ghost function Overlay(t: seq<Byte>, s: seq<Byte>, from: nat, len: nat): (r: seq<Byte>)
    requires |s| == |t| && from + len <= |t|
    ensures |r| == |t|
    ensures forall i :: 0 <= i < |t| ==> r[i] == if from <= i < from + len then s[i] else t[i]
  {
    t[..from] + s[from..from + len] + t[from + len..]
  }

  /** clEnqueueMapBuffer, on the path on which it enqueues the map command. */
  ghost function MapEnqueued(b: Buffer, flags: Flags, offset: nat, len: nat): Buffer {
    b.(mapped := true, flags := flags, offset := offset, len := len,
       host := if b.host.Some? then b.host else if b.shared then Some(b.device) else Some(Zeros(|b.device|)))
  }

  /** opencl_command_run_map_buffer */
  ghost function MapRun(b: Buffer): Buffer
    requires b.Valid() && b.mapped
  {
    if !b.shared && Reads(b.flags) then b.(host := Some(Overlay(b.host.value, b.device, b.offset, b.len))) else b
  }

  /** opencl_command_run_unmap_buffer */
  ghost function UnmapRun(b: Buffer): Buffer
    requires b.Valid() && b.mapped
  {
    var device := if !b.shared && Writes(b.flags) then Overlay(b.device, b.host.value, b.offset, b.len) else b.device;
    b.(device := device, host := if !b.use_host_ptr && !b.shared then None else b.host, mapped := false)
  }

  /** clEnqueueUnmapMemObject accepts a pointer that many bytes after host_ptr. */
  predicate Accepted(b: Buffer, at: int) {
    b.mapped && 0 <= at < |b.device|
  }

  /** What the call leaves: the caller's region and flags, the device as it was, and host memory, new if there was none. */
  lemma MapTakesRegion(b: Buffer, flags: Flags, offset: nat, len: nat)
    ensures var e := MapEnqueued(b, flags, offset, len);
            && e.mapped && e.flags == flags && e.offset == offset && e.len == len
            && e.device == b.device && e.shared == b.shared && e.use_host_ptr == b.use_host_ptr && e.host.Some?
            && (b.host.Some? ==> e.host == b.host)
            && (b.host == None && b.shared ==> e.host.value == b.device)
            && (b.host == None && !b.shared ==>
                  |e.host.value| == |b.device| && forall i :: 0 <= i < |b.device| ==> e.host.value[i] == 0)
  {
  }

  /** The map command, byte by byte: with separate memory and CL_MAP_READ, the region of host memory becomes that of the device. */
  lemma MapFetches(b: Buffer)
    requires b.Valid() && b.mapped
    ensures var r := MapRun(b);
            && r == b.(host := r.host) && r.host.Some? && |r.host.value| == |b.device|
            && forall i :: 0 <= i < |b.device| ==>
                 r.host.value[i] ==
                 if !b.shared && b.flags % 2 == 1 && b.offset <= i < b.offset + b.len then b.device[i] else b.host.value[i]
  {
  }

  /** The unmap command: with separate memory and CL_MAP_WRITE the region goes back, and host memory of its own is freed. */
  lemma UnmapWritesBack(b: Buffer)
    requires b.Valid() && b.mapped
    ensures var r := UnmapRun(b);
            && r == b.(device := r.device, host := r.host, mapped := false) && |r.device| == |b.device|
            && r.host == (if b.use_host_ptr || b.shared then b.host else None)
            && forall i :: 0 <= i < |b.device| ==>
                 r.device[i] ==
                 if !b.shared && b.flags / 2 % 2 == 1 && b.offset <= i < b.offset + b.len then b.host.value[i] else b.device[i]
  {
  }

  /** A byte stored through the mapped pointer, or by a command on the device. */
  datatype Store = HostStore(addr: nat, value: Byte) | DeviceStore(addr: nat, value: Byte)

  ghost function AfterStore(b: Buffer, s: Store): Buffer {
    match s
    case HostStore(a, v) =>
      if b.host.Some? && a < |b.host.value| then
        var host := b.host.value[a := v];
        b.(host := Some(host), device := if b.shared then host else b.device)
      else b
    case DeviceStore(a, v) =>
      if a < |b.device| then
        var device := b.device[a := v];
        b.(device := device, host := if b.shared && b.host.Some? then Some(device) else b.host)
      else b
  }

  /** Writing back a region changes nothing if and only if it is the same already. */
  lemma OverlayChangesNothing(t: seq<Byte>, s: seq<Byte>, from: nat, len: nat)
    requires |s| == |t| && from + len <= |t|
    ensures Overlay(t, s, from, len) == t <==> s[from..from + len] == t[from..from + len]
  {
    var r := Overlay(t, s, from, len);
    assert r[from..from + len] == s[from..from + len];
    if s[from..from + len] == t[from..from + len] {
      assert r == t[..from] + t[from..from + len] + t[from + len..] == t;
    }
  }

  /**
    A map that is unmapped without any store should not change the device. With copies this holds if
    and only if the map asked for reading, or not for writing, or the region happens to equal what the
    host memory contains anyway: a map for writing only does not fetch the region, but its unmap
    writes all of it back.
   */
  lemma IdentityExactly(b: Buffer, flags: Flags, offset: nat, len: nat)
    requires b.Valid() && !b.mapped && !b.shared && offset + len <= |b.device|
    ensures var e := MapEnqueued(b, flags, offset, len);
            && e.Valid() && e.mapped && MapRun(e).Valid() && MapRun(e).mapped
            && (UnmapRun(MapRun(e)).device == b.device <==>
                  Reads(flags) || !Writes(flags) || e.host.value[offset..offset + len] == b.device[offset..offset + len])
  {
    var e := MapEnqueued(b, flags, offset, len);
    OverlayChangesNothing(b.device, MapRun(e).host.value, offset, len);
    if Reads(flags) {
      assert MapRun(e).host.value[offset..offset + len] == b.device[offset..offset + len];
    }
  }

  /** A map for writing only, unmapped at once, clears a byte of the device. */
  lemma WriteOnlyMapLosesData()
    ensures var b := Buffer([7], None, false, false, false, 0, 0, 0);
            var e := MapEnqueued(b, 2, 0, 1);
            b.Valid() && e.Valid() && e.mapped && UnmapRun(MapRun(e)).device == [0]
  {
    var e := MapEnqueued(Buffer([7], None, false, false, false, 0, 0, 0), 2, 0, 1);
    assert UnmapRun(MapRun(e)).device == [0];
  }

  datatype MapResult = MAPPED | ALREADY_MAPPED | INVALID_VALUE     // ALREADY_MAPPED aborts the program

  /** cl_mem */
  class MemObject {
    var device_ptr: array<Byte>
    var host_ptr: array?<Byte>
    const shared: bool
    const use_host_ptr: bool
    const size: nat
    var mapped: bool
    var map_flags: Flags
    var map_offset: nat
    var map_size: nat

    ghost predicate Valid()
      reads this
    {
      && device_ptr.Length == size
      && (host_ptr != null ==> host_ptr.Length == size && (shared <==> host_ptr == device_ptr))
      && (mapped ==> host_ptr != null && map_offset + map_size <= size)
      && (use_host_ptr ==> host_ptr != null)
    }

    ghost function View(): (b: Buffer)
      reads this, device_ptr, host_ptr
      requires Valid()
      ensures b.Valid()
    {
      Buffer(device_ptr[..], if host_ptr == null then None else Some(host_ptr[..]), shared, use_host_ptr,
             mapped, map_flags, map_offset, map_size)
    }

    /**
      clCreateBuffer after its checks: use and copy are CL_MEM_USE_HOST_PTR and CL_MEM_COPY_HOST_PTR, user_ptr
      is the pointer given with them. Shared memory takes the contents only by using the pointer.
     */
    constructor (size: nat, shared: bool, use: bool, copy: bool, user_ptr: array?<Byte>)
      requires use || copy ==> user_ptr != null && user_ptr.Length == size
      ensures Valid() && !mapped && this.shared == shared && this.use_host_ptr == use && this.size == size
      ensures host_ptr == if use then user_ptr else null
      ensures if shared && use then device_ptr == user_ptr else fresh(device_ptr)
      ensures use || (copy && !shared) ==> device_ptr[..] == user_ptr[..]
    {
      this.size, this.shared, use_host_ptr := size, shared, use;
      host_ptr := if use then user_ptr else null;
      mapped, map_flags, map_offset, map_size := false, 0, 0, 0;
      if shared && use {
        device_ptr := user_ptr;
      } else if !shared && (use || copy) {
        device_ptr := new Byte[size](i requires 0 <= i < size && user_ptr.Length == size reads user_ptr => user_ptr[i]);
      } else {
        device_ptr := new Byte[size](_ => 0);
      }
    }

    /**
      clEnqueueMapBuffer up to the enqueueing of its command; queue, event list and object are valid. The
      pointer that it returns is `at` bytes after host_ptr.
     */
    method EnqueueMap(flags: Flags, offset: nat, cb: nat) returns (result: MapResult, at: nat)
      requires Valid()
      modifies this
      ensures Valid()
      ensures result == if old(mapped) then ALREADY_MAPPED else if offset + cb > size then INVALID_VALUE else MAPPED
      ensures View() == if result == MAPPED then MapEnqueued(old(View()), flags, offset, cb) else old(View())
      ensures result == MAPPED ==> at == offset && mapped && map_flags == flags && map_offset == offset && map_size == cb
      ensures device_ptr == old(device_ptr)
      ensures host_ptr == old(host_ptr) || (old(host_ptr) == null && (if shared then host_ptr == device_ptr else fresh(host_ptr)))
    {
      if mapped {
        return ALREADY_MAPPED, 0;
      }
      if offset + cb > size {
        return INVALID_VALUE, 0;
      }
      mapped, map_flags, map_offset, map_size := true, flags, offset, cb;
      if host_ptr == null {
        if shared {
          host_ptr := device_ptr;
        } else {
          assert !use_host_ptr;
          host_ptr := new Byte[size](_ => 0);
          assert host_ptr[..] == Zeros(size);
        }
      }
      result, at := MAPPED, offset;
    }

    /** memcpy(dst + from, src + from, count) between two distinct buffers. */
    static method Copy(dst: array<Byte>, src: array<Byte>, from: nat, count: nat)
      requires dst != src && dst.Length == src.Length && from + count <= dst.Length
      modifies dst
      ensures dst[..] == Overlay(old(dst[..]), src[..], from, count)
    {
      for i := 0 to count
        invariant forall k :: 0 <= k < dst.Length ==>
                    dst[k] == if from <= k < from + i then src[k] else old(dst[k])
      {
        dst[from + i] := src[from + i];
      }
    }

    /** opencl_command_run_map_buffer; false is its fatal error. */
    method RunMap() returns (ok: bool)
      requires Valid()
      modifies host_ptr
      ensures Valid() && ok == mapped
      ensures View() == if ok then MapRun(old(View())) else old(View())
      ensures ok && (shared || map_flags % 2 == 1) ==>
                forall i :: map_offset <= i < map_offset + map_size ==> host_ptr[i] == device_ptr[i]
    {
      if !mapped {
        return false;
      }
      if !shared && map_flags % 2 == 1 {
        Copy(host_ptr, device_ptr, map_offset, map_size);
      }
      ok := true;
    }

    /** opencl_command_run_unmap_buffer; false is its fatal error. */
    method RunUnmap() returns (ok: bool)
      requires Valid()
      modifies this, device_ptr
      ensures Valid() && ok == old(mapped) && device_ptr == old(device_ptr)
      ensures View() == if ok then UnmapRun(old(View())) else old(View())
      ensures ok && map_flags / 2 % 2 == 1 ==>
                forall i :: map_offset <= i < map_offset + map_size ==> device_ptr[i] == old(host_ptr[i])
      ensures ok ==> host_ptr == if use_host_ptr || shared then old(host_ptr) else null
    {
      if !mapped {
        return false;
      }
      if !shared && map_flags / 2 % 2 == 1 {
        Copy(device_ptr, host_ptr, map_offset, map_size);
      }
      if !use_host_ptr && !shared {
        host_ptr := null;
      }
      mapped := false;
      ok := true;
    }

    /**
      clEnqueueUnmapMemObject: whether the unmap command is enqueued for a pointer `at` bytes after
      host_ptr. Enqueueing changes nothing, so the buffer stays mapped until the command runs.
     */
    method EnqueueUnmap(at: int) returns (accepted: bool)
      requires Valid()
      ensures accepted <==> mapped && 0 <= at < size
      ensures accepted <==> Accepted(View(), at)
    {
      accepted := mapped && 0 <= at <= size - 1;
    }
  }

  /** clCreateBuffer; null is CL_INVALID_HOST_PTR. */
  method CreateBuffer(size: nat, shared: bool, use: bool, copy: bool, user_ptr: array?<Byte>) returns (mem: MemObject?)
    requires user_ptr != null ==> user_ptr.Length == size
    ensures mem == null <==> (use || copy) && user_ptr == null
    ensures mem != null ==>
              && fresh(mem) && mem.Valid() && !mem.mapped && mem.size == size
              && (use || (copy && !shared) ==> mem.device_ptr[..] == user_ptr[..])
              && mem.host_ptr == if use then user_ptr else null
  {
    if (use || copy) && user_ptr == null {
      return null;
    }
    mem := new MemObject(size, shared, use, copy, user_ptr);
  }

  /**
    Two unmaps of one map are both accepted while the first has not run. If the buffer is not mapped again
    in between, the second is then fatal.
   */
  method SecondUnmapIsFatal() returns (accepted: bool, ok: bool)
    ensures accepted && !ok
  {
    var m := new MemObject(1, false, false, false, null);
    var _, _ := m.EnqueueMap(3, 0, 1);
    var first := m.EnqueueUnmap(0);
    var second := m.EnqueueUnmap(0);
    accepted := first && second;
    var _ := m.RunMap();
    var _ := m.RunUnmap();
    ok := m.RunUnmap();
  }
}
