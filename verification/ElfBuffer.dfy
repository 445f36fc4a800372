/**
  Sequential reading from an ELF buffer: elf_buffer_read and elf_buffer_read_line of elf-format.c.
 */
module ElfBuffer {
  import opened Basics

  const NEWLINE: Byte := 10
  const NUL: Byte := 0

  predicate Terminator(c: Byte) {
    c == NEWLINE || c == NUL
  }

  /** One line as a caller sees it, and the terminator that was consumed with it, if any. */
  datatype Line = Line(text: seq<Byte>, end: seq<Byte>)

  /** The bytes of the buffer that a sequence of lines stands for. */
  ghost function Join(lines: seq<Line>): seq<Byte> {
    if lines == [] then []
    else Join(lines[..|lines| - 1]) + lines[|lines| - 1].text + lines[|lines| - 1].end
  }

  class Buffer {
    const ptr: seq<Byte>
    var pos: int

    ghost predicate Valid()
      reads this
    {
      0 <= pos <= |ptr|
    }

    constructor (ptr: seq<Byte>)
      ensures Valid() && this.ptr == ptr && pos == 0
    {
      this.ptr, pos := ptr, 0;
    }

    /** elf_buffer_seek; false is its fatal error. */
    method Seek(to: int) returns (ok: bool)
      requires Valid()
      modifies this
      ensures Valid() && (ok <==> 0 <= to <= |ptr|) && pos == if ok then to else old(pos)
    {
      if to < 0 || to > |ptr| {
        return false;
      }
      pos := to;
      ok := true;
    }

    /** elf_buffer_read; a null destination only moves the position. */
    method Read(dst: array?<Byte>, at: nat, size: nat) returns (count: nat)
      requires Valid() && (dst != null ==> at + size <= dst.Length)
      modifies this, dst
      ensures Valid() && count == (if size > |ptr| - old(pos) then |ptr| - old(pos) else size)
      ensures pos == old(pos) + count
      ensures dst != null ==> forall k :: 0 <= k < dst.Length ==>
                dst[k] == if at <= k < at + count then ptr[old(pos) + k - at] else old(dst[k])
    {
      var left := |ptr| - pos;
      count := if size > left then left else size;
      if dst != null {
        for i := 0 to count
          modifies dst
          invariant forall k :: 0 <= k < dst.Length ==>
                      dst[k] == if at <= k < at + i then ptr[pos + k - at] else old(dst[k])
        {
          dst[at + i] := ptr[pos + i];
        }
      }
      pos := pos + count;
    }

    /**
      elf_buffer_read_line. The line ends at a newline or zero byte, which is consumed, at the end of
      the buffer, or when `size - 1` bytes have been stored; `end` is the consumed terminator.
     */
    method ReadLine(str: array<Byte>, size: int) returns (write_count: nat, ghost end: seq<Byte>)
      requires Valid() && 1 <= size <= str.Length
      modifies this, str
      ensures Valid() && write_count < size && str[write_count] == NUL
      ensures forall k :: 0 <= k < write_count ==> !Terminator(str[k])
      ensures forall k :: write_count < k < str.Length ==> str[k] == old(str[k])
      ensures end == [] || (|end| == 1 && Terminator(end[0]))
      ensures old(pos) <= pos && ptr[old(pos)..pos] == str[..write_count] + end
      ensures end == [] ==> pos == |ptr| || write_count == size - 1
      ensures write_count == size - 1 ==> end == []     // a terminator right after that many characters is left for the next line
      ensures write_count < size - 1 && old(pos) + write_count < |ptr| ==> end == [ptr[old(pos) + write_count]]
      ensures pos > old(pos) <==> size >= 2 && old(pos) < |ptr|
    {
      write_count := 0;
      end := [];
      var left := size;
      while true
        modifies this, str
        invariant Valid() && pos == old(pos) + write_count
        invariant left == size - write_count && 1 <= left
        invariant forall k :: 0 <= k < write_count ==> str[k] == ptr[old(pos) + k] && !Terminator(str[k])
        invariant forall k :: write_count <= k < str.Length ==> str[k] == old(str[k])
        decreases left
      {
        if left == 1 {
          str[write_count] := NUL;
          break;
        }
        var read_count := Read(str, write_count, 1);
        if read_count == 0 {
          str[write_count] := NUL;
          break;
        }
        if str[write_count] == NEWLINE || str[write_count] == NUL {
          end := [str[write_count]];
          str[write_count] := NUL;
          break;
        }
        left := left - 1;
        write_count := write_count + 1;
      }
    }

    /**
      Reading lines up to the end of the buffer, as callers do, with room for at least one byte beside
      the terminator: the lines and their terminators are exactly the unread contents.
     */
    method ReadAll(str: array<Byte>, size: int) returns (ghost lines: seq<Line>)
      requires Valid() && 2 <= size <= str.Length
      modifies this, str
      ensures Valid() && pos == |ptr|
      ensures Join(lines) == ptr[old(pos)..]
      ensures forall i :: 0 <= i < |lines| ==>
                && |lines[i].text| < size && (forall k :: 0 <= k < |lines[i].text| ==> !Terminator(lines[i].text[k]))
                && (lines[i].end == [] ==> |lines[i].text| == size - 1 || i == |lines| - 1)
    {
      lines := [];
      ghost var start := pos;
      while pos < |ptr|
        modifies this, str
        invariant Valid() && start <= pos && Join(lines) == ptr[start..pos]
        invariant forall i :: 0 <= i < |lines| ==>
                    && |lines[i].text| < size && (forall k :: 0 <= k < |lines[i].text| ==> !Terminator(lines[i].text[k]))
                    && (lines[i].end == [] ==> |lines[i].text| == size - 1 || (i == |lines| - 1 && pos == |ptr|))
        decreases |ptr| - pos
      {
        ghost var here := pos;
        var count, end := ReadLine(str, size);
        ghost var line := Line(str[..count], end);
        assert ptr[start..pos] == ptr[start..here] + ptr[here..pos];
        assert (lines + [line])[..|lines|] == lines;
        lines := lines + [line];
      }
      assert ptr[start..pos] == ptr[start..];
    }
  }
}
