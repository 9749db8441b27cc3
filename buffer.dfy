/**
 * A Vulkan buffer holding `instanceCount` instances, each padded to the device's minimum
 * offset alignment, with host-visible memory that can be mapped and written.
 */
module Buffer {
  import opened Vulkan
  import opened Bits

  /**
   * `(instanceSize + minOffsetAlignment - 1) & ~(minOffsetAlignment - 1)` in 64-bit
   * arithmetic, or the instance size itself when no alignment is required.
   */
  function GetAlignment(instanceSize: u64, minOffsetAlignment: u64): (r: u64)
    ensures minOffsetAlignment == 0 ==> r == instanceSize
  {
    if minOffsetAlignment > 0 then
      BitAnd((instanceSize + minOffsetAlignment - 1) % U64_MODULUS, Not64(minOffsetAlignment - 1))
    else
      instanceSize
  }

  /**
   * For a power-of-two alignment, and while the round-up does not overflow, the result is
   * the smallest multiple of the alignment that is at least the instance size.
   */
  lemma AlignmentRoundsUp(instanceSize: u64, minOffsetAlignment: u64)
    requires IsPow2(minOffsetAlignment)
    requires instanceSize + minOffsetAlignment - 1 < U64_MODULUS
    ensures var r := GetAlignment(instanceSize, minOffsetAlignment);
      r % minOffsetAlignment == 0 && instanceSize <= r < instanceSize + minOffsetAlignment
  {
    var a := minOffsetAlignment;
    var k: nat :| k < 64 && Pow2(k) == a;
    var t := instanceSize + a - 1;
    var mask := HighMask(64, k);
    assert GetAlignment(instanceSize, a) == BitAnd(t, mask) by {
      Pow2Of64();
      ModOfSmall(t, U64_MODULUS);
    }
    assert BitAnd(t, mask) == t - t % a by {
      Pow2Of64();
      AndHighMask(t, 64, k);
    }
    RoundDown(t, a);
  }

  lemma ModOfSmall(x: int, m: int)
    requires m > 0
    ensures 0 <= x < m ==> x % m == x
  {
    if 0 <= x < m {
      ModUnique(x, m, 0, x);
    }
  }

  /** `t - t % a` is a multiple of `a` in (t - a, t]. */
  lemma RoundDown(t: nat, a: nat)
    requires a > 0
    ensures (t - t % a) % a == 0 && t - a < t - t % a <= t
  {
    var q := t / a;
    assert t == q * a + t % a;
    ModUnique(t - t % a, a, q, 0);
  }

  lemma AlignedWhenPow2(instanceSize: u64, minOffsetAlignment: u64)
    ensures IsPow2(minOffsetAlignment) && instanceSize + minOffsetAlignment - 1 < U64_MODULUS ==>
              GetAlignment(instanceSize, minOffsetAlignment) % minOffsetAlignment == 0 &&
              instanceSize <= GetAlignment(instanceSize, minOffsetAlignment)
  {
    if IsPow2(minOffsetAlignment) && instanceSize + minOffsetAlignment - 1 < U64_MODULUS {
      AlignmentRoundsUp(instanceSize, minOffsetAlignment);
    }
  }

  /** The default alignment of 1 leaves the instance size as it is. */
  lemma DefaultAlignmentIsInstanceSize(instanceSize: u64)
    ensures GetAlignment(instanceSize, 1) == instanceSize
  {
    Pow2Of64();
    AndLowOnes(instanceSize, 64);
  }

  /** The round-up wraps in 64 bits: the largest instance size aligned to 2 gives 0. */
  lemma AlignmentWrapsAtTop()
    ensures GetAlignment(UINT64_MAX, 2) == 0
  {
  }

  /** `mAlignmentSize * instanceCount` as a `VkDeviceSize`. */
  function BufferSize(alignmentSize: u64, instanceCount: u32): (r: u64)
    ensures alignmentSize * instanceCount < U64_MODULUS ==> r == alignmentSize * instanceCount
  {
    ModOfSmall(alignmentSize * instanceCount, U64_MODULUS);
    (alignmentSize * instanceCount) % U64_MODULUS
  }

  /** `index * mAlignmentSize`: the `int` index converted to `VkDeviceSize`, the product wrapped. */
  function IndexOffset(index: int, alignmentSize: u64): (r: u64)
    ensures 0 <= index && index * alignmentSize < U64_MODULUS ==> r == index * alignmentSize
  {
    ModOfSmall(index * alignmentSize, U64_MODULUS);
    (index * alignmentSize) % U64_MODULUS
  }

  /** `mem` with `bytes` copied in at `at`. */
  function Overwrite(mem: seq<byte>, at: nat, bytes: seq<byte>): (r: seq<byte>)
    requires at + |bytes| <= |mem|
    ensures |r| == |mem|
    ensures forall j :: 0 <= j < |bytes| ==> r[at + j] == bytes[j]
    ensures forall j :: 0 <= j < |mem| && !(at <= j < at + |bytes|) ==> r[j] == mem[j]
  {
    mem[..at] + bytes + mem[at + |bytes|..]
  }

  /** Copying one byte more extends the copy by an update at the next position. */
  lemma OverwriteExtend(mem: seq<byte>, at: nat, bytes: seq<byte>, i: nat)
    requires at + |bytes| <= |mem| && i < |bytes|
    ensures Overwrite(mem, at, bytes[..i + 1]) == Overwrite(mem, at, bytes[..i])[at + i := bytes[i]]
  {
    var lhs := Overwrite(mem, at, bytes[..i + 1]);
    var rhs := Overwrite(mem, at, bytes[..i])[at + i := bytes[i]];
    assert forall j :: 0 <= j < |mem| ==> lhs[j] == rhs[j];
  }

  /** A second copy over the same range wins entirely. */
  lemma OverwriteTwice(mem: seq<byte>, at: nat, first: seq<byte>, second: seq<byte>)
    requires at + |first| <= |mem| && |second| == |first|
    ensures Overwrite(Overwrite(mem, at, first), at, second) == Overwrite(mem, at, second)
  {
    var lhs := Overwrite(Overwrite(mem, at, first), at, second);
    var rhs := Overwrite(mem, at, second);
    assert forall j :: 0 <= j < |mem| ==> lhs[j] == rhs[j] by {
      forall j | 0 <= j < |mem|
        ensures lhs[j] == rhs[j]
      {
        if at <= j < at + |second| {
          assert lhs[at + (j - at)] == second[j - at];
        }
      }
    }
  }

  /** Copies into disjoint ranges can be made in either order. */
  lemma OverwritesCommute(mem: seq<byte>, at1: nat, b1: seq<byte>, at2: nat, b2: seq<byte>)
    requires at1 + |b1| <= |mem| && at2 + |b2| <= |mem|
    requires at1 + |b1| <= at2 || at2 + |b2| <= at1
    ensures Overwrite(Overwrite(mem, at1, b1), at2, b2) == Overwrite(Overwrite(mem, at2, b2), at1, b1)
  {
    var lhs := Overwrite(Overwrite(mem, at1, b1), at2, b2);
    var rhs := Overwrite(Overwrite(mem, at2, b2), at1, b1);
    assert forall j :: 0 <= j < |mem| ==> lhs[j] == rhs[j] by {
      forall j | 0 <= j < |mem|
        ensures lhs[j] == rhs[j]
      {
        if at1 <= j < at1 + |b1| {
          assert rhs[at1 + (j - at1)] == b1[j - at1];
        } else if at2 <= j < at2 + |b2| {
          assert lhs[at2 + (j - at2)] == b2[j - at2];
        }
      }
    }
  }

  lemma MulMonotone(i: nat, j: nat, a: nat)
    requires i <= j
    ensures i * a <= j * a && a * i <= a * j
  {
  }

  lemma MulSucc(i: nat, a: nat)
    ensures (i + 1) * a == i * a + a
  {
  }

  /**
   * With a power-of-two alignment and no overflow, the instances' ranges
   * [i * alignment, i * alignment + instanceSize) lie inside the buffer and do not overlap.
   */
  lemma IndexRangesDisjoint(instanceSize: u64, instanceCount: u32, minOffsetAlignment: u64, i: nat, j: nat)
    requires IsPow2(minOffsetAlignment) && instanceSize + minOffsetAlignment - 1 < U64_MODULUS
    requires GetAlignment(instanceSize, minOffsetAlignment) * instanceCount < U64_MODULUS
    requires i < j < instanceCount
    ensures var alignment := GetAlignment(instanceSize, minOffsetAlignment);
      IndexOffset(i, alignment) + instanceSize <= IndexOffset(j, alignment) &&
      IndexOffset(j, alignment) + instanceSize <= BufferSize(alignment, instanceCount)
  {
    var alignment := GetAlignment(instanceSize, minOffsetAlignment);
    AlignmentRoundsUp(instanceSize, minOffsetAlignment);
    MulSucc(i, alignment);
    MulSucc(j, alignment);
    MulMonotone(i + 1, j, alignment);
    MulMonotone(j + 1, instanceCount, alignment);
    assert instanceCount * alignment == alignment * instanceCount;
    assert IndexOffset(i, alignment) == i * alignment;
    assert IndexOffset(j, alignment) == j * alignment;
    assert BufferSize(alignment, instanceCount) == alignment * instanceCount;
  }

  /** One `VkMappedMemoryRange`, as handed to flush and invalidate. */
  datatype MappedRange = MappedRange(memory: Handle, offset: u64, size: u64)

  /** One `VkDescriptorBufferInfo`. */
  datatype DescriptorBufferInfo = DescriptorBufferInfo(buffer: Handle, offset: u64, size: u64)

  /** Where a write lands relative to the mapped pointer, and how many bytes it copies. */
  datatype CopyRange = CopyRange(start: nat, count: nat)

  /** `VK_WHOLE_SIZE` copies the whole buffer from the start of the mapping. */
  function WriteRange(size: u64, offset: u64, bufferSize: u64): (r: CopyRange)
    ensures size == WHOLE_SIZE ==> r == CopyRange(0, bufferSize)
    ensures size != WHOLE_SIZE ==> r == CopyRange(offset, size)
  {
    if size == WHOLE_SIZE then CopyRange(0, bufferSize) else CopyRange(offset, size)
  }

  class Buffer {
    const instanceSize: u64
    const instanceCount: u32
    const minOffsetAlignment: u64
    const alignmentSize: u64
    const bufferSize: u64
    const buffer: Handle
    const memoryHandle: Handle
    /** The buffer's memory as the host sees it. */
    const memory: array<byte>
    var mapped: bool
    /** Where in `memory` the mapped pointer points while `mapped`. */
    var mappedOffset: u64

    ghost predicate Valid()
      reads this
    {
      && alignmentSize == GetAlignment(instanceSize, minOffsetAlignment)
      && bufferSize == BufferSize(alignmentSize, instanceCount)
      && memory.Length == bufferSize
      && buffer != Null && memoryHandle != Null
    }

    /** Sizes the buffer and creates it; the buffer starts unmapped. */
    constructor (device: Device, instanceSize: u64, instanceCount: u32, minOffsetAlignment: u64)
      modifies device
      ensures Valid() && fresh(memory) && !mapped
      ensures this.instanceSize == instanceSize && this.instanceCount == instanceCount
      ensures this.minOffsetAlignment == minOffsetAlignment
    {
      this.instanceSize := instanceSize;
      this.instanceCount := instanceCount;
      this.minOffsetAlignment := minOffsetAlignment;
      var alignment := GetAlignment(instanceSize, minOffsetAlignment);
      alignmentSize := alignment;
      var size := BufferSize(alignment, instanceCount);
      bufferSize := size;
      var b := device.NewHandle();
      var m := device.NewHandle();
      buffer, memoryHandle := b, m;
      memory := new byte[size];
      mapped := false;
      mappedOffset := 0;
    }

    /** Maps `size` bytes at `offset`; the mapping exists only if the driver succeeded. */
    method Map(size: u64, offset: u64, mapResult: VkResult) returns (r: VkResult)
      requires buffer != Null && memoryHandle != Null
      modifies this`mapped, this`mappedOffset
      ensures r == mapResult
      ensures mapResult == SUCCESS ==> mapped && mappedOffset == offset
      ensures mapResult != SUCCESS ==> mapped == old(mapped) && mappedOffset == old(mappedOffset)
    {
      if mapResult == SUCCESS {
        mapped, mappedOffset := true, offset;
      }
      r := mapResult;
    }

    /** Unmaps if mapped (`released` says whether memory was unmapped); always ends unmapped. */
    method Unmap() returns (released: bool)
      modifies this`mapped
      ensures !mapped && released == old(mapped)
    {
      released := mapped;
      if mapped {
        mapped := false;
      }
    }

    /**
     * Copies from `data` into the mapped memory: `bufferSize` bytes from the mapped pointer
     * itself for `VK_WHOLE_SIZE`, else `size` bytes at `offset`. No other byte changes.
     */
    method WriteToBuffer(data: seq<byte>, size: u64, offset: u64)
      requires Valid() && mapped
      requires var c := WriteRange(size, offset, bufferSize); |data| >= c.count && mappedOffset + c.start + c.count <= memory.Length
      modifies memory
      ensures var c := WriteRange(size, offset, bufferSize);
        memory[..] == Overwrite(old(memory[..]), mappedOffset + c.start, data[..c.count])
    {
      var c := WriteRange(size, offset, bufferSize);
      var start := mappedOffset + c.start;
      ghost var before := memory[..];
      var i := 0;
      assert before[..start] + data[..0] + before[start..] == before;
      while i < c.count
        invariant 0 <= i <= c.count
        invariant memory[..] == Overwrite(before, start, data[..i])
      {
        OverwriteExtend(before, start, data[..c.count], i);
        assert data[..c.count][..i] == data[..i] && data[..c.count][..i + 1] == data[..i + 1];
        memory[start + i] := data[i];
        i := i + 1;
      }
    }

    /** Writes one instance at the given index's offset. */
    method WriteToIndex(data: seq<byte>, index: int)
      requires Valid() && mapped
      requires var c := WriteRange(instanceSize, IndexOffset(index, alignmentSize), bufferSize);
        |data| >= c.count && mappedOffset + c.start + c.count <= memory.Length
      modifies memory
      ensures var c := WriteRange(instanceSize, IndexOffset(index, alignmentSize), bufferSize);
        memory[..] == Overwrite(old(memory[..]), mappedOffset + c.start, data[..c.count])
    {
      WriteToBuffer(data, instanceSize, IndexOffset(index, alignmentSize));
    }

    method Flush(size: u64, offset: u64, driverResult: VkResult) returns (range: MappedRange, r: VkResult)
      ensures range == MappedRange(memoryHandle, offset, size) && r == driverResult
    {
      range, r := MappedRange(memoryHandle, offset, size), driverResult;
    }

    method Invalidate(size: u64, offset: u64, driverResult: VkResult) returns (range: MappedRange, r: VkResult)
      ensures range == MappedRange(memoryHandle, offset, size) && r == driverResult
    {
      range, r := MappedRange(memoryHandle, offset, size), driverResult;
    }

    /** Flushes exactly the aligned slot of one instance. */
    method FlushIndex(index: int, driverResult: VkResult) returns (range: MappedRange, r: VkResult)
      ensures range == MappedRange(memoryHandle, IndexOffset(index, alignmentSize), alignmentSize)
      ensures r == driverResult
    {
      range, r := Flush(alignmentSize, IndexOffset(index, alignmentSize), driverResult);
    }

    /** Invalidates exactly the aligned slot of one instance. */
    method InvalidateIndex(index: int, driverResult: VkResult) returns (range: MappedRange, r: VkResult)
      ensures range == MappedRange(memoryHandle, IndexOffset(index, alignmentSize), alignmentSize)
      ensures r == driverResult
    {
      range, r := Invalidate(alignmentSize, IndexOffset(index, alignmentSize), driverResult);
    }

    function DescriptorInfo(size: u64, offset: u64): (r: DescriptorBufferInfo)
      reads this
      ensures r.buffer == buffer && r.offset == offset && r.size == size
    {
      DescriptorBufferInfo(buffer, offset, size)
    }

    /** Describes exactly the aligned slot of one instance. */
    function DescriptorInfoForIndex(index: int): (r: DescriptorBufferInfo)
      reads this
      ensures r == DescriptorBufferInfo(buffer, IndexOffset(index, alignmentSize), alignmentSize)
    {
      DescriptorInfo(alignmentSize, IndexOffset(index, alignmentSize))
    }

    /** The alignment-size getter as written: it answers with the instance size. */
    function GetAlignmentSizeAsWritten(): (r: u64)
      reads this
      ensures r == instanceSize
    {
      instanceSize
    }

    /** The alignment-size getter as intended: the stride the per-index helpers use. */
    function GetAlignmentSize(): (r: u64)
      reads this
      requires Valid()
      ensures forall index :: IndexOffset(index, r) == IndexOffset(index, alignmentSize)
      ensures IsPow2(minOffsetAlignment) && instanceSize + minOffsetAlignment - 1 < U64_MODULUS ==>
                r % minOffsetAlignment == 0 && instanceSize <= r
    {
      AlignedWhenPow2(instanceSize, minOffsetAlignment);
      alignmentSize
    }
  }

  /** A 4-byte instance on a device with 256-byte offset alignment occupies 256-byte slots. */
  lemma FourBytesAt256()
    ensures GetAlignment(4, 256) == 256
  {
    assert Pow2(8) == 256;
    AlignmentRoundsUp(4, 256);
  }

  /**
   * The getter as written reports 4 for such a buffer: a stride that is not a multiple of
   * the device's alignment and that disagrees with where `writeToIndex(1)` writes.
   */
  lemma AlignmentGetterDisagrees(b: Buffer)
    requires b.Valid() && b.instanceSize == 4 && b.minOffsetAlignment == 256
    ensures b.GetAlignmentSizeAsWritten() % b.minOffsetAlignment != 0
    ensures IndexOffset(1, b.GetAlignmentSizeAsWritten()) != IndexOffset(1, b.alignmentSize)
  {
    FourBytesAt256();
  }
}
