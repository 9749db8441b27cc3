/**
 * Descriptor set layouts, pools and the writer that fills a freshly allocated set: builders
 * that collect bindings and pool sizes, and a writer that validates each write against the
 * layout before stamping the destination set on all of them.
 */
module Descriptors {
  import opened Vulkan

  /** `VkDescriptorType` and `VkShaderStageFlags` values. */
  type DescriptorType = int
  type StageFlags = int

  datatype LayoutBinding = LayoutBinding(binding: u32, descriptorType: DescriptorType, descriptorCount: u32, stageFlags: StageFlags)

  datatype PoolSize = PoolSize(descriptorType: DescriptorType, descriptorCount: u32)

  /** What a write points at: a buffer range or an image. */
  datatype WriteInfo =
    | BufferInfo(buffer: Handle, offset: u64, range: u64)
    | ImageInfo(sampler: Handle, imageView: Handle, imageLayout: int)

  /** One `VkWriteDescriptorSet`; `dstSet` is `Null` until the set is known. */
  datatype Write = Write(dstSet: Handle, dstBinding: u32, descriptorType: DescriptorType, descriptorCount: u32, info: WriteInfo)

  /** Every binding is stored under its own number. */
  ghost predicate KeyedByBinding(bindings: map<u32, LayoutBinding>)
  {
    forall b :: b in bindings ==> bindings[b].binding == b
  }

  /**
   * The layout-binding list the layout hands to Vulkan, one entry per map entry in the map's
   * iteration order, which is unspecified: the order is left open here.
   */
  method LayoutBindingList(bindings: map<u32, LayoutBinding>) returns (list: seq<LayoutBinding>)
    requires KeyedByBinding(bindings)
    ensures |list| == |bindings|
    ensures forall b :: b in bindings ==> bindings[b] in list
    ensures forall i :: 0 <= i < |list| ==> list[i].binding in bindings && bindings[list[i].binding] == list[i]
    ensures forall i, j :: 0 <= i < j < |list| ==> list[i].binding != list[j].binding
  {
    var remaining := bindings.Keys;
    list := [];
    while remaining != {}
      invariant remaining <= bindings.Keys
      invariant |list| + |remaining| == |bindings|
      invariant forall b :: b in bindings && b !in remaining ==> bindings[b] in list
      invariant forall i :: 0 <= i < |list| ==> list[i].binding in bindings && list[i].binding !in remaining
      invariant forall i :: 0 <= i < |list| ==> bindings[list[i].binding] == list[i]
      invariant forall i, j :: 0 <= i < j < |list| ==> list[i].binding != list[j].binding
      decreases |remaining|
    {
      var b :| b in remaining;
      list := list + [bindings[b]];
      remaining := remaining - {b};
    }
  }

  class SetLayoutBuilder {
    var bindings: map<u32, LayoutBinding>

    constructor ()
      ensures bindings == map[]
    {
      bindings := map[];
    }

    /** Adds a binding number not yet in use (`count` defaults to 1 in the source). */
    method AddBinding(binding: u32, descriptorType: DescriptorType, stageFlags: StageFlags, count: u32)
      requires binding !in bindings
      modifies this
      ensures bindings == old(bindings)[binding := LayoutBinding(binding, descriptorType, count, stageFlags)]
      ensures KeyedByBinding(old(bindings)) ==> KeyedByBinding(bindings)
    {
      bindings := bindings[binding := LayoutBinding(binding, descriptorType, count, stageFlags)];
    }

    method Build(device: Device) returns (layout: SetLayout)
      requires KeyedByBinding(bindings)
      modifies device
      ensures fresh(layout) && layout.bindings == bindings
      ensures |layout.layoutBindings| == |bindings|
    {
      layout := new SetLayout(device, bindings);
    }
  }

  class SetLayout {
    const bindings: map<u32, LayoutBinding>
    /** The list passed as `pBindings`; its length is `bindingCount`. */
    const layoutBindings: seq<LayoutBinding>
    const handle: Handle

    constructor (device: Device, bindings: map<u32, LayoutBinding>)
      requires KeyedByBinding(bindings)
      modifies device
      ensures this.bindings == bindings && handle != Null
      ensures |layoutBindings| == |bindings|
      ensures forall b :: b in bindings ==> bindings[b] in layoutBindings
      ensures forall x :: x in layoutBindings ==> x.binding in bindings && bindings[x.binding] == x
    {
      var list := LayoutBindingList(bindings);
      var h := device.NewHandle();
      this.bindings := bindings;
      layoutBindings := list;
      handle := h;
    }
  }

  class PoolBuilder {
    var poolSizes: seq<PoolSize>
    var maxSets: u32
    var poolFlags: int

    constructor ()
      ensures poolSizes == [] && maxSets == 1000 && poolFlags == 0
    {
      poolSizes, maxSets, poolFlags := [], 1000, 0;
    }

    method AddPoolSize(descriptorType: DescriptorType, count: u32)
      modifies this`poolSizes
      ensures poolSizes == old(poolSizes) + [PoolSize(descriptorType, count)]
    {
      poolSizes := poolSizes + [PoolSize(descriptorType, count)];
    }

    method SetPoolFlags(flags: int)
      modifies this`poolFlags
      ensures poolFlags == flags
    {
      poolFlags := flags;
    }

    method SetMaxSets(count: u32)
      modifies this`maxSets
      ensures maxSets == count
    {
      maxSets := count;
    }

    method Build(device: Device) returns (pool: Pool)
      modifies device
      ensures fresh(pool) && pool.device == device
      ensures pool.maxSets == maxSets && pool.poolFlags == poolFlags && pool.poolSizes == poolSizes
    {
      pool := new Pool(device, maxSets, poolFlags, poolSizes);
    }
  }

  class Pool {
    const device: Device
    const maxSets: u32
    const poolFlags: int
    const poolSizes: seq<PoolSize>
    const handle: Handle

    constructor (device: Device, maxSets: u32, poolFlags: int, poolSizes: seq<PoolSize>)
      modifies device
      ensures this.device == device && this.maxSets == maxSets && this.poolFlags == poolFlags
      ensures this.poolSizes == poolSizes && handle != Null
    {
      var h := device.NewHandle();
      this.device, this.maxSets, this.poolFlags, this.poolSizes, handle := device, maxSets, poolFlags, poolSizes, h;
    }

    /**
     * Allocates one set with the given layout; reports failure (for instance an exhausted
     * pool) instead of throwing. `descriptorSet` is the new set when `ok`, `Null` otherwise.
     */
    method AllocateDescriptor(layout: SetLayout, allocResult: VkResult) returns (ok: bool, descriptorSet: Handle)
      modifies device
      ensures ok <==> allocResult == SUCCESS
      ensures ok ==> descriptorSet != Null
      ensures !ok ==> descriptorSet == Null
    {
      if allocResult != SUCCESS {
        return false, Null;
      }
      descriptorSet := device.NewHandle();
      ok := true;
    }
  }

  /** The pending writes, each aimed at `descriptorSet`, everything else as it was. */
  function Stamp(writes: seq<Write>, descriptorSet: Handle): (r: seq<Write>)
    ensures |r| == |writes|
    ensures forall i :: 0 <= i < |writes| ==> r[i] == writes[i].(dstSet := descriptorSet)
  {
    seq(|writes|, i requires 0 <= i < |writes| => writes[i].(dstSet := descriptorSet))
  }

  /** Only the last stamp counts. */
  lemma StampTwice(writes: seq<Write>, first: Handle, second: Handle)
    ensures Stamp(Stamp(writes, first), second) == Stamp(writes, second)
  {
  }

  /** Stamping distributes over appending a write. */
  lemma StampAppend(writes: seq<Write>, w: Write, descriptorSet: Handle)
    ensures Stamp(writes + [w], descriptorSet) == Stamp(writes, descriptorSet) + [w.(dstSet := descriptorSet)]
  {
  }

  class Writer {
    const setLayout: SetLayout
    const pool: Pool
    var writes: seq<Write>

    constructor (setLayout: SetLayout, pool: Pool)
      ensures this.setLayout == setLayout && this.pool == pool && writes == []
    {
      this.setLayout, this.pool, writes := setLayout, pool, [];
    }

    /** The write the writer records for `binding`, typed as the layout says. */
    function PendingWrite(binding: u32, info: WriteInfo): (w: Write)
      reads this
      requires binding in setLayout.bindings
      ensures w.dstSet == Null && w.dstBinding == binding && w.descriptorCount == 1 && w.info == info
      ensures w.descriptorType == setLayout.bindings[binding].descriptorType
    {
      Write(Null, binding, setLayout.bindings[binding].descriptorType, 1, info)
    }

    /** Records a buffer write to a single-descriptor binding of the layout. */
    method WriteBuffer(binding: u32, bufferInfo: WriteInfo)
      requires bufferInfo.BufferInfo?
      requires binding in setLayout.bindings && setLayout.bindings[binding].descriptorCount == 1
      modifies this`writes
      ensures writes == old(writes) + [PendingWrite(binding, bufferInfo)]
    {
      writes := writes + [PendingWrite(binding, bufferInfo)];
    }

    /** Records an image write to a single-descriptor binding of the layout. */
    method WriteImage(binding: u32, imageInfo: WriteInfo)
      requires imageInfo.ImageInfo?
      requires binding in setLayout.bindings && setLayout.bindings[binding].descriptorCount == 1
      modifies this`writes
      ensures writes == old(writes) + [PendingWrite(binding, imageInfo)]
    {
      writes := writes + [PendingWrite(binding, imageInfo)];
    }

    /**
     * Allocates a set from the pool; returns false, leaving the writes alone, when that
     * fails, and otherwise aims every write at the new set, applies them and returns true.
     */
    method Build(allocResult: VkResult) returns (ok: bool, descriptorSet: Handle, applied: seq<Write>)
      modifies this`writes, pool.device
      ensures ok <==> allocResult == SUCCESS
      ensures ok ==> descriptorSet != Null && writes == Stamp(old(writes), descriptorSet) && applied == writes
      ensures !ok ==> descriptorSet == Null && writes == old(writes) && applied == []
    {
      ok, descriptorSet := pool.AllocateDescriptor(setLayout, allocResult);
      if !ok {
        return false, descriptorSet, [];
      }
      applied := Overwrite(descriptorSet);
    }

    /** Sets `dstSet` on every pending write, in place, and applies them all. */
    method Overwrite(descriptorSet: Handle) returns (applied: seq<Write>)
      modifies this`writes
      ensures writes == Stamp(old(writes), descriptorSet) && applied == writes
    {
      var i := 0;
      while i < |writes|
        invariant 0 <= i <= |writes| == |old(writes)|
        invariant writes[..i] == Stamp(old(writes)[..i], descriptorSet)
        invariant writes[i..] == old(writes)[i..]
      {
        writes := writes[i := writes[i].(dstSet := descriptorSet)];
        i := i + 1;
      }
      applied := writes;
    }
  }
}
