/**
 * The part of the Vulkan interface the engine's bookkeeping depends on: result codes,
 * opaque handles, extents, formats and the integer widths of the C types.
 * Driver calls are not modelled; what the driver answers is passed in as parameters,
 * and handles come from a `Device` that hands out distinct non-null values.
 */
module Vulkan {

  /** `VkResult` is an `int32` enumeration; only the codes the engine tests for have names. */
  type VkResult = int

  const SUCCESS: VkResult := 0
  const SUBOPTIMAL: VkResult := 1000001003
  const ERROR_OUT_OF_DATE: VkResult := -1000001004

  const U32_MODULUS: nat := 0x1_0000_0000
  const U64_MODULUS: nat := 0x1_0000_0000_0000_0000
  const UINT32_MAX: nat := U32_MODULUS - 1
  const UINT64_MAX: nat := U64_MODULUS - 1

  /** `VK_WHOLE_SIZE` is `~0ULL`. */
  const WHOLE_SIZE: nat := UINT64_MAX

  /** `uint32_t` and `VkDeviceSize` (`uint64_t`) values. */
  type u32 = x: int | 0 <= x < 0x1_0000_0000
  type u64 = x: int | 0 <= x < 0x1_0000_0000_0000_0000

  /** One byte of host-visible memory. */
  type byte = x: int | 0 <= x < 256

  /** Any dispatchable or non-dispatchable Vulkan object; `Null` is `VK_NULL_HANDLE`. */
  datatype Handle = Null | Handle(id: nat)

  datatype Extent2D = Extent2D(width: u32, height: u32)

  /** `VkFormat`, `VkColorSpaceKHR` and `VkPresentModeKHR` values. */
  type Format = int
  type ColorSpace = int
  type PresentMode = int

  const FORMAT_R32G32_SFLOAT: Format := 103
  const FORMAT_R32G32B32_SFLOAT: Format := 106
  const FORMAT_B8G8R8A8_SRGB: Format := 50
  const COLOR_SPACE_SRGB_NONLINEAR: ColorSpace := 0
  const PRESENT_MODE_IMMEDIATE: PresentMode := 0
  const PRESENT_MODE_MAILBOX: PresentMode := 1
  const PRESENT_MODE_FIFO: PresentMode := 2

  /**
   * The logical device, reduced to the one thing the model needs from it: every object it
   * creates gets a handle no earlier creation returned.
   */
  class Device {
    var nextId: nat

    constructor ()
      ensures nextId == 0
    {
      nextId := 0;
    }

    method NewHandle() returns (h: Handle)
      modifies this
      ensures h == Handle(old(nextId)) && nextId == old(nextId) + 1
    {
      h := Handle(nextId);
      nextId := nextId + 1;
    }

    /** `n` fresh handles, made one after another, as the engine's creation loops do. */
    method NewHandles(n: nat) returns (hs: seq<Handle>)
      modifies this
      ensures |hs| == n && nextId == old(nextId) + n
      ensures forall i :: 0 <= i < n ==> hs[i] == Handle(old(nextId) + i)
    {
      hs := [];
      while |hs| < n
        invariant |hs| <= n && nextId == old(nextId) + |hs|
        invariant forall i :: 0 <= i < |hs| ==> hs[i] == Handle(old(nextId) + i)
      {
        var h := NewHandle();
        hs := hs + [h];
      }
    }
  }
}
