/**
 * The swap chain: the rules that pick the image count, surface format, present mode and
 * extent, the per-image and per-frame-slot resources built at creation, and the
 * frame-slot / images-in-flight bookkeeping of acquire and submit.
 */
module SwapChain {
  import opened Vulkan

  /** Number of frame slots; each owns two semaphores and a fence. */
  const MAX_FRAMES_IN_FLIGHT: nat := 2

  datatype SurfaceFormat = SurfaceFormat(format: Format, colorSpace: ColorSpace)

  /** The one surface format the engine asks for by name. */
  const PREFERRED_FORMAT := SurfaceFormat(FORMAT_B8G8R8A8_SRGB, COLOR_SPACE_SRGB_NONLINEAR)

  datatype Capabilities = Capabilities(
    minImageCount: u32,
    maxImageCount: u32,
    currentExtent: Extent2D,
    minImageExtent: Extent2D,
    maxImageExtent: Extent2D)

  datatype SupportDetails = SupportDetails(
    capabilities: Capabilities,
    formats: seq<SurfaceFormat>,
    presentModes: seq<PresentMode>)

  /**
   * What the device and the driver answer while one swap chain is built: the surface
   * support, the number of images `vkGetSwapchainImagesKHR` reports (the driver may
   * grant more than were asked for) and the depth format the device's probing picked.
   */
  datatype DriverReport = DriverReport(support: SupportDetails, grantedImageCount: nat, depthFormat: Format)

  /** The fields of `VkSwapchainCreateInfoKHR` that the selection rules decide. */
  datatype CreateInfo = CreateInfo(
    minImageCount: u32,
    surfaceFormat: SurfaceFormat,
    extent: Extent2D,
    presentMode: PresentMode,
    oldSwapchain: Handle)

  /** One `vkQueueSubmit`: the command buffer, the semaphores it waits on and signals, its fence. */
  datatype Submission = Submission(commandBuffer: Handle, waitSemaphore: Handle, signalSemaphore: Handle, fence: Handle)

  /** One `vkQueuePresentKHR`. */
  datatype Presentation = Presentation(waitSemaphore: Handle, swapChain: Handle, imageIndex: nat)

  /** How `submitCommandBuffers` ends: it throws when the queue submission fails. */
  datatype SubmitOutcome = SubmitFailed | Presented(presentation: Presentation, result: VkResult)

  // ---------------------------------------------------------------- selection rules

  /**
   * The requested image count: one more than the surface minimum (in `uint32_t`
   * arithmetic), lowered to the maximum when the surface has one (maximum 0 means none).
   */
  function RequestedImageCount(minImageCount: u32, maxImageCount: u32): (r: u32)
    ensures (minImageCount < UINT32_MAX && (maxImageCount == 0 || minImageCount + 1 <= maxImageCount))
            ==> r == minImageCount + 1
    ensures minImageCount < UINT32_MAX && 0 < maxImageCount < minImageCount + 1 ==> r == maxImageCount
    ensures maxImageCount > 0 ==> r <= maxImageCount
    ensures minImageCount == UINT32_MAX ==> r == 0
  {
    var count := (minImageCount + 1) % U32_MODULUS;
    if maxImageCount > 0 && count > maxImageCount then maxImageCount else count
  }

  /** `std::max(lo, std::min(hi, x))`. */
  function Clamp(lo: u32, hi: u32, x: u32): (r: u32)
    ensures lo <= r
    ensures lo <= hi ==> r <= hi
    ensures lo <= x <= hi ==> r == x
    ensures x < lo || hi < lo ==> r == lo
    ensures lo <= hi < x ==> r == hi
  {
    var below := if hi < x then hi else x;
    if lo < below then below else lo
  }

  /**
   * The surface's current extent, unless its width is the `UINT32_MAX` sentinel; only then
   * the window's extent, clamped dimension by dimension into the surface's range.
   */
  function ChooseSwapExtent(capabilities: Capabilities, windowExtent: Extent2D): (r: Extent2D)
    ensures capabilities.currentExtent.width != UINT32_MAX ==> r == capabilities.currentExtent
    ensures capabilities.currentExtent.width == UINT32_MAX ==>
              r.width == Clamp(capabilities.minImageExtent.width, capabilities.maxImageExtent.width, windowExtent.width) &&
              r.height == Clamp(capabilities.minImageExtent.height, capabilities.maxImageExtent.height, windowExtent.height)
  {
    if capabilities.currentExtent.width != UINT32_MAX then
      capabilities.currentExtent
    else
      Extent2D(
        Clamp(capabilities.minImageExtent.width, capabilities.maxImageExtent.width, windowExtent.width),
        Clamp(capabilities.minImageExtent.height, capabilities.maxImageExtent.height, windowExtent.height))
  }

  /** The format the search must return: the preferred one when offered, else the first. */
  function FormatChoice(formats: seq<SurfaceFormat>): (f: SurfaceFormat)
    requires |formats| > 0
    ensures f in formats
    ensures PREFERRED_FORMAT in formats ==> f == PREFERRED_FORMAT
    ensures PREFERRED_FORMAT !in formats ==> f == formats[0]
  {
    if PREFERRED_FORMAT in formats then PREFERRED_FORMAT else formats[0]
  }

  /** The first entry equal to the preferred sRGB format, else the first entry. */
  method ChooseSwapSurfaceFormat(formats: seq<SurfaceFormat>) returns (r: SurfaceFormat)
    requires |formats| > 0
    ensures r == FormatChoice(formats)
  {
    var i := 0;
    while i < |formats|
      invariant 0 <= i <= |formats|
      invariant PREFERRED_FORMAT !in formats[..i]
    {
      if formats[i] == PREFERRED_FORMAT {
        return formats[i];
      }
      i := i + 1;
    }
    assert formats[..i] == formats;
    return formats[0];
  }

  /** Looks for FIFO and falls back to FIFO: every list, the empty one too, yields FIFO. */
  method ChooseSwapPresentMode(modes: seq<PresentMode>) returns (r: PresentMode)
    ensures r == PRESENT_MODE_FIFO
  {
    for i := 0 to |modes| {
      if modes[i] == PRESENT_MODE_FIFO {
        return modes[i];
      }
    }
    return PRESENT_MODE_FIFO;
  }

  /**
   * `info` is what the creation rules fill in for a surface with `support`, a window of
   * `windowExtent` and the chain being replaced, `oldSwapchain` (`Null` for none).
   */
  ghost predicate SelectedFor(info: CreateInfo, support: SupportDetails, windowExtent: Extent2D, oldSwapchain: Handle)
    requires |support.formats| > 0
  {
    && info.minImageCount == RequestedImageCount(support.capabilities.minImageCount, support.capabilities.maxImageCount)
    && info.surfaceFormat == FormatChoice(support.formats)
    && info.presentMode == PRESENT_MODE_FIFO
    && info.extent == ChooseSwapExtent(support.capabilities, windowExtent)
    && info.oldSwapchain == oldSwapchain
  }

  // ---------------------------------------------------------------- frame slots

  /** The acquire/submit bookkeeping: the slot counter and the image-to-fence table. */
  datatype SlotState = SlotState(currentFrame: nat, imagesInFlight: seq<Handle>)

  /** The counter names a slot and every recorded fence is one of the slots' fences. */
  ghost predicate SlotsValid(s: SlotState, fences: seq<Handle>)
  {
    && |fences| == MAX_FRAMES_IN_FLIGHT
    && s.currentFrame < MAX_FRAMES_IN_FLIGHT
    && forall i :: 0 <= i < |s.imagesInFlight| ==> s.imagesInFlight[i] == Null || s.imagesInFlight[i] in fences
  }

  /** The state right after creation: slot 0 and no image claimed. */
  function InitialSlots(imageCount: nat): (s: SlotState)
    ensures s.currentFrame == 0 && |s.imagesInFlight| == imageCount
    ensures forall i :: 0 <= i < imageCount ==> s.imagesInFlight[i] == Null
  {
    SlotState(0, seq(imageCount, _ => Null))
  }

  /**
   * One `submitCommandBuffers` on the bookkeeping: the image is claimed by the current
   * slot's fence, and the counter moves on only when the queue submission succeeded.
   */
  function SubmitStep(s: SlotState, fences: seq<Handle>, imageIndex: nat, submitted: bool): (s': SlotState)
    requires s.currentFrame < |fences| && imageIndex < |s.imagesInFlight|
    ensures |s'.imagesInFlight| == |s.imagesInFlight|
    ensures s'.imagesInFlight[imageIndex] == fences[s.currentFrame]
    ensures forall j :: 0 <= j < |s.imagesInFlight| && j != imageIndex ==> s'.imagesInFlight[j] == s.imagesInFlight[j]
    ensures s'.currentFrame == if submitted then (s.currentFrame + 1) % MAX_FRAMES_IN_FLIGHT else s.currentFrame
    ensures SlotsValid(s, fences) ==> SlotsValid(s', fences)
  {
    SlotState(
      if submitted then (s.currentFrame + 1) % MAX_FRAMES_IN_FLIGHT else s.currentFrame,
      s.imagesInFlight[imageIndex := fences[s.currentFrame]])
  }

  /** Successful submissions of the given image indices, one after another. */
  function SubmitAll(s: SlotState, fences: seq<Handle>, indices: seq<nat>): (s': SlotState)
    requires SlotsValid(s, fences)
    requires forall k :: 0 <= k < |indices| ==> indices[k] < |s.imagesInFlight|
    ensures SlotsValid(s', fences) && |s'.imagesInFlight| == |s.imagesInFlight|
    decreases |indices|
  {
    if indices == [] then s
    else SubmitAll(SubmitStep(s, fences, indices[0], true), fences, indices[1..])
  }

  /**
   * After n successful submissions the slot counter has advanced by n (mod 2), whatever
   * images were used and however many the chain has.
   */
  lemma {:induction false} SlotRotation(s: SlotState, fences: seq<Handle>, indices: seq<nat>)
    requires SlotsValid(s, fences)
    requires forall k :: 0 <= k < |indices| ==> indices[k] < |s.imagesInFlight|
    ensures SubmitAll(s, fences, indices).currentFrame == (s.currentFrame + |indices|) % MAX_FRAMES_IN_FLIGHT
    decreases |indices|
  {
    if indices != [] {
      var s1 := SubmitStep(s, fences, indices[0], true);
      SlotRotation(s1, fences, indices[1..]);
    }
  }

  /**
   * An image keeps the fence of the last submission that used it: entries are never
   * cleared, only overwritten by a later submission to the same image.
   */
  lemma {:induction false} ClaimsPersist(s: SlotState, fences: seq<Handle>, indices: seq<nat>, j: nat)
    requires SlotsValid(s, fences)
    requires forall k :: 0 <= k < |indices| ==> indices[k] < |s.imagesInFlight|
    requires j < |s.imagesInFlight| && j !in indices
    ensures SubmitAll(s, fences, indices).imagesInFlight[j] == s.imagesInFlight[j]
    decreases |indices|
  {
    if indices != [] {
      var s1 := SubmitStep(s, fences, indices[0], true);
      assert j !in indices[1..];
      ClaimsPersist(s1, fences, indices[1..], j);
    }
  }

  /**
   * With three images and two slots, images 0, 1, 2 submitted in turn leave image 0
   * claimed by slot 0's fence while the counter is at slot 1: the next submission to
   * image 0 must wait on the other slot's fence before claiming it for its own.
   */
  lemma ImageReuseCrossesSlots(fences: seq<Handle>)
    requires |fences| == MAX_FRAMES_IN_FLIGHT && fences[0] != fences[1] && Null !in fences
    ensures var s := SubmitAll(InitialSlots(3), fences, [0, 1, 2]);
      s.currentFrame == 1 && s.imagesInFlight[0] == fences[0] && s.imagesInFlight[0] != fences[s.currentFrame]
  {
    var s0 := InitialSlots(3);
    var s1 := SubmitStep(s0, fences, 0, true);
    var s2 := SubmitStep(s1, fences, 1, true);
    var s3 := SubmitStep(s2, fences, 2, true);
    assert [0, 1, 2][1..] == [1, 2] && [1, 2][1..] == [2] && [2][1..] == [];
    assert SubmitAll(s3, fences, []) == s3;
    assert SubmitAll(s0, fences, [0, 1, 2]) == s3;
  }

  /**
   * Two full frames on a three-image chain that used images 0 and 1 leave both claims
   * recorded: two non-null entries remain, one per slot.
   */
  lemma TwoFramesLeaveTwoClaims(fences: seq<Handle>)
    requires |fences| == MAX_FRAMES_IN_FLIGHT && fences[0] != fences[1] && Null !in fences
    ensures SubmitAll(InitialSlots(3), fences, [0, 1]).imagesInFlight == [fences[0], fences[1], Null]
  {
    var s0 := InitialSlots(3);
    var s1 := SubmitStep(s0, fences, 0, true);
    var s2 := SubmitStep(s1, fences, 1, true);
    assert [0, 1][1..] == [1] && [1][1..] == [];
    assert SubmitAll(s2, fences, []) == s2;
    assert SubmitAll(s0, fences, [0, 1]) == s2;
  }

  // ---------------------------------------------------------------- the swap chain object

  class SwapChain {
    const windowExtent: Extent2D
    var previous: SwapChain?
    var createInfo: CreateInfo
    var swapChain: Handle
    var imageFormat: Format
    var depthFormat: Format
    var extent: Extent2D
    var images: seq<Handle>
    var imageViews: seq<Handle>
    var renderPass: Handle
    var depthImages: seq<Handle>
    var depthImageMemory: seq<Handle>
    var depthImageViews: seq<Handle>
    var frameBuffers: seq<Handle>
    var imageAvailableSemaphores: seq<Handle>
    var renderFinishedSemaphores: seq<Handle>
    var inFlightFences: seq<Handle>
    var imagesInFlight: seq<Handle>
    var currentFrame: nat

    function ImageCount(): nat
      reads this
    {
      |images|
    }

    function Slots(): SlotState
      reads this
    {
      SlotState(currentFrame, imagesInFlight)
    }

    /**
     * One image view, depth image, depth memory, depth view, framebuffer and
     * images-in-flight entry per image; two semaphores and a distinct non-null fence per
     * frame slot; the previous chain already released.
     */
    ghost predicate Valid()
      reads this
    {
      && |imageViews| == |images|
      && |depthImages| == |images|
      && |depthImageMemory| == |images|
      && |depthImageViews| == |images|
      && |frameBuffers| == |images|
      && |imagesInFlight| == |images|
      && |imageAvailableSemaphores| == MAX_FRAMES_IN_FLIGHT
      && |renderFinishedSemaphores| == MAX_FRAMES_IN_FLIGHT
      && |inFlightFences| == MAX_FRAMES_IN_FLIGHT
      && Null !in inFlightFences && inFlightFences[0] != inFlightFences[1]
      && SlotsValid(Slots(), inFlightFences)
      && previous == null
    }

    /**
     * Builds a chain for `windowExtent`; `previous`, when given, is handed to the driver as
     * the chain being replaced and released once construction is done.
     */
    constructor (device: Device, windowExtent: Extent2D, previous: SwapChain?, report: DriverReport)
      requires |report.support.formats| > 0
      modifies device
      ensures Valid()
      ensures this.windowExtent == windowExtent && this.previous == null
      ensures SelectedFor(createInfo, report.support, windowExtent, if previous == null then Null else previous.swapChain)
      ensures extent == createInfo.extent && imageFormat == createInfo.surfaceFormat.format
      ensures depthFormat == report.depthFormat
      ensures |images| == report.grantedImageCount
      ensures Slots() == InitialSlots(|images|)
    {
      this.windowExtent := windowExtent;
      this.previous := previous;
      var oldSwapchain := if previous == null then Null else previous.swapChain;
      var info, chain, chainImages := CreateSwapChain(device, report, windowExtent, oldSwapchain);
      var views := CreateImageViews(device, |chainImages|);
      var pass := CreateRenderPass(device);
      var dImages, dMemory, dViews := CreateDepthResources(device, |chainImages|);
      var buffers := CreateFrameBuffers(device, |chainImages|);
      var available, finished, fences := CreateSyncObjects(device);
      createInfo, swapChain, images := info, chain, chainImages;
      imageFormat, extent := info.surfaceFormat.format, info.extent;
      imageViews, renderPass := views, pass;
      depthFormat, depthImages, depthImageMemory, depthImageViews := report.depthFormat, dImages, dMemory, dViews;
      frameBuffers := buffers;
      imageAvailableSemaphores, renderFinishedSemaphores, inFlightFences := available, finished, fences;
      imagesInFlight := InitialSlots(|chainImages|).imagesInFlight;
      currentFrame := 0;
      this.previous := null;
      new;
    }

    /**
     * The selection rules, the `vkCreateSwapchainKHR` call and the image list the driver
     * hands back for the new chain.
     */
    static method CreateSwapChain(device: Device, report: DriverReport, windowExtent: Extent2D, oldSwapchain: Handle)
      returns (info: CreateInfo, chain: Handle, images: seq<Handle>)
      requires |report.support.formats| > 0
      modifies device
      ensures SelectedFor(info, report.support, windowExtent, oldSwapchain)
      ensures |images| == report.grantedImageCount
    {
      var support := report.support;
      var surfaceFormat := ChooseSwapSurfaceFormat(support.formats);
      var presentMode := ChooseSwapPresentMode(support.presentModes);
      var chosenExtent := ChooseSwapExtent(support.capabilities, windowExtent);
      var imageCount := RequestedImageCount(support.capabilities.minImageCount, support.capabilities.maxImageCount);
      info := CreateInfo(imageCount, surfaceFormat, chosenExtent, presentMode, oldSwapchain);
      chain := device.NewHandle();
      images := device.NewHandles(report.grantedImageCount);
    }

    /** One view per swap-chain image. */
    static method CreateImageViews(device: Device, imageCount: nat) returns (views: seq<Handle>)
      modifies device
      ensures |views| == imageCount
    {
      views := device.NewHandles(imageCount);
    }

    static method CreateRenderPass(device: Device) returns (renderPass: Handle)
      modifies device
      ensures renderPass != Null
    {
      renderPass := device.NewHandle();
    }

    /** A depth image, its memory and its view for every swap-chain image. */
    static method CreateDepthResources(device: Device, imageCount: nat)
      returns (depthImages: seq<Handle>, depthImageMemory: seq<Handle>, depthImageViews: seq<Handle>)
      modifies device
      ensures |depthImages| == |depthImageMemory| == |depthImageViews| == imageCount
    {
      depthImages, depthImageMemory, depthImageViews := [], [], [];
      while |depthImages| < imageCount
        invariant |depthImages| <= imageCount
        invariant |depthImageMemory| == |depthImageViews| == |depthImages|
      {
        var image := device.NewHandle();
        var memory := device.NewHandle();
        var view := device.NewHandle();
        depthImages := depthImages + [image];
        depthImageMemory := depthImageMemory + [memory];
        depthImageViews := depthImageViews + [view];
      }
    }

    /** One framebuffer per swap-chain image. */
    static method CreateFrameBuffers(device: Device, imageCount: nat) returns (frameBuffers: seq<Handle>)
      modifies device
      ensures |frameBuffers| == imageCount
    {
      frameBuffers := device.NewHandles(imageCount);
    }

    /** Two semaphores and a fence per frame slot, made in slot order; the fences are distinct. */
    static method CreateSyncObjects(device: Device)
      returns (available: seq<Handle>, finished: seq<Handle>, fences: seq<Handle>)
      modifies device
      ensures |available| == |finished| == |fences| == MAX_FRAMES_IN_FLIGHT
      ensures Null !in fences && fences[0] != fences[1]
    {
      available, finished, fences := [], [], [];
      for i := 0 to MAX_FRAMES_IN_FLIGHT
        invariant |available| == |finished| == |fences| == i
        invariant forall j :: 0 <= j < i ==> fences[j].Handle? && fences[j].id < device.nextId
        invariant forall j, k :: 0 <= j < k < i ==> fences[j].id < fences[k].id
      {
        var imageAvailable := device.NewHandle();
        var renderFinished := device.NewHandle();
        var fence := device.NewHandle();
        available := available + [imageAvailable];
        finished := finished + [renderFinished];
        fences := fences + [fence];
      }
    }

    /**
     * Waits on the current slot's fence and asks the driver for an image, signalling the
     * current slot's image-available semaphore. Neither the slot counter nor the
     * images-in-flight table changes.
     */
    method AcquireNextImage(acquireResult: VkResult, acquiredIndex: nat)
      returns (result: VkResult, imageIndex: nat, waitedFence: Handle, signalSemaphore: Handle)
      requires Valid()
      ensures waitedFence == inFlightFences[currentFrame] && waitedFence != Null
      ensures signalSemaphore == imageAvailableSemaphores[currentFrame]
      ensures result == acquireResult && imageIndex == acquiredIndex
    {
      waitedFence := inFlightFences[currentFrame];
      signalSemaphore := imageAvailableSemaphores[currentFrame];
      result, imageIndex := acquireResult, acquiredIndex;
    }

    /**
     * Waits on the fence already recorded for the image (`waited`, `Null` when there is
     * none), records the current slot's fence for it, submits and presents. When the
     * submission fails it throws before the counter moves; otherwise the counter advances
     * whatever the present returned.
     */
    method SubmitCommandBuffers(buffer: Handle, imageIndex: nat, submitResult: VkResult, presentResult: VkResult)
      returns (waited: Handle, submission: Submission, outcome: SubmitOutcome)
      requires Valid() && imageIndex < ImageCount()
      modifies this`imagesInFlight, this`currentFrame
      ensures Valid()
      ensures waited == old(imagesInFlight[imageIndex])
      ensures Slots() == SubmitStep(old(Slots()), inFlightFences, imageIndex, submitResult == SUCCESS)
      ensures submission == Submission(buffer, imageAvailableSemaphores[old(currentFrame)],
                                       renderFinishedSemaphores[old(currentFrame)], inFlightFences[old(currentFrame)])
      ensures outcome == if submitResult != SUCCESS then SubmitFailed
                         else Presented(Presentation(renderFinishedSemaphores[old(currentFrame)], swapChain, imageIndex), presentResult)
    {
      waited := imagesInFlight[imageIndex];
      imagesInFlight := imagesInFlight[imageIndex := inFlightFences[currentFrame]];
      submission := Submission(buffer, imageAvailableSemaphores[currentFrame],
                               renderFinishedSemaphores[currentFrame], inFlightFences[currentFrame]);
      if submitResult != SUCCESS {
        outcome := SubmitFailed;
        return;
      }
      outcome := Presented(Presentation(renderFinishedSemaphores[currentFrame], swapChain, imageIndex), presentResult);
      currentFrame := (currentFrame + 1) % MAX_FRAMES_IN_FLIGHT;
    }

    /**
     * Colour and depth formats agree, so render passes built for one suit the other; a chain
     * always agrees with itself.
     */
    predicate CompareSwapFormats(other: SwapChain): (same: bool)
      reads this, other
      ensures this == other ==> same
    {
      imageFormat == other.imageFormat && depthFormat == other.depthFormat
    }
  }

  /** A surface reporting a 2..3 image range yields a three-image request. */
  lemma ScenarioMinTwoMaxThree()
    ensures RequestedImageCount(2, 3) == 3
  {
  }
}
