/**
 * The renderer: owns the swap chain and one command buffer per frame slot, runs the
 * begin/end frame protocol, dispatches on the driver's result codes and rebuilds the swap
 * chain when the surface goes out of date or the window is resized.
 */
module Renderer {
  import opened Vulkan
  import opened Wrappers
  import opened SwapChain

  /** Why a frame call throws. */
  datatype Failure =
    | AcquireFailed         // acquire returned something other than SUCCESS, SUBOPTIMAL or OUT_OF_DATE
    | BeginRecordingFailed  // vkBeginCommandBuffer failed
    | EndRecordingFailed    // vkEndCommandBuffer failed
    | QueueSubmitFailed     // vkQueueSubmit failed inside the swap chain
    | PresentFailed         // present returned an error other than OUT_OF_DATE / SUBOPTIMAL
    | FormatChanged         // the rebuilt swap chain has other image or depth formats

  datatype BeginOutcome = Started(commandBuffer: Handle) | Skipped | BeginThrew(failure: Failure)

  datatype EndOutcome = Ended(recreated: bool) | EndThrew(failure: Failure)

  /** What `vkCmdBeginRenderPass`, `vkCmdSetViewport` and `vkCmdSetScissor` are given. */
  datatype RenderPassBegin = RenderPassBegin(
    commandBuffer: Handle,
    renderPass: Handle,
    frameBuffer: Handle,
    renderArea: Extent2D,
    viewport: Extent2D,
    scissor: Extent2D)

  // ---------------------------------------------------------------- the two frame counters

  /**
   * The renderer's frame flag and frame index, and the slot counter of the swap chain it
   * currently owns. The two indices are separate state: rebuilding the swap chain restarts
   * only the second.
   */
  datatype FrameCounters = FrameCounters(started: bool, frameIndex: nat, chainFrame: nat)

  predicate CountersValid(c: FrameCounters)
  {
    c.frameIndex < MAX_FRAMES_IN_FLIGHT && c.chainFrame < MAX_FRAMES_IN_FLIGHT
  }

  predicate AcquireUsable(r: VkResult)
  {
    r == SUCCESS || r == SUBOPTIMAL
  }

  /** `endFrame` rebuilds after OUT_OF_DATE or SUBOPTIMAL from present, or a pending resize. */
  predicate NeedsRecreate(presentResult: VkResult, resized: bool)
  {
    presentResult == ERROR_OUT_OF_DATE || presentResult == SUBOPTIMAL || resized
  }

  /**
   * How `beginFrame` fails, if it does: a rebuilt chain with other formats after
   * OUT_OF_DATE, an unusable acquire result, or a command buffer that refuses to begin.
   */
  function BeginFailure(acquireResult: VkResult, recordingOk: bool, formatsKept: bool): (r: Option<Failure>)
    ensures acquireResult == ERROR_OUT_OF_DATE ==> (r.None? <==> formatsKept)
    ensures acquireResult != ERROR_OUT_OF_DATE && !AcquireUsable(acquireResult) ==> r == Some(AcquireFailed)
    ensures AcquireUsable(acquireResult) ==> (r.None? <==> recordingOk)
  {
    if acquireResult == ERROR_OUT_OF_DATE then
      (if formatsKept then None else Some(FormatChanged))
    else if !AcquireUsable(acquireResult) then Some(AcquireFailed)
    else if recordingOk then None
    else Some(BeginRecordingFailed)
  }

  /** The counters after `beginFrame`; a started or thrown begin leaves the frame index alone. */
  function BeginStep(c: FrameCounters, acquireResult: VkResult): (r: FrameCounters)
    requires !c.started
    ensures r.frameIndex == c.frameIndex
    ensures r.started <==> AcquireUsable(acquireResult)
    ensures r.chainFrame == if acquireResult == ERROR_OUT_OF_DATE then 0 else c.chainFrame
  {
    if acquireResult == ERROR_OUT_OF_DATE then c.(chainFrame := 0)
    else if !AcquireUsable(acquireResult) then c
    else c.(started := true)
  }

  /**
   * How `endFrame` fails, if it does, in the order the code meets the failures: recording,
   * submission, then either the rebuild's format check or the present result.
   */
  function EndFailure(recordingOk: bool, submitted: bool, presentResult: VkResult, resized: bool, formatsKept: bool)
    : (r: Option<Failure>)
    ensures !recordingOk ==> r == Some(EndRecordingFailed)
    ensures recordingOk && !submitted ==> r == Some(QueueSubmitFailed)
    ensures recordingOk && submitted && NeedsRecreate(presentResult, resized) ==> (r.None? <==> formatsKept)
    ensures recordingOk && submitted && !NeedsRecreate(presentResult, resized) ==> (r.None? <==> presentResult == SUCCESS)
  {
    if !recordingOk then Some(EndRecordingFailed)
    else if !submitted then Some(QueueSubmitFailed)
    else if NeedsRecreate(presentResult, resized) then (if formatsKept then None else Some(FormatChanged))
    else if presentResult != SUCCESS then Some(PresentFailed)
    else None
  }

  /**
   * The counters after `endFrame`. Only an `endFrame` that does not throw clears the flag
   * and advances the frame index; the chain's counter advances with every accepted
   * submission, and restarts at 0 when the chain is rebuilt.
   */
  function EndStep(c: FrameCounters, recordingOk: bool, submitted: bool, presentResult: VkResult, resized: bool, formatsKept: bool)
    : (r: FrameCounters)
    requires c.started
    ensures EndFailure(recordingOk, submitted, presentResult, resized, formatsKept).None? ==>
              !r.started && r.frameIndex == (c.frameIndex + 1) % MAX_FRAMES_IN_FLIGHT
    ensures EndFailure(recordingOk, submitted, presentResult, resized, formatsKept).Some? ==>
              r.started && r.frameIndex == c.frameIndex
    ensures r.chainFrame == if !recordingOk || !submitted then c.chainFrame
                            else if NeedsRecreate(presentResult, resized) then 0
                            else (c.chainFrame + 1) % MAX_FRAMES_IN_FLIGHT
  {
    var failure := EndFailure(recordingOk, submitted, presentResult, resized, formatsKept);
    var chainFrame :=
      if !recordingOk || !submitted then c.chainFrame
      else if NeedsRecreate(presentResult, resized) then 0
      else (c.chainFrame + 1) % MAX_FRAMES_IN_FLIGHT;
    if failure.Some? then c.(chainFrame := chainFrame)
    else FrameCounters(false, (c.frameIndex + 1) % MAX_FRAMES_IN_FLIGHT, chainFrame)
  }

  /** One iteration of the frame loop: what the driver and the window answer to it. */
  datatype FrameInput = FrameInput(
    acquireResult: VkResult,
    beginRecordingOk: bool,
    endRecordingOk: bool,
    submitted: bool,
    presentResult: VkResult,
    resized: bool,
    formatsKept: bool)

  /** The frame was skipped: acquire reported OUT_OF_DATE and the rebuild kept the formats. */
  predicate Skips(f: FrameInput)
  {
    f.acquireResult == ERROR_OUT_OF_DATE && f.formatsKept
  }

  /** The frame was begun and ended without an exception. */
  predicate Completes(f: FrameInput)
  {
    && AcquireUsable(f.acquireResult)
    && BeginFailure(f.acquireResult, f.beginRecordingOk, f.formatsKept).None?
    && EndFailure(f.endRecordingOk, f.submitted, f.presentResult, f.resized, f.formatsKept).None?
  }

  /** The frame rebuilt the swap chain (in `beginFrame` or in `endFrame`). */
  predicate Recreates(f: FrameInput)
  {
    Skips(f) || (Completes(f) && NeedsRecreate(f.presentResult, f.resized))
  }

  /** `beginFrame`, and `endFrame` when the frame started and nothing threw. */
  function Frame(c: FrameCounters, f: FrameInput): (r: FrameCounters)
    requires !c.started && CountersValid(c)
    requires Skips(f) || Completes(f)
    ensures !r.started && CountersValid(r)
    ensures r.frameIndex == if Completes(f) then (c.frameIndex + 1) % MAX_FRAMES_IN_FLIGHT else c.frameIndex
  {
    var b := BeginStep(c, f.acquireResult);
    if Skips(f) then b
    else EndStep(b, f.endRecordingOk, f.submitted, f.presentResult, f.resized, f.formatsKept)
  }

  /** A run of frames none of which throws, from a state with no frame in progress. */
  function Run(c: FrameCounters, frames: seq<FrameInput>): (r: FrameCounters)
    requires !c.started && CountersValid(c)
    requires forall k :: 0 <= k < |frames| ==> Skips(frames[k]) || Completes(frames[k])
    ensures !r.started && CountersValid(r)
    decreases |frames|
  {
    if frames == [] then c else Run(Frame(c, frames[0]), frames[1..])
  }

  function CountCompleted(frames: seq<FrameInput>): nat
  {
    if frames == [] then 0 else (if Completes(frames[0]) then 1 else 0) + CountCompleted(frames[1..])
  }

  /** The frame index counts completed frames modulo 2; skipped frames do not move it. */
  lemma {:induction false} FrameIndexCountsCompletedFrames(c: FrameCounters, frames: seq<FrameInput>)
    requires !c.started && CountersValid(c)
    requires forall k :: 0 <= k < |frames| ==> Skips(frames[k]) || Completes(frames[k])
    ensures Run(c, frames).frameIndex == (c.frameIndex + CountCompleted(frames)) % MAX_FRAMES_IN_FLIGHT
    decreases |frames|
  {
    if frames != [] {
      FrameIndexCountsCompletedFrames(Frame(c, frames[0]), frames[1..]);
    }
  }

  /** While no frame rebuilds the swap chain, the renderer's index and the chain's slot agree. */
  lemma {:induction false} CountersStayInStep(c: FrameCounters, frames: seq<FrameInput>)
    requires !c.started && CountersValid(c) && c.frameIndex == c.chainFrame
    requires forall k :: 0 <= k < |frames| ==> Completes(frames[k]) && !Recreates(frames[k])
    ensures Run(c, frames).frameIndex == Run(c, frames).chainFrame
    decreases |frames|
  {
    if frames != [] {
      CountersStayInStep(Frame(c, frames[0]), frames[1..]);
    }
  }

  /**
   * A resize noticed at the end of the very first frame leaves the renderer on slot 1 and
   * the fresh chain on slot 0: from then on the command buffer of one slot is recorded
   * while the chain waits on the fence of the other.
   */
  lemma ResizeSeparatesCounters()
    ensures var f := FrameInput(SUCCESS, true, true, true, SUCCESS, true, true);
      Completes(f) && Run(FrameCounters(false, 0, 0), [f]) == FrameCounters(false, 1, 0)
  {
    var f := FrameInput(SUCCESS, true, true, true, SUCCESS, true, true);
    assert [f][1..] == [];
  }

  /** A skipped frame only restarts the chain's counter. */
  lemma SkipKeepsFrameIndex(c: FrameCounters, f: FrameInput)
    requires !c.started && CountersValid(c) && Skips(f)
    ensures Frame(c, f) == c.(chainFrame := 0)
  {
  }

  // ---------------------------------------------------------------- the wait for a usable extent

  predicate NonZero(e: Extent2D)
  {
    e.width != 0 && e.height != 0
  }

  /**
   * Re-reads the window's extent until both dimensions are non-zero; `polls` are the
   * window's successive answers.
   */
  method WaitForExtent(polls: seq<Extent2D>) returns (k: nat, extent: Extent2D)
    requires exists j :: 0 <= j < |polls| && NonZero(polls[j])
    ensures k < |polls| && extent == polls[k] && NonZero(extent)
    ensures forall j :: 0 <= j < k ==> !NonZero(polls[j])
  {
    k := 0;
    extent := polls[0];
    while !NonZero(extent)
      invariant k < |polls| && extent == polls[k]
      invariant forall j :: 0 <= j < k ==> !NonZero(polls[j])
      invariant exists j :: k <= j < |polls| && NonZero(polls[j])
      decreases |polls| - k
    {
      k := k + 1;
      extent := polls[k];
    }
  }

  /** The inputs of one rebuild: the window's extent answers and the driver's report. */
  datatype RecreateInput = RecreateInput(polls: seq<Extent2D>, report: DriverReport)

  /** What a rebuild needs of the window and the driver: some usable extent, some format. */
  predicate RecreateReady(input: RecreateInput)
  {
    (exists j :: 0 <= j < |input.polls| && NonZero(input.polls[j])) && |input.report.support.formats| > 0
  }

  /** Whether a chain built from `report` keeps the colour and depth formats given. */
  function FormatsKept(imageFormat: Format, depthFormat: Format, report: DriverReport): (r: bool)
    ensures r ==> |report.support.formats| > 0 && report.depthFormat == depthFormat
  {
    |report.support.formats| > 0
    && FormatChoice(report.support.formats).format == imageFormat
    && report.depthFormat == depthFormat
  }

  // ---------------------------------------------------------------- the renderer object

  class Renderer {
    const device: Device
    var swapChain: SwapChain?
    var commandBuffers: seq<Handle>
    var currentImageIndex: nat
    var currentFrameIndex: nat
    var isFrameStarted: bool

    /** A valid chain, one command buffer per frame slot, and an acquired image while a frame runs. */
    ghost predicate Valid()
      reads this, swapChain
    {
      && swapChain != null && swapChain.Valid()
      && |commandBuffers| == MAX_FRAMES_IN_FLIGHT
      && currentFrameIndex < MAX_FRAMES_IN_FLIGHT
      && (isFrameStarted ==> currentImageIndex < |swapChain.images|)
    }

    function Counters(): FrameCounters
      reads this, swapChain
      requires swapChain != null
    {
      FrameCounters(isFrameStarted, currentFrameIndex, swapChain.currentFrame)
    }

    /** Builds the first swap chain and the per-slot command buffers. */
    constructor (device: Device, input: RecreateInput)
      requires RecreateReady(input)
      modifies device
      ensures Valid() && this.device == device
      ensures !isFrameStarted && currentFrameIndex == 0
      ensures swapChain.createInfo.oldSwapchain == Null
      ensures swapChain.currentFrame == 0
      ensures |commandBuffers| == MAX_FRAMES_IN_FLIGHT && Null !in commandBuffers
    {
      this.device := device;
      isFrameStarted := false;
      currentFrameIndex := 0;
      commandBuffers := [];
      swapChain := null;
      new;
      var _ := RecreateSwapChain(input);
      CreateCommandBuffers();
    }

    /**
     * Waits for a usable extent, then builds a new chain (replacing the old one, which is
     * handed over as the chain being replaced) and, when there was an old chain, reports
     * whether the formats were kept. The new chain is installed even when they were not.
     */
    method RecreateSwapChain(input: RecreateInput) returns (formatsKept: bool)
      requires RecreateReady(input)
      modifies this`swapChain, device
      ensures swapChain != null && fresh(swapChain) && swapChain.Valid()
      ensures NonZero(swapChain.windowExtent) && swapChain.windowExtent in input.polls
      ensures swapChain.createInfo.oldSwapchain == if old(swapChain) == null then Null else old(swapChain.swapChain)
      ensures swapChain.depthFormat == input.report.depthFormat
      ensures |swapChain.images| == input.report.grantedImageCount
      ensures swapChain.currentFrame == 0
      ensures formatsKept == (old(swapChain) == null || FormatsKept(old(swapChain.imageFormat), old(swapChain.depthFormat), input.report))
      ensures swapChain.imageFormat == FormatChoice(input.report.support.formats).format
      ensures old(swapChain) != null ==>
        (formatsKept <==> swapChain.imageFormat == old(swapChain.imageFormat) && swapChain.depthFormat == old(swapChain.depthFormat))
    {
      var _, extent := WaitForExtent(input.polls);
      if swapChain == null {
        swapChain := new SwapChain(device, extent, null, input.report);
        formatsKept := true;
      } else {
        var oldSwapChain := swapChain;
        swapChain := new SwapChain(device, extent, oldSwapChain, input.report);
        formatsKept := oldSwapChain.CompareSwapFormats(swapChain);
      }
    }

    /** One command buffer per frame slot, not per swap-chain image. */
    method CreateCommandBuffers()
      modifies this`commandBuffers, device
      ensures |commandBuffers| == MAX_FRAMES_IN_FLIGHT && Null !in commandBuffers
    {
      commandBuffers := device.NewHandles(MAX_FRAMES_IN_FLIGHT);
    }

    function IsFrameInProgress(): (r: bool)
      reads this
      ensures r == isFrameStarted
    {
      isFrameStarted
    }

    /** The current slot's command buffer; only while a frame is in progress. */
    function GetCommandBuffer(): (r: Handle)
      reads this, swapChain
      requires Valid() && isFrameStarted
      ensures r == commandBuffers[currentFrameIndex]
    {
      commandBuffers[currentFrameIndex]
    }

    /** The current frame slot; only while a frame is in progress. */
    function GetFrameIndex(): (r: nat)
      reads this, swapChain
      requires Valid() && isFrameStarted
      ensures r == currentFrameIndex && r < MAX_FRAMES_IN_FLIGHT
    {
      currentFrameIndex
    }

    /**
     * Acquires an image. OUT_OF_DATE rebuilds the chain and skips the frame; any result but
     * SUCCESS or SUBOPTIMAL throws; otherwise the frame starts, and the current slot's
     * command buffer is returned once it begins recording.
     */
    method BeginFrame(acquireResult: VkResult, acquiredIndex: nat, beginResult: VkResult, input: RecreateInput)
      returns (outcome: BeginOutcome)
      requires Valid() && !isFrameStarted
      requires AcquireUsable(acquireResult) ==> acquiredIndex < |swapChain.images|
      requires acquireResult == ERROR_OUT_OF_DATE ==> RecreateReady(input)
      modifies this`swapChain, this`currentImageIndex, this`isFrameStarted, device
      ensures Valid()
      ensures Counters() == BeginStep(old(Counters()), acquireResult)
      ensures currentFrameIndex == old(currentFrameIndex) && commandBuffers == old(commandBuffers)
      ensures acquireResult == ERROR_OUT_OF_DATE <==> swapChain != old(swapChain)
      ensures var failure := BeginFailure(acquireResult, beginResult == SUCCESS,
                                          FormatsKept(old(swapChain.imageFormat), old(swapChain.depthFormat), input.report));
        outcome == if failure.Some? then BeginThrew(failure.value)
                   else if acquireResult == ERROR_OUT_OF_DATE then Skipped
                   else Started(commandBuffers[currentFrameIndex])
      ensures AcquireUsable(acquireResult) ==> currentImageIndex == acquiredIndex
    {
      var result, imageIndex, _, _ := swapChain.AcquireNextImage(acquireResult, acquiredIndex);
      currentImageIndex := imageIndex;
      if result == ERROR_OUT_OF_DATE {
        var kept := RecreateSwapChain(input);
        if !kept {
          return BeginThrew(FormatChanged);
        }
        return Skipped;
      }
      if result != SUCCESS && result != SUBOPTIMAL {
        return BeginThrew(AcquireFailed);
      }
      isFrameStarted := true;
      var cmdBuffer := GetCommandBuffer();
      if beginResult != SUCCESS {
        return BeginThrew(BeginRecordingFailed);
      }
      return Started(cmdBuffer);
    }

    /**
     * Ends recording, submits and presents through the swap chain, then rebuilds the chain
     * after OUT_OF_DATE, SUBOPTIMAL or a resize (clearing the window's resize flag), or
     * throws on any other error. Only a call that does not throw ends the frame and moves
     * to the next slot. Once recording has ended, the current slot's command buffer is
     * submitted with the chain's semaphores and fence of that same slot.
     */
    method EndFrame(endResult: VkResult, submitResult: VkResult, presentResult: VkResult, resized: bool, input: RecreateInput)
      returns (outcome: EndOutcome, clearResize: bool, submission: Option<Submission>, presentation: Option<Presentation>)
      requires Valid() && isFrameStarted
      requires endResult == SUCCESS && submitResult == SUCCESS && NeedsRecreate(presentResult, resized) ==> RecreateReady(input)
      modifies this`swapChain, this`currentFrameIndex, this`isFrameStarted, swapChain, device
      ensures swapChain != null && swapChain.Valid() && |commandBuffers| == MAX_FRAMES_IN_FLIGHT
      ensures outcome != EndThrew(FormatChanged) ==> Valid()
      ensures currentImageIndex == old(currentImageIndex) && commandBuffers == old(commandBuffers)
      ensures Counters() == EndStep(old(Counters()), endResult == SUCCESS, submitResult == SUCCESS, presentResult, resized,
                                    FormatsKept(old(swapChain.imageFormat), old(swapChain.depthFormat), input.report))
      ensures var failure := EndFailure(endResult == SUCCESS, submitResult == SUCCESS, presentResult, resized,
                                        FormatsKept(old(swapChain.imageFormat), old(swapChain.depthFormat), input.report));
        outcome == if failure.Some? then EndThrew(failure.value)
                   else Ended(NeedsRecreate(presentResult, resized))
      ensures clearResize <==> endResult == SUCCESS && submitResult == SUCCESS && NeedsRecreate(presentResult, resized)
      ensures clearResize <==> swapChain != old(swapChain)
      ensures endResult == SUCCESS && submitResult == SUCCESS ==>
                old(swapChain).imagesInFlight == old(swapChain.imagesInFlight)[old(currentImageIndex) := old(swapChain.inFlightFences[swapChain.currentFrame])]
      ensures submission == if endResult != SUCCESS then None
                            else Some(Submission(commandBuffers[old(currentFrameIndex)],
                                                 old(swapChain.imageAvailableSemaphores[swapChain.currentFrame]),
                                                 old(swapChain.renderFinishedSemaphores[swapChain.currentFrame]),
                                                 old(swapChain.inFlightFences[swapChain.currentFrame])))
      ensures presentation == if endResult != SUCCESS || submitResult != SUCCESS then None
                              else Some(Presentation(old(swapChain.renderFinishedSemaphores[swapChain.currentFrame]),
                                                     old(swapChain.swapChain), currentImageIndex))
    {
      clearResize, submission, presentation := false, None, None;
      var cmdBuffer := GetCommandBuffer();
      if endResult != SUCCESS {
        return EndThrew(EndRecordingFailed), clearResize, submission, presentation;
      }
      var _, submitted, presented := swapChain.SubmitCommandBuffers(cmdBuffer, currentImageIndex, submitResult, presentResult);
      submission := Some(submitted);
      if presented.SubmitFailed? {
        return EndThrew(QueueSubmitFailed), clearResize, submission, presentation;
      }
      presentation := Some(presented.presentation);
      var result := presented.result;
      if result == ERROR_OUT_OF_DATE || result == SUBOPTIMAL || resized {
        clearResize := true;
        var kept := RecreateSwapChain(input);
        if !kept {
          return EndThrew(FormatChanged), clearResize, submission, presentation;
        }
      } else if result != SUCCESS {
        return EndThrew(PresentFailed), clearResize, submission, presentation;
      }
      isFrameStarted := false;
      currentFrameIndex := (currentFrameIndex + 1) % MAX_FRAMES_IN_FLIGHT;
      outcome := Ended(clearResize);
    }

    /**
     * Begins the swap chain's render pass on the acquired image's framebuffer and sets a
     * viewport and scissor covering the chain's extent; only on the current slot's buffer
     * while a frame is in progress.
     */
    method BeginSwapChainRenderPass(commandBuffer: Handle) returns (r: RenderPassBegin)
      requires Valid() && isFrameStarted && commandBuffer == GetCommandBuffer()
      ensures r.commandBuffer == commandBuffer && r.renderPass == swapChain.renderPass
      ensures r.frameBuffer == swapChain.frameBuffers[currentImageIndex]
      ensures r.renderArea == r.viewport == r.scissor == swapChain.extent
    {
      var extent := swapChain.extent;
      r := RenderPassBegin(commandBuffer, swapChain.renderPass, swapChain.frameBuffers[currentImageIndex], extent, extent, extent);
    }

    /** Ends the render pass recorded on `commandBuffer`, which must be the current slot's. */
    method EndSwapChainRenderPass(commandBuffer: Handle) returns (ended: Handle)
      requires Valid() && isFrameStarted && commandBuffer == GetCommandBuffer()
      ensures ended == commandBuffers[currentFrameIndex]
    {
      ended := commandBuffer;
    }
  }
}
