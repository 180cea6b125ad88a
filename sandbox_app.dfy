/**
 * SandboxApp: the object that owns the window, the swap chain, the pipeline
 * and the command buffers, and drives one frame at a time. Each method
 * updates the fields in place as the C++ members do, appends the calls it
 * makes to the ghost `trace`, and is proved to follow its specification
 * function in module FrameSpec.
 */
module App {
  import opened Wrappers
  import opened Vulkan
  import opened Window
  import opened FrameSpec

  /** SandboxApp::WIDTH and SandboxApp::HEIGHT, the size the window is opened with. */
  const Width: nat := 1920
  const Height: nat := 1080

  class SandboxApp {
    const window: SandboxWindow
    var swapChain: SwapChain?
    var pipeline: Option<Pipeline>
    var commandBuffers: seq<CommandBuffer>
    var allocations: nat
    var chainsCreated: nat
    /** The function-local `static int frame` of recordCommandBuffer. */
    var frame: int
    ghost var trace: seq<Event>

    /** The abstract value of the application, as FrameSpec describes it. */
    ghost function State(): AppState
      reads this, window
    {
      AppState(window.extent, window.framebufferSizeChanged,
               if swapChain == null then None else Some(swapChain.Info()),
               pipeline, commandBuffers, allocations, chainsCreated, frame, trace)
    }

    /** Constructed and between frames. */
    ghost predicate Valid()
      reads this, window
    {
      swapChain != null && Ready(State())
    }

    /** Member initialisation: the window is opened, nothing Vulkan-side exists yet. */
    constructor ()
      ensures fresh(window)
      ensures State() == Unstarted(Extent(Width, Height))
    {
      window := new SandboxWindow(Width, Height);
      swapChain := null;
      pipeline := None;
      commandBuffers := [];
      allocations := 0;
      chainsCreated := 0;
      frame := 0;
      trace := [];
    }

    /**
     * The constructor body, in its order: loadSandboxModels,
     * createPipelineLayout, recreateSwapChain, createCommandBuffers.
     */
    method Initialize(layoutOk: bool, rebuild: Rebuild) returns (status: Status)
      requires swapChain == null && 0 <= frame < FrameWrap
      modifies this, window
      ensures Step(status, State()) == InitSpec(old(State()), layoutOk, rebuild)
      ensures status == Ok ==> Valid()
    {
      trace := trace + [LoadModels, CreatePipelineLayout];
      if !layoutOk {
        return Failed(PipelineLayoutFailed);
      }
      status := RecreateSwapChain(rebuild);
      if status != Ok {
        return;
      }
      status := CreateCommandBuffers(rebuild.allocOk);
    }

    /** Sizes the vector to the chain's image count, then asks the device for that many buffers. */
    method CreateCommandBuffers(allocOk: bool) returns (status: Status)
      requires swapChain != null
      modifies this
      ensures Step(status, State()) == CreateCommandBuffersSpec(old(State()), allocOk)
    {
      var n := swapChain.imageCount;
      commandBuffers := Resized(commandBuffers, n);
      trace := trace + [AllocateCommandBuffers(n)];
      if !allocOk {
        return Failed(CommandBufferAllocationFailed);
      }
      commandBuffers := FreshBuffers(allocations, n);
      allocations := allocations + 1;
      status := Ok;
    }

    /** Hands every command buffer back to the pool and empties the vector. */
    method FreeCommandBuffers()
      modifies this
      ensures State() == FreeCommandBuffersSpec(old(State()))
    {
      trace := trace + [Event.FreeCommandBuffers(|commandBuffers|)];
      commandBuffers := [];
    }

    /** Replaces the pipeline with one built for the current swap chain's render pass. */
    method CreatePipeline()
      requires swapChain != null
      modifies this
      ensures State() == CreatePipelineSpec(old(State()))
    {
      pipeline := Some(Pipeline(swapChain.renderPass));
      trace := trace + [Event.CreatePipeline(swapChain.renderPass)];
    }

    /**
     * The wait loop of recreateSwapChain: reads the window's extent and,
     * while it is degenerate, reads it again and waits for events. Returns
     * the usable extent it read, or None when the events ran out first (the
     * program would stay blocked in glfwWaitEvents).
     */
    method WaitForUsableExtent(pending: seq<Extent>) returns (found: Option<Extent>, waits: nat)
      modifies this, window
      ensures found.None? <==> SettleExtent(old(window.extent), pending).Blocked?
      ensures found.Some? ==> SettleExtent(old(window.extent), pending) == Settled(found.value, waits)
      ensures waits <= |pending|
      ensures found.None? ==> waits == |pending|
      ensures State() == AfterWaits(old(State()), pending, waits)
    {
      ghost var s0 := State();
      var extent := window.GetExtent();
      waits := 0;
      while Degenerate(extent)
        invariant waits <= |pending|
        invariant State() == AfterWaits(s0, pending, waits)
        invariant waits <= 1 ==> extent == s0.windowExtent
        invariant waits >= 2 ==> extent == pending[waits - 2]
        invariant waits >= 1 ==> Degenerate(s0.windowExtent)
        invariant forall j | 0 <= j < waits - 2 :: Degenerate(pending[j])
        decreases |pending| - waits
      {
        extent := window.GetExtent();
        if waits == |pending| {
          // glfwWaitEvents would not return: no further event arrives
          assert SettleExtent(s0.windowExtent, pending).Blocked?;
          return None, waits;
        }
        ghost var before := window.extent;
        window.WaitEvents(pending[waits]);
        trace := trace + [WaitEvents];
        WaitSetsResized(s0.windowExtent, s0.resized, pending, waits, before);
        waits := waits + 1;
      }
      found := Some(extent);
    }

    /**
     * Waits until the window has a usable size, waits for the device to go
     * idle, builds the new swap chain (from the old one when there is one),
     * reallocates the command buffers when their number no longer matches,
     * and rebuilds the pipeline.
     */
    method RecreateSwapChain(rebuild: Rebuild) returns (status: Status)
      modifies this, window
      ensures Step(status, State()) == RecreateSpec(old(State()), rebuild)
    {
      var found, waits := WaitForUsableExtent(rebuild.pending);
      if found.None? {
        return StillWaiting;
      }
      status := RebuildChain(found.value, rebuild);
    }

    /** The rest of recreateSwapChain, once the wait loop has settled on a usable extent. */
    method RebuildChain(extent: Extent, rebuild: Rebuild) returns (status: Status)
      modifies this
      ensures Step(status, State()) == RebuildSpec(old(State()), extent, rebuild)
    {
      trace := trace + [DeviceWaitIdle];

      if swapChain == null {
        swapChain := new SwapChain(extent, rebuild.imageCount, chainsCreated);
        chainsCreated := chainsCreated + 1;
        trace := trace + [CreateSwapChain(extent, rebuild.imageCount, false)];
      } else {
        swapChain := new SwapChain(extent, rebuild.imageCount, chainsCreated);
        chainsCreated := chainsCreated + 1;
        trace := trace + [CreateSwapChain(extent, rebuild.imageCount, true)];
        if |commandBuffers| != swapChain.imageCount {
          FreeCommandBuffers();
          status := CreateCommandBuffers(rebuild.allocOk);
          if status.Failed? {
            return;
          }
        }
      }

      CreatePipeline();
      status := Ok;
    }

    /**
     * Advances the frame counter and records one frame into the command
     * buffer of the acquired image: begin, render pass, viewport, scissor,
     * pipeline, model, four push-constant/draw pairs, end.
     */
    method RecordCommandBuffer(imageIndex: nat, beginOk: bool, endOk: bool) returns (status: Status)
      requires Valid() && imageIndex < |commandBuffers|
      modifies this
      ensures Step(status, State()) == RecordSpec(old(State()), imageIndex, beginOk, endOk)
    {
      frame := NextFrame(frame);
      var buffer := commandBuffers[imageIndex];
      trace := trace + [Record(BeginCommandBuffer(buffer))];
      if !beginOk {
        return Failed(BeginRecordingFailed);
      }
      var area := swapChain.extent;
      trace := trace + [ Record(BeginRenderPass(swapChain.renderPass, imageIndex, area)),
                         Record(SetViewport(area)),
                         Record(SetScissor(area)),
                         Record(BindPipeline(pipeline.value.renderPass)),
                         Record(BindVertexBuffer) ];
      ghost var beforeDraws := trace;
      for i := 0 to DrawsPerFrame
        invariant trace == beforeDraws + DrawCalls(frame, i)
      {
        trace := trace + [Record(PushConstants(i, frame)), Record(Draw(TriangleVertexCount))];
      }
      trace := trace + [Record(EndRenderPass), Record(EndCommandBuffer(buffer))];
      status := if endOk then Ok else Failed(EndRecordingFailed);
    }

    /**
     * One frame: acquire an image, record and submit its command buffer,
     * and recreate the swap chain when the driver or the window asks for it.
     */
    method DrawFrame(f: FrameInputs) returns (status: Status)
      requires Valid()
      requires Acquired(f.acquire) ==> f.imageIndex < swapChain.imageCount
      modifies this, window
      ensures Step(status, State()) == DrawFrameSpec(old(State()), f)
      ensures !status.Failed? ==> Valid()
    {
      trace := trace + [AcquireNextImage];
      var result := f.acquire;
      if result == OutOfDate {
        status := RecreateSwapChain(f.rebuild);
        return;
      }
      if result != Success && result != Suboptimal {
        return Failed(AcquireFailed);
      }
      status := RecordCommandBuffer(f.imageIndex, f.beginOk, f.endOk);
      if status.Failed? {
        return;
      }
      trace := trace + [SubmitCommandBuffers(commandBuffers[f.imageIndex], f.imageIndex)];
      result := f.submit;
      if result == Suboptimal || result == OutOfDate || window.WasResized() {
        window.ResetSizeChangedFlag();
        status := RecreateSwapChain(f.rebuild);
        return;
      }
      if result != Success {
        return Failed(SubmitFailed);
      }
      status := Ok;
    }
  }

  /**
   * One more wait keeps the resize flag equal to "it was set, or some
   * delivered extent differs from the one the wait loop started with".
   */
  lemma WaitSetsResized(start: Extent, flag: bool, pending: seq<Extent>, k: nat, before: Extent)
    requires k < |pending|
    requires before == if k == 0 then start else pending[k - 1]
    ensures (flag || (exists j | 0 <= j < k :: pending[j] != start) || pending[k] != before)
        == (flag || exists j | 0 <= j < k + 1 :: pending[j] != start)
  {
    if pending[k] != start {
      assert exists j | 0 <= j < k + 1 :: pending[j] != start;
    }
    if k > 0 && pending[k - 1] != start {
      assert exists j | 0 <= j < k :: pending[j] != start;
    }
  }
}
