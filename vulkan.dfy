/**
 * Abstractions of the Vulkan objects and calls that the frame loop of
 * SandboxApp drives. Nothing here talks to a device: results the driver
 * would return are inputs of the operations that use them, and every call
 * into the device becomes an Event appended to a trace.
 */
module Vulkan {

  /** VkExtent2D: a framebuffer size in pixels. */
  datatype Extent = Extent(width: nat, height: nat)

  /** A minimised window reports a zero width or height; no swap chain may be built from such an extent. */
  predicate Degenerate(e: Extent)
  {
    e.width == 0 || e.height == 0
  }

  /**
   * The VkResult codes the frame loop tells apart: VK_SUCCESS,
   * VK_SUBOPTIMAL_KHR, VK_ERROR_OUT_OF_DATE_KHR, and every other code.
   */
  datatype VkResult = Success | Suboptimal | OutOfDate | OtherError

  /**
   * A command-buffer handle: VK_NULL_HANDLE (what std::vector::resize fills
   * in) or a handle handed out by vkAllocateCommandBuffers, identified by the
   * allocation call that produced it and its position in that call.
   */
  datatype CommandBuffer = NullHandle | Handle(batch: nat, slot: nat)

  /** A graphics pipeline, identified by the render pass it was built for. */
  datatype Pipeline = Pipeline(renderPass: nat)

  /** The commands recordCommandBuffer writes into a command buffer. */
  datatype Command =
    | BeginCommandBuffer(buffer: CommandBuffer)
    | BeginRenderPass(renderPass: nat, framebuffer: nat, area: Extent)
    | SetViewport(area: Extent)
    | SetScissor(area: Extent)
    | BindPipeline(renderPass: nat)
    | BindVertexBuffer
    | PushConstants(draw: nat, frame: int)
    | Draw(vertexCount: nat)
    | EndRenderPass
    | EndCommandBuffer(buffer: CommandBuffer)

  /** One call into the window system or the device, in the order the application makes them. */
  datatype Event =
    | LoadModels
    | CreatePipelineLayout
    | WaitEvents
    | DeviceWaitIdle
    | CreateSwapChain(extent: Extent, imageCount: nat, chained: bool)
    | FreeCommandBuffers(count: nat)
    | AllocateCommandBuffers(count: nat)
    | CreatePipeline(renderPass: nat)
    | AcquireNextImage
    | Record(command: Command)
    | SubmitCommandBuffers(buffer: CommandBuffer, imageIndex: nat)

  /** What the frame loop observes of a swap chain. */
  datatype ChainInfo = ChainInfo(extent: Extent, imageCount: nat, renderPass: nat)

  /**
   * VulkanSwapChain, seen from the application: its extent, its image count
   * (chosen by the device when the chain is built) and the identity of the
   * render pass it owns are fixed at construction.
   */
  class SwapChain {
    const extent: Extent
    const imageCount: nat
    const renderPass: nat

    constructor (extent: Extent, imageCount: nat, renderPass: nat)
      ensures Info() == ChainInfo(extent, imageCount, renderPass)
    {
      this.extent := extent;
      this.imageCount := imageCount;
      this.renderPass := renderPass;
    }

    function Info(): ChainInfo
    {
      ChainInfo(extent, imageCount, renderPass)
    }
  }
}
