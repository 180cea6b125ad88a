/** The application window (SandboxWindow): its framebuffer extent and the resize flag. */
module Window {
  import opened Vulkan

  class SandboxWindow {
    var extent: Extent
    var framebufferSizeChanged: bool

    /** A new window has the requested size and no pending resize. */
    constructor (width: nat, height: nat)
      ensures extent == Extent(width, height) && !framebufferSizeChanged
    {
      extent := Extent(width, height);
      framebufferSizeChanged := false;
    }

    /** The framebuffer extent the window currently reports. */
    function GetExtent(): (r: Extent)
      reads this
      ensures r == extent
    {
      extent
    }

    /** Whether a resize has happened since the flag was last cleared. */
    function WasResized(): (r: bool)
      reads this
      ensures r == framebufferSizeChanged
    {
      framebufferSizeChanged
    }

    method ResetSizeChangedFlag()
      modifies this
      ensures !framebufferSizeChanged && extent == old(extent)
    {
      framebufferSizeChanged := false;
    }

    /**
     * The framebuffer-resize callback: the window takes the new size and
     * remembers that it changed.
     */
    method FramebufferResized(newExtent: Extent)
      modifies this
      ensures extent == newExtent && framebufferSizeChanged
    {
      extent := newExtent;
      framebufferSizeChanged := true;
    }

    /**
     * glfwWaitEvents: blocks until events arrive; after them the framebuffer
     * has extent `delivered`, and a size change went through the resize callback.
     */
    method WaitEvents(delivered: Extent)
      modifies this
      ensures extent == delivered
      ensures framebufferSizeChanged == (old(framebufferSizeChanged) || delivered != old(extent))
    {
      if delivered != extent {
        FramebufferResized(delivered);
      }
    }
  }
}
