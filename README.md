# VulkanSandbox frame loop, modelled in Dafny

This project models the frame-presentation loop of `SandboxApp`. That covers the constructor body, `drawFrame`, `recreateSwapChain`, `createCommandBuffers`, `freeCommandBuffers`, `createPipeline` and `recordCommandBuffer`. It also models the object-id allocator of `SandboxObject`.

Files:

- `vulkan.dfy` (module `Vulkan`): the driver-side vocabulary.
  - Extents.
  - The four result codes the loop distinguishes: success, suboptimal, out-of-date and any other code.
  - Command-buffer handles.
  - The `SwapChain` object, whose image count and render pass are fixed when it is built.
  - The events a call into the device makes, such as `DeviceWaitIdle`, `CreateSwapChain`, or a `Record` of one `vkCmd*` command.
- `window.dfy` (module `Window`): `SandboxWindow`, reduced to its framebuffer extent and its `framebufferSizeChanged` flag.
  - `WaitEvents` stands for `glfwWaitEvents`. The extent after the wait is a parameter, and a change of extent goes through the resize callback, which sets the flag.
- `frame_spec.dfy` (module `FrameSpec`): the value-level specification.
  - An `AppState` holds the window extent and flag, the swap chain, the pipeline, the command-buffer vector, the static frame counter and a trace of the device calls made so far.
  - Each operation is a function from a state, plus the answers of the driver and the window system, to a `Step`: the status it ends with and the new state.
  - The properties of the loop are proved about these functions.
- `sandbox_app.dfy` (module `App`): the class `SandboxApp`. Its fields are updated in place, as the C++ members are.
  - Each method is proved to follow its specification function in `FrameSpec`, through the ghost abstraction `State()`.
  - The degenerate-extent wait is a `while` loop, and the draw loop is a `for` loop.
- `sandbox_object.dfy` (module `Objects`): `SandboxObject` with its default fields, the `id_t` counter of `createSandboxObject` as the class `IdCounter`, and the properties of the ids that successive calls return.
- `wrappers.dfy`: `Option`.

The driver's answers are parameters: the acquire result and image index, whether recording begins and ends, the submit result, the new image count, and whether allocation succeeds. The extents successive `glfwWaitEvents` calls deliver are parameters too. A thrown `std::runtime_error` is the status `Failed(e)`, with one `AppError` per message.

The wait loop of `recreateSwapChain` is given a finite list of future extents. If that list runs out while the window is still degenerate, the model ends with `StillWaiting`, where the program would stay blocked in `glfwWaitEvents`.

## Model

| member | source | states |
|---|---|---|
| App.SandboxApp.constructor | src/SandboxApp.hpp:11-18 | member initialisation opens a 1920x1080 window with no resize pending and nothing Vulkan-side built yet |
| App.SandboxApp.Initialize | src/SandboxApp.cpp:19-25 | the constructor body follows `InitSpec`, and when it returns normally the application is ready to draw |
| FrameSpec.InitSpec | src/SandboxApp.cpp:19-25 | on success the application is ready and the calls are exactly: load models, create the pipeline layout, the event waits, device idle, the first (unchained) swap chain, the pipeline for its render pass, then command-buffer allocation; the layout error is raised iff layout creation fails, and the only other possible error is the allocation one |
| App.SandboxApp.CreateCommandBuffers | src/SandboxApp.cpp:78-90 | follows `CreateCommandBuffersSpec`: the vector is resized to the chain's image count before the allocation, and a failed allocation throws |
| FrameSpec.Resized | src/SandboxApp.cpp:80 | `std::vector::resize`: the length becomes n, the first elements are kept and new slots hold null handles |
| FrameSpec.FreshBuffers | src/SandboxApp.cpp:88 | one successful allocation fills all n slots with real (non-null) handles, no two slots sharing a buffer |
| App.SandboxApp.FreeCommandBuffers | src/SandboxApp.cpp:92-100 | hands every buffer back to the pool (one event carrying the count) and leaves the vector empty |
| App.SandboxApp.CreatePipeline | src/SandboxApp.cpp:61-76 | the pipeline is replaced by one built for the current swap chain's render pass |
| App.SandboxApp.WaitForUsableExtent | src/SandboxApp.cpp:131-136 | the read-then-wait loop ends with exactly the extent and wait count `SettleExtent` predicts, or runs out of events exactly when `SettleExtent` says it is blocked; the window and the trace match `AfterWaits` |
| FrameSpec.FirstUsable | src/SandboxApp.cpp:132 | finds the first extent with non-zero width and height, with every earlier one degenerate; None iff all are degenerate |
| FrameSpec.SettleExtent | src/SandboxApp.cpp:131-136 | the kept extent is never degenerate; no wait happens iff the current extent is usable; otherwise the kept extent is the first usable delivered one, read before the last wait (it needs j+2 waits), and the loop is blocked iff every delivered extent but the last is degenerate |
| App.SandboxApp.RecreateSwapChain | src/SandboxApp.cpp:129-153 | follows `RecreateSpec` |
| App.SandboxApp.RebuildChain | src/SandboxApp.cpp:138-152 | the part after the wait loop follows `RebuildSpec`: device idle, new chain (chained iff one existed), reallocation on a count mismatch, new pipeline |
| FrameSpec.RecreateSpec | src/SandboxApp.cpp:129-153 | the frame counter is unchanged; the only possible error is the allocation one; the new chain is built from the settled non-degenerate extent with the new image count and a new render pass; on success the pipeline is built for that render pass; for an existing chain the buffer count ends equal to the image count, the buffers are left untouched when the counts already matched and are a fresh allocation otherwise; the first chain leaves the buffers alone |
| FrameSpec.RecreateOrder | src/SandboxApp.cpp:131-141 | the recreation's calls come in order: the event waits, one device-idle wait, the new swap chain from the settled extent; nothing after that waits or builds a chain again |
| FrameSpec.RecreateDoesNoFrameWork | src/SandboxApp.cpp:129-153 | a recreation keeps the earlier trace and never acquires, records or submits |
| FrameSpec.RecreateReallocatesOnlyOnMismatch | src/SandboxApp.cpp:144-149 | buffers are freed and allocated during a recreation iff it got past the wait, a chain already existed and the counts differed |
| FrameSpec.NextFrame | src/SandboxApp.cpp:157-158 | `(frame + 1) % 10000` stays in [0, 10000), counts up by one and wraps from 9999 to 0 |
| FrameSpec.FrameAfterCounts | src/SandboxApp.cpp:157-158 | after n recorded frames the static counter holds n mod 10000 |
| FrameSpec.DrawCallsInOrder | src/SandboxApp.cpp:202-217 | the draw loop issues 2n events, push-constants for draw k/2 at each even position and a triangle draw at each odd one |
| FrameSpec.RecordedFrameShape | src/SandboxApp.cpp:160-226 | a recorded frame is 16 commands: begin, render pass on the acquired framebuffer, viewport and scissor from the chain extent, the pipeline bound once at position 4, the model bound once at position 5, four push/draw pairs for i = 0..3 with draws only there, end render pass, end buffer |
| App.SandboxApp.RecordCommandBuffer | src/SandboxApp.cpp:155-226 | follows `RecordSpec`: the counter advances first, a failing begin stops right after it and a failing end after the whole sequence |
| App.SandboxApp.DrawFrame | src/SandboxApp.cpp:102-127 | follows `DrawFrameSpec`, and leaves the application ready to draw whenever it does not throw |
| FrameSpec.DrawFrameSpec | src/SandboxApp.cpp:102-127 | a frame that does not throw leaves a ready state: a usable chain, one buffer per image, a pipeline for the chain's render pass, the counter in range |
| FrameSpec.OutOfDateAcquireSkipsFrame | src/SandboxApp.cpp:105-111 | an out-of-date acquire recreates and returns: nothing recorded or submitted, the counter unchanged, no acquire or submit error, and on success a pipeline for the new render pass |
| FrameSpec.AcquireErrorThrows | src/SandboxApp.cpp:113-114 | any other non-success, non-suboptimal acquire result throws right after the acquire, with nothing else changed |
| FrameSpec.AcquiredImageIsRecordedAndSubmitted | src/SandboxApp.cpp:113-117 | after a successful or suboptimal acquire, the whole frame is recorded into the buffer at the acquired index and exactly that buffer is submitted, before anything else, and the counter advances by one |
| FrameSpec.SubmitResultHandling | src/SandboxApp.cpp:117-126 | a suboptimal or out-of-date submit, or a pending resize, clears the flag and recreates with no submit error; otherwise the chain and buffers are kept, the frame succeeds iff the submit did, and any other result throws the submit error |
| FrameSpec.RecordingFailureIsNotSubmitted | src/SandboxApp.cpp:164-225 | a failing begin or end of recording throws the matching error and nothing is submitted |
| Window.SandboxWindow.constructor | src/SandboxWindow.hpp:12 | a new window has the requested extent and no pending resize |
| Window.SandboxWindow.GetExtent | src/SandboxWindow.hpp:20 | returns the stored extent |
| Window.SandboxWindow.WasResized | src/SandboxWindow.hpp:22 | returns the resize flag |
| Window.SandboxWindow.ResetSizeChangedFlag | src/SandboxWindow.hpp:23 | clears the flag and keeps the extent |
| Window.SandboxWindow.FramebufferResized | src/SandboxWindow.hpp:36 | the resize callback stores the new extent and sets the flag |
| Window.SandboxWindow.WaitEvents | src/SandboxApp.cpp:135 | after the wait the window reports the delivered extent, and the flag is set iff it was set already or the extent changed |
| Objects.SandboxObject.constructor | src/SandboxObject.hpp:49-50 | the new object has the given id, no model, colour (0,0,0,0), translation (0,0), rotation 0 and scale (1,1) |
| Objects.SandboxObject.GetId | src/SandboxObject.hpp:41-43 | returns the id the object was constructed with, which is const |
| Objects.NextId | src/SandboxObject.hpp:29-33 | the post-increment of a 32-bit unsigned counter: one more, or 0 after 2^32-1, never the same value |
| Objects.IdCounter.constructor | src/SandboxObject.hpp:32 | the static counter starts at 0 |
| Objects.IdCounter.CreateSandboxObject | src/SandboxObject.hpp:31-34 | the new object's id is the counter before the call, the counter moves to `NextId` of it, and the object has the default fields |
| Objects.CounterAfter | src/SandboxObject.hpp:32-33 | after n calls the counter holds (start + n) mod 2^32 |
| Objects.IdsIssued | src/SandboxObject.hpp:31-34 | the k-th of n successive calls returns the counter after k calls |
| Objects.IdsDistinct | src/SandboxObject.hpp:29-33 | up to 2^32 successive calls never return the same id twice |
| Objects.IdsIncreasing | src/SandboxObject.hpp:29-33 | until the counter wraps, later calls return strictly larger ids |
| Objects.IdsRepeatAfterWrap | src/SandboxObject.hpp:29-33 | call 2^32+1 returns the same id as the first call |

## Left out

- `run()` is not modelled. It prints the device's push-constant limit, polls events and calls `drawFrame` until the window closes, then waits for the device to go idle. `DrawFrame` and its lemmas cover one iteration, including the precondition that the acquired index names an image of the current chain.
- The destructor, and the pipeline-layout handle itself, are left out because they are bare Vulkan calls.
- Vulkan and GLFW calls are not executed. Each one is an event appended to the trace, and its outcome is a parameter.
- `VulkanSwapChain` internals, including synchronisation, fences and presentation, are left out. A swap chain is only its extent, its image count and an identity for its render pass.
- The swap chain's extent, which recording reads through `getSwapChainExtent()` (src/SandboxApp.cpp:174, 190), is taken to be the extent passed to its constructor. The swap chain's own code is not part of this model and could choose another.
- `glfwWaitEvents` blocking forever is not modelled. The model is given a finite list of future extents and ends with `StillWaiting` when the list runs out.
- The resize callback is only declared, at src/SandboxWindow.hpp:36. It is never defined and never registered, and the window is created non-resizable (src/SandboxWindow.cpp:23). `FramebufferResized` stands in for it, storing the new size and setting the flag, which is the meaning src/SandboxApp.cpp:118-120 relies on.
- The window's extent and its resize flag are treated as inputs from the environment. This snapshot itself never changes them: the extent stays 1920x1080, the wait loop at src/SandboxApp.cpp:132-136 never runs, and `wasResized()` is always false. The model covers every extent and flag the window could report.
- `createPipeline`: shader file reading and pipeline construction are left out, so a pipeline-creation failure is not modelled. The `assert` at line 63 holds where the model calls it, because the swap chain exists by then. The one at line 64 holds because `createPipelineLayout` runs first in the constructor and throws if it fails.
- The `VulkanSwapChain` constructor can throw in the source; that is not modelled, and a recreation that gets past the wait loop always builds its chain.
- `loadSandboxModels` and `Model` vertex upload, binding and drawing are left out. Loading is one event, and drawing is a draw of the triangle's three vertices.
- Push-constant contents are floats, so they are left out. Only the draw index and the frame counter are carried. Clear colours, viewport floats and the `alignas(16)` layout are left out too.
- `Transform2DComponent::mat2` is left out because it is `sin`/`cos` floating-point numerics. Floats are modelled as `real`, and only the default values matter.
- Objects.SandboxObject: copying is deleted and moving is defaulted in the source. Here objects are heap references, so moves are not modelled.
- Objects.IdCounter: the function-local static is modelled as an explicit counter object shared by every call. `id_t` is `unsigned int`, which is assumed to be 32 bits.
- App.SandboxApp.frame: the function-local `static int frame` of `recordCommandBuffer` is a field of the application. That is equivalent while only one `SandboxApp` exists.
- App.SandboxApp.Initialize: a constructor body that may throw is modelled as a method called after member initialisation, so that it can return a status.
- `main.cpp` is left out. It turns an exception from `run()` into `EXIT_FAILURE`. The application is constructed outside the `try` (src/main.cpp:8), so an exception from the constructor body, a `Failed` status of `Initialize`, is not caught there and ends the program through `std::terminate`.

Behaviours of the code worth noting:

- A suboptimal submit result triggers a recreation on its own, with or without a resize notification.
- A submit error other than suboptimal or out-of-date is swallowed when the resize flag is set, because the flag is tested first (src/SandboxApp.cpp:118 before 125). `SubmitResultHandling` states this.
- Each recorded frame issues four draws of the one triangle model, not one draw per scene entity.
- The swap chain is built from the extent read before the last `glfwWaitEvents` of the wait loop, not from a fresh read after it.
