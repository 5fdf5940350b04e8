# VSG frame pipeline: a Dafny model

This project models the bookkeeping at the centre of the VulkanSceneGraph (VSG) frame pipeline and proves properties of that model.

The model covers:

- **`vsg::Viewer`**:
  - windows and the per-device frame cache;
  - frame stamps and events;
  - the bounded swapchain-acquisition retry loop;
  - the phases of `compile()`;
  - how command graphs are grouped into record-and-submit tasks and presentations.
- **`vsg::Window`**:
  - frames and the frame-index history;
  - the semaphore swap on acquire;
  - the sample-count selection;
  - the lazy device, render-pass and swapchain set-up.
- **`vsg::CommandGraph`**: the command-buffer pool and `record()`.
- **`vsg::RenderGraph`**:
  - resize tracking with `previous_extent`;
  - the `UpdatePipeline` visitor;
  - the order in which `accept()` records.
- **`vsg::Geometry`**: compile and dispatch of the cached render implementation.
- **`computeIndexType`**.
- **The `vsg::Array2D` container.**

Vulkan handles (devices, windows, swapchains, image views, render passes) are ids. Semaphores, command buffers, command graphs, render graphs, windows, viewport states and the viewer are Dafny objects. The source changes their fields in place or compares them by identity.

Driver calls and calls into code outside the model are oracles passed as parameters:

- `acquireNextImage`;
- `Window::resize`;
- `pollEvents`;
- `createBufferAndTransferData`;
- the clock;
- the descriptor statistics;
- `computeValueCountIncludingMipmaps`.

Effects such as submissions, pager calls, waits, recorded commands and event dispatch are returned as logs.

Modules, one per source file, plus shared ones:

- `VkTypes` (ids, results, extents, semaphores);
- `Scene` (node kinds, viewport state);
- `Ordering` (the iteration order of `std::map` / `std::set`);
- `Array2D`;
- `BindIndexBuffer`;
- `Geometry`;
- `Window`;
- `RenderGraph`;
- `CommandGraph`;
- Viewer.cpp is split into four modules:
  - `ViewerFrames` (stamps, the acquisition loop, events, the frame cache);
  - `ViewerTasks` (task assignment);
  - `ViewerCompile` (`compile()`);
  - `Viewer` (the class).

The model follows the code where a source comment says otherwise:

- **`acquireNextImage`.** The comment says the `_indices` loop "shifts up" the history. The loop runs upward, so every slot after the first gets the old head. `Window.IndicesAfterAcquire` models the loop as written, and `Window.IndicesAfterAcquireIsNotAShift` shows that the result is not a shift.
- **`RenderGraph::accept`.** The first-sight test compares `previous_extent.width` with the sentinel on both sides of its `||`. The height is never tested. `RenderGraph.FirstSight` keeps the test as written, and `RenderGraph.SentinelHeightIsAResize` shows what follows from it.

## Model

| member | source | states |
|---|---|---|
| Array2D.LinearIndexInBounds | include/vsg/core/Array2D.h:165 | an element (i, j) inside the extent has its index j*width + i below width*height |
| Array2D.LinearIndexInjective | include/vsg/core/Array2D.h:165 | distinct elements with column below the width have distinct indices |
| Array2D.LinearIndexRoundTrip | include/vsg/core/Array2D.h:165 | every buffer index below width*height is the index of element (k mod width, k div width) |
| Array2D.Array2D.constructor | include/vsg/core/Array2D.h:40-43 | the default array has no extent and no buffer, and is empty |
| Array2D.Array2D.WithData | include/vsg/core/Array2D.h:44-52 | the array adopts the given extent, buffer and layout |
| Array2D.Array2D.Allocate | include/vsg/core/Array2D.h:53-56 | the array owns a fresh buffer of width*height values |
| Array2D.Array2D.SizeIsProductOfExtents | include/vsg/core/Array2D.h:113-160 | without mipmaps, size is width*height*depth, valueCount equals size, dataSize is size times the value size, and dimensions is 2 |
| Array2D.Array2D.EmptyVersusZeroSize | include/vsg/core/Array2D.h:113-115 | an empty array has size 0; a 0 x h array with h > 0 has size 0 but is not empty |
| Array2D.Array2D.Set | include/vsg/core/Array2D.h:173-180 | set(i, j, v) makes at(i, j) == v; for i < width every other element inside the extent keeps its value; the buffer changes in that one slot only |
| Array2D.Array2D.SetAt | include/vsg/core/Array2D.h:179 | set(k, v) changes buffer slot k to v and nothing else |
| Array2D.Array2D.Clear | include/vsg/core/Array2D.h:117-123 | width, height and buffer are cleared, the layout is kept, and the array is empty |
| Array2D.Array2D.Assign | include/vsg/core/Array2D.h:125-133 | layout, width, height and buffer are all replaced together |
| Array2D.Array2D.DataRelease | include/vsg/core/Array2D.h:136-143 | the previous buffer is returned and the array is left empty with no buffer |
| Array2D.Array2D.Read | include/vsg/core/Array2D.h:72-100 | the layout is always the one read; without "Data", extent and buffer are unchanged; with "Data", the buffer is reused iff it exists and the old size equals the new size, otherwise a fresh one of the new size is used, the extent is the one read, and the buffer starts with the values read |
| BindIndexBuffer.ComputeIndexType | include/vsg/vk/BindIndexBuffer.h:24-38 | the result is not MAX_ENUM iff the data is present with value size 1, 2 or 4, and then the index size of the type equals the value size (1 gives UINT8_EXT, 2 gives UINT16, 4 gives UINT32) |
| BindIndexBuffer.ComputeIndexTypeOfIndexSize | include/vsg/vk/BindIndexBuffer.h:28-32 | every usable index type is what its own index size selects |
| BindIndexBuffer.ComputeIndexTypeInjective | include/vsg/vk/BindIndexBuffer.h:28-37 | distinct value sizes, one of them valid, select distinct index types |
| Geometry.RenderImplementationShape | src/vsg/nodes/Geometry.cpp:85-140 | the result is empty iff the upload created nothing; otherwise it has length |commands| + 2 with indices (+1 without), begins with BindVertexBuffers of the first |arrays| buffers (all buffers without indices), then with indices BindIndexBuffer of the last buffer, and ends with the commands unchanged and in order |
| Geometry.NoIndexBindWithoutIndices | src/vsg/nodes/Geometry.cpp:117-130 | without indices, any BindIndexBuffer in the render implementation is one of the geometry's own commands |
| Geometry.NonIndexedScenario | src/vsg/nodes/Geometry.cpp:117-140 | three arrays, no indices and one draw give exactly [BindVertexBuffers(all three buffers), Draw] |
| Geometry.IndexedScenario | src/vsg/nodes/Geometry.cpp:91-140 | three arrays, indices and one indexed draw give exactly [BindVertexBuffers(first three), BindIndexBuffer(fourth), DrawIndexed] |
| Geometry.Geometry.constructor | src/vsg/nodes/Geometry.cpp:36-39 | a new geometry has no arrays, indices, commands or render implementation |
| Geometry.Geometry.Compile | src/vsg/nodes/Geometry.cpp:83-141 | a populated cache is left as it is; an empty one becomes RenderImplementation of the current arrays, indices and commands (empty when the upload failed, so a later compile retries); arrays, indices and commands are not modified |
| Geometry.Geometry.Dispatch | src/vsg/nodes/Geometry.cpp:143-149 | every cached command is recorded once, in order, after what was recorded before |
| Geometry.Geometry.CompileIdempotent | src/vsg/nodes/Geometry.cpp:83-141 | two compile() calls with the data unchanged: a populated list, cached or built by the first, is kept by the second; an empty one, left by a failed upload, is retried and becomes what the second upload compiles to |
| Ordering.SortedKeysCorrect | src/vsg/viewer/Viewer.cpp:352-359 | the keys of an ordered map come out strictly ascending and are exactly the inserted keys |
| Ordering.StrictlySortedDistinct | src/vsg/viewer/Viewer.cpp:352-359 | a strictly ascending key list holds no key twice |
| Window.BitAndHasBit | src/vsg/viewer/Window.cpp:107 | a bit is set in a & b exactly when it is set in a and in b |
| Window.HighestPowerOfTwo | src/vsg/viewer/Window.cpp:110 | 1 << floor(log2(x)) is a power of two p with p <= x < 2p |
| Window.HighestPowerOfTwoUnique | src/vsg/viewer/Window.cpp:110 | only one power of two p has p <= x < 2p |
| Window.SelectFramebufferSamples | src/vsg/viewer/Window.cpp:103-121 | the sample count is a single bit; it is 1 when 1 is requested; otherwise it is 1 when colour limits, depth limits and request share no bit, and else the highest shared bit, which all three allow |
| Window.SwapKeepsSemaphores | src/vsg/viewer/Window.cpp:337 | swapping the spare semaphore with one frame's preserves the multiset of all semaphores |
| Window.IndicesAfterAcquire | src/vsg/viewer/Window.cpp:339-346 | the history after an acquire has the same length, the acquired index first and the old head in every later slot |
| Window.IndicesAfterAcquireIsNotAShift | src/vsg/viewer/Window.cpp:339-346 | [a, b, c] with acquired x becomes [x, a, a], which differs from the shift [x, a, b] whenever b != a |
| Window.CreateFrames | src/vsg/viewer/Window.cpp:273-290 | one frame per image view, in order, each with the multisample view or its own view, its framebuffer over the attachments and extent, and a fresh semaphore distinct from the others and from the spare |
| Window.RecordAcquiredIndex | src/vsg/viewer/Window.cpp:339-346 | the upward copy loop followed by the head store yields IndicesAfterAcquire |
| Window.Window.constructor | src/vsg/viewer/Window.cpp:25-31 | a new window has the uint32 sentinel extent, one sample, and no device, swapchain, frames or indices |
| Window.Window.InitFormats | src/vsg/viewer/Window.cpp:103-121 | the framebuffer samples become SelectFramebufferSamples of the request and the device limits |
| Window.Window.InitDevice | src/vsg/viewer/Window.cpp:124-161 | it succeeds iff the traits give a device, or a physical device with two non-negative families was found; it then adopts or creates the device and selects the samples; on failure, where the source throws, nothing changes |
| Window.Window.InitRenderPass | src/vsg/viewer/Window.cpp:163-175 | the device is set up on demand (as _initDevice chooses it) and otherwise kept; on success the render pass uses the chosen sample count; on failure, where the source throws, no field changes |
| Window.Window.BuildSwapchain | src/vsg/viewer/Window.cpp:185-290 | the frames and indices of a previous swapchain are dropped, otherwise kept as a prefix; the extent is the swapchain's; one frame (as CreateFrames makes it) and one index holding the image count are appended per image view; the new frames' semaphores and the spare are fresh; frames and indices stay the same length |
| Window.Window.InitSwapchain | src/vsg/viewer/Window.cpp:177-183 | device and render pass are set up on demand and otherwise kept, then the swapchain is built with everything BuildSwapchain states (handle, extent, views, SwapchainLists, fresh semaphores); it fails exactly where device set-up throws, and then no field changes |
| Window.Window.AcquireFromSwapchain | src/vsg/viewer/Window.cpp:329-353 | a missing spare semaphore is created; the result is returned unchanged; on success the spare and the acquired frame's semaphore swap, no other frame changes, the multiset of semaphores is kept, and the history becomes IndicesAfterAcquire; otherwise frames and history are unchanged (AcquireOutcome) |
| Window.Window.AcquireNextImage | src/vsg/viewer/Window.cpp:325-354 | the swapchain is built on first use, and there is no result, and no change, exactly when that set-up throws; the acquisition then starts from the window's frames, history and spare, or on first use from those buildSwapchain leaves, and has the AcquireOutcome of AcquireFromSwapchain |
| RenderGraph.NeedsRegeneration | src/vsg/viewer/RenderGraph.cpp:36-44 | the scan finds a match iff one of the pipeline states is the context's viewport |
| RenderGraph.UpdateNodes | src/vsg/viewer/RenderGraph.cpp:59-71 | the visitor keeps the number of nodes of a list |
| RenderGraph.UpdateNodeSpec | src/vsg/viewer/RenderGraph.cpp:31-71 | the visitor leaves the tree shape alone, replaces exactly the pipelines that use the viewport by their regenerated form, and compiles exactly those, with state commands visited before children |
| RenderGraph.UpdateNodesSpec | src/vsg/viewer/RenderGraph.cpp:59-71 | the same for a list of nodes visited in order |
| RenderGraph.RegeneratedUseViewport | src/vsg/viewer/RenderGraph.cpp:39-54 | every pipeline the visitor compiles uses the viewport and is compiled for the context |
| RenderGraph.UpdateWithoutViewport | src/vsg/viewer/RenderGraph.cpp:98-117 | without a camera (no viewport in the context) the visitor changes nothing and compiles nothing |
| RenderGraph.UpdateNodesWithoutViewport | src/vsg/viewer/RenderGraph.cpp:98-117 | the same for a list of nodes |
| RenderGraph.UpdateNodeIdempotent | src/vsg/viewer/RenderGraph.cpp:31-71 | a second pass with the same context leaves the tree as the first pass left it |
| RenderGraph.UpdateNodesIdempotent | src/vsg/viewer/RenderGraph.cpp:59-71 | the same for a list of nodes |
| RenderGraph.SentinelHeightIsAResize | src/vsg/viewer/RenderGraph.cpp:85-89 | a sentinel height with a valid width is not a first sight and counts as a resize; a sentinel width is a first sight and never a resize |
| RenderGraph.RecordOrder | src/vsg/viewer/RenderGraph.cpp:123-147 | the recorded list has one event for the camera (if any), begin, one per child and end |
| RenderGraph.RecordOrderConcatenation | src/vsg/viewer/RenderGraph.cpp:123-147 | the record order is projection/view (with a camera), then begin-render-pass, then each child in order, then end-render-pass |
| RenderGraph.RecordOrderShape | src/vsg/viewer/RenderGraph.cpp:123-147 | projection/view comes first, the pass begins before every child, each child is at its own position, the pass ends last, and begin and end occur nowhere else |
| RenderGraph.RenderGraph.constructor | src/vsg/viewer/RenderGraph.cpp:75-77 | a new render graph has no children, camera or window, and previous_extent at the sentinel |
| RenderGraph.RenderGraph.Accept | src/vsg/viewer/RenderGraph.cpp:79-148 | previous_extent becomes the window's extent; on a resize, the children are those UpdatePipeline leaves and the compiled pipelines are those it regenerates; with a camera, viewport, scissor and render area take the new extent and the render area the offset (0, 0); otherwise the children, render area and viewport are unchanged; the events follow RecordOrder with the frame's framebuffer and the current render area |
| CommandGraph.CommandBuffer.constructor | src/vsg/viewer/CommandGraph.cpp:63-64 | a new command buffer is for the graph's device and family and has no dependent submissions |
| CommandGraph.SelectedIndex | src/vsg/viewer/CommandGraph.cpp:53-60 | the selected buffer is the last one with no dependent submissions, and there is none iff every buffer has some |
| CommandGraph.CommandGraph.constructor | src/vsg/viewer/CommandGraph.cpp:22-26 | a graph made from a device and family has no buffers, windows, children or traversal, and maxSlot is 0 |
| CommandGraph.CommandGraph.FromWindow | src/vsg/viewer/CommandGraph.cpp:28-40 | a graph made from a window takes the window's device and graphics family and one command buffer per window frame; a null window leaves the defaults |
| CommandGraph.CommandGraph.Record | src/vsg/viewer/CommandGraph.cpp:42-88 | the pool is kept when it has an idle buffer, and that buffer (SelectedIndex) is used; otherwise the pool grows by exactly one fresh buffer; the chosen buffer's count becomes 1 and no other count changes; exactly that buffer is appended to the recorded list, and earlier entries are kept; the traversal is created with maxSlot only when there was none, and its frame stamp, pager and culled list are refreshed; begin, traversal and end are issued in that order |
| CommandGraph.CreateCommandGraphForView | src/vsg/viewer/CommandGraph.cpp:90-111 | the graph is built from the window and has one child: a fresh render graph with the scene as its only child, the camera and window, render area (0, 0) plus the window extent, and two clear values |
| ViewerFrames.FrameCountsAreConsecutive | src/vsg/viewer/Viewer.cpp:150-151 | the i-th stamp of consecutive frames has the i-th time and count (previous count + 1) + i, or i when there was no previous stamp |
| ViewerFrames.FirstFramesCountFromZero | src/vsg/viewer/Viewer.cpp:133-134 | a viewer that has never stamped a frame numbers its frames 0, 1, 2, ... |
| ViewerFrames.ResizesFrom | src/vsg/viewer/Viewer.cpp:167-186 | the retry loop leaves at the first try that is not out of date, or at 10 tries, and every try before that was out of date |
| ViewerFrames.RoundsCounts | src/vsg/viewer/Viewer.cpp:169-186 | m out-of-date rounds ask for m images and resize m times |
| ViewerFrames.WindowCallCounts | src/vsg/viewer/Viewer.cpp:169-186 | a window is asked for one image more than the number of resizes, and resized once per retry |
| ViewerFrames.RetriesAreBounded | src/vsg/viewer/Viewer.cpp:167-186 | each window is asked for an image at most 11 times and resized at most 10 times, and resized at all iff its first try is out of date |
| ViewerFrames.AcquireWindow | src/vsg/viewer/Viewer.cpp:167-186 | the while loop ends with the try count, result and driver calls that ResizesFrom and WindowCalls give |
| ViewerFrames.AcquireAllSucceedsIff | src/vsg/viewer/Viewer.cpp:165-197 | the acquisition succeeds iff every window's retry loop ends in VK_SUCCESS |
| ViewerFrames.StopsAtFirstFailure | src/vsg/viewer/Viewer.cpp:188 | the windows after the first failing one are never asked, and the result is that window's result |
| ViewerFrames.ResizedIffSomeReachedWindowResized | src/vsg/viewer/Viewer.cpp:185-195 | the frame cache is reassigned iff some window the loop reached was resized |
| ViewerFrames.AcquireWindows | src/vsg/viewer/Viewer.cpp:163-189 | the loop over the windows leaves the result, resize flag and calls of AcquireAll |
| ViewerFrames.PolledEventsAppend | src/vsg/viewer/Viewer.cpp:101-104 | polling two runs of windows appends their events one after the other |
| ViewerFrames.PollWindows | src/vsg/viewer/Viewer.cpp:98-106 | the events are the windows' polled events in window order, and the result is true iff some window reported events |
| ViewerFrames.Dispatches | src/vsg/viewer/Viewer.cpp:202-208 | handling visits |events| * |handlers| event/handler pairs |
| ViewerFrames.DispatchAt | src/vsg/viewer/Viewer.cpp:202-208 | the i-th event reaches the j-th handler at position i*|handlers| + j |
| ViewerFrames.NewDeviceObjects | src/vsg/viewer/Viewer.cpp:52-59 | the entry for a newly seen device has no windows, parallel lists and its render-finished semaphore as its one signal semaphore |
| ViewerFrames.WithWindow | src/vsg/viewer/Viewer.cpp:63-67 | adding a window appends it and keeps the lists parallel and the semaphores unchanged |
| ViewerFrames.Reassigned | src/vsg/viewer/Viewer.cpp:113-123 | after reassignment the lists are parallel to the windows, every image index and command buffer is 0, and windows and semaphores are kept |
| ViewerFrames.ReassignedIdempotent | src/vsg/viewer/Viewer.cpp:111-124 | reassigning again with the same swapchains changes nothing |
| ViewerFrames.ReassignedSwapchains | src/vsg/viewer/Viewer.cpp:118-123 | after reassignment each window is paired with its current swapchain, in window order |
| ViewerFrames.RebuildFrameCache | src/vsg/viewer/Viewer.cpp:113-123 | clearing and rebuilding one device's lists from its windows gives Reassigned |
| ViewerFrames.RebuildFrameCaches | src/vsg/viewer/Viewer.cpp:111-124 | the loop over the device map gives ReassignedMap |
| ViewerTasks.KeyLessIsStrictTotalOrder | src/vsg/viewer/Viewer.cpp:341-348 | the lexicographic (device, queue family, present family) order is a strict total order |
| ViewerTasks.GroupMembers | src/vsg/viewer/Viewer.cpp:352-356 | a group holds exactly the input graphs with its key |
| ViewerTasks.GroupSnoc | src/vsg/viewer/Viewer.cpp:353-356 | one more graph extends only the group of its own key, by that graph |
| ViewerTasks.GroupKeysAreTheDistinctKeysAscending | src/vsg/viewer/Viewer.cpp:352-359 | the groups are visited in strictly ascending key order, without repetition, and their keys are exactly the keys of the input graphs |
| ViewerTasks.NodesSecondariesAppend | src/vsg/viewer/Viewer.cpp:211-229 | the collector over a list of nodes gathers over its parts in order |
| ViewerTasks.NoExecuteCommandsNoSecondaries | src/vsg/viewer/Viewer.cpp:211-229 | a tree with no ExecuteCommands among the visited nodes yields no secondaries |
| ViewerTasks.NoExecuteCommandsInList | src/vsg/viewer/Viewer.cpp:215-218 | the same for a list of trees |
| ViewerTasks.SecondariesImmediatelyBeforePrimary | src/vsg/viewer/Viewer.cpp:378-385 | in the effective list every primary comes right after its secondaries, with the earlier primaries' entries before and the later ones' after |
| ViewerTasks.LastPrimaryOf | src/vsg/viewer/Viewer.cpp:378-382 | a secondary points at a primary that executes it, and at none iff no primary executes it |
| ViewerTasks.LastPrimaryOfAppend | src/vsg/viewer/Viewer.cpp:378-382 | later primaries override the assignment only for the secondaries they execute |
| ViewerTasks.UniqueWindowsAreTheUnionDeduplicated | src/vsg/viewer/Viewer.cpp:365-371 | a task's windows are strictly ascending and are exactly the windows of its graphs |
| ViewerTasks.PresentationsMatchTasks | src/vsg/viewer/Viewer.cpp:362-401 | every presentation is made for a presenting key's task; every presenting key's task gets one, on the present queue, waiting on what the task signals and for the task's windows; without presenting keys there are none |
| ViewerTasks.PointAt | src/vsg/viewer/Viewer.cpp:382 | every collected secondary points at the primary |
| ViewerTasks.CollectEffective | src/vsg/viewer/Viewer.cpp:375-385 | the effective list is each primary preceded by its secondaries, and each secondary ends up pointing at the last primary that executes it |
| ViewerTasks.PresentationsForSnoc | src/vsg/viewer/Viewer.cpp:396-400 | one more task adds its presentation last iff its key has a present family |
| ViewerTasks.GroupAndCollect | src/vsg/viewer/Viewer.cpp:352-384 | the map keys are the group keys in ascending order, each entry is its group, and the windows and collector lists are gathered for each presenting group, without changing anything |
| ViewerTasks.SecondariesPlanned | src/vsg/viewer/Viewer.cpp:377-384 | the collector lists of all groups lie among the secondaries of the presenting primaries, and those of the presenting groups in key order are the lists of the presenting primaries |
| ViewerTasks.TouchedArePresenting | src/vsg/viewer/Viewer.cpp:377-384 | when the groups without a present family collect nothing, every secondary collected for any group is in the lists of the presenting groups |
| ViewerTasks.PlanGroups | src/vsg/viewer/Viewer.cpp:359-384 | for every key: the windows and collector lists of a presenting group, nothing for the others; nothing is changed |
| ViewerTasks.CollectAllWindows | src/vsg/viewer/Viewer.cpp:359-371 | each presenting group gets its unique windows, any other group none |
| ViewerTasks.CollectWindows | src/vsg/viewer/Viewer.cpp:365-371 | inserting the graphs' windows one by one into the ordered set gives UniqueWindows |
| ViewerTasks.PresentingTask | src/vsg/viewer/Viewer.cpp:362-401 | a presenting group's task signals one fresh semaphore and its presentation waits on that same semaphore for the group's windows, on the present queue; the secondaries point at their last primary |
| ViewerTasks.TaskAndPresentation | src/vsg/viewer/Viewer.cpp:359-411 | one loop step: PresentingTask with a present family; without one, a task of the group, no semaphore and no presentation |
| ViewerTasks.BuiltSnocPresenting | src/vsg/viewer/Viewer.cpp:362-401 | a presenting key extends what the loop has built by its task, its presentation, its primaries and its semaphore |
| ViewerTasks.BuiltSnocOther | src/vsg/viewer/Viewer.cpp:403-410 | a key without a present family extends what the loop has built by its task only |
| ViewerTasks.CreateTasks | src/vsg/viewer/Viewer.cpp:359-412 | one task per key in key order, each as planned; presenting tasks signal one fresh semaphore and others none; the presentations are those of the presenting keys; the secondaries of the presenting groups point at their last primary |
| ViewerTasks.AssignTasks | src/vsg/viewer/Viewer.cpp:333-413 | one task per distinct key in ascending order, each TaskFor its key and group; a presentation for each presenting key waiting on the semaphore its task signals; the presenting secondaries point at their last primary, and only the secondaries of presenting primaries are written |
| ViewerCompile.CollectPhaseIsPhase0 | src/vsg/viewer/Viewer.cpp:249-256 | the first loop only collects statistics |
| ViewerCompile.CompilePhaseIsPhase2 | src/vsg/viewer/Viewer.cpp:277-309 | the compile loop only compiles graphs and assigns pager traversals |
| ViewerCompile.StartPhaseIsPhase5 | src/vsg/viewer/Viewer.cpp:324-330 | the last loop only starts pagers |
| ViewerCompile.CompilePhasesInOrder | src/vsg/viewer/Viewer.cpp:233-330 | the phases never interleave: all statistics come before any traversal set-up, then all compiling, then all dispatches, then all waits, then the pager starts |
| ViewerCompile.NoTasksNoCompile | src/vsg/viewer/Viewer.cpp:233-236 | compile() does nothing without tasks |
| ViewerCompile.OneTraversalPerDevice | src/vsg/viewer/Viewer.cpp:247-274 | the devices set up are exactly the devices of the graphs, strictly ascending, so each gets one traversal, one dispatch and one wait |
| ViewerCompile.CollectAll | src/vsg/viewer/Viewer.cpp:247-256 | one statistics collection per graph, in task order, and the map's keys are Devices |
| ViewerCompile.ForEachDevice | src/vsg/viewer/Viewer.cpp:312-321 | a loop over the device map issues one event per device, in key order |
| ViewerCompile.CompileGraphs | src/vsg/viewer/Viewer.cpp:281-297 | every graph of the task is compiled, in order, after its maxSlot is set to its device's maxSlot |
| ViewerCompile.CompileAll | src/vsg/viewer/Viewer.cpp:277-309 | the compile loop over all tasks gives CompilePhase, and every graph's maxSlot is its device's |
| ViewerCompile.CompileTasks | src/vsg/viewer/Viewer.cpp:231-331 | compile() issues CompileLog (nothing without tasks), and every graph's maxSlot is its device's |
| ViewerCompile.FinishAll | src/vsg/viewer/Viewer.cpp:311-330 | the dispatches and the waits are one per device in key order, then the pagers start in task order |
| ViewerCompile.StartAll | src/vsg/viewer/Viewer.cpp:323-330 | the pager of every task that has one starts, in task order |
| Viewer.UpdateCallIsForPagedTask | src/vsg/viewer/Viewer.cpp:415-424 | each pager call of update() is for the pager of one of the tasks |
| Viewer.UpdateCallsArePagedTasks | src/vsg/viewer/Viewer.cpp:415-424 | update() makes at most one call per task, calls the pager of every task that has one, and makes no other call |
| Viewer.Viewer.constructor | src/vsg/viewer/Viewer.cpp:30-33 | a new viewer is open and has no windows, devices, frame stamp, events, tasks or presentations |
| Viewer.Viewer.AddWindow | src/vsg/viewer/Viewer.cpp:44-68 | the window is appended; a newly seen device gets a fresh render-finished semaphore as its one signal semaphore and its queues; the window is appended to its device's entry with placeholders 0 and its swapchain; other devices are unchanged and the lists stay parallel |
| Viewer.Viewer.Active | src/vsg/viewer/Viewer.cpp:70-94 | the result is true iff the viewer is not closed and every window is valid; when it is false, every device is waited on |
| Viewer.Viewer.PollEvents | src/vsg/viewer/Viewer.cpp:96-107 | the events are the previous ones (or none, when discarding) followed by every window's polled events; the result is true iff some window reported events |
| Viewer.Viewer.ReassignFrameCache | src/vsg/viewer/Viewer.cpp:109-125 | the device map becomes ReassignedMap, so every image index is 0 and the lists stay parallel |
| Viewer.Viewer.Advance | src/vsg/viewer/Viewer.cpp:127-138 | the events are re-polled, the next stamp is made and its frame event is appended |
| Viewer.Viewer.AcquireNextFrame | src/vsg/viewer/Viewer.cpp:159-198 | a closed viewer returns false and changes nothing; otherwise the result is true iff AcquireAll succeeds, the calls are AcquireAll's, and the frame cache is reassigned iff a reached window was resized |
| Viewer.Viewer.AdvanceToNextFrame | src/vsg/viewer/Viewer.cpp:140-157 | when not active it returns false and changes nothing; otherwise it re-polls and acquires; a new stamp and frame event appear iff the acquisition succeeds |
| Viewer.Viewer.HandleEvents | src/vsg/viewer/Viewer.cpp:200-209 | every event, in order, is visited by every handler, in order |
| Viewer.Viewer.Compile | src/vsg/viewer/Viewer.cpp:231-331 | the viewer's tasks are compiled as CompileTasks states |
| Viewer.Viewer.AssignRecordAndSubmitTaskAndPresentation | src/vsg/viewer/Viewer.cpp:333-413 | the tasks of AssignTasks are appended after the existing ones and its presentations after the existing presentations; the presenting secondaries point at their last primary, and only the secondaries of presenting primaries are written |
| Viewer.Viewer.Update | src/vsg/viewer/Viewer.cpp:415-424 | the calls are UpdateCalls: each task's pager told the current frame stamp, in task order |
| Viewer.Viewer.RecordAndSubmit | src/vsg/viewer/Viewer.cpp:426-432 | every task is submitted once with the current frame stamp, in order |
| Viewer.Viewer.Present | src/vsg/viewer/Viewer.cpp:434-440 | every presentation is presented once, in order |

## Left out

- Floating point is not modelled:
  - the perspective aspect ratio;
  - the float casts of the viewport extent;
  - clear colours and depth values;
  - projection and view matrices.
  - The `floor(log2(...))` of the sample selection is modelled as the integer highest set bit.
- Concurrency is not modelled. The atomic `fetch_add` on a command buffer's dependent-submission count is a plain increment, and queue wait-idle is an event in a log.
- Vulkan and driver calls are oracles or are omitted, and their effects on the GPU are not modelled. This covers:
  - instance, surface and device creation;
  - swapchain, image, memory and framebuffer creation;
  - `vkBegin/EndCommandBuffer`;
  - `vkCmdBeginRenderPass`;
  - submission;
  - the layout-transition submission at the end of `buildSwapchain`.
- The following are not part of this model. They are parameters or opaque steps:
  - `CollectDescriptorStats`;
  - `CompileTraversal`;
  - `DatabasePager`;
  - `Window::resize`;
  - `Window::valid`;
  - `Window::pollEvents`;
  - `createBufferAndTransferData`;
  - `computeValueCountIncludingMipmaps`.
- The clock is a parameter; `vsg::clock::now()` is not modelled.
- In `compile()`, the following are not modelled:
  - the descriptor-pool creation;
  - the command pool and graphics queue of each compile context;
  - the render pass and viewport the context takes from a secondary's primary;
  - the local `devices` set that the loop fills and never reads.
- The `Viewer` destructor's device wait-idle is not modelled.
- Header accessors such as `width()`, `data()` and `begin()/end()` are not modelled separately. The fields are read directly.
- `Array2D::write`, `Geometry::read/write`, and the field encoding of `Array2D::read` beyond the buffer-reuse rule are not modelled. They are serialization over `Input`/`Output` classes that are not part of this model.
- `Window::clear` is not modelled. It drops the frames and the swapchain but keeps the index history and the spare semaphore, so a later `buildSwapchain` would append a full set of indices to the stale history and frames and indices would differ in length. `Window.Valid()` therefore assumes that a window is never rebuilt after `clear()`.
- `Window::share` is not modelled. It copies another window's instance, device and render pass and is outside the frame bookkeeping.
- Geometry: the index type of the `BindIndexBuffer` that `compile()` creates from buffer data is not modelled, because that constructor is not part of this model. `computeIndexType` is modelled on its own in `BindIndexBuffer`.
- The following files are context and are not part of this model:
  - include/vsg/io/ObjectFactory.h;
  - include/vsg/state/DescriptorImage.h;
  - include/vsg/vk/DescriptorTexelBufferView.h;
  - src/vsg/raytracing/TraceRays.cpp.
- `BindVertexBuffers::create` and `BindIndexBuffer::create` are taken never to return null. The `failure` branches that test their results are therefore never taken.
- Geometry.Geometry.Compile: requires that, with indices, the uploader returns nothing or at least one buffer per array. The source slices the first `arrays.size()` buffers off the answer, and a shorter answer would be undefined behaviour in C++.
- ViewerTasks.GroupAndCollect: gathers every presenting group's windows and collector lists before any `_primary` is assigned. The source gathers them group by group inside the loop. This is equivalent because the collector never reads `_primary`.
- ViewerFrames.RebuildFrameCaches: visits the devices in an unspecified order. Each device's entry is rebuilt independently, so the result is the same for every order, including the ascending order of `std::map`.
- Viewer.Viewer.AssignRecordAndSubmitTaskAndPresentation: does not state that the fresh semaphores of different tasks are distinct. Each is stated to be fresh for its own task.
- Window.Window.InitDevice: models the throw as a `false` result that changes nothing.
- Window.Window.InitRenderPass, Window.Window.InitSwapchain, Window.Window.AcquireNextImage: also model the throw as a `false` result that changes nothing.
- Window.Window.InitRenderPass: does not model the image and depth formats, and the render pass is an id with a sample count.
- Array2D: deleting a buffer has no counterpart. A dropped buffer is simply no longer referenced.
