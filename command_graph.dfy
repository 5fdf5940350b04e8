/**
 * vsg::CommandGraph: a pool of reusable command buffers for one device and queue
 * family, and the tree recorded into them.  record() picks a command buffer no
 * submission depends on (the last such one) or grows the pool by one, counts the
 * new dependent submission, records begin / traversal / end, and hands the buffer
 * to the caller's list.
 *
 * Devices are ids with 0 for a null device.  The traversal of the children is one
 * step of the model; what RenderGraph children record is in the RenderGraph module.
 */
module CommandGraph {
  import opened VkTypes
  import opened Scene
  import Window
  import RG = RenderGraph

  class CommandBuffer {
    const id: nat
    const device: DeviceId
    const queueFamily: int
    var numDependentSubmissions: nat

    constructor (bufferId: nat, bufferDevice: DeviceId, family: int)
      ensures id == bufferId && device == bufferDevice && queueFamily == family
      ensures numDependentSubmissions == 0
    {
      id, device, queueFamily := bufferId, bufferDevice, family;
      numDependentSubmissions := 0;
    }
  }

  /** The part of the RecordTraversal a command graph keeps between frames. */
  datatype RecordTraversal = RecordTraversal(
    maxSlot: nat,
    commandBuffer: CommandBuffer?,
    frameStamp: Option<FrameStamp>,
    databasePager: Option<PagerId>,
    culledPagedLODs: seq<nat>)

  /** What record() issues, in order. */
  datatype RecordStep =
    | BeginCommandBuffer(buffer: CommandBuffer)
    | Traverse(traversal: RecordTraversal)
    | EndCommandBuffer(buffer: CommandBuffer)

  /** A child of a command graph: a scene node, or a RenderGraph. */
  datatype Child = SceneNode(node: Node<CommandGraph>) | RenderGraphChild(renderGraph: RG.RenderGraph<CommandGraph>)

  /** A null Window::device() is device 0. */
  function DeviceOrNull(d: Option<DeviceId>): DeviceId
  {
    if d.Some? then d.value else 0
  }

  /** The command buffer the selection loop of record() settles on: the last one
      with no dependent submissions, or none. */
  function SelectedIndex(bs: seq<CommandBuffer>): (r: Option<nat>)
    reads set b | b in bs
    ensures r.Some? ==> r.value < |bs| && bs[r.value].numDependentSubmissions == 0
    ensures r.Some? ==> forall k :: r.value < k < |bs| ==> bs[k].numDependentSubmissions != 0
    ensures r.None? ==> forall k :: 0 <= k < |bs| ==> bs[k].numDependentSubmissions != 0
  {
    if |bs| == 0 then None
    else if bs[|bs| - 1].numDependentSubmissions == 0 then Some(|bs| - 1)
    else SelectedIndex(bs[..|bs| - 1])
  }

  class CommandGraph {
    var device: DeviceId
    var queueFamily: int
    var presentFamily: int
    var windows: seq<WindowId>
    var commandBuffers: seq<CommandBuffer>
    var maxSlot: nat
    var primary: CommandGraph?
    var recordTraversal: Option<RecordTraversal>
    var children: seq<Child>

    /** CommandGraph(device, family). */
    constructor (graphDevice: DeviceId, family: int)
      ensures device == graphDevice && queueFamily == family && presentFamily == -1
      ensures windows == [] && commandBuffers == [] && maxSlot == 0 && primary == null
      ensures recordTraversal == None && children == []
    {
      device, queueFamily, presentFamily := graphDevice, family, -1;
      windows, commandBuffers, maxSlot, primary := [], [], 0, null;
      recordTraversal, children := None, [];
    }

    /**
     * CommandGraph(window): the window's device and graphics family and one command
     * buffer per window frame, taken from `frameBuffers` (what window->commandBuffer(i)
     * answers).  A null window leaves the defaults.
     */
    constructor FromWindow(window: Window.Window?, graphicsFamily: int, frameBuffers: seq<CommandBuffer>)
      requires window != null ==> |frameBuffers| == |window.frames|
      ensures window != null ==> device == DeviceOrNull(window.device) && queueFamily == graphicsFamily
      ensures window != null ==> commandBuffers == frameBuffers && |commandBuffers| == |window.frames|
      ensures window == null ==> device == 0 && queueFamily == -1 && commandBuffers == []
      ensures presentFamily == -1 && windows == [] && maxSlot == 0 && primary == null
      ensures recordTraversal == None && children == []
    {
      var buffers: seq<CommandBuffer> := [];
      var graphDevice: DeviceId := 0;
      var family := -1;
      if window != null {
        graphDevice := DeviceOrNull(window.device);
        family := graphicsFamily;
        var i := 0;
        while i < |window.frames|
          invariant 0 <= i <= |window.frames|
          invariant buffers == frameBuffers[..i]
        {
          buffers := buffers + [frameBuffers[i]];
          i := i + 1;
        }
      }
      device, queueFamily, presentFamily := graphDevice, family, -1;
      windows, commandBuffers, maxSlot, primary := [], buffers, 0, null;
      recordTraversal, children := None, [];
    }

    /** The traversal record() leaves: created on first use with maxSlot, then reused; the
        frame stamp, pager and command buffer are refreshed, the culled list only with a pager. */
    ghost function NextTraversal(previous: Option<RecordTraversal>, buffer: CommandBuffer, frameStamp: Option<FrameStamp>,
                                 databasePager: Option<PagerId>, pagerCulled: seq<nat>): RecordTraversal
      reads this
    {
      var base := if previous.Some? then previous.value else RecordTraversal(maxSlot, null, None, None, []);
      base.(commandBuffer := buffer, frameStamp := frameStamp, databasePager := databasePager,
            culledPagedLODs := if databasePager.Some? then pagerCulled else base.culledPagedLODs)
    }

    /**
     * record(recordedCommandBuffers, frameStamp, databasePager).  `pagerCulled` is the
     * pager's culledPagedLODs and `newBufferId` names the buffer created when the pool
     * grows.  The pool is kept when it has an idle buffer and grows by exactly one fresh
     * buffer otherwise; the chosen buffer's count rises by one -- from 0, so it is
     * 1 afterwards -- and no other count changes; exactly that buffer is appended to the recorded list; begin, traversal
     * and end are issued in that order.
     */
    method Record(recorded: seq<CommandBuffer>, frameStamp: Option<FrameStamp>, databasePager: Option<PagerId>,
                  pagerCulled: seq<nat>, newBufferId: nat)
      returns (recorded': seq<CommandBuffer>, steps: seq<RecordStep>)
      modifies this`commandBuffers, this`recordTraversal, set b | b in commandBuffers
      ensures |recorded'| == |recorded| + 1 && recorded'[..|recorded|] == recorded
      ensures var selected := recorded'[|recorded|];
        && old(SelectedIndex(commandBuffers)).Some? ==>
             commandBuffers == old(commandBuffers) && selected == old(commandBuffers)[old(SelectedIndex(commandBuffers)).value]
      ensures var selected := recorded'[|recorded|];
        old(SelectedIndex(commandBuffers)).None? ==>
          && commandBuffers == old(commandBuffers) + [selected]
          && fresh(selected) && selected.id == newBufferId
          && selected.device == device && selected.queueFamily == queueFamily
      ensures var selected := recorded'[|recorded|];
        && selected.numDependentSubmissions == 1
        && (forall b :: b in old(commandBuffers) && b != selected ==>
              b.numDependentSubmissions == old(b.numDependentSubmissions))
      ensures var selected := recorded'[|recorded|];
        && recordTraversal == Some(NextTraversal(old(recordTraversal), selected, frameStamp, databasePager, pagerCulled))
        && steps == [BeginCommandBuffer(selected), Traverse(recordTraversal.value), EndCommandBuffer(selected)]
    {
      var traversal := if recordTraversal.Some? then recordTraversal.value
                       else RecordTraversal(maxSlot, null, None, None, []);

      traversal := traversal.(frameStamp := frameStamp, databasePager := databasePager);
      if databasePager.Some? {
        traversal := traversal.(culledPagedLODs := pagerCulled);
      }

      var commandBuffer: CommandBuffer? := null;
      var i := 0;
      while i < |commandBuffers|
        invariant 0 <= i <= |commandBuffers|
        invariant commandBuffer == (match SelectedIndex(commandBuffers[..i])
                                    case Some(k) => commandBuffers[k]
                                    case None => null)
      {
        assert commandBuffers[..i + 1][..i] == commandBuffers[..i];
        if commandBuffers[i].numDependentSubmissions == 0 {
          commandBuffer := commandBuffers[i];
        }
        i := i + 1;
      }
      assert commandBuffers[..i] == commandBuffers;

      if commandBuffer == null {
        var cb := new CommandBuffer(newBufferId, device, queueFamily);
        commandBuffer := cb;
        commandBuffers := commandBuffers + [commandBuffer];
      }

      commandBuffer.numDependentSubmissions := commandBuffer.numDependentSubmissions + 1;

      traversal := traversal.(commandBuffer := commandBuffer);
      recordTraversal := Some(traversal);

      steps := [BeginCommandBuffer(commandBuffer)];
      steps := steps + [Traverse(traversal)];
      steps := steps + [EndCommandBuffer(commandBuffer)];

      recorded' := recorded + [traversal.commandBuffer];
    }
  }

  /**
   * createCommandGraphForView(window, camera, scenegraph): a command graph built from
   * the window whose single child is a RenderGraph for the window and camera, with the
   * scene as its only child, two clear values (colour and depth/stencil) and a render
   * area of offset (0, 0) and the window's extent.
   */
  method CreateCommandGraphForView(window: Window.Window, camera: RG.Camera?, scenegraph: Node<CommandGraph>,
                                   graphicsFamily: int, frameBuffers: seq<CommandBuffer>)
    returns (commandGraph: CommandGraph)
    requires |frameBuffers| == |window.frames|
    ensures fresh(commandGraph)
    ensures commandGraph.device == DeviceOrNull(window.device) && commandGraph.queueFamily == graphicsFamily
    ensures commandGraph.commandBuffers == frameBuffers
    ensures |commandGraph.children| == 1 && commandGraph.children[0].RenderGraphChild?
    ensures var renderGraph := commandGraph.children[0].renderGraph;
      && fresh(renderGraph)
      && renderGraph.children == [scenegraph]
      && renderGraph.camera == camera && renderGraph.window == window
      && renderGraph.renderArea == Rect2D(Offset2D(0, 0), window.extent)
      && renderGraph.clearValueCount == 2
      && renderGraph.previousExtent == Extent2D(RG.INVALID_DIMENSION, RG.INVALID_DIMENSION)
  {
    commandGraph := new CommandGraph.FromWindow(window, graphicsFamily, frameBuffers);

    var renderGraph := new RG.RenderGraph<CommandGraph>();
    renderGraph.children := renderGraph.children + [scenegraph];

    renderGraph.camera := camera;
    renderGraph.window := window;

    renderGraph.renderArea := Rect2D(Offset2D(0, 0), window.extent);

    renderGraph.clearValueCount := 2;

    commandGraph.children := commandGraph.children + [RenderGraphChild(renderGraph)];
  }
}
