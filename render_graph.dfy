/**
 * vsg::RenderGraph: the render pass of one window and camera.  accept() tracks
 * the window extent it last saw; when the extent changes it resizes the camera's
 * viewport and the render area and lets the UpdatePipeline visitor replace every
 * graphics pipeline that uses that viewport.  It then records begin-render-pass,
 * its children in order, and end-render-pass.
 *
 * Recording is modelled by the list of RecordEvents accept() issues.  The
 * projection and view matrices and the perspective aspect ratio are floating
 * point and are not part of this model.
 */
module RenderGraph {
  import opened VkTypes
  import opened Scene
  import Window

  /** The part of UpdatePipeline's Context the visitor uses. */
  datatype UpdateContext = UpdateContext(device: Option<DeviceId>, renderPass: Option<Window.RenderPass>,
                                         viewport: Option<ViewportState>)

  /** A pipeline needs regenerating when one of its pipeline states is the context's viewport
      (compared by identity; a missing viewport matches nothing). */
  predicate UsesViewport(p: GraphicsPipeline, viewport: Option<ViewportState>)
  {
    viewport.Some? && ViewportStateRef(viewport.value) in p.pipelineStates
  }

  /** The scan over the pipeline states in apply(BindGraphicsPipeline&). */
  method NeedsRegeneration(p: GraphicsPipeline, viewport: Option<ViewportState>) returns (need: bool)
    ensures need <==> UsesViewport(p, viewport)
  {
    need := false;
    var k := 0;
    while k < |p.pipelineStates|
      invariant 0 <= k <= |p.pipelineStates|
      invariant forall i :: 0 <= i < k ==> !(viewport.Some? && p.pipelineStates[i] == ViewportStateRef(viewport.value))
    {
      if viewport.Some? && p.pipelineStates[k] == ViewportStateRef(viewport.value) {
        need := true;
        break;
      }
      k := k + 1;
    }
  }

  /** The replacement pipeline: the same layout, shader stages, pipeline states and
      subpass, compiled for the context's device and render pass. */
  function Regenerate(p: GraphicsPipeline, ctx: UpdateContext): (q: GraphicsPipeline)
    ensures q.layout == p.layout && q.shaderStages == p.shaderStages
    ensures q.pipelineStates == p.pipelineStates && q.subpass == p.subpass
    ensures q.compiled == Some(CompileContext(ctx.device, ctx.renderPass))
  {
    GraphicsPipeline(p.layout, p.shaderStages, p.pipelineStates, p.subpass,
                     Some(CompileContext(ctx.device, ctx.renderPass)))
  }

  /** A visited node after the visitor, and the pipelines it compiled, in order. */
  datatype Updated<G> = Updated(node: Node<G>, regenerated: seq<GraphicsPipeline>)
  datatype UpdatedSeq<G> = UpdatedSeq(nodes: seq<Node<G>>, regenerated: seq<GraphicsPipeline>)

  /**
   * The UpdatePipeline visitor on one node: a bind-pipeline node with a pipeline
   * that uses the viewport gets the regenerated pipeline; a StateGroup visits its
   * state commands, then its children; any other group visits its children; every
   * other node is left as it is.
   */
  function UpdateNode<G>(n: Node<G>, ctx: UpdateContext): Updated<G>
    decreases n
  {
    match n
    case BindGraphicsPipeline(pipeline) =>
      if pipeline.Some? && UsesViewport(pipeline.value, ctx.viewport) then
        var q := Regenerate(pipeline.value, ctx);
        Updated(BindGraphicsPipeline(Some(q)), [q])
      else
        Updated(n, [])
    case Group(children) =>
      var u := UpdateNodes(children, ctx);
      Updated(Group(u.nodes), u.regenerated)
    case StateGroup(stateCommands, children) =>
      var s := UpdateNodes(stateCommands, ctx);
      var c := UpdateNodes(children, ctx);
      Updated(StateGroup(s.nodes, c.nodes), s.regenerated + c.regenerated)
    case ExecuteCommands(_) => Updated(n, [])
    case OtherCommand(_) => Updated(n, [])
    case Leaf(_) => Updated(n, [])
  }

  /** The visitor over a list of nodes, in order. */
  function UpdateNodes<G>(ns: seq<Node<G>>, ctx: UpdateContext): (r: UpdatedSeq<G>)
    ensures |r.nodes| == |ns|
    decreases ns
  {
    if |ns| == 0 then UpdatedSeq([], [])
    else
      var h := UpdateNode(ns[0], ctx);
      var t := UpdateNodes(ns[1..], ctx);
      UpdatedSeq([h.node] + t.nodes, h.regenerated + t.regenerated)
  }

  /** The bind-pipeline slots of a tree in the visitor's order (state commands before children). */
  function Pipelines<G>(n: Node<G>): seq<Option<GraphicsPipeline>>
    decreases n
  {
    match n
    case BindGraphicsPipeline(pipeline) => [pipeline]
    case Group(children) => PipelinesOf(children)
    case StateGroup(stateCommands, children) => PipelinesOf(stateCommands) + PipelinesOf(children)
    case ExecuteCommands(_) => []
    case OtherCommand(_) => []
    case Leaf(_) => []
  }

  function PipelinesOf<G>(ns: seq<Node<G>>): seq<Option<GraphicsPipeline>>
    decreases ns
  {
    if |ns| == 0 then [] else Pipelines(ns[0]) + PipelinesOf(ns[1..])
  }

  /** The tree with every pipeline slot emptied: what the visitor must not change. */
  function Skeleton<G>(n: Node<G>): Node<G>
    decreases n
  {
    match n
    case BindGraphicsPipeline(_) => BindGraphicsPipeline(None)
    case Group(children) => Group(SkeletonOf(children))
    case StateGroup(stateCommands, children) => StateGroup(SkeletonOf(stateCommands), SkeletonOf(children))
    case ExecuteCommands(_) => n
    case OtherCommand(_) => n
    case Leaf(_) => n
  }

  function SkeletonOf<G>(ns: seq<Node<G>>): (r: seq<Node<G>>)
    ensures |r| == |ns|
    decreases ns
  {
    if |ns| == 0 then [] else [Skeleton(ns[0])] + SkeletonOf(ns[1..])
  }

  /** One slot as the visitor leaves it: replaced iff it holds a pipeline that uses the viewport. */
  function RewriteSlot(o: Option<GraphicsPipeline>, ctx: UpdateContext): Option<GraphicsPipeline>
  {
    if o.Some? && UsesViewport(o.value, ctx.viewport) then Some(Regenerate(o.value, ctx)) else o
  }

  function RewriteSlots(ps: seq<Option<GraphicsPipeline>>, ctx: UpdateContext): (r: seq<Option<GraphicsPipeline>>)
    ensures |r| == |ps|
    ensures forall k :: 0 <= k < |ps| ==> r[k] == RewriteSlot(ps[k], ctx)
  {
    if |ps| == 0 then [] else [RewriteSlot(ps[0], ctx)] + RewriteSlots(ps[1..], ctx)
  }

  /** The pipelines the visitor compiles, in slot order: the regenerated ones. */
  function RegeneratedSlots(ps: seq<Option<GraphicsPipeline>>, ctx: UpdateContext): seq<GraphicsPipeline>
  {
    if |ps| == 0 then []
    else
      (if ps[0].Some? && UsesViewport(ps[0].value, ctx.viewport) then [Regenerate(ps[0].value, ctx)] else [])
        + RegeneratedSlots(ps[1..], ctx)
  }

  lemma {:induction false} RegeneratedSlotsAppend(a: seq<Option<GraphicsPipeline>>, b: seq<Option<GraphicsPipeline>>,
                                                  ctx: UpdateContext)
    ensures RegeneratedSlots(a + b, ctx) == RegeneratedSlots(a, ctx) + RegeneratedSlots(b, ctx)
  {
    if |a| > 0 {
      assert (a + b)[1..] == a[1..] + b;
      RegeneratedSlotsAppend(a[1..], b, ctx);
    } else {
      assert a + b == b;
    }
  }

  lemma RewriteSlotsAppend(a: seq<Option<GraphicsPipeline>>, b: seq<Option<GraphicsPipeline>>, ctx: UpdateContext)
    ensures RewriteSlots(a + b, ctx) == RewriteSlots(a, ctx) + RewriteSlots(b, ctx)
  {
    var l := RewriteSlots(a + b, ctx);
    var r := RewriteSlots(a, ctx) + RewriteSlots(b, ctx);
    assert |l| == |r|;
    forall k | 0 <= k < |l|
      ensures l[k] == r[k]
    {
      if k < |a| {
        assert (a + b)[k] == a[k];
      } else {
        assert (a + b)[k] == b[k - |a|];
      }
    }
  }

  /**
   * The visitor leaves the tree's structure alone, replaces exactly the pipelines that
   * use the viewport (each by its regenerated form), and compiles exactly those, in
   * visiting order.
   */
  lemma {:induction false} UpdateNodeSpec<G>(n: Node<G>, ctx: UpdateContext)
    ensures Skeleton(UpdateNode(n, ctx).node) == Skeleton(n)
    ensures Pipelines(UpdateNode(n, ctx).node) == RewriteSlots(Pipelines(n), ctx)
    ensures UpdateNode(n, ctx).regenerated == RegeneratedSlots(Pipelines(n), ctx)
    decreases n
  {
    match n
    case BindGraphicsPipeline(pipeline) =>
    case Group(children) =>
      UpdateNodesSpec(children, ctx);
    case StateGroup(stateCommands, children) =>
      UpdateNodesSpec(stateCommands, ctx);
      UpdateNodesSpec(children, ctx);
      RewriteSlotsAppend(PipelinesOf(stateCommands), PipelinesOf(children), ctx);
      RegeneratedSlotsAppend(PipelinesOf(stateCommands), PipelinesOf(children), ctx);
    case ExecuteCommands(_) =>
    case OtherCommand(_) =>
    case Leaf(_) =>
  }

  lemma {:induction false} UpdateNodesSpec<G>(ns: seq<Node<G>>, ctx: UpdateContext)
    ensures SkeletonOf(UpdateNodes(ns, ctx).nodes) == SkeletonOf(ns)
    ensures PipelinesOf(UpdateNodes(ns, ctx).nodes) == RewriteSlots(PipelinesOf(ns), ctx)
    ensures UpdateNodes(ns, ctx).regenerated == RegeneratedSlots(PipelinesOf(ns), ctx)
    decreases ns
  {
    if |ns| > 0 {
      var r := UpdateNodes(ns, ctx);
      UpdateNodeSpec(ns[0], ctx);
      UpdateNodesSpec(ns[1..], ctx);
      assert r.nodes[0] == UpdateNode(ns[0], ctx).node;
      assert r.nodes[1..] == UpdateNodes(ns[1..], ctx).nodes;
      RewriteSlotsAppend(Pipelines(ns[0]), PipelinesOf(ns[1..]), ctx);
      RegeneratedSlotsAppend(Pipelines(ns[0]), PipelinesOf(ns[1..]), ctx);
    }
  }

  /** Every pipeline the visitor compiles uses the viewport and is compiled for the context. */
  lemma {:induction false} RegeneratedUseViewport(ps: seq<Option<GraphicsPipeline>>, ctx: UpdateContext)
    ensures forall q :: q in RegeneratedSlots(ps, ctx) ==>
      UsesViewport(q, ctx.viewport) && q.compiled == Some(CompileContext(ctx.device, ctx.renderPass))
  {
    if |ps| > 0 {
      RegeneratedUseViewport(ps[1..], ctx);
    }
  }

  /** Without a viewport (no camera) the visitor changes nothing and compiles nothing. */
  lemma {:induction false} UpdateWithoutViewport<G>(n: Node<G>, ctx: UpdateContext)
    requires ctx.viewport.None?
    ensures UpdateNode(n, ctx) == Updated(n, [])
    decreases n
  {
    match n
    case BindGraphicsPipeline(_) =>
    case Group(children) =>
      UpdateNodesWithoutViewport(children, ctx);
    case StateGroup(stateCommands, children) =>
      UpdateNodesWithoutViewport(stateCommands, ctx);
      UpdateNodesWithoutViewport(children, ctx);
    case ExecuteCommands(_) =>
    case OtherCommand(_) =>
    case Leaf(_) =>
  }

  lemma {:induction false} UpdateNodesWithoutViewport<G>(ns: seq<Node<G>>, ctx: UpdateContext)
    requires ctx.viewport.None?
    ensures UpdateNodes(ns, ctx) == UpdatedSeq(ns, [])
    decreases ns
  {
    if |ns| > 0 {
      UpdateWithoutViewport(ns[0], ctx);
      UpdateNodesWithoutViewport(ns[1..], ctx);
      assert [ns[0]] + ns[1..] == ns;
    }
  }

  /** A second pass with the same context leaves the tree as the first pass left it. */
  lemma {:induction false} UpdateNodeIdempotent<G>(n: Node<G>, ctx: UpdateContext)
    ensures UpdateNode(UpdateNode(n, ctx).node, ctx).node == UpdateNode(n, ctx).node
    decreases n
  {
    match n
    case BindGraphicsPipeline(_) =>
    case Group(children) =>
      UpdateNodesIdempotent(children, ctx);
    case StateGroup(stateCommands, children) =>
      UpdateNodesIdempotent(stateCommands, ctx);
      UpdateNodesIdempotent(children, ctx);
    case ExecuteCommands(_) =>
    case OtherCommand(_) =>
    case Leaf(_) =>
  }

  lemma {:induction false} UpdateNodesIdempotent<G>(ns: seq<Node<G>>, ctx: UpdateContext)
    ensures UpdateNodes(UpdateNodes(ns, ctx).nodes, ctx).nodes == UpdateNodes(ns, ctx).nodes
    decreases ns
  {
    if |ns| > 0 {
      var once := UpdateNodes(ns, ctx).nodes;
      UpdateNodeIdempotent(ns[0], ctx);
      UpdateNodesIdempotent(ns[1..], ctx);
      assert once[0] == UpdateNode(ns[0], ctx).node;
      assert once[1..] == UpdateNodes(ns[1..], ctx).nodes;
    }
  }

  /** The sentinel of previous_extent before the first accept(). */
  const INVALID_DIMENSION: nat := UINT32_MAX

  /**
   * The first-sight test of accept(): as written it compares the width with the
   * sentinel on both sides of its `||`, so the height is never tested.
   */
  predicate FirstSight(previous: Extent2D)
  {
    previous.width == INVALID_DIMENSION || previous.width == INVALID_DIMENSION
  }

  /** accept() treats the window as resized when it is not the first sight and an extent differs. */
  predicate Resized(previous: Extent2D, extent: Extent2D)
  {
    !FirstSight(previous) && (previous.width != extent.width || previous.height != extent.height)
  }

  /** A sentinel height alone does not count as a first sight: it is a resize. */
  lemma SentinelHeightIsAResize(w: nat, h: nat)
    requires w != INVALID_DIMENSION && h != INVALID_DIMENSION
    ensures !FirstSight(Extent2D(w, INVALID_DIMENSION))
    ensures Resized(Extent2D(w, INVALID_DIMENSION), Extent2D(w, h))
    ensures FirstSight(Extent2D(INVALID_DIMENSION, h)) && !Resized(Extent2D(INVALID_DIMENSION, h), Extent2D(w, h))
  {
  }

  class Camera {
    const id: nat
    const viewportState: ViewportState

    constructor (cameraId: nat, viewport: ViewportState)
      ensures id == cameraId && viewportState == viewport
    {
      id, viewportState := cameraId, viewport;
    }
  }

  /** What accept() records into the command buffer. */
  datatype RecordEvent =
    | SetProjectionAndView(camera: nat)
    | BeginRenderPass(renderPass: Option<Window.RenderPass>, framebuffer: Window.Framebuffer,
                      renderArea: Rect2D, clearValueCount: nat)
    | RecordChild(index: nat)
    | EndRenderPass

  function ChildRecords(n: nat): (r: seq<RecordEvent>)
    ensures |r| == n && forall i :: 0 <= i < n ==> r[i] == RecordChild(i)
  {
    seq(n, i requires 0 <= i < n => RecordChild(i))
  }

  /** Event k of the record order of accept(): projection and view (with a camera), begin, the
      children in order, end. */
  function RecordEventAt(camera: Option<nat>, begin: RecordEvent, childCount: nat, k: nat): RecordEvent
  {
    var b := if camera.Some? then 1 else 0;
    if k < b then SetProjectionAndView(camera.value)
    else if k == b then begin
    else if k < b + childCount + 1 then RecordChild(k - b - 1)
    else EndRenderPass
  }

  /** The record order of accept(), event by event. */
  function RecordOrder(camera: Option<nat>, begin: RecordEvent, childCount: nat): (r: seq<RecordEvent>)
    ensures |r| == (if camera.Some? then 1 else 0) + childCount + 2
  {
    seq((if camera.Some? then 1 else 0) + childCount + 2, k requires k >= 0 => RecordEventAt(camera, begin, childCount, k))
  }

  /** The record order is what accept() appends: the projection and view with a camera, the
      begin, one record per child in order, then the end. */
  lemma RecordOrderConcatenation(camera: Option<nat>, begin: RecordEvent, childCount: nat)
    ensures RecordOrder(camera, begin, childCount)
      == (if camera.Some? then [SetProjectionAndView(camera.value)] else []) + [begin] + ChildRecords(childCount) + [EndRenderPass]
  {
    var head := if camera.Some? then [SetProjectionAndView(camera.value)] else [];
    var pre := head + [begin];
    var mid := pre + ChildRecords(childCount);
    var r := RecordOrder(camera, begin, childCount);
    forall k | 0 <= k < |r| ensures r[k] == (mid + [EndRenderPass])[k] {
      if k < |mid| {
        assert (mid + [EndRenderPass])[k] == mid[k];
        if k < |pre| {
          assert mid[k] == pre[k];
        } else {
          assert mid[k] == ChildRecords(childCount)[k - |pre|];
        }
      }
    }
  }

  /** In that order the projection and view come first, the render pass begins before every
      child, each child is recorded once in position, and the pass ends last; the pass begins
      nowhere else and ends nowhere else. */
  lemma RecordOrderShape(camera: Option<nat>, begin: RecordEvent, childCount: nat)
    requires begin.BeginRenderPass?
    ensures var r := RecordOrder(camera, begin, childCount);
      var b := if camera.Some? then 1 else 0;
      && (camera.Some? ==> r[0] == SetProjectionAndView(camera.value))
      && r[b] == begin
      && |r| == b + childCount + 2
      && (forall k :: b < k < |r| - 1 ==> r[k] == RecordChild(k - b - 1))
      && r[|r| - 1] == EndRenderPass
      && (forall k :: 0 <= k < |r| && r[k].BeginRenderPass? ==> k == b)
      && (forall k :: 0 <= k < |r| && r[k].EndRenderPass? ==> k == |r| - 1)
  {
    RecordOrderEnds(camera, begin, childCount);
    RecordOrderBeginsOnce(camera, begin, childCount);
    RecordOrderEndsOnce(camera, begin, childCount);
  }

  lemma RecordOrderEnds(camera: Option<nat>, begin: RecordEvent, childCount: nat)
    ensures var r := RecordOrder(camera, begin, childCount);
      var b := if camera.Some? then 1 else 0;
      && (camera.Some? ==> r[0] == SetProjectionAndView(camera.value))
      && r[b] == begin
      && r[|r| - 1] == EndRenderPass
      && forall k :: b < k < |r| - 1 ==> r[k] == RecordChild(k - b - 1)
  {
  }

  lemma RecordOrderBeginsOnce(camera: Option<nat>, begin: RecordEvent, childCount: nat)
    ensures var r := RecordOrder(camera, begin, childCount);
      var b := if camera.Some? then 1 else 0;
      forall k :: 0 <= k < |r| && r[k].BeginRenderPass? ==> k == b
  {
  }

  lemma RecordOrderEndsOnce(camera: Option<nat>, begin: RecordEvent, childCount: nat)
    requires begin.BeginRenderPass?
    ensures var r := RecordOrder(camera, begin, childCount);
      forall k :: 0 <= k < |r| && r[k].EndRenderPass? ==> k == |r| - 1
  {
  }

  class RenderGraph<G> {
    var children: seq<Node<G>>
    var camera: Camera?
    var window: Window.Window?
    var renderArea: Rect2D
    var clearValueCount: nat
    var previousExtent: Extent2D

    /** RenderGraph(): no children, camera or window; previous_extent at the sentinel. */
    constructor ()
      ensures children == [] && camera == null && window == null
      ensures renderArea == Rect2D(Offset2D(0, 0), Extent2D(0, 0)) && clearValueCount == 0
      ensures previousExtent == Extent2D(INVALID_DIMENSION, INVALID_DIMENSION)
    {
      children, camera, window := [], null, null;
      renderArea := Rect2D(Offset2D(0, 0), Extent2D(0, 0));
      clearValueCount := 0;
      previousExtent := Extent2D(INVALID_DIMENSION, INVALID_DIMENSION);
    }

    /**
     * accept(recordTraversal) for the window's frame `nextImageIndex`.  On first sight
     * it only remembers the extent.  On a resize it writes the new extent into the
     * camera's viewport and scissor and into the render area (offset (0, 0)), runs
     * UpdatePipeline over the children, and remembers the extent.  It then records in
     * RecordOrder; `regenerated` lists the pipelines UpdatePipeline compiled.
     */
    method Accept(nextImageIndex: nat) returns (events: seq<RecordEvent>, regenerated: seq<GraphicsPipeline>)
      requires window != null && nextImageIndex < |window.frames|
      modifies this`previousExtent, this`renderArea, this`children
      modifies if camera != null then {camera.viewportState} else {}
      ensures previousExtent == window.extent
      ensures var ctx := UpdateContext(window.device, window.renderPass,
                                       if camera != null then Some(camera.viewportState) else None);
        if Resized(old(previousExtent), window.extent) then
          && children == UpdateNodes(old(children), ctx).nodes
          && regenerated == UpdateNodes(old(children), ctx).regenerated
        else
          children == old(children) && regenerated == []
      ensures Resized(old(previousExtent), window.extent) && camera != null ==>
        && renderArea == Rect2D(Offset2D(0, 0), window.extent)
        && camera.viewportState.width == window.extent.width
        && camera.viewportState.height == window.extent.height
        && camera.viewportState.scissorExtent == window.extent
      ensures !(Resized(old(previousExtent), window.extent) && camera != null) ==> renderArea == old(renderArea)
      ensures !Resized(old(previousExtent), window.extent) && camera != null ==>
        unchanged(camera.viewportState)
      ensures events == RecordOrder(if camera != null then Some(camera.id) else None,
                                    BeginRenderPass(window.renderPass, window.frames[nextImageIndex].framebuffer,
                                                    renderArea, clearValueCount),
                                    |children|)
    {
      regenerated := [];
      var extent := window.extent;

      if previousExtent.width == INVALID_DIMENSION || previousExtent.width == INVALID_DIMENSION {
        previousExtent := extent;
      } else if previousExtent.width != extent.width || previousExtent.height != extent.height {
        var viewport: Option<ViewportState> := None;
        if camera != null {
          var vp := camera.viewportState;
          viewport := Some(vp);
          vp.width := extent.width;
          vp.height := extent.height;
          vp.scissorExtent := extent;
          renderArea := Rect2D(Offset2D(0, 0), extent);
        }
        var updated := UpdateNodes(children, UpdateContext(window.device, window.renderPass, viewport));
        children := updated.nodes;
        regenerated := updated.regenerated;
        previousExtent := window.extent;
      }

      events := [];
      if camera != null {
        events := events + [SetProjectionAndView(camera.id)];
      }
      ghost var prefix := events;
      var framebuffer := window.frames[nextImageIndex].framebuffer;
      events := events + [BeginRenderPass(window.renderPass, framebuffer, renderArea, clearValueCount)];
      prefix := events;

      var i := 0;
      while i < |children|
        invariant 0 <= i <= |children|
        invariant events == prefix + ChildRecords(i)
      {
        events := events + [RecordChild(i)];
        i := i + 1;
        assert ChildRecords(i) == ChildRecords(i - 1) + [RecordChild(i - 1)];
      }

      events := events + [EndRenderPass];
      RecordOrderConcatenation(if camera != null then Some(camera.id) else None,
                               BeginRenderPass(window.renderPass, framebuffer, renderArea, clearValueCount), |children|);
    }
  }
}
