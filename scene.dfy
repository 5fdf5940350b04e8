/**
 * The scene-graph entities the frame pipeline traverses.
 *
 * Nodes are values: a closed sum of the node kinds the core distinguishes.
 * A ViewportState is an object, because RenderGraph::accept writes its fields
 * in place and pipelines refer to it by identity.  Node is generic in the type
 * of the secondary command graphs an ExecuteCommands node holds, so that this
 * module does not depend on the CommandGraph module that contains nodes.
 */
module Scene {
  import opened VkTypes
  import Window

  /** A camera's viewport state: the viewport's width and height and the scissor extent. */
  class ViewportState {
    var width: nat
    var height: nat
    var scissorExtent: Extent2D

    constructor (w: nat, h: nat)
      ensures width == w && height == h && scissorExtent == Extent2D(w, h)
    {
      width, height, scissorExtent := w, h, Extent2D(w, h);
    }
  }

  /** One entry of a graphics pipeline's pipeline states; a viewport state by identity. */
  datatype PipelineState = ViewportStateRef(viewport: ViewportState) | OtherPipelineState(id: nat)

  /** The device and render pass a pipeline was compiled for. */
  datatype CompileContext = CompileContext(device: Option<DeviceId>, renderPass: Option<Window.RenderPass>)

  datatype GraphicsPipeline = GraphicsPipeline(
    layout: nat,
    shaderStages: seq<nat>,
    pipelineStates: seq<PipelineState>,
    subpass: nat,
    compiled: Option<CompileContext>)

  datatype Node<G> =
    | Group(children: seq<Node<G>>)
    | StateGroup(stateCommands: seq<Node<G>>, children: seq<Node<G>>)
    | BindGraphicsPipeline(pipeline: Option<GraphicsPipeline>)
    | ExecuteCommands(commandGraphs: seq<G>)
    | OtherCommand(id: nat)
    | Leaf(id: nat)
}
