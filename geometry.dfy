/**
 * vsg::Geometry: vertex arrays, optional indices and draw commands.  compile()
 * uploads the arrays and caches a "render implementation": the bind commands
 * for the uploaded buffers followed by the geometry's own commands.
 * dispatch() records that cached list.
 *
 * createBufferAndTransferData is not part of this model; it is the oracle
 * `upload`, which answers a data list and a usage with the created buffers
 * (an empty list when creation failed).
 */
module Geometry {
  import opened VkTypes
  import BindIndexBuffer

  /** A vsg::Data array: vertex attributes or indices. */
  type DataId = nat

  /** One uploaded buffer range. */
  datatype BufferData = BufferData(id: nat)

  datatype BufferUsage = VertexBuffer | VertexAndIndexBuffer

  datatype Command =
    | BindVertexBuffers(firstBinding: nat, buffers: seq<BufferData>)
    | BindIndexBuffer(buffer: BufferData)
    | Draw(vertexCount: nat)
    | DrawIndexed(indexCount: nat)
    | OtherCommand(id: nat)

  /** createBufferAndTransferData(context, dataList, usage, VK_SHARING_MODE_EXCLUSIVE) */
  type Upload = (seq<DataId>, BufferUsage) -> seq<BufferData>

  /** The data list that compile() uploads: the arrays, then the indices if any. */
  function DataList(arrays: seq<DataId>, indices: Option<DataId>): (r: seq<DataId>)
    ensures indices.None? ==> r == arrays
    ensures indices.Some? ==> |r| == |arrays| + 1 && r[..|arrays|] == arrays && r[|arrays|] == indices.value
  {
    if indices.Some? then arrays + [indices.value] else arrays
  }

  function UsageFor(indices: Option<DataId>): BufferUsage
  {
    if indices.Some? then VertexAndIndexBuffer else VertexBuffer
  }

  /** What the uploader must answer for compile() to be defined: nothing, or at
      least one buffer per vertex array (the indexed path slices the first
      |arrays| buffers off the answer). */
  ghost predicate UploadAnswersArrays(upload: Upload, arrays: seq<DataId>, indices: Option<DataId>)
  {
    var created := upload(DataList(arrays, indices), UsageFor(indices));
    indices.Some? ==> |created| == 0 || |created| >= |arrays|
  }

  /**
   * The render implementation a successful or failed compile leaves, given the
   * buffers the uploader created.  It is the reference compile() is proved against.
   */
  function RenderImplementation(arrays: seq<DataId>, indices: Option<DataId>, commands: seq<Command>,
                                created: seq<BufferData>): seq<Command>
    requires indices.Some? ==> |created| == 0 || |created| >= |arrays|
  {
    if |created| == 0 then []
    else if indices.Some? then
      [BindVertexBuffers(0, created[..|arrays|]), BindIndexBuffer(created[|created| - 1])] + commands
    else
      [BindVertexBuffers(0, created)] + commands
  }

  /** A failed upload leaves nothing to dispatch; a successful one leaves the
      bind commands followed by the geometry's own commands, unchanged and in order. */
  lemma RenderImplementationShape(arrays: seq<DataId>, indices: Option<DataId>, commands: seq<Command>,
                                  created: seq<BufferData>)
    requires indices.Some? ==> |created| == 0 || |created| >= |arrays|
    ensures var r := RenderImplementation(arrays, indices, commands, created);
      && (|created| == 0 <==> r == [])
      && (|created| > 0 ==>
            var n := if indices.Some? then 2 else 1;
            && |r| == |commands| + n
            && r[n..] == commands
            && r[0] == BindVertexBuffers(0, if indices.Some? then created[..|arrays|] else created)
            && (indices.Some? ==> r[1] == BindIndexBuffer(created[|created| - 1])))
  {
  }

  /** Without indices no index buffer is ever bound by the render implementation's own prefix. */
  lemma NoIndexBindWithoutIndices(arrays: seq<DataId>, commands: seq<Command>, created: seq<BufferData>, k: nat)
    requires |created| > 0
    requires k < |RenderImplementation(arrays, None, commands, created)|
    requires RenderImplementation(arrays, None, commands, created)[k].BindIndexBuffer?
    ensures k >= 1 && commands[k - 1].BindIndexBuffer?
  {
  }

  /** Three vertex arrays, no indices and one draw: compile yields exactly
      bind-vertex-buffers then draw. */
  lemma NonIndexedScenario(a0: DataId, a1: DataId, a2: DataId, b: seq<BufferData>, n: nat)
    requires |b| == 3
    ensures RenderImplementation([a0, a1, a2], None, [Draw(n)], b) == [BindVertexBuffers(0, b), Draw(n)]
  {
  }

  /** The same arrays with indices: bind-vertex-buffers over the first three
      buffers, bind-index-buffer over the last, then draw-indexed. */
  lemma IndexedScenario(a0: DataId, a1: DataId, a2: DataId, i: DataId, b: seq<BufferData>, n: nat)
    requires |b| == 4
    ensures RenderImplementation([a0, a1, a2], Some(i), [DrawIndexed(n)], b)
      == [BindVertexBuffers(0, b[..3]), BindIndexBuffer(b[3]), DrawIndexed(n)]
  {
  }

  class Geometry {
    var arrays: seq<DataId>
    var indices: Option<DataId>
    var commands: seq<Command>
    var renderImplementation: seq<Command>

    constructor ()
      ensures arrays == [] && indices == None && commands == [] && renderImplementation == []
    {
      arrays, indices, commands, renderImplementation := [], None, [], [];
    }

    /** The render implementation compile() produces from the current arrays,
        indices and commands when the cache is empty. */
    ghost function Compiled(upload: Upload): seq<Command>
      reads this
      requires UploadAnswersArrays(upload, arrays, indices)
    {
      RenderImplementation(arrays, indices, commands, upload(DataList(arrays, indices), UsageFor(indices)))
    }

    /**
     * compile(context): a no-op when the cache is populated; otherwise uploads
     * DataList(arrays, indices) and caches the bind commands plus `commands`, or
     * leaves the cache empty when the upload failed, so that a later compile retries.
     * Only the cache changes.
     */
    method Compile(upload: Upload)
      requires UploadAnswersArrays(upload, arrays, indices)
      modifies this`renderImplementation
      ensures old(renderImplementation) != [] ==> renderImplementation == old(renderImplementation)
      ensures old(renderImplementation) == [] ==> renderImplementation == Compiled(upload)
    {
      if renderImplementation != [] {
        return;
      }

      renderImplementation := [];

      var failure := false;

      if indices.Some? {
        var dataList := arrays + [indices.value];
        var bufferData := upload(dataList, VertexAndIndexBuffer);
        if |bufferData| != 0 {
          var vertexBufferData := bufferData[..|arrays|];
          renderImplementation := renderImplementation + [BindVertexBuffers(0, vertexBufferData)];
          renderImplementation := renderImplementation + [BindIndexBuffer(bufferData[|bufferData| - 1])];
        } else {
          failure := true;
        }
      } else {
        var vertexBufferData := upload(arrays, VertexBuffer);
        if |vertexBufferData| != 0 {
          renderImplementation := renderImplementation + [BindVertexBuffers(0, vertexBufferData)];
        } else {
          failure := true;
        }
      }

      if failure {
        renderImplementation := [];
        return;
      }

      renderImplementation := renderImplementation + commands;
    }

    /** Two compiles with the data unchanged, each with its own upload: the
        first leaves `once`, the cached list or what `upload` compiled to.  A
        populated `once` is kept by the second compile; an empty one, left by a
        failed upload, is retried and replaced by what `upload2` compiles to. */
    method CompileIdempotent(upload: Upload, upload2: Upload) returns (ghost once: seq<Command>)
      requires UploadAnswersArrays(upload, arrays, indices)
      requires UploadAnswersArrays(upload2, arrays, indices)
      modifies this`renderImplementation
      ensures once == if old(renderImplementation) != [] then old(renderImplementation) else Compiled(upload)
      ensures old(renderImplementation) != [] || once != [] ==> renderImplementation == once
      ensures once == [] ==> renderImplementation == Compiled(upload2)
    {
      Compile(upload);
      once := renderImplementation;
      Compile(upload2);
    }

    /** dispatch(commandBuffer): records every cached command once, in order,
        after what the command buffer already holds. */
    method Dispatch(recorded: seq<Command>) returns (recorded': seq<Command>)
      ensures recorded' == recorded + renderImplementation
    {
      recorded' := recorded;
      var k := 0;
      while k < |renderImplementation|
        invariant 0 <= k <= |renderImplementation|
        invariant recorded' == recorded + renderImplementation[..k]
      {
        recorded' := recorded' + [renderImplementation[k]];
        k := k + 1;
      }
    }
  }
}
