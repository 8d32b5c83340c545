/**
 * The records the renderer core works on: lights (Light.h), entities
 * (entity.h), textures and programs (engine.h), meshes with their cached
 * vertex arrays (mesh.h) and framebuffers (framebuffer.h). GL object names
 * are opaque `u32` values; floating-point vectors are opaque byte payloads.
 */
module Scene {
  import opened Bits
  import opened Bytes

  datatype Option<T> = None | Some(value: T)

  /**
   * The index of the first element of `s` that satisfies `p`: the linear
   * scans of the texture cache, the vertex-array cache and the attribute
   * matching all look for this.
   */
  function FirstIndex<T>(s: seq<T>, p: T -> bool): (r: Option<nat>)
    ensures r.Some? ==> r.value < |s| && p(s[r.value])
    ensures r.Some? ==> forall j :: 0 <= j < r.value ==> !p(s[j])
    ensures r.None? ==> forall j :: 0 <= j < |s| ==> !p(s[j])
  {
    if |s| == 0 then None
    else if p(s[0]) then Some(0)
    else match FirstIndex(s[1..], p)
      case None => None
      case Some(i) => Some(i + 1)
  }

  /** An element that satisfies `p` with none before it is the one `FirstIndex` finds. */
  lemma FirstIndexOf<T>(s: seq<T>, p: T -> bool, i: nat)
    requires i < |s| && p(s[i])
    requires forall j :: 0 <= j < i ==> !p(s[j])
    ensures FirstIndex(s, p) == Some(i)
  {
  }

  // --------------------------------------------------------------------------
  // Lights

  /** `LightType`: the enumerators have the values 0 and 1. */
  datatype LightType = Directional | Point

  datatype Light = Light(lightType: LightType, color: Vec3, direction: Vec3, position: Vec3)

  /** The `u32` value of a light type enumerator. */
  function LightTypeCode(t: LightType): (code: u32)
  {
    match t
    case Directional => 0
    case Point => 1
  }

  /** The enumerator with a given value, if there is one. */
  function LightTypeOfCode(code: u32): (t: Option<LightType>)
    ensures t.Some? <==> code < 2
    ensures t.Some? ==> LightTypeCode(t.value) == code
  {
    if code == 0 then Some(Directional)
    else if code == 1 then Some(Point)
    else None
  }

  // --------------------------------------------------------------------------
  // Entities, textures, programs

  /** An entity: its position, its model and where its per-entity block was packed this frame. */
  datatype Entity = Entity(pos: Vec3, modelIdx: u32, localParamsOffset: u32, localParamsSize: u32)

  datatype Texture = Texture(handle: u32, filepath: string)

  /** An attribute a vertex shader reads: its location and its number of components. */
  datatype VertexShaderAttribute = VertexShaderAttribute(location: u32, componentCount: u32)

  datatype VertexShaderLayout = VertexShaderLayout(attributes: seq<VertexShaderAttribute>)

  /** A compiled program: its GL name and the vertex attributes it expects. */
  datatype Program = Program(handle: u32, vertexInputLayout: VertexShaderLayout)

  // --------------------------------------------------------------------------
  // Meshes

  /** An attribute stored in a vertex buffer: location, component count and byte offset in the vertex. */
  datatype VertexBufferAttribute = VertexBufferAttribute(location: u32, componentCount: u32, offset: u32)

  datatype VertexBufferLayout = VertexBufferLayout(attributes: seq<VertexBufferAttribute>, stride: u32)

  /** A vertex array built for a submesh, and the program it was built for. */
  datatype Vao = Vao(handle: u32, programHandle: u32)

  datatype Submesh = Submesh(
    vertexBufferLayout: VertexBufferLayout,
    vertexOffset: u32,
    indexOffset: u32,
    vaos: seq<Vao>)

  /** A mesh: its submeshes (whose vertex-array caches grow in place) and its GL buffers. */
  class Mesh {
    var submeshes: seq<Submesh>
    const vertexBufferHandle: u32
    const indexBufferHandle: u32

    constructor (submeshes: seq<Submesh>, vertexBufferHandle: u32, indexBufferHandle: u32)
      ensures this.submeshes == submeshes
      ensures this.vertexBufferHandle == vertexBufferHandle && this.indexBufferHandle == indexBufferHandle
    {
      this.submeshes := submeshes;
      this.vertexBufferHandle := vertexBufferHandle;
      this.indexBufferHandle := indexBufferHandle;
    }
  }

  // --------------------------------------------------------------------------
  // Framebuffers

  /** An off-screen target and its four attachments. */
  datatype Framebuffer = Framebuffer(
    colorAttachmentHandle: u32,
    positionAttachmentHandle: u32,
    normalAttachmentHandle: u32,
    depthAttachmentHandle: u32,
    framebufferHandle: u32)
}
