/**
 * The application state of Engine/Code/engine.cpp that the per-frame
 * update changes: the entities, whose uniform block offsets are recorded
 * in place, the two uniform buffers, the global block's offset and size,
 * and the texture cache.
 */
module Engine {
  import opened Bits
  import opened Bytes
  import opened Scene
  import opened Buffers
  import opened UniformLayout

  /** `Mode`: what `Update` and `Render` do this frame. */
  datatype Mode = TexturedQuad | Model

  class App {
    var mode: Mode
    var entities: seq<Entity>
    var lights: seq<Light>
    var textures: seq<Texture>
    /** GL_UNIFORM_BUFFER_OFFSET_ALIGNMENT, queried once at start-up. */
    const uniformBlockAlignment: u32
    /** The buffer of per-entity blocks. */
    const buffer: Buffer
    /** The buffer of the global block. */
    const bufferGlobals: Buffer
    var globalParamsOffset: u32
    var globalParamsSize: u32

    ghost predicate Valid()
      reads this, buffer, bufferGlobals
    {
      buffer != bufferGlobals && buffer.data != bufferGlobals.data
      && buffer.Valid() && bufferGlobals.Valid()
    }

    /**
     * The part of `Init` this model keeps: the alignment query and the two
     * uniform buffers of `maxUniformBufferSize` bytes each.
     */
    constructor (maxUniformBufferSize: u32, uniformBlockAlignment: u32, bufferHandle: u32, bufferGlobalsHandle: u32,
                 entities: seq<Entity>, lights: seq<Light>)
      ensures Valid() && fresh(buffer) && fresh(bufferGlobals) && fresh(buffer.data) && fresh(bufferGlobals.data)
      ensures buffer.size == maxUniformBufferSize && bufferGlobals.size == maxUniformBufferSize
      ensures this.uniformBlockAlignment == uniformBlockAlignment
      ensures this.entities == entities && this.lights == lights && textures == [] && mode == Model
      ensures buffer.handle == bufferHandle && bufferGlobals.handle == bufferGlobalsHandle
      ensures !buffer.mapped && !bufferGlobals.mapped && buffer.head == 0 && bufferGlobals.head == 0
    {
      this.uniformBlockAlignment := uniformBlockAlignment;
      buffer := new Buffer(maxUniformBufferSize, bufferHandle);
      bufferGlobals := new Buffer(maxUniformBufferSize, bufferGlobalsHandle);
      this.entities := entities;
      this.lights := lights;
      textures := [];
      mode := Model;
      globalParamsOffset := 0;
      globalParamsSize := 0;
    }

    /**
     * The first half of the packing in `Update`: maps the global buffer and
     * pushes the camera position, the light count and every light.
     */
    method PackGlobals(cameraPosition: Vec3)
      requires Valid() && GlobalBlockSize(|lights|) <= bufferGlobals.size
      modifies this`globalParamsOffset, this`globalParamsSize, bufferGlobals, bufferGlobals.data
      ensures Valid() && bufferGlobals.mapped
      ensures globalParamsOffset == 0 && globalParamsSize == GlobalBlockSize(|lights|)
      ensures bufferGlobals.head == GlobalBlockSize(|lights|)
      ensures bufferGlobals.data[..] == PackedGlobals(old(bufferGlobals.data[..]), cameraPosition, lights)
    {
      bufferGlobals.MapBuffer();
      globalParamsOffset := bufferGlobals.head;
      RoundUpUnique(0, VEC4_SIZE as int, 0);
      bufferGlobals.PushVec3(cameraPosition);
      RoundUpUnique(12, UINT_SIZE as int, 12);
      bufferGlobals.PushUInt(Wrap32(|lights|));
      PackLights(bufferGlobals, lights);
      globalParamsSize := bufferGlobals.head - globalParamsOffset;
    }

    /**
     * The second half of the packing in `Update`: maps the entity buffer
     * and pushes each entity's two matrices at the binding alignment,
     * recording where its block starts and how long it is. The matrices,
     * computed in floating point from the camera and the entity position,
     * are parameters.
     */
    method PackEntities(world: seq<Mat4>, worldViewProjection: seq<Mat4>)
      requires Valid() && |world| == |entities| && |worldViewProjection| == |entities|
      requires |entities| > 0 ==> IsPowerOf2(uniformBlockAlignment)
      requires EntityBlocksEnd(uniformBlockAlignment, |entities|) <= buffer.size
      modifies this`entities, buffer, buffer.data
      ensures Valid() && buffer.mapped
      ensures |entities| == old(|entities|)
      ensures forall k :: 0 <= k < |entities| ==>
        entities[k].localParamsOffset == EntityOffset(uniformBlockAlignment, k)
        && entities[k].localParamsSize == LOCAL_PARAMS_SIZE
        && entities[k].pos == old(entities[k].pos) && entities[k].modelIdx == old(entities[k].modelIdx)
      ensures buffer.head == EntityBlocksEnd(uniformBlockAlignment, |entities|)
      ensures buffer.data[..] == PackedEntities(old(buffer.data[..]), uniformBlockAlignment, world, worldViewProjection, |entities|)
    {
      buffer.MapBuffer();
      entities := PackEntityBlocks(buffer, uniformBlockAlignment, entities, world, worldViewProjection);
    }

    /**
     * The packing part of `Update`: in `Model` mode, the global block and
     * then the entity blocks; in any other mode, nothing. Afterwards the
     * global block holds the frame's camera position and lights at offset 0,
     * and each entity's recorded range holds its two matrices, starts at a
     * multiple of the binding alignment and ends before the next one starts.
     */
    method Update(cameraPosition: Vec3, world: seq<Mat4>, worldViewProjection: seq<Mat4>)
      requires Valid() && |world| == |entities| && |worldViewProjection| == |entities|
      requires mode == Model ==> GlobalBlockSize(|lights|) <= bufferGlobals.size
      requires mode == Model && |entities| > 0 ==> IsPowerOf2(uniformBlockAlignment)
      requires mode == Model ==> EntityBlocksEnd(uniformBlockAlignment, |entities|) <= buffer.size
      modifies this`entities, this`globalParamsOffset, this`globalParamsSize
      modifies buffer, buffer.data, bufferGlobals, bufferGlobals.data
      ensures Valid() && |entities| == old(|entities|)
      ensures mode != Model ==>
        entities == old(entities) && globalParamsOffset == old(globalParamsOffset) && globalParamsSize == old(globalParamsSize)
        && buffer.data[..] == old(buffer.data[..]) && bufferGlobals.data[..] == old(bufferGlobals.data[..])
        && unchanged(buffer, bufferGlobals)
      ensures mode == Model ==>
        bufferGlobals.mapped && bufferGlobals.head == GlobalBlockSize(|lights|)
        && buffer.mapped && buffer.head == EntityBlocksEnd(uniformBlockAlignment, |entities|)
      ensures mode == Model ==>
        globalParamsOffset == 0 && globalParamsSize == GlobalBlockSize(|lights|)
        && GlobalBlockHolds(bufferGlobals.data[..], cameraPosition, lights)
        && bufferGlobals.data[GlobalBlockSize(|lights|)..] == old(bufferGlobals.data[..])[GlobalBlockSize(|lights|)..]
      ensures mode == Model ==> forall k :: 0 <= k < |entities| ==>
        entities[k].localParamsSize == LOCAL_PARAMS_SIZE
        && entities[k].localParamsOffset == EntityOffset(uniformBlockAlignment, k)
        && entities[k].localParamsOffset % uniformBlockAlignment == 0
        && EntityBlockAt(buffer.data[..], entities[k].localParamsOffset, world[k], worldViewProjection[k])
        && entities[k].pos == old(entities[k].pos) && entities[k].modelIdx == old(entities[k].modelIdx)
      ensures mode == Model ==> forall j, k :: 0 <= j < k < |entities| ==>
        entities[j].localParamsOffset + LOCAL_PARAMS_SIZE <= entities[k].localParamsOffset
      ensures mode == Model ==> var end := EntityBlocksEnd(uniformBlockAlignment, |entities|);
        buffer.data[end..] == old(buffer.data[..])[end..]
    {
      if mode == Model {
        PackGlobals(cameraPosition);
        PackedGlobalsHolds(old(bufferGlobals.data[..]), cameraPosition, lights);
        PackEntities(world, worldViewProjection);
        PackedEntitiesLayout(old(buffer.data[..]), uniformBlockAlignment, world, worldViewProjection, |entities|);
        PackedEntitiesOutside(old(buffer.data[..]), uniformBlockAlignment, world, worldViewProjection, |entities|);
        forall k | 0 <= k < |entities|
          ensures entities[k].localParamsOffset % uniformBlockAlignment == 0
        {
          EntityOffsetAligned(uniformBlockAlignment, k);
        }
        forall j, k | 0 <= j < k < |entities|
          ensures entities[j].localParamsOffset + LOCAL_PARAMS_SIZE <= entities[k].localParamsOffset
        {
          EntityBlocksDisjoint(uniformBlockAlignment, j, k);
        }
      }
    }

    /**
     * LoadTexture2D: the index of the cached texture with this path, if
     * there is one; otherwise, when the image decodes (`decoded`), a new
     * texture with the GL name `newHandle` is appended and its index
     * returned; otherwise the sentinel UINT32_MAX.
     */
    method LoadTexture2D(filepath: string, decoded: bool, newHandle: u32) returns (texIdx: u32)
      requires |textures| < UINT32_MAX
      modifies this`textures
      ensures var hit := FirstIndex(old(textures), (t: Texture) => t.filepath == filepath);
        if hit.Some? then texIdx == hit.value && textures == old(textures)
        else if decoded then texIdx == |old(textures)| && textures == old(textures) + [Texture(newHandle, filepath)]
        else texIdx == UINT32_MAX && textures == old(textures)
      ensures texIdx != UINT32_MAX ==> texIdx < |textures| && textures[texIdx].filepath == filepath
      ensures DistinctPaths(old(textures)) ==> DistinctPaths(textures)
    {
      var i: nat := 0;
      while i < |textures|
        invariant i <= |textures| && textures == old(textures)
        invariant forall j :: 0 <= j < i ==> textures[j].filepath != filepath
      {
        if textures[i].filepath == filepath {
          FirstIndexOf(textures, (t: Texture) => t.filepath == filepath, i);
          return i;
        }
        i := i + 1;
      }
      if decoded {
        texIdx := |textures|;
        textures := textures + [Texture(newHandle, filepath)];
      } else {
        texIdx := UINT32_MAX;
      }
    }
  }

  /**
   * The light loop in `Update`: for each light, aligns the cursor to a vec4
   * boundary and pushes the light.
   */
  method PackLights(b: Buffer, lights: seq<Light>)
    requires b.Valid() && b.mapped && b.head == 16
    requires GlobalBlockSize(|lights|) <= b.size
    modifies b`head, b.data
    ensures b.Valid() && b.head == GlobalBlockSize(|lights|)
    ensures b.data[..] == PackedLights(old(b.data[..]), lights, |lights|)
  {
    var i: nat := 0;
    while i < |lights|
      invariant i <= |lights| && b.Valid() && b.mapped
      invariant b.head == GlobalBlockSize(i)
      invariant b.data[..] == PackedLights(old(b.data[..]), lights, i)
    {
      PackNextLight(b, lights[i], i);
      i := i + 1;
    }
  }

  /**
   * One turn of the light loop: the cursor, left at the end of a block of
   * `i` lights, is aligned to the vec4 boundary `LightOffset(i)` and the
   * light pushed there.
   */
  method PackNextLight(b: Buffer, light: Light, i: nat)
    requires b.Valid() && b.mapped
    requires b.head == GlobalBlockSize(i) && GlobalBlockSize(i + 1) <= b.size
    modifies b`head, b.data
    ensures b.Valid() && b.head == GlobalBlockSize(i + 1)
    ensures b.data[..] == PackLight(old(b.data[..]), LightOffset(i), light)
  {
    PushAlignmentsArePowersOf2();
    LightSlot(i);
    RoundUpUnique(b.head, VEC4_SIZE as int, LightOffset(i));
    b.AlignHead(VEC4_SIZE);
    PushLight(b, light, LightOffset(i));
  }

  /**
   * The pushes of one light, with the cursor on the vec4 boundary `offset`:
   * its type, color, direction and position, each at its own alignment.
   */
  method PushLight(b: Buffer, light: Light, ghost offset: nat)
    requires b.Valid() && b.mapped
    requires b.head == offset && offset % 16 == 0 && offset + 60 <= b.size
    modifies b`head, b.data
    ensures b.Valid() && b.head == offset + 60
    ensures b.data[..] == PackLight(old(b.data[..]), offset, light)
  {
    RoundUpUnique(offset, UINT_SIZE as int, offset);
    b.PushUInt(LightTypeCode(light.lightType));
    assert b.head == offset + 4;
    RoundUpUnique(offset + 4, VEC4_SIZE as int, offset + 16);
    b.PushVec3(light.color);
    assert b.head == offset + 28;
    RoundUpUnique(offset + 28, VEC4_SIZE as int, offset + 32);
    b.PushVec3(light.direction);
    assert b.head == offset + 44;
    RoundUpUnique(offset + 44, VEC4_SIZE as int, offset + 48);
    b.PushVec3(light.position);
  }

  /**
   * `packed` is `entity` with the range of the `k`-th block recorded in it:
   * its offset and size set, its position and model kept.
   */
  predicate PackedEntity(packed: Entity, entity: Entity, alignment: u32, k: nat)
  {
    packed.localParamsOffset == EntityOffset(alignment, k) && packed.localParamsSize == LOCAL_PARAMS_SIZE
    && packed.pos == entity.pos && packed.modelIdx == entity.modelIdx
  }

  /**
   * The entity loop in `Update`: for each entity, aligns the cursor to the
   * binding alignment, records it as the entity's offset, pushes the two
   * matrices and records the distance covered as the entity's size. The
   * entities come back with those two fields set and nothing else changed.
   */
  method PackEntityBlocks(b: Buffer, alignment: u32, entities: seq<Entity>, world: seq<Mat4>, worldViewProjection: seq<Mat4>)
    returns (packed: seq<Entity>)
    requires b.Valid() && b.mapped && b.head == 0
    requires |world| == |entities| && |worldViewProjection| == |entities|
    requires |entities| > 0 ==> IsPowerOf2(alignment)
    requires EntityBlocksEnd(alignment, |entities|) <= b.size
    modifies b`head, b.data
    ensures b.Valid() && b.head == EntityBlocksEnd(alignment, |entities|)
    ensures b.data[..] == PackedEntities(old(b.data[..]), alignment, world, worldViewProjection, |entities|)
    ensures |packed| == |entities|
    ensures forall k :: 0 <= k < |entities| ==> PackedEntity(packed[k], entities[k], alignment, k)
  {
    ghost var initial := b.data[..];
    packed := [];
    var k: nat := 0;
    while k < |entities|
      invariant k <= |entities| && |packed| == k
      invariant b.Valid() && b.mapped
      invariant b.head == EntityBlocksEnd(alignment, k) <= |initial|
      invariant b.data[..] == PackedEntities(initial, alignment, world, worldViewProjection, k)
      invariant forall j :: 0 <= j < k ==> PackedEntity(packed[j], entities[j], alignment, j)
    {
      EntityBlocksLater(alignment, k + 1, |entities|);
      var entity := PackEntityBlock(b, alignment, entities[k], world[k], worldViewProjection[k], k);
      packed := packed + [entity];
      k := k + 1;
    }
  }

  /**
   * One turn of the entity loop: the cursor, left at the end of `k` blocks,
   * is aligned to the binding alignment and recorded as the entity's offset;
   * the two matrices are pushed and the distance covered recorded as its size.
   */
  method PackEntityBlock(b: Buffer, alignment: u32, entity: Entity, world: Mat4, worldViewProjection: Mat4, k: nat)
    returns (packed: Entity)
    requires b.Valid() && b.mapped && IsPowerOf2(alignment)
    requires b.head == EntityBlocksEnd(alignment, k) && EntityBlocksEnd(alignment, k + 1) <= b.size
    modifies b`head, b.data
    ensures b.Valid() && b.head == EntityBlocksEnd(alignment, k + 1)
    ensures b.data[..] == PackEntity(old(b.data[..]), EntityOffset(alignment, k), world, worldViewProjection)
    ensures PackedEntity(packed, entity, alignment, k)
  {
    EntitySlot(alignment, k);
    b.AlignHead(alignment);
    packed := entity.(localParamsOffset := b.head);
    PushEntity(b, world, worldViewProjection, EntityOffset(alignment, k));
    packed := packed.(localParamsSize := b.head - packed.localParamsOffset);
  }

  /**
   * The pushes of one entity, with the cursor on the vec4 boundary
   * `offset`: its world matrix and its world-view-projection matrix.
   */
  method PushEntity(b: Buffer, world: Mat4, worldViewProjection: Mat4, ghost offset: nat)
    requires b.Valid() && b.mapped
    requires b.head == offset && offset % 16 == 0 && offset + LOCAL_PARAMS_SIZE <= b.size
    modifies b`head, b.data
    ensures b.Valid() && b.head == offset + LOCAL_PARAMS_SIZE
    ensures b.data[..] == PackEntity(old(b.data[..]), offset, world, worldViewProjection)
  {
    RoundUpUnique(offset, VEC4_SIZE as int, offset);
    b.PushMat4(world);
    assert b.head == offset + 64;
    RoundUpUnique(offset + 64, VEC4_SIZE as int, offset + 64);
    b.PushMat4(worldViewProjection);
  }

  /** No two cached textures share a path. */
  predicate DistinctPaths(textures: seq<Texture>)
  {
    forall i, j :: 0 <= i < j < |textures| ==> textures[i].filepath != textures[j].filepath
  }
}
