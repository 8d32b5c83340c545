/**
 * The byte layout `Update` gives the two uniform blocks it fills every
 * frame (Engine/Code/engine.cpp).
 *
 * The global block holds the camera position, the number of lights and one
 * record per light; vec3 members sit at vec4 (16-byte) boundaries and the
 * count at a 4-byte one, the rules of the std140 layout (section 7.6.2.2 of
 * the OpenGL 4.6 Core Profile specification). The entity blocks hold two
 * matrices each, one block per entity, every block starting at the uniform
 * buffer offset alignment the driver reports.
 *
 * `PackedGlobals` and `PackedEntities` describe the buffer contents the
 * pushes produce; the lemmas say where each value lands and read it back.
 */
module UniformLayout {
  import opened Bits
  import opened Bytes
  import opened Scene

  // ==========================================================================
  // Global block

  /** Where light `i`'s record starts in the global block. */
  function LightOffset(i: nat): nat
  {
    16 + 64 * i
  }

  /** The cursor after the global block of `lightCount` lights: the size `Update` records. */
  function GlobalBlockSize(lightCount: nat): nat
  {
    if lightCount == 0 then 16 else 12 + 64 * lightCount
  }

  /** The record of `light` starts at `offset`: type, then color, direction and position at vec4 boundaries. */
  predicate LightAt(d: seq<byte>, offset: nat, light: Light)
  {
    offset + 60 <= |d|
    && d[offset..offset + 4] == U32Bytes(LightTypeCode(light.lightType))
    && d[offset + 16..offset + 28] == light.color
    && d[offset + 32..offset + 44] == light.direction
    && d[offset + 48..offset + 60] == light.position
  }

  /** `d` holds the global block of a frame with this camera position and these lights. */
  predicate GlobalBlockHolds(d: seq<byte>, cameraPosition: Vec3, lights: seq<Light>)
  {
    |lights| <= UINT32_MAX
    && GlobalBlockSize(|lights|) <= |d|
    && d[..12] == cameraPosition
    && d[12..16] == U32Bytes(|lights|)
    && forall i :: 0 <= i < |lights| ==> LightAt(d, LightOffset(i), lights[i])
  }

  /** The pushes of one light record at `offset` (already vec4-aligned). */
  function PackLight(d: seq<byte>, offset: nat, light: Light): (r: seq<byte>)
    requires offset + 60 <= |d|
    ensures |r| == |d|
  {
    var withType := Overwrite(d, offset, U32Bytes(LightTypeCode(light.lightType)));
    var withColor := Overwrite(withType, offset + 16, light.color);
    var withDirection := Overwrite(withColor, offset + 32, light.direction);
    Overwrite(withDirection, offset + 48, light.position)
  }

  /** `d` after the records of the first `n` lights have been pushed. */
  function PackedLights(d: seq<byte>, lights: seq<Light>, n: nat): (r: seq<byte>)
    requires n <= |lights| && GlobalBlockSize(n) <= |d|
    ensures |r| == |d|
    decreases n
  {
    if n == 0 then d
    else PackLight(PackedLights(d, lights, n - 1), LightOffset(n - 1), lights[n - 1])
  }

  /** `d` after the global block has been pushed: camera position, light count (a `u32`), lights. */
  function PackedGlobals(d: seq<byte>, cameraPosition: Vec3, lights: seq<Light>): (r: seq<byte>)
    requires GlobalBlockSize(|lights|) <= |d|
    ensures |r| == |d|
  {
    var header := Overwrite(Overwrite(d, 0, cameraPosition), 12, U32Bytes(Wrap32(|lights|)));
    PackedLights(header, lights, |lights|)
  }

  /** One light's pushes lay out its record and touch nothing before or after it. */
  lemma PackLightLayout(d: seq<byte>, offset: nat, light: Light)
    requires offset + 60 <= |d|
    ensures LightAt(PackLight(d, offset, light), offset, light)
    ensures PackLight(d, offset, light)[..offset] == d[..offset]
    ensures PackLight(d, offset, light)[offset + 60..] == d[offset + 60..]
  {
    var code := U32Bytes(LightTypeCode(light.lightType));
    var d1 := Overwrite(d, offset, code);
    var d2 := Overwrite(d1, offset + 16, light.color);
    var d3 := Overwrite(d2, offset + 32, light.direction);
    var d4 := Overwrite(d3, offset + 48, light.position);
    OverwriteAt(d, offset, code);
    OverwriteAt(d1, offset + 16, light.color);
    OverwriteAt(d2, offset + 32, light.direction);
    OverwriteAt(d3, offset + 48, light.position);
    OverwriteElsewhere(d1, offset + 16, light.color, offset, offset + 4);
    OverwriteElsewhere(d2, offset + 32, light.direction, offset, offset + 4);
    OverwriteElsewhere(d3, offset + 48, light.position, offset, offset + 4);
    OverwriteElsewhere(d2, offset + 32, light.direction, offset + 16, offset + 28);
    OverwriteElsewhere(d3, offset + 48, light.position, offset + 16, offset + 28);
    OverwriteElsewhere(d3, offset + 48, light.position, offset + 32, offset + 44);
    assert d4[..offset] == d[..offset] by {
      OverwriteElsewhere(d, offset, code, 0, offset);
      OverwriteElsewhere(d1, offset + 16, light.color, 0, offset);
      OverwriteElsewhere(d2, offset + 32, light.direction, 0, offset);
      OverwriteElsewhere(d3, offset + 48, light.position, 0, offset);
    }
    assert d4[offset + 60..] == d[offset + 60..] by {
      OverwriteElsewhere(d, offset, code, offset + 60, |d|);
      OverwriteElsewhere(d1, offset + 16, light.color, offset + 60, |d|);
      OverwriteElsewhere(d2, offset + 32, light.direction, offset + 60, |d|);
      OverwriteElsewhere(d3, offset + 48, light.position, offset + 60, |d|);
    }
  }

  /** A light record lying inside a prefix two strings share is in both. */
  lemma LightAtAgrees(d: seq<byte>, e: seq<byte>, p: nat, offset: nat, light: Light)
    requires p <= |d| && p <= |e| && d[..p] == e[..p] && offset + 60 <= p
    requires LightAt(d, offset, light)
    ensures LightAt(e, offset, light)
  {
    PrefixAgrees(d, e, p, offset, offset + 4);
    PrefixAgrees(d, e, p, offset + 16, offset + 28);
    PrefixAgrees(d, e, p, offset + 32, offset + 44);
    PrefixAgrees(d, e, p, offset + 48, offset + 60);
  }

  /** After `n` light records are pushed, each is where `LightOffset` says. */
  lemma {:induction false} PackedLightsLayout(d: seq<byte>, lights: seq<Light>, n: nat)
    requires n <= |lights| && GlobalBlockSize(n) <= |d|
    ensures forall i :: 0 <= i < n ==> LightAt(PackedLights(d, lights, n), LightOffset(i), lights[i])
  {
    if n > 0 {
      var prev := PackedLights(d, lights, n - 1);
      var offset := LightOffset(n - 1);
      var r := PackedLights(d, lights, n);
      PackedLightsLayout(d, lights, n - 1);
      PackLightLayout(prev, offset, lights[n - 1]);
      forall i | 0 <= i < n - 1
        ensures LightAt(r, LightOffset(i), lights[i])
      {
        LightAtAgrees(prev, r, offset, LightOffset(i), lights[i]);
      }
    }
  }

  /** Pushing `n` light records leaves the 16-byte header and everything past the block as they were. */
  lemma {:induction false} PackedLightsOutside(d: seq<byte>, lights: seq<Light>, n: nat)
    requires n <= |lights| && GlobalBlockSize(n) <= |d|
    ensures PackedLights(d, lights, n)[..16] == d[..16]
    ensures PackedLights(d, lights, n)[GlobalBlockSize(n)..] == d[GlobalBlockSize(n)..]
  {
    if n > 0 {
      var prev := PackedLights(d, lights, n - 1);
      var offset := LightOffset(n - 1);
      var r := PackedLights(d, lights, n);
      PackedLightsOutside(d, lights, n - 1);
      PackLightLayout(prev, offset, lights[n - 1]);
      PrefixAgrees(r, prev, offset, 0, 16);
      assert r[..16] == r[0..16] && prev[..16] == prev[0..16];
      assert offset + 60 == GlobalBlockSize(n);
      SuffixAgrees(prev, d, GlobalBlockSize(n - 1), GlobalBlockSize(n));
    }
  }

  /** The camera position and count pushes fill the 16-byte header and nothing else. */
  lemma HeaderLayout(d: seq<byte>, cameraPosition: Vec3, count: u32)
    requires 16 <= |d|
    ensures Overwrite(Overwrite(d, 0, cameraPosition), 12, U32Bytes(count))[..12] == cameraPosition
    ensures Overwrite(Overwrite(d, 0, cameraPosition), 12, U32Bytes(count))[12..16] == U32Bytes(count)
    ensures Overwrite(Overwrite(d, 0, cameraPosition), 12, U32Bytes(count))[16..] == d[16..]
  {
    var d1 := Overwrite(d, 0, cameraPosition);
    var header := Overwrite(d1, 12, U32Bytes(count));
    OverwriteAt(d, 0, cameraPosition);
    OverwriteAt(d1, 12, U32Bytes(count));
    OverwriteElsewhere(d1, 12, U32Bytes(count), 0, 12);
    assert header[..12] == header[0..12];
    OverwriteElsewhere(d, 0, cameraPosition, 16, |d|);
    OverwriteElsewhere(d1, 12, U32Bytes(count), 16, |d|);
  }

  /** The pushes of `Update` produce the global block, and leave every byte after it as it was. */
  lemma PackedGlobalsHolds(d: seq<byte>, cameraPosition: Vec3, lights: seq<Light>)
    requires GlobalBlockSize(|lights|) <= |d| && |lights| <= UINT32_MAX
    ensures GlobalBlockHolds(PackedGlobals(d, cameraPosition, lights), cameraPosition, lights)
    ensures PackedGlobals(d, cameraPosition, lights)[GlobalBlockSize(|lights|)..] == d[GlobalBlockSize(|lights|)..]
  {
    assert Wrap32(|lights|) == |lights|;
    var header := Overwrite(Overwrite(d, 0, cameraPosition), 12, U32Bytes(|lights|));
    var r := PackedGlobals(d, cameraPosition, lights);
    assert r == PackedLights(header, lights, |lights|);
    HeaderLayout(d, cameraPosition, |lights|);
    PackedLightsLayout(header, lights, |lights|);
    PackedLightsOutside(header, lights, |lights|);
    PrefixAgrees(r, header, 16, 0, 12);
    PrefixAgrees(r, header, 16, 12, 16);
    assert r[..12] == r[0..12] && header[..12] == header[0..12];
    SuffixAgrees(header, d, 16, GlobalBlockSize(|lights|));
  }

  /** The alignments the pushes use are powers of two. */
  lemma PushAlignmentsArePowersOf2()
    ensures IsPowerOf2(4) && IsPowerOf2(16)
  {
    IsPowerOf2OfPow2(2);
    IsPowerOf2OfPow2(4);
    assert Pow2(2) == 4 && Pow2(4) == 16 by {
      Pow2Add(1, 1);
      Pow2Add(2, 2);
    }
  }

  /**
   * Where the light loop's alignment puts light `i`: the cursor after `i`
   * lights rounds up to the vec4 boundary `LightOffset(i)`, and the light's
   * last push ends where the block of `i + 1` lights ends.
   */
  lemma LightSlot(i: nat)
    ensures GlobalBlockSize(i) <= LightOffset(i) < GlobalBlockSize(i) + 16
    ensures LightOffset(i) % 16 == 0 && LightOffset(i) + 60 == GlobalBlockSize(i + 1)
  {
    ModUnique(LightOffset(i), 16, 1 + 4 * i, 0);
  }


  // --------------------------------------------------------------------------
  // Reading the global block back, as the shaders do

  function UnpackLight(d: seq<byte>, offset: nat): (light: Option<Light>)
    requires offset + 60 <= |d|
  {
    match LightTypeOfCode(DecodeU32(d[offset..offset + 4]))
    case None => None
    case Some(t) => Some(Light(t, d[offset + 16..offset + 28], d[offset + 32..offset + 44], d[offset + 48..offset + 60]))
  }

  function UnpackLights(d: seq<byte>, n: nat): (lights: Option<seq<Light>>)
    requires GlobalBlockSize(n) <= |d|
    ensures lights.Some? ==> |lights.value| == n
  {
    if n == 0 then Some([])
    else match (UnpackLights(d, n - 1), UnpackLight(d, LightOffset(n - 1)))
      case (Some(init), Some(last)) => Some(init + [last])
      case _ => None
  }

  /** Reads the camera position and the lights from a global block, if it is well formed. */
  function UnpackGlobals(d: seq<byte>): (g: Option<(Vec3, seq<Light>)>)
  {
    if |d| < 16 then None
    else
      var n := DecodeU32(d[12..16]);
      if GlobalBlockSize(n) > |d| then None
      else match UnpackLights(d, n)
        case None => None
        case Some(lights) =>
          var cameraPosition: Vec3 := d[..12];
          Some((cameraPosition, lights))
  }

  /** A light record reads back as that light. */
  lemma LightAtUnpacks(d: seq<byte>, offset: nat, light: Light)
    requires LightAt(d, offset, light)
    ensures UnpackLight(d, offset) == Some(light)
  {
    var code := LightTypeCode(light.lightType);
    DecodeU32Encode(code);
    assert LightTypeOfCode(code) == Some(light.lightType);
  }

  /** A record that reads back holds the light it reads as. */
  lemma UnpackedLightAt(d: seq<byte>, offset: nat)
    requires offset + 60 <= |d| && UnpackLight(d, offset).Some?
    ensures LightAt(d, offset, UnpackLight(d, offset).value)
  {
    var bytes := d[offset..offset + 4];
    var t := LightTypeOfCode(DecodeU32(bytes)).value;
    EncodeDecodeU32(bytes);
    assert UnpackLight(d, offset).value
      == Light(t, d[offset + 16..offset + 28], d[offset + 32..offset + 44], d[offset + 48..offset + 60]);
  }

  lemma {:induction false} UnpackLightsOf(d: seq<byte>, lights: seq<Light>, n: nat)
    requires n <= |lights| && GlobalBlockSize(n) <= |d|
    requires forall i :: 0 <= i < n ==> LightAt(d, LightOffset(i), lights[i])
    ensures UnpackLights(d, n) == Some(lights[..n])
  {
    if n > 0 {
      UnpackLightsOf(d, lights, n - 1);
      LightAtUnpacks(d, LightOffset(n - 1), lights[n - 1]);
      assert lights[..n] == lights[..n - 1] + [lights[n - 1]];
    }
  }

  /** Unpacking a block that holds a camera position and lights gives them back. */
  lemma UnpackGlobalsInverts(d: seq<byte>, cameraPosition: Vec3, lights: seq<Light>)
    requires GlobalBlockHolds(d, cameraPosition, lights)
    ensures UnpackGlobals(d) == Some((cameraPosition, lights))
  {
    DecodeU32Encode(|lights|);
    UnpackLightsOf(d, lights, |lights|);
    assert lights[..|lights|] == lights;
  }

  lemma {:induction false} UnpackedLightsAt(d: seq<byte>, n: nat)
    requires GlobalBlockSize(n) <= |d| && UnpackLights(d, n).Some?
    ensures forall i :: 0 <= i < n ==> LightAt(d, LightOffset(i), UnpackLights(d, n).value[i])
  {
    if n > 0 {
      UnpackedLightsAt(d, n - 1);
      var offset := LightOffset(n - 1);
      var init := UnpackLights(d, n - 1).value;
      UnpackedLightAt(d, offset);
      assert UnpackLights(d, n).value == init + [UnpackLight(d, offset).value];
    }
  }

  /** Whatever unpacks is a global block: the two views of the layout agree. */
  lemma UnpackGlobalsSound(d: seq<byte>)
    requires UnpackGlobals(d).Some?
    ensures GlobalBlockHolds(d, UnpackGlobals(d).value.0, UnpackGlobals(d).value.1)
  {
    var n := DecodeU32(d[12..16]);
    UnpackedLightsAt(d, n);
    EncodeDecodeU32(d[12..16]);
  }

  /** The round trip: unpacking what `Update` packed gives the camera position and lights. */
  lemma PackUnpackGlobals(d: seq<byte>, cameraPosition: Vec3, lights: seq<Light>)
    requires GlobalBlockSize(|lights|) <= |d| && |lights| <= UINT32_MAX
    ensures UnpackGlobals(PackedGlobals(d, cameraPosition, lights)) == Some((cameraPosition, lights))
  {
    PackedGlobalsHolds(d, cameraPosition, lights);
    UnpackGlobalsInverts(PackedGlobals(d, cameraPosition, lights), cameraPosition, lights);
  }

  // ==========================================================================
  // Entity blocks

  /** Bytes of one entity's block: the world matrix and the world-view-projection matrix. */
  const LOCAL_PARAMS_SIZE: nat := 128

  /** The distance between consecutive entity blocks under binding alignment `alignment`. */
  function EntityStride(alignment: u32): nat
  {
    if alignment <= 128 then 128 else alignment
  }

  /** Where entity `k`'s block starts. */
  function EntityOffset(alignment: u32, k: nat): nat
  {
    k * EntityStride(alignment)
  }

  /** The cursor after the blocks of `n` entities. */
  function EntityBlocksEnd(alignment: u32, n: nat): nat
  {
    if n == 0 then 0 else EntityOffset(alignment, n - 1) + LOCAL_PARAMS_SIZE
  }

  /** `d` holds an entity block at `offset`. */
  predicate EntityBlockAt(d: seq<byte>, offset: nat, world: Mat4, worldViewProjection: Mat4)
  {
    offset + LOCAL_PARAMS_SIZE <= |d|
    && d[offset..offset + 64] == world
    && d[offset + 64..offset + 128] == worldViewProjection
  }

  /** The stride is a multiple of the alignment and of 16, and leaves room for a block. */
  lemma EntityStrideAligned(alignment: u32)
    requires IsPowerOf2(alignment)
    ensures EntityStride(alignment) % alignment == 0 && EntityStride(alignment) % 16 == 0
    ensures LOCAL_PARAMS_SIZE <= EntityStride(alignment) < LOCAL_PARAMS_SIZE + alignment
  {
    IsPowerOf2OfPow2(4);
    IsPowerOf2OfPow2(7);
    assert Pow2(4) == 16 && Pow2(7) == 128 by {
      Pow2Add(2, 2);
      Pow2Add(3, 4);
    }
    if alignment <= 128 {
      PowerOf2Divides(alignment, 128);
    } else {
      PowerOf2Divides(16, alignment);
    }
  }

  /** Every block start is a multiple of the alignment and of 16. */
  lemma EntityOffsetAligned(alignment: u32, k: nat)
    requires IsPowerOf2(alignment)
    ensures EntityOffset(alignment, k) % alignment == 0 && EntityOffset(alignment, k) % 16 == 0
  {
    EntityStrideAligned(alignment);
    MultipleOfMultiple(EntityStride(alignment), alignment, k);
    MultipleOfMultiple(EntityStride(alignment), 16, k);
  }

  /** Earlier blocks end before later ones start: offsets strictly increase by at least 128. */
  lemma EntityBlocksDisjoint(alignment: u32, j: nat, k: nat)
    requires j < k
    ensures EntityOffset(alignment, j) + LOCAL_PARAMS_SIZE <= EntityOffset(alignment, k)
    ensures EntityOffset(alignment, k) + LOCAL_PARAMS_SIZE <= EntityBlocksEnd(alignment, k + 1)
  {
    var m := EntityStride(alignment);
    MulNonNegative(k - j - 1, m);
    assert k * m == j * m + m + (k - j - 1) * m;
  }

  /**
   * `Update` finds each block's start by aligning the cursor left by the
   * previous block; that start is `EntityOffset`.
   */
  lemma NextEntityOffset(alignment: u32, k: nat)
    requires IsPowerOf2(alignment)
    ensures RoundUp(EntityBlocksEnd(alignment, k), alignment) == EntityOffset(alignment, k)
  {
    var m := EntityStride(alignment);
    EntityStrideAligned(alignment);
    EntityOffsetAligned(alignment, k);
    if k == 0 {
      RoundUpUnique(0, alignment, 0);
    } else {
      assert k * m == (k - 1) * m + m;
      RoundUpUnique(EntityBlocksEnd(alignment, k), alignment, k * m);
    }
  }

  /** The cursor grows with the number of entities. */
  lemma EntityBlocksGrow(alignment: u32, n: nat)
    ensures EntityBlocksEnd(alignment, n) <= EntityBlocksEnd(alignment, n + 1)
  {
    if n > 0 {
      EntityBlocksDisjoint(alignment, n - 1, n);
    }
  }

  /** The cursor after `j` entities is at most the cursor after `k >= j` entities. */
  lemma EntityBlocksLater(alignment: u32, j: nat, k: nat)
    requires j <= k
    ensures EntityBlocksEnd(alignment, j) <= EntityBlocksEnd(alignment, k)
  {
    if 0 < j < k {
      EntityBlocksDisjoint(alignment, j - 1, k - 1);
    }
  }

  /**
   * Where the entity loop's alignment puts entity `k`: the cursor after `k`
   * blocks rounds up to `EntityOffset(k)` without overflowing, that offset is
   * a vec4 boundary, and the entity's block ends where `k + 1` blocks end.
   */
  lemma EntitySlot(alignment: u32, k: nat)
    requires IsPowerOf2(alignment)
    ensures RoundUp(EntityBlocksEnd(alignment, k), alignment) == EntityOffset(alignment, k)
    ensures EntityOffset(alignment, k) % 16 == 0
    ensures EntityOffset(alignment, k) + LOCAL_PARAMS_SIZE == EntityBlocksEnd(alignment, k + 1)
    ensures k > 0 ==> EntityBlocksEnd(alignment, k) + alignment - 1 < EntityBlocksEnd(alignment, k + 1)
  {
    var m := EntityStride(alignment);
    EntityStrideAligned(alignment);
    EntityOffsetAligned(alignment, k);
    NextEntityOffset(alignment, k);
    if k > 0 {
      assert k * m == (k - 1) * m + m;
    }
  }


  /** The two matrix pushes of one entity block at `offset` (already aligned). */
  function PackEntity(d: seq<byte>, offset: nat, world: Mat4, worldViewProjection: Mat4): (r: seq<byte>)
    requires offset + LOCAL_PARAMS_SIZE <= |d|
    ensures |r| == |d|
  {
    Overwrite(Overwrite(d, offset, world), offset + 64, worldViewProjection)
  }

  /** `d` after the blocks of the first `n` entities have been pushed. */
  function PackedEntities(d: seq<byte>, alignment: u32, world: seq<Mat4>, worldViewProjection: seq<Mat4>, n: nat): (r: seq<byte>)
    requires n <= |world| && n <= |worldViewProjection| && EntityBlocksEnd(alignment, n) <= |d|
    ensures |r| == |d|
    decreases n
  {
    if n == 0 then d
    else
      EntityBlocksGrow(alignment, n - 1);
      EntityBlocksDisjoint(alignment, n - 1, n - 1 + 1);
      PackEntity(PackedEntities(d, alignment, world, worldViewProjection, n - 1),
        EntityOffset(alignment, n - 1), world[n - 1], worldViewProjection[n - 1])
  }

  lemma PackEntityLayout(d: seq<byte>, offset: nat, world: Mat4, worldViewProjection: Mat4)
    requires offset + LOCAL_PARAMS_SIZE <= |d|
    ensures EntityBlockAt(PackEntity(d, offset, world, worldViewProjection), offset, world, worldViewProjection)
    ensures PackEntity(d, offset, world, worldViewProjection)[..offset] == d[..offset]
    ensures PackEntity(d, offset, world, worldViewProjection)[offset + 128..] == d[offset + 128..]
  {
    var d1 := Overwrite(d, offset, world);
    OverwriteAt(d, offset, world);
    OverwriteAt(d1, offset + 64, worldViewProjection);
    OverwriteElsewhere(d1, offset + 64, worldViewProjection, offset, offset + 64);
    OverwriteElsewhere(d, offset, world, 0, offset);
    OverwriteElsewhere(d1, offset + 64, worldViewProjection, 0, offset);
    OverwriteElsewhere(d, offset, world, offset + 128, |d|);
    OverwriteElsewhere(d1, offset + 64, worldViewProjection, offset + 128, |d|);
  }

  /**
   * After `n` entity blocks are pushed, block `k` holds entity `k`'s two
   * matrices at `EntityOffset(alignment, k)`.
   */
  lemma {:induction false} PackedEntitiesLayout(d: seq<byte>, alignment: u32, world: seq<Mat4>, worldViewProjection: seq<Mat4>, n: nat)
    requires n <= |world| && n <= |worldViewProjection| && EntityBlocksEnd(alignment, n) <= |d|
    ensures forall k :: 0 <= k < n ==>
      EntityBlockAt(PackedEntities(d, alignment, world, worldViewProjection, n), EntityOffset(alignment, k), world[k], worldViewProjection[k])
  {
    if n > 0 {
      EntityBlocksGrow(alignment, n - 1);
      var prev := PackedEntities(d, alignment, world, worldViewProjection, n - 1);
      var r := PackedEntities(d, alignment, world, worldViewProjection, n);
      var offset := EntityOffset(alignment, n - 1);
      PackedEntitiesLayout(d, alignment, world, worldViewProjection, n - 1);
      PackEntityLayout(prev, offset, world[n - 1], worldViewProjection[n - 1]);
      forall k | 0 <= k < n - 1
        ensures EntityBlockAt(r, EntityOffset(alignment, k), world[k], worldViewProjection[k])
      {
        var o := EntityOffset(alignment, k);
        EntityBlocksDisjoint(alignment, k, n - 1);
        PrefixAgrees(prev, r, offset, o, o + 64);
        PrefixAgrees(prev, r, offset, o + 64, o + 128);
      }
    }
  }

  /** Pushing `n` entity blocks changes nothing past the last block. */
  lemma {:induction false} PackedEntitiesOutside(d: seq<byte>, alignment: u32, world: seq<Mat4>, worldViewProjection: seq<Mat4>, n: nat)
    requires n <= |world| && n <= |worldViewProjection| && EntityBlocksEnd(alignment, n) <= |d|
    ensures PackedEntities(d, alignment, world, worldViewProjection, n)[EntityBlocksEnd(alignment, n)..] == d[EntityBlocksEnd(alignment, n)..]
  {
    if n > 0 {
      EntityBlocksGrow(alignment, n - 1);
      var prev := PackedEntities(d, alignment, world, worldViewProjection, n - 1);
      PackedEntitiesOutside(d, alignment, world, worldViewProjection, n - 1);
      PackEntityLayout(prev, EntityOffset(alignment, n - 1), world[n - 1], worldViewProjection[n - 1]);
      if n - 1 > 0 {
        EntityBlocksDisjoint(alignment, n - 2, n - 1);
      }
      SuffixAgrees(prev, d, EntityBlocksEnd(alignment, n - 1), EntityBlocksEnd(alignment, n));
    }
  }
}
