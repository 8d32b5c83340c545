# Renderer core of Engine/Code/engine.cpp, in Dafny

This project models the parts of the deferred OpenGL renderer in
`Engine/Code/engine.cpp` that are logic, not driver calls. Each part is
proved against a specification.

- **Aligned write buffer** (`buffer.dfy`, `bits.dfy`, `bytes.dfy`)
  - `IsPowerOf2` and `Align` are written out as 32-bit unsigned arithmetic. `&` is defined bit by bit over naturals, and `~x` on a u32 is `UINT32_MAX - x`.
  - `Buffer` is a class. Its storage is an `array<byte>`, and `head` is its write cursor.
  - `MapBuffer` rewinds the cursor. `AlignHead` rounds the cursor up to the next multiple of a power-of-two alignment.
  - `PushAlignedData` aligns the cursor, copies bytes there (the `memcpy`) and advances the cursor. `PushUInt`, `PushVec3` and `PushMat4` are the macros built on it.
- **Per-frame uniform packing** in `Update` (`engine.cpp`, `uniform_layout.dfy`).
  - The global block holds the camera position, the light count and one record per light, 64 bytes apart. The last record occupies 60 bytes, so a block with K ≥ 1 lights is 12 + 64K bytes long (16 bytes with none).
  - Each entity gets a block with its two matrices, at the binding alignment the GPU reports. Its offset and size are written back into the entity.
  - The byte layout is stated as pure functions over byte strings. The imperative loops are proved to produce exactly those strings.
  - The global block is read back by an independent decoder, which proves the round trip.
- **Vertex-array cache and attribute linking** (`FindVAO`, in `vertex_arrays.dfy`).
  - Each submesh keeps a list of (program, vertex array) pairs. It is scanned linearly and appended to on a miss.
  - Each shader attribute is linked to the first vertex-buffer attribute at the same location.
- **Texture cache by path** (`LoadTexture2D`, in `engine.dfy`): a linear scan, then an append, or the `UINT32_MAX` sentinel when decoding fails.
- **Render-target selection** in `Render` (`render.dfy`).
  - The deferred pass runs only in render mode 1.
  - The final quad samples one attachment per `renderTarget`, and `isDepth` is set for the depth target.

GL object names are opaque `u32` values. Float vectors and matrices are opaque byte payloads: a vec3 is 12 bytes and a mat4 is 64 bytes. A `u32` is stored as four bytes, least significant first, as `memcpy` lays it out on a little-endian host.

The source's fatal asserts become preconditions:
- `ASSERT(IsPowerOf2(alignment))` in `AlignHead`;
- `ASSERT(buffer.data != NULL)` in `PushAlignedData`;
- `assert(attributeWasLinked)` in `FindVAO`.

`Mesh`, `Entity` and `Light` follow `mesh.h`, `entity.h` and `Light.h` field for field. `Submesh` (`mesh.h`) omits the CPU-side `vertices` and `indices` arrays, and `Framebuffer` (`framebuffer.h`) omits `framebufferStatus`, because the modelled code never reads them. `vertex.h` is not part of this model. The vertex layout records (`VertexBufferLayout`, `VertexShaderLayout`, `Vao`) have only the fields `engine.cpp` uses.

## Model

| member | source | states |
|---|---|---|
| Bits.IsPowerOf2 | Engine/Code/engine.cpp:232-235 | the source's test: `value` is nonzero and shares no bit with `value - 1`; the lemmas below say which values pass |
| Bits.IsPowerOf2IffOneBitSet | Engine/Code/engine.cpp:232-235 | `IsPowerOf2(v)` holds exactly when `v` is nonzero and has one bit set |
| Bits.PowerOf2IsPow2 | Engine/Code/engine.cpp:232-235 | a value `IsPowerOf2` accepts is `2^k` for some `k < 32` |
| Bits.IsPowerOf2OfPow2 | Engine/Code/engine.cpp:232-235 | every `2^k` with `k < 32` fits a u32 and passes `IsPowerOf2` |
| Bits.Pow2LowBitsClear | Engine/Code/engine.cpp:234 | a power of two shares no bit with the value one below it |
| Bits.Align | Engine/Code/engine.cpp:237-240 | the source's formula: `value + alignment - 1` and `alignment - 1` each wrapped to u32, then the first masked with the complement of the second; the lemmas below say what it rounds to |
| Bits.MaskLowBits | Engine/Code/engine.cpp:237-240 | for `x < 2^n`, `x & (2^n - 2^k)` is `x` rounded down to a multiple of `2^k` |
| Bits.AlignArithmetic | Engine/Code/engine.cpp:237-240 | without overflow, the bit-mask `Align` equals round-up-by-division to a multiple of the alignment |
| Bits.AlignRoundsUp | Engine/Code/engine.cpp:237-240 | `Align(v, a)` is a multiple of `a` in `[v, v + a)` |
| Bits.AlignIsLeast | Engine/Code/engine.cpp:237-240 | no multiple of `a` at or above `v` lies below `Align(v, a)` |
| Bits.AlignUnique | Engine/Code/engine.cpp:237-240 | the only multiple of `a` in `[v, v + a)` is `Align(v, a)` |
| Bits.AlignIdempotent | Engine/Code/engine.cpp:237-240 | aligning an aligned value changes nothing |
| Bits.RoundUpUnique | Engine/Code/engine.cpp:237-240 | the division form of rounding up is the unique multiple of `a` in `[v, v + a)` |
| Bits.RoundUpBounds | Engine/Code/engine.cpp:237-240 | the division form of rounding up gives a multiple of `a` in `[v, v + a)` |
| Bits.PowerOf2Divides | Engine/Code/engine.cpp:232-235 | of two powers of two, the smaller divides the larger |
| Bytes.DecodeU32Encode | Engine/Code/engine.cpp:293 | reading back the four bytes `PushUInt` copies gives the original value |
| Bytes.EncodeDecodeU32 | Engine/Code/engine.cpp:293 | every four bytes are the copy of exactly one u32 |
| Bytes.OverwriteAt | Engine/Code/engine.cpp:288 | after a `memcpy`, the target range holds the copied bytes and every other byte is unchanged |
| Bytes.OverwriteElsewhere | Engine/Code/engine.cpp:288 | a range disjoint from the copied one reads as before |
| Scene.FirstIndex | Engine/Code/engine.cpp:157-159 | the result is the first index where the predicate holds, or none when it holds nowhere |
| Scene.LightTypeOfCode | Engine/Code/Light.h:5-9 | exactly the codes 0 and 1 name light types, and they name the enumerator with that value |
| Buffers.Buffer.constructor | Engine/Code/engine.cpp:242-254 | a new buffer has the given size and handle, is unmapped and has its cursor at 0 |
| Buffers.Buffer.MapBuffer | Engine/Code/engine.cpp:265-270 | the buffer is mapped and its cursor is back at 0 |
| Buffers.Buffer.AlignHead | Engine/Code/engine.cpp:278-282 | the cursor becomes the least multiple of the alignment at or above the old cursor, so it never moves back |
| Buffers.Buffer.PushAlignedData | Engine/Code/engine.cpp:284-290 | the bytes land at the aligned cursor, every other byte is unchanged, and the cursor ends just past them |
| Buffers.Buffer.PushUInt | Engine/Code/engine.cpp:293 | a u32's four bytes land at the next multiple of 4 |
| Buffers.Buffer.PushVec3 | Engine/Code/engine.cpp:294 | a vec3's 12 bytes land at the next multiple of 16 |
| Buffers.Buffer.PushMat4 | Engine/Code/engine.cpp:297 | a mat4's 64 bytes land at the next multiple of 16 |
| UniformLayout.PackLightLayout | Engine/Code/engine.cpp:648-651 | one light's pushes put its type at +0, color at +16, direction at +32 and position at +48, and touch nothing outside its 60 bytes |
| UniformLayout.PackedLightsLayout | Engine/Code/engine.cpp:643-652 | after the light loop, light `i` sits at `16 + 64 i` |
| UniformLayout.PackedLightsOutside | Engine/Code/engine.cpp:643-652 | the light loop leaves the 16-byte header and everything past the block unchanged |
| UniformLayout.HeaderLayout | Engine/Code/engine.cpp:639-641 | the camera position fills bytes 0..12 and the light count bytes 12..16 |
| UniformLayout.PackedGlobalsHolds | Engine/Code/engine.cpp:635-654 | the packed global block holds the camera position, the count and every light where the layout says, and nothing past it changed |
| UniformLayout.LightSlot | Engine/Code/engine.cpp:645 | aligning the cursor after `i` lights to 16 gives `16 + 64 i`, and that light's record ends where the block for `i + 1` lights ends |
| UniformLayout.UnpackGlobalsInverts | Engine/Code/engine.cpp:635-654 | a buffer holding a global block decodes to exactly its camera position and lights |
| UniformLayout.UnpackGlobalsSound | Engine/Code/engine.cpp:635-654 | whatever decodes is laid out as a global block holding the decoded values |
| UniformLayout.PackUnpackGlobals | Engine/Code/engine.cpp:635-654 | decoding the packed global block gives back the camera position and the lights |
| UniformLayout.UnpackLightsOf | Engine/Code/engine.cpp:643-652 | light records in place decode to those lights |
| UniformLayout.LightAtUnpacks | Engine/Code/engine.cpp:648-651 | a light record reads back as exactly that light |
| UniformLayout.UnpackedLightAt | Engine/Code/engine.cpp:648-651 | a record that reads back holds the light it reads as, byte for byte |
| UniformLayout.UnpackedLightsAt | Engine/Code/engine.cpp:643-652 | decoded lights are laid out where `LightOffset` says |
| UniformLayout.EntityStrideAligned | Engine/Code/engine.cpp:662-674 | the distance between entity blocks is a multiple of the binding alignment and of 16, at least 128 and less than 128 plus the alignment |
| UniformLayout.EntityOffsetAligned | Engine/Code/engine.cpp:662-668 | every entity offset is a multiple of the binding alignment and of 16 |
| UniformLayout.EntityBlocksDisjoint | Engine/Code/engine.cpp:660-675 | an earlier entity's 128 bytes end at or before a later entity's offset |
| UniformLayout.NextEntityOffset | Engine/Code/engine.cpp:662 | aligning the cursor after `k` blocks gives entity `k`'s offset |
| UniformLayout.EntitySlot | Engine/Code/engine.cpp:662-674 | aligning after `k` blocks cannot overflow, lands on a vec4 boundary, and the block then ends where `k + 1` blocks end |
| UniformLayout.EntityBlocksLater | Engine/Code/engine.cpp:660-675 | the cursor after `j` blocks is no further than after `k >= j` blocks |
| UniformLayout.PackEntityLayout | Engine/Code/engine.cpp:670-672 | an entity's world matrix lands at its offset and its world-view-projection 64 bytes later, with nothing else changed |
| UniformLayout.PackedEntitiesLayout | Engine/Code/engine.cpp:660-675 | after the entity loop, every entity's matrices are at its offset |
| UniformLayout.PackedEntitiesOutside | Engine/Code/engine.cpp:660-675 | the entity loop changes no byte past the last entity block |
| Engine.App.constructor | Engine/Code/engine.cpp:485-489 | two distinct uniform buffers of the maximal block size are created with the given names, both unmapped with their cursors at 0 |
| Engine.App.PackGlobals | Engine/Code/engine.cpp:635-654 | `globalParamsOffset` is 0, `globalParamsSize` is 16 for no lights and `12 + 64 K` for `K` lights, and the buffer holds the packed global block |
| Engine.PackLights | Engine/Code/engine.cpp:643-652 | the light loop leaves the cursor at the block's end and the buffer holding every light record |
| Engine.PackNextLight | Engine/Code/engine.cpp:645-651 | one turn of the light loop aligns the cursor after `i` lights to light `i`'s offset and writes its record there |
| Engine.PushLight | Engine/Code/engine.cpp:647-651 | from a vec4 boundary, one light's four pushes write its record and advance the cursor 60 bytes |
| Engine.App.PackEntities | Engine/Code/engine.cpp:658-675 | each entity's offset is its block's offset and its size 128; position and model are kept; the buffer holds every block |
| Engine.PackEntityBlocks | Engine/Code/engine.cpp:660-675 | the entity loop records every entity's range, in vector order, and packs its matrices there |
| Engine.PackEntityBlock | Engine/Code/engine.cpp:662-674 | one turn of the entity loop records the aligned cursor as the offset and 128 as the size |
| Engine.PushEntity | Engine/Code/engine.cpp:670-672 | two mat4 pushes from a vec4 boundary fill exactly 128 bytes |
| Engine.App.Update | Engine/Code/engine.cpp:632-678 | in model mode the global block is packed at offset 0; entity k's block sits at `EntityOffset(alignment, k)` = k times the stride, a multiple of the alignment, holds its matrices, is 128 bytes and ends before the next begins, and nothing past the blocks changes; both cursors end at their block's end; in any other mode nothing changes, neither the entities, the global offset and size, nor either buffer |
| Engine.App.LoadTexture2D | Engine/Code/engine.cpp:155-179 | returns the first cached texture with the path; otherwise appends one texture and returns the old length, or returns `UINT32_MAX` with the cache unchanged when decoding fails; keeps paths distinct |
| VertexArrays.CachedVao | Engine/Code/engine.cpp:185-187 | the scan answers exactly when an entry for the program exists, and returns that entry's handle |
| VertexArrays.CacheHitsAfterLookup | Engine/Code/engine.cpp:183-229 | after a lookup the cache answers for the program, with the old entry or the new handle |
| VertexArrays.LookupIdempotent | Engine/Code/engine.cpp:183-229 | a second lookup for the same program leaves the cache as the first one left it |
| VertexArrays.LookupKeepsOtherPrograms | Engine/Code/engine.cpp:226-227 | a lookup never changes what the cache answers for another program |
| VertexArrays.LookupKeepsOneVaoPerProgram | Engine/Code/engine.cpp:226-227 | the cache never holds two entries for one program |
| VertexArrays.MatchingAttributeIsFirst | Engine/Code/engine.cpp:204-217 | the inner linking loop's match is a vertex-buffer attribute at the shader attribute's location, with none at that location before it |
| VertexArrays.LinkedPointersMatch | Engine/Code/engine.cpp:200-218 | pointer `i` feeds shader attribute `i`'s location from its matching vertex-buffer attribute: that attribute's component count, the layout's stride and the attribute's offset moved by the submesh's vertex offset, wrapped to u32 |
| VertexArrays.LinkAttributes | Engine/Code/engine.cpp:200-221 | the linking loop sets up exactly the pointers of the first matches, in shader order |
| VertexArrays.FindVAO | Engine/Code/engine.cpp:181-230 | on a hit returns the cached handle and changes nothing; on a miss links every attribute, appends one entry for the program and returns the new handle |
| RenderTargets.DeferredPassRuns | Engine/Code/engine.cpp:813 | the deferred lighting pass runs when the render mode is 1 |
| RenderTargets.CompositeSource | Engine/Code/engine.cpp:868-886 | the attachment the switch on `renderTarget` binds for the final quad: target 0 shows the deferred result in render mode 1 and the G-buffer colour otherwise, targets 1 to 3 show position, normal and depth, and any other target binds nothing |
| RenderTargets.DepthFlag | Engine/Code/engine.cpp:863-888 | `isDepth` starts false and is set only in the depth case, target 3 |
| RenderTargets.CompositeBindsIffInRange | Engine/Code/engine.cpp:868-884 | a texture is bound exactly for targets 0 to 3 |
| RenderTargets.DepthFlagIffDepthSampled | Engine/Code/engine.cpp:863-888 | `isDepth` is set exactly when the depth attachment is sampled |
| RenderTargets.DeferredColorOnlyAfterDeferredPass | Engine/Code/engine.cpp:813-875 | the deferred colour is sampled exactly for target 0 when the deferred pass ran |
| RenderTargets.ModeMattersOnlyForTarget0 | Engine/Code/engine.cpp:868-884 | the render mode changes only what target 0 shows |
| RenderTargets.TargetsShowDistinctAttachments | Engine/Code/engine.cpp:868-884 | in one mode, different targets show different attachments |
| RenderTargets.DeferredPassReadsGBuffer | Engine/Code/engine.cpp:829-837 | the deferred pass reads exactly the three G-buffer colour attachments |
| RenderTargets.ColorAttachmentsDistinct | Engine/Code/engine.cpp:343-345 | the G-buffer textures occupy distinct colour attachment slots |
| RenderTargets.DepthFlagIffDepthTextureBound | Engine/Code/engine.cpp:863-888 | with distinct texture names, `glBindTexture` receives the depth texture exactly when `isDepth` is set, in every render mode |
| RenderTargets.DeferredTextureBoundOnlyAfterDeferredPass | Engine/Code/engine.cpp:813-875 | with distinct texture names, the deferred framebuffer's texture is bound exactly for target 0 in the frames where the deferred pass ran |

## Left out

- Shader compilation and linking (`CreateProgramFromSource`, `LoadProgram`): GL driver calls whose errors are only logged.
- Image decoding and texture upload (`LoadImage`, `FreeImage`, `CreateTexture2DFromImage`): in `LoadTexture2D` the decode outcome and the new GL name are parameters.
- `CreateFramebuffer`: GL calls only. Its fixed colour attachment order is recorded in `RenderTargets.ColorAttachmentIndex`.
- `Init`, apart from creating the two uniform buffers: resource setup through GL and files.
- `Gui`: ImGui widgets. Its labels put "Normals" at index 1 and "Position" at 2, while `Render` shows position for 1 and normal for 2. The model follows `Render`.
- Camera and input handling in `Update`, and every float computation. The camera position and the two matrices per entity are parameters, as opaque bytes.
- The light-gizmo loop, the `Mode_TexturedQuad` branch, the G-buffer and deferred draw calls, and all GL bind and draw calls: they only issue driver commands.
- `Mode_Count` is a sentinel enumerator, not a mode. `Mode` has the two real modes.
- `UnmapBuffer` issues GL calls only. It does not clear `data`, so `mapped` stays true after it.
- `glMapBuffer` failing is not modelled. `MapBuffer` always yields the buffer's storage.
- Buffers.Buffer.PushAlignedData: the source has no capacity check. The model requires the copy to fit the buffer and the cursor plus the alignment to stay within u32, so the wrap-around of an overflowing cursor is not modelled.
- Engine.App.Update: requires the global block and every entity block to fit their buffers, and the binding alignment to be a power of two when there are entities. The source has no capacity check and asserts the alignment.
- Engine.App.LoadTexture2D: requires fewer than `UINT32_MAX` cached textures, because otherwise the index of a new texture would equal the failure sentinel.
- VertexArrays.FindVAO: requires the cache and both attribute lists to have at most `UINT32_MAX` entries, because the source counts them with `u32` loop variables.
- `uniformBlockAligment` is a `GLint` in the source. It is modelled as the `u32` that `AlignHead` receives.
- Engine.PushLight, Engine.PackNextLight, Engine.PushEntity, Engine.PackLights, Engine.PackEntityBlock and Engine.PackEntityBlocks are the bodies of the two `Update` loops, and the loops themselves, split into methods. Entity offsets are collected in a sequence and stored back into `entities` as a whole. The source writes them through an iterator.
