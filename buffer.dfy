/**
 * The aligned write buffer of Engine/Code/engine.cpp: a uniform buffer
 * object whose storage is mapped into host memory and filled through a
 * write cursor `head` that every push first rounds up to a power-of-two
 * alignment.
 */
module Buffers {
  import opened Bits
  import opened Bytes

  /** `sizeof(vec4)`: the alignment of vec3, vec4 and matrix pushes. */
  const VEC4_SIZE: u32 := 16

  /** `sizeof(u32)`: the alignment of PushUInt. */
  const UINT_SIZE: u32 := 4

  class Buffer {
    /** The GL buffer name (opaque). */
    const handle: u32
    /** Capacity in bytes, fixed when the buffer is created. */
    const size: u32
    /** The buffer's storage, as glMapBuffer exposes it to the host. */
    const data: array<byte>
    /** Whether `buffer.data` holds a mapped pointer (is not NULL). */
    var mapped: bool
    /** The write cursor: the number of bytes written so far in this mapping. */
    var head: u32

    ghost predicate Valid()
      reads this
    {
      data.Length == size
    }

    /** CreateBuffer: a zero-initialised `Buffer` record of the given size, not yet mapped. */
    constructor (size: u32, handle: u32)
      ensures Valid() && fresh(data)
      ensures this.size == size && this.handle == handle
      ensures !mapped && head == 0
    {
      this.size := size;
      this.handle := handle;
      data := new byte[size];
      mapped := false;
      head := 0;
    }

    /** MapBuffer: exposes the storage to the host and rewinds the cursor. */
    method MapBuffer()
      requires Valid()
      modifies this`mapped, this`head
      ensures Valid() && mapped && head == 0
    {
      mapped := true;
      head := 0;
    }

    /**
     * AlignHead: rounds the cursor up to `alignment`, which must be a power
     * of two. The cursor never moves back.
     */
    method AlignHead(alignment: u32)
      requires IsPowerOf2(alignment)
      requires head + alignment - 1 <= UINT32_MAX
      modifies this`head
      ensures head == RoundUp(old(head), alignment)
      ensures old(head) <= head < old(head) + alignment && head % alignment == 0
    {
      AlignRoundsUp(head, alignment);
      AlignArithmetic(head, alignment);
      head := Align(head, alignment);
    }

    /**
     * PushAlignedData: aligns the cursor, copies `bytes` there and moves the
     * cursor past them. The source does not check the capacity; the copy
     * must fit the buffer.
     */
    method PushAlignedData(bytes: seq<byte>, alignment: u32)
      requires Valid() && mapped
      requires IsPowerOf2(alignment) && head + alignment - 1 <= UINT32_MAX
      requires RoundUp(head, alignment) + |bytes| <= size
      modifies this`head, data
      ensures Valid()
      ensures head == RoundUp(old(head), alignment) + |bytes|
      ensures data[..] == Overwrite(old(data[..]), RoundUp(old(head), alignment), bytes)
    {
      AlignHead(alignment);
      forall i | 0 <= i < |bytes| {
        data[head + i] := bytes[i];
      }
      assert data[..] == Overwrite(old(data[..]), head, bytes);
      head := head + |bytes|;
    }

    /** PushUInt: a `u32` at 4-byte alignment. */
    method PushUInt(v: u32)
      requires Valid() && mapped
      requires head + UINT_SIZE - 1 <= UINT32_MAX && RoundUp(head, UINT_SIZE) + 4 <= size
      modifies this`head, data
      ensures Valid()
      ensures head == RoundUp(old(head), UINT_SIZE) + 4
      ensures data[..] == Overwrite(old(data[..]), RoundUp(old(head), UINT_SIZE), U32Bytes(v))
    {
      IsPowerOf2OfPow2(2);
      PushAlignedData(U32Bytes(v), UINT_SIZE);
    }

    /** PushVec3: the 12 bytes of a vec3 at vec4 (16-byte) alignment. */
    method PushVec3(v: Vec3)
      requires Valid() && mapped
      requires head + VEC4_SIZE - 1 <= UINT32_MAX && RoundUp(head, VEC4_SIZE) + 12 <= size
      modifies this`head, data
      ensures Valid()
      ensures head == RoundUp(old(head), VEC4_SIZE) + 12
      ensures data[..] == Overwrite(old(data[..]), RoundUp(old(head), VEC4_SIZE), v)
    {
      IsPowerOf2OfPow2(4);
      PushAlignedData(v, VEC4_SIZE);
    }

    /** PushMat4: the 64 bytes of a mat4 at vec4 (16-byte) alignment. */
    method PushMat4(m: Mat4)
      requires Valid() && mapped
      requires head + VEC4_SIZE - 1 <= UINT32_MAX && RoundUp(head, VEC4_SIZE) + 64 <= size
      modifies this`head, data
      ensures Valid()
      ensures head == RoundUp(old(head), VEC4_SIZE) + 64
      ensures data[..] == Overwrite(old(data[..]), RoundUp(old(head), VEC4_SIZE), m)
    {
      IsPowerOf2OfPow2(4);
      PushAlignedData(m, VEC4_SIZE);
    }
  }
}
