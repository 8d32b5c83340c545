/**
 * FindVAO of Engine/Code/engine.cpp: every submesh keeps a cache of the
 * vertex arrays built for it, one per program. A lookup scans the cache
 * for the program; on a miss it builds a vertex array by linking each
 * attribute the program's vertex shader reads to the first attribute of
 * the submesh's vertex buffer with the same location, and appends it.
 * The GL name of a new vertex array is a parameter; the attribute-pointer
 * calls the linking issues are returned as values.
 */
module VertexArrays {
  import opened Bits
  import opened Scene

  // --------------------------------------------------------------------------
  // The cache

  /** Whether a cache entry was built for the program `programHandle`. */
  function BuiltFor(programHandle: u32): (p: Vao -> bool)
  {
    (v: Vao) => v.programHandle == programHandle
  }

  /** The handle a cache scan returns for a program, if the cache has an entry for it. */
  function CachedVao(vaos: seq<Vao>, programHandle: u32): (r: Option<u32>)
    ensures r.Some? <==> exists i :: 0 <= i < |vaos| && vaos[i].programHandle == programHandle
    ensures r.Some? ==> exists i :: 0 <= i < |vaos| && vaos[i].programHandle == programHandle && vaos[i].handle == r.value
  {
    match FirstIndex(vaos, BuiltFor(programHandle))
    case None => None
    case Some(i) => Some(vaos[i].handle)
  }

  /** The cache after a lookup for `programHandle` that would create `newHandle` on a miss. */
  function VaoCacheAfter(vaos: seq<Vao>, programHandle: u32, newHandle: u32): (r: seq<Vao>)
  {
    if CachedVao(vaos, programHandle).Some? then vaos else vaos + [Vao(newHandle, programHandle)]
  }

  /** At most one entry per program. */
  predicate OneVaoPerProgram(vaos: seq<Vao>)
  {
    forall i, j :: 0 <= i < j < |vaos| ==> vaos[i].programHandle != vaos[j].programHandle
  }

  /**
   * After a lookup the cache answers for the program: with the entry it
   * already had, or with the new one.
   */
  lemma CacheHitsAfterLookup(vaos: seq<Vao>, programHandle: u32, newHandle: u32)
    ensures CachedVao(VaoCacheAfter(vaos, programHandle, newHandle), programHandle)
      == if CachedVao(vaos, programHandle).Some? then CachedVao(vaos, programHandle) else Some(newHandle)
  {
    if CachedVao(vaos, programHandle).None? {
      var after := vaos + [Vao(newHandle, programHandle)];
      FirstIndexOf(after, BuiltFor(programHandle), |vaos|);
    }
  }

  /** A second lookup for the same program changes nothing, whatever handle it would have created. */
  lemma LookupIdempotent(vaos: seq<Vao>, programHandle: u32, newHandle: u32, otherHandle: u32)
    ensures VaoCacheAfter(VaoCacheAfter(vaos, programHandle, newHandle), programHandle, otherHandle)
      == VaoCacheAfter(vaos, programHandle, newHandle)
  {
    CacheHitsAfterLookup(vaos, programHandle, newHandle);
  }

  /** A lookup never changes what the cache answers for another program. */
  lemma LookupKeepsOtherPrograms(vaos: seq<Vao>, programHandle: u32, newHandle: u32, other: u32)
    requires other != programHandle
    ensures CachedVao(VaoCacheAfter(vaos, programHandle, newHandle), other) == CachedVao(vaos, other)
  {
    var after := VaoCacheAfter(vaos, programHandle, newHandle);
    match FirstIndex(vaos, BuiltFor(other))
    case None =>
      assert forall j :: 0 <= j < |after| ==> after[j].programHandle != other;
    case Some(i) =>
      FirstIndexOf(after, BuiltFor(other), i);
  }

  /** Lookups keep the cache free of duplicate programs. */
  lemma LookupKeepsOneVaoPerProgram(vaos: seq<Vao>, programHandle: u32, newHandle: u32)
    requires OneVaoPerProgram(vaos)
    ensures OneVaoPerProgram(VaoCacheAfter(vaos, programHandle, newHandle))
  {
  }

  // --------------------------------------------------------------------------
  // Attribute linking

  /** One `glVertexAttribPointer` call (with its `glEnableVertexAttribArray(index)`). */
  datatype AttribPointer = AttribPointer(index: u32, componentCount: u32, stride: u32, offset: u32)

  /** Whether a vertex-buffer attribute sits at `location`. */
  function AtLocation(location: u32): (p: VertexBufferAttribute -> bool)
  {
    (a: VertexBufferAttribute) => a.location == location
  }

  /** The position of the first vertex-buffer attribute at `location`, as the inner linking loop finds it. */
  function MatchingAttribute(layout: VertexBufferLayout, location: u32): (r: Option<nat>)
  {
    FirstIndex(layout.attributes, AtLocation(location))
  }

  /** A match is the first vertex-buffer attribute at the location. */
  lemma MatchingAttributeIsFirst(layout: VertexBufferLayout, location: u32)
    requires MatchingAttribute(layout, location).Some?
    ensures var j := MatchingAttribute(layout, location).value;
      j < |layout.attributes| && layout.attributes[j].location == location
      && forall k :: 0 <= k < j ==> layout.attributes[k].location != location
  {
    var j := MatchingAttribute(layout, location).value;
    assert AtLocation(location)(layout.attributes[j]);
    assert forall k :: 0 <= k < j ==> !AtLocation(location)(layout.attributes[k]);
  }

  /** Every attribute the shader reads has a vertex-buffer attribute at its location. */
  predicate Linkable(submesh: Submesh, attributes: seq<VertexShaderAttribute>)
  {
    forall i :: 0 <= i < |attributes| ==> MatchingAttribute(submesh.vertexBufferLayout, attributes[i].location).Some?
  }

  /**
   * The pointer set up for a vertex-buffer attribute: its location and
   * component count, the layout's stride, and its offset moved by the
   * submesh's offset in the shared vertex buffer (a `u32` sum).
   */
  function PointerFor(submesh: Submesh, attribute: VertexBufferAttribute): (p: AttribPointer)
  {
    AttribPointer(attribute.location, attribute.componentCount, submesh.vertexBufferLayout.stride,
      Wrap32(attribute.offset + submesh.vertexOffset))
  }

  /** The pointers the linking loop sets up for `attributes`, in order. */
  function LinkedPointers(submesh: Submesh, attributes: seq<VertexShaderAttribute>): (links: seq<AttribPointer>)
    requires Linkable(submesh, attributes)
    ensures |links| == |attributes|
  {
    if |attributes| == 0 then []
    else
      var last := attributes[|attributes| - 1];
      var j := MatchingAttribute(submesh.vertexBufferLayout, last.location).value;
      LinkedPointers(submesh, attributes[..|attributes| - 1]) + [PointerFor(submesh, submesh.vertexBufferLayout.attributes[j])]
  }

  /**
   * Each linked pointer feeds the location its shader attribute reads,
   * from the matching vertex-buffer attribute (the first one at that
   * location, by `MatchingAttributeIsFirst`): its component count, its
   * offset plus the submesh's vertex offset, and the layout's stride.
   */
  lemma {:induction false} LinkedPointersMatch(submesh: Submesh, attributes: seq<VertexShaderAttribute>, i: nat)
    requires Linkable(submesh, attributes) && i < |attributes|
    ensures var layout := submesh.vertexBufferLayout;
      var location := attributes[i].location;
      var matched := layout.attributes[MatchingAttribute(layout, location).value];
      LinkedPointers(submesh, attributes)[i]
        == AttribPointer(location, matched.componentCount, layout.stride, Wrap32(matched.offset + submesh.vertexOffset))
  {
    var n := |attributes|;
    var prefix := attributes[..n - 1];
    if i < n - 1 {
      assert Linkable(submesh, prefix) by {
        assert forall k :: 0 <= k < n - 1 ==> prefix[k] == attributes[k];
      }
      LinkedPointersMatch(submesh, prefix, i);
      assert LinkedPointers(submesh, attributes)[i] == LinkedPointers(submesh, prefix)[i];
    }
  }

  /**
   * The linking loop of FindVAO: for each shader attribute, in order, the
   * first vertex-buffer attribute at its location is found and a pointer
   * set up from it. The source asserts every search succeeds.
   */
  method LinkAttributes(submesh: Submesh, attributes: seq<VertexShaderAttribute>) returns (links: seq<AttribPointer>)
    requires |attributes| <= UINT32_MAX && |submesh.vertexBufferLayout.attributes| <= UINT32_MAX
    requires Linkable(submesh, attributes)
    ensures links == LinkedPointers(submesh, attributes)
  {
    var layout := submesh.vertexBufferLayout;
    links := [];
    var a := 0;
    while a < |attributes|
      invariant a <= |attributes|
      invariant Linkable(submesh, attributes[..a])
      invariant links == LinkedPointers(submesh, attributes[..a])
    {
      assert attributes[..a + 1][..a] == attributes[..a];
      var linked := false;
      var j := 0;
      while j < |layout.attributes|
        invariant j <= |layout.attributes|
        invariant !linked ==> forall k :: 0 <= k < j ==> layout.attributes[k].location != attributes[a].location
        invariant links == LinkedPointers(submesh, attributes[..if linked then a + 1 else a])
      {
        if attributes[a].location == layout.attributes[j].location {
          FirstIndexOf(layout.attributes, AtLocation(attributes[a].location), j);
          links := links + [PointerFor(submesh, layout.attributes[j])];
          linked := true;
          break;
        }
        j := j + 1;
      }
      assert linked;
      a := a + 1;
    }
    assert attributes[..a] == attributes;
  }

  // --------------------------------------------------------------------------
  // FindVAO

  /**
   * FindVAO: the handle of the submesh's vertex array for `program`. On a
   * hit the cached handle is returned and nothing changes; on a miss every
   * shader attribute is linked (the source asserts each one finds a
   * match), and `newHandle` is appended to the cache and returned along
   * with the pointers it set up.
   */
  method FindVAO(mesh: Mesh, submeshIndex: nat, program: Program, newHandle: u32)
    returns (vaoHandle: u32, links: seq<AttribPointer>)
    requires submeshIndex < |mesh.submeshes|
    requires |mesh.submeshes[submeshIndex].vaos| <= UINT32_MAX
    requires |program.vertexInputLayout.attributes| <= UINT32_MAX
    requires |mesh.submeshes[submeshIndex].vertexBufferLayout.attributes| <= UINT32_MAX
    requires CachedVao(mesh.submeshes[submeshIndex].vaos, program.handle).None? ==>
      Linkable(mesh.submeshes[submeshIndex], program.vertexInputLayout.attributes)
    modifies mesh
    ensures var submesh := old(mesh.submeshes[submeshIndex]);
      mesh.submeshes == old(mesh.submeshes)[submeshIndex := submesh.(vaos := VaoCacheAfter(submesh.vaos, program.handle, newHandle))]
    ensures var submesh := old(mesh.submeshes[submeshIndex]);
      match CachedVao(submesh.vaos, program.handle)
      case Some(cached) => vaoHandle == cached && links == []
      case None => vaoHandle == newHandle && links == LinkedPointers(submesh, program.vertexInputLayout.attributes)
  {
    var submesh := mesh.submeshes[submeshIndex];
    var i := 0;
    while i < |submesh.vaos|
      invariant i <= |submesh.vaos|
      invariant forall j :: 0 <= j < i ==> submesh.vaos[j].programHandle != program.handle
      invariant mesh.submeshes == old(mesh.submeshes)
    {
      if submesh.vaos[i].programHandle == program.handle {
        FirstIndexOf(submesh.vaos, BuiltFor(program.handle), i);
        assert mesh.submeshes[submeshIndex := submesh] == mesh.submeshes;
        return submesh.vaos[i].handle, [];
      }
      i := i + 1;
    }

    links := LinkAttributes(submesh, program.vertexInputLayout.attributes);
    vaoHandle := newHandle;
    mesh.submeshes := mesh.submeshes[submeshIndex := submesh.(vaos := submesh.vaos + [Vao(vaoHandle, program.handle)])];
  }
}
