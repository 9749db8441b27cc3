/**
 * A model: the de-duplication of an OBJ file's per-corner vertices into a unique-vertex
 * list and an index list, the vertex layout the pipeline reads, and the choice between
 * indexed and plain draws.
 */
module Mesh {
  import opened Vulkan

  // ---------------------------------------------------------------- vertex layout

  /** Bytes of the four attributes, `vec3` position, colour and normal and `vec2` uv. */
  const VERTEX_SIZE: nat := 44

  datatype BindingDescription = BindingDescription(binding: nat, stride: nat, perInstance: bool)

  datatype AttributeDescription = AttributeDescription(location: nat, binding: nat, format: Format, offset: nat)

  /** Bytes taken by one attribute of the formats the vertex uses. */
  function FormatSize(f: Format): nat
  {
    if f == FORMAT_R32G32B32_SFLOAT then 12 else if f == FORMAT_R32G32_SFLOAT then 8 else 0
  }

  /** One per-vertex binding, number 0, whose stride is the size of a vertex. */
  function BindingDescriptions(): (r: seq<BindingDescription>)
    ensures |r| == 1 && r[0].binding == 0 && r[0].stride == VERTEX_SIZE && !r[0].perInstance
  {
    [BindingDescription(0, VERTEX_SIZE, false)]
  }

  /**
   * Position, colour, normal and uv at locations 0..3 of binding 0; each attribute starts
   * where the previous one ends and the last ends at the end of the vertex.
   */
  function AttributeDescriptions(): (r: seq<AttributeDescription>)
    ensures |r| == 4
    ensures forall i :: 0 <= i < 4 ==> r[i].location == i && r[i].binding == BindingDescriptions()[0].binding
    ensures r[0].offset == 0
    ensures forall i :: 0 < i < 4 ==> r[i].offset == r[i - 1].offset + FormatSize(r[i - 1].format)
    ensures r[3].offset + FormatSize(r[3].format) == BindingDescriptions()[0].stride
    ensures r[3].format == FORMAT_R32G32_SFLOAT
    ensures forall i :: 0 <= i < 3 ==> r[i].format == FORMAT_R32G32B32_SFLOAT
  {
    [ AttributeDescription(0, 0, FORMAT_R32G32B32_SFLOAT, 0),
      AttributeDescription(1, 0, FORMAT_R32G32B32_SFLOAT, 12),
      AttributeDescription(2, 0, FORMAT_R32G32B32_SFLOAT, 24),
      AttributeDescription(3, 0, FORMAT_R32G32_SFLOAT, 36) ]
  }

  // ---------------------------------------------------------------- de-duplication

  /** The corners of all shapes, shape after shape. */
  function Flatten<V>(shapes: seq<seq<V>>): (r: seq<V>)
    decreases |shapes|
  {
    if shapes == [] then [] else Flatten(shapes[..|shapes| - 1]) + shapes[|shapes| - 1]
  }

  function TotalCorners<V>(shapes: seq<seq<V>>): nat
    decreases |shapes|
  {
    if shapes == [] then 0 else TotalCorners(shapes[..|shapes| - 1]) + |shapes[|shapes| - 1]|
  }

  lemma {:induction false} FlattenLength<V>(shapes: seq<seq<V>>)
    ensures |Flatten(shapes)| == TotalCorners(shapes)
    decreases |shapes|
  {
    if shapes != [] {
      FlattenLength(shapes[..|shapes| - 1]);
    }
  }

  predicate Distinct<V(==)>(s: seq<V>)
  {
    forall i, j :: 0 <= i < j < |s| ==> s[i] != s[j]
  }

  /** The first position of `v` in `s`, or `|s|` when `v` does not occur. */
  function IndexOf<V(==)>(s: seq<V>, v: V): (i: nat)
    ensures i <= |s| && (i < |s| <==> v in s)
    ensures i < |s| ==> s[i] == v
    ensures forall j :: 0 <= j < i ==> s[j] != v
  {
    if s == [] then 0 else if s[0] == v then 0 else 1 + IndexOf(s[1..], v)
  }

  datatype Dedup<V> = Dedup(vertices: seq<V>, indices: seq<nat>)

  /**
   * One corner more: a vertex not seen before is appended and indexed by its new position;
   * a vertex seen before is indexed by its existing position.
   */
  function AddVertex<V(==)>(d: Dedup<V>, v: V): (r: Dedup<V>)
    ensures |r.indices| == |d.indices| + 1 && r.indices[..|d.indices|] == d.indices
    ensures r.indices[|d.indices|] < |r.vertices| && r.vertices[r.indices[|d.indices|]] == v
    ensures r.vertices == if v in d.vertices then d.vertices else d.vertices + [v]
  {
    if v in d.vertices then Dedup(d.vertices, d.indices + [IndexOf(d.vertices, v)])
    else Dedup(d.vertices + [v], d.indices + [|d.vertices|])
  }

  /**
   * The unique vertices in order of first occurrence and, per corner, the position of its
   * vertex among them.
   */
  function Deduplicate<V(==)>(corners: seq<V>): (r: Dedup<V>)
    ensures |r.indices| == |corners|
    decreases |corners|
  {
    if corners == [] then Dedup([], [])
    else AddVertex(Deduplicate(corners[..|corners| - 1]), corners[|corners| - 1])
  }

  /** Every corner's index is in range and names that corner's vertex. */
  lemma {:induction false} DedupIndexesCorners<V>(corners: seq<V>)
    ensures forall k :: 0 <= k < |corners| ==>
      Deduplicate(corners).indices[k] < |Deduplicate(corners).vertices|
      && Deduplicate(corners).vertices[Deduplicate(corners).indices[k]] == corners[k]
    decreases |corners|
  {
    if corners != [] {
      var n := |corners| - 1;
      DedupIndexesCorners(corners[..n]);
      var d := Deduplicate(corners[..n]);
      var r := Deduplicate(corners);
      forall k | 0 <= k < n
        ensures r.indices[k] < |r.vertices| && r.vertices[r.indices[k]] == corners[k]
      {
        assert r.indices[k] == r.indices[..n][k] == d.indices[k];
        assert r.vertices[..|d.vertices|] == d.vertices;
      }
    }
  }

  /** The unique list has no repetitions. */
  lemma {:induction false} DedupDistinct<V>(corners: seq<V>)
    ensures Distinct(Deduplicate(corners).vertices)
    decreases |corners|
  {
    if corners != [] {
      DedupDistinct(corners[..|corners| - 1]);
    }
  }

  /** Every unique vertex comes from some corner. */
  lemma {:induction false} DedupFromCorners<V>(corners: seq<V>)
    ensures forall i :: 0 <= i < |Deduplicate(corners).vertices| ==> Deduplicate(corners).vertices[i] in corners
    decreases |corners|
  {
    if corners != [] {
      var shorter := corners[..|corners| - 1];
      DedupFromCorners(shorter);
      assert forall x :: x in shorter ==> x in corners;
    }
  }

  /** Every corner's vertex is kept: the unique list holds exactly the corners' vertices. */
  lemma SameVertexSet<V>(corners: seq<V>)
    ensures (set v | v in Deduplicate(corners).vertices) == (set c | c in corners)
  {
    CornersCovered(corners);
    DedupFromCorners(corners);
  }

  /** Extending the corners only appends to the unique list. */
  lemma {:induction false} DedupPrefix<V>(corners: seq<V>, n: nat)
    requires n <= |corners|
    ensures Deduplicate(corners[..n]).vertices <= Deduplicate(corners).vertices
    ensures Deduplicate(corners[..n]).indices <= Deduplicate(corners).indices
    decreases |corners| - n
  {
    if n < |corners| {
      var shorter := corners[..|corners| - 1];
      assert shorter[..n] == corners[..n];
      DedupPrefix(shorter, n);
    } else {
      assert corners[..n] == corners;
    }
  }

  /**
   * First-occurrence order: of two unique vertices, the one placed first is the one whose
   * first corner comes first.
   */
  lemma {:induction false} FirstOccurrenceOrder<V>(corners: seq<V>, i: nat, j: nat)
    requires i < j < |Deduplicate(corners).vertices|
    ensures IndexOf(corners, Deduplicate(corners).vertices[i]) < IndexOf(corners, Deduplicate(corners).vertices[j])
    decreases |corners|
  {
    var last := |corners| - 1;
    var prefix := Deduplicate(corners[..last]);
    var d := Deduplicate(corners);
    assert d == AddVertex(prefix, corners[last]);
    OldVertexKeepsIndex(corners, i);
    if j < |prefix.vertices| {
      FirstOccurrenceOrder(corners[..last], i, j);
      OldVertexKeepsIndex(corners, j);
    } else {
      NewVertexIsLast(corners);
    }
  }

  /** A vertex already present before the last corner first occurs where it did before. */
  lemma OldVertexKeepsIndex<V>(corners: seq<V>, i: nat)
    requires 0 < |corners| && i < |Deduplicate(corners[..|corners| - 1]).vertices|
    ensures Deduplicate(corners).vertices[i] == Deduplicate(corners[..|corners| - 1]).vertices[i]
    ensures IndexOf(corners, Deduplicate(corners).vertices[i])
      == IndexOf(corners[..|corners| - 1], Deduplicate(corners).vertices[i]) < |corners| - 1
  {
    var last := |corners| - 1;
    var prefix := Deduplicate(corners[..last]);
    assert Deduplicate(corners) == AddVertex(prefix, corners[last]);
    DedupFromCorners(corners[..last]);
    IndexOfPrefix(corners, last, prefix.vertices[i]);
  }

  /** Every corner's vertex is in the unique list. */
  lemma CornersCovered<V>(corners: seq<V>)
    ensures forall x :: x in corners ==> x in Deduplicate(corners).vertices
  {
    var d := Deduplicate(corners);
    DedupIndexesCorners(corners);
    forall x | x in corners
      ensures x in d.vertices
    {
      var k :| 0 <= k < |corners| && corners[k] == x;
      assert d.vertices[d.indices[k]] == x;
    }
  }

  /** A vertex appended by the last corner first occurs at the last corner. */
  lemma NewVertexIsLast<V>(corners: seq<V>)
    requires 0 < |corners| && corners[|corners| - 1] !in Deduplicate(corners[..|corners| - 1]).vertices
    ensures IndexOf(corners, corners[|corners| - 1]) == |corners| - 1
  {
    var last := |corners| - 1;
    var prefix := Deduplicate(corners[..last]);
    CornersCovered(corners[..last]);
    IndexOfLast(corners, corners[last]);
  }

  lemma IndexOfPrefix<V>(s: seq<V>, n: nat, v: V)
    requires n <= |s| && v in s[..n]
    ensures IndexOf(s, v) == IndexOf(s[..n], v)
  {
    var b := IndexOf(s[..n], v);
    assert s[b] == s[..n][b] == v;
    assert forall j :: 0 <= j < b ==> s[j] == s[..n][j];
  }

  lemma IndexOfLast<V>(s: seq<V>, v: V)
    requires |s| > 0 && s[|s| - 1] == v && v !in s[..|s| - 1]
    ensures IndexOf(s, v) == |s| - 1
  {
    assert forall j :: 0 <= j < |s| - 1 ==> s[j] == s[..|s| - 1][j];
  }

  /** A corner repeating an earlier vertex shares its index instead of adding a vertex. */
  lemma RepeatedCornerShared<V>(a: V, b: V)
    requires a != b
    ensures Deduplicate([a, b, a]) == Dedup([a, b], [0, 1, 0])
  {
    assert [a, b, a][..2] == [a, b];
    assert [a, b][..1] == [a];
    assert [a][..0] == [];
    assert Deduplicate([a]) == Dedup([a], [0]);
    assert Deduplicate([a, b]) == Dedup([a, b], [0, 1]);
    assert IndexOf([a, b], a) == 0;
  }

  /** One more corner: either a new vertex is appended or the corner reuses its vertex's position. */
  lemma DedupAppend<V>(seen: seq<V>, v: V)
    ensures Deduplicate(seen + [v]) == AddVertex(Deduplicate(seen), v)
  {
    assert (seen + [v])[..|seen|] == seen;
  }

  lemma ExtendSlice<V>(a: seq<V>, b: seq<V>, c: nat)
    requires c < |b|
    ensures a + b[..c + 1] == (a + b[..c]) + [b[c]]
  {
    assert b[..c + 1] == b[..c] + [b[c]];
  }

  /** `positions` maps each vertex of `vs` to its position there, and nothing else. */
  predicate Tracks<V(==)>(positions: map<V, nat>, vs: seq<V>)
  {
    (forall v :: v in positions ==> positions[v] < |vs| && vs[positions[v]] == v)
    && (forall v :: v in vs ==> v in positions)
  }

  /** One step of the load: the corner `vertex`, looked up in and added to `positions`. */
  method AddCorner<V(==)>(vertex: V, vs: seq<V>, ix: seq<nat>, positions: map<V, nat>)
    returns (vs': seq<V>, ix': seq<nat>, positions': map<V, nat>)
    requires Tracks(positions, vs) && Distinct(vs)
    ensures Dedup(vs', ix') == AddVertex(Dedup(vs, ix), vertex)
    ensures Tracks(positions', vs') && Distinct(vs')
  {
    if vertex !in positions {
      positions' := positions[vertex := |vs|];
      vs' := vs + [vertex];
    } else {
      positions', vs' := positions, vs;
    }
    ix' := ix + [positions'[vertex]];
  }

  /** The inner loop of the load: the corners of one shape, after the corners `seen` so far. */
  method AddShape<V(==)>(ghost seen: seq<V>, shape: seq<V>, vs: seq<V>, ix: seq<nat>, positions: map<V, nat>)
    returns (vs': seq<V>, ix': seq<nat>, positions': map<V, nat>)
    requires Deduplicate(seen) == Dedup(vs, ix) && Tracks(positions, vs)
    ensures Deduplicate(seen + shape) == Dedup(vs', ix') && Tracks(positions', vs')
  {
    vs', ix', positions' := vs, ix, positions;
    var c := 0;
    assert seen + shape[..c] == seen;
    while c < |shape|
      invariant 0 <= c <= |shape|
      invariant Deduplicate(seen + shape[..c]) == Dedup(vs', ix')
      invariant Tracks(positions', vs')
    {
      DedupAppend(seen + shape[..c], shape[c]);
      DedupDistinct(seen + shape[..c]);
      vs', ix', positions' := AddCorner(shape[c], vs', ix', positions');
      ExtendSlice(seen, shape, c);
      c := c + 1;
    }
    assert shape[..c] == shape;
  }

  /** Accumulates the unique vertices and indices of a model file. */
  class Builder<V(==)> {
    var vertices: seq<V>
    var indices: seq<nat>

    constructor ()
      ensures vertices == [] && indices == []
    {
      vertices, indices := [], [];
    }

    /**
     * Walks the corners shape by shape, appending each vertex the first time it is seen
     * and, for every corner, the index of its vertex; the lists start out empty.
     */
    method LoadModel(shapes: seq<seq<V>>)
      modifies this
      ensures vertices == Deduplicate(Flatten(shapes)).vertices
      ensures indices == Deduplicate(Flatten(shapes)).indices
    {
      var vs: seq<V> := [];
      var ix: seq<nat> := [];
      var uniqueVertices: map<V, nat> := map[];
      var s := 0;
      while s < |shapes|
        invariant 0 <= s <= |shapes|
        invariant Deduplicate(Flatten(shapes[..s])) == Dedup(vs, ix)
        invariant Tracks(uniqueVertices, vs)
      {
        vs, ix, uniqueVertices := AddShape(Flatten(shapes[..s]), shapes[s], vs, ix, uniqueVertices);
        assert shapes[..s + 1][..s] == shapes[..s];
        s := s + 1;
      }
      assert shapes[..s] == shapes;
      vertices, indices := vs, ix;
    }
  }

  datatype DrawCommand =
    | DrawIndexed(indexCount: u32, instanceCount: nat, firstIndex: nat, vertexOffset: int, firstInstance: nat)
    | Draw(vertexCount: u32, instanceCount: nat, firstVertex: nat, firstInstance: nat)

  /** A device-to-device copy from a staging buffer. */
  datatype BufferCopy = BufferCopy(source: Handle, destination: Handle, size: u64)

  /** The GPU side of a loaded model: its vertex buffer and, when there are indices, its index buffer. */
  class Model {
    var vertexCount: u32
    var indexCount: u32
    var hasIndexBuffer: bool
    var vertexBuffer: Handle
    var indexBuffer: Handle

    constructor <V(==)> (device: Device, builder: Builder<V>)
      requires |builder.vertices| % U32_MODULUS >= 3
      modifies device
      ensures vertexCount == |builder.vertices| % U32_MODULUS && vertexBuffer != Null
      ensures indexCount == |builder.indices| % U32_MODULUS
      ensures hasIndexBuffer <==> indexCount > 0
      ensures hasIndexBuffer <==> indexBuffer != Null
    {
      var vertexTotal := |builder.vertices|;
      var indexTotal := |builder.indices|;
      vertexCount, indexCount, hasIndexBuffer, vertexBuffer, indexBuffer := 0, 0, false, Null, Null;
      new;
      var _ := CreateVertexBuffers(device, vertexTotal);
      var _ := CreateIndexBuffers(device, indexTotal);
    }

    /**
     * Stages `vertexTotal` vertices and copies them to a device-local buffer; a model needs
     * at least three vertices.
     */
    method CreateVertexBuffers(device: Device, vertexTotal: nat) returns (copy: BufferCopy)
      requires vertexTotal % U32_MODULUS >= 3
      modifies this`vertexCount, this`vertexBuffer, device
      ensures vertexCount == vertexTotal % U32_MODULUS && vertexBuffer != Null
      ensures copy.destination == vertexBuffer && copy.size == (VERTEX_SIZE * vertexCount) % U64_MODULUS
    {
      vertexCount := vertexTotal % U32_MODULUS;
      var staging := device.NewHandle();
      vertexBuffer := device.NewHandle();
      copy := BufferCopy(staging, vertexBuffer, (VERTEX_SIZE * vertexCount) % U64_MODULUS);
    }

    /** Stages and copies the indices, or, when there are none, records that there is no index buffer. */
    method CreateIndexBuffers(device: Device, indexTotal: nat) returns (copy: BufferCopy)
      modifies this`indexCount, this`hasIndexBuffer, this`indexBuffer, device
      ensures indexCount == indexTotal % U32_MODULUS
      ensures hasIndexBuffer <==> indexCount > 0
      ensures hasIndexBuffer ==> indexBuffer != Null && copy.destination == indexBuffer && copy.size == 4 * indexCount
      ensures !hasIndexBuffer ==> indexBuffer == old(indexBuffer)
    {
      indexCount := indexTotal % U32_MODULUS;
      hasIndexBuffer := indexCount > 0;
      if !hasIndexBuffer {
        return BufferCopy(Null, Null, 0);
      }
      var staging := device.NewHandle();
      indexBuffer := device.NewHandle();
      copy := BufferCopy(staging, indexBuffer, 4 * indexCount);
    }

    /** An indexed draw of all indices when there is an index buffer, else a draw of all vertices. */
    method DrawModel() returns (command: DrawCommand)
      ensures command.DrawIndexed? <==> hasIndexBuffer
      ensures command == if hasIndexBuffer then DrawIndexed(indexCount, 1, 0, 0, 0) else Draw(vertexCount, 1, 0, 0)
    {
      if hasIndexBuffer {
        command := DrawIndexed(indexCount, 1, 0, 0, 0);
      } else {
        command := Draw(vertexCount, 1, 0, 0);
      }
    }
  }
}
