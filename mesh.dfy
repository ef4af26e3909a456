/**
 * Meshes as the loader builds them (a vertex list, a triangle list and one
 * material), and the two mesh utilities that work on finished meshes:
 * merging several meshes into one and mirroring a mesh along an axis.
 */
module Meshes {
  import opened Vectors

  datatype Vertex = Vertex(position: Vec3, normal: Vec3, texCoord: Vec2)

  /** glm::uvec3: three indices into the owning mesh's vertex list, in winding order. */
  datatype Tri = Tri(i0: nat, i1: nat, i2: nat)

  /** kdTexture holds the diffuse texture's file name when the material has one. */
  datatype Material = Material(kd: Vec3, ks: Vec3, shininess: real, transparency: real, kdTexture: Option<string>)

  datatype Mesh = Mesh(vertices: seq<Vertex>, triangles: seq<Tri>, material: Material)

  /** Number of values of a uint32_t; triangle indices wrap modulo this. */
  const U32Count: nat := 0x1_0000_0000

  predicate TriInBounds(t: Tri, n: nat)
  {
    t.i0 < n && t.i1 < n && t.i2 < n
  }

  /** The invariant of a mesh: every triangle index names one of its vertices. */
  predicate IndicesInBounds(m: Mesh)
  {
    forall k :: 0 <= k < |m.triangles| ==> TriInBounds(m.triangles[k], |m.vertices|)
  }

  // ---------------------------------------------------------------- mergeMeshes

  /** `tri + (unsigned)vertexOffset`: each index shifted by the offset, in uint32 arithmetic. */
  function Rebase(t: Tri, offset: nat): Tri
  {
    Tri((t.i0 + offset) % U32Count, (t.i1 + offset) % U32Count, (t.i2 + offset) % U32Count)
  }

  /**
   * Rebasing a triangle of a mesh with n vertices past `offset` vertices
   * keeps it in bounds of the offset + n vertices, even when an index wraps
   * around: a wrapped index is below 2^32, and offset + n is then above it.
   */
  lemma RebaseInBounds(t: Tri, n: nat, offset: nat)
    requires TriInBounds(t, n)
    ensures TriInBounds(Rebase(t, offset), offset + n)
  {
  }

  /** Each triangle of a list rebased past `offset` vertices. */
  function RebaseAll(ts: seq<Tri>, offset: nat): (r: seq<Tri>)
    ensures |r| == |ts|
    ensures forall i :: 0 <= i < |ts| ==> r[i] == Rebase(ts[i], offset)
  {
    seq(|ts|, i requires 0 <= i < |ts| => Rebase(ts[i], offset))
  }

  /** The vertex lists of `ms`, concatenated in order. */
  function AllVertices(ms: seq<Mesh>): seq<Vertex>
  {
    if ms == [] then [] else AllVertices(ms[..|ms| - 1]) + ms[|ms| - 1].vertices
  }

  /** The triangle lists of `ms`, concatenated, each mesh's triangles rebased past the vertices before it. */
  function AllTriangles(ms: seq<Mesh>): seq<Tri>
  {
    if ms == [] then []
    else
      var prefix := ms[..|ms| - 1];
      AllTriangles(prefix) + RebaseAll(ms[|ms| - 1].triangles, |AllVertices(prefix)|)
  }

  /** Total vertex count of meshes 0 .. k-1: where mesh k's vertices start in the merged mesh. */
  function VertexOffset(ms: seq<Mesh>, k: nat): nat
    requires k <= |ms|
  {
    |AllVertices(ms[..k])|
  }

  /** Total triangle count of meshes 0 .. k-1: where mesh k's triangles start in the merged mesh. */
  function TriangleOffset(ms: seq<Mesh>, k: nat): nat
    requires k <= |ms|
  {
    |AllTriangles(ms[..k])|
  }

  /**
   * mergeMeshes: the merged mesh takes the first mesh's material, and each
   * mesh's vertices are appended, then its triangles rebased by the number
   * of vertices that came before it.
   */
  method MergeMeshes(meshes: seq<Mesh>) returns (out: Mesh)
    requires |meshes| > 0
    ensures out.vertices == AllVertices(meshes)
    ensures out.triangles == AllTriangles(meshes)
    ensures out.material == meshes[0].material
  {
    var material := meshes[0].material;
    var vertices: seq<Vertex> := [];
    var triangles: seq<Tri> := [];
    var k := 0;
    while k < |meshes|
      invariant 0 <= k <= |meshes|
      invariant vertices == AllVertices(meshes[..k])
      invariant triangles == AllTriangles(meshes[..k])
    {
      var mesh := meshes[k];
      var vertexOffset := |vertices|;
      vertices := vertices + mesh.vertices;
      var i := 0;
      while i < |mesh.triangles|
        invariant 0 <= i <= |mesh.triangles|
        invariant triangles == AllTriangles(meshes[..k]) + RebaseAll(mesh.triangles[..i], vertexOffset)
      {
        assert mesh.triangles[..i + 1] == mesh.triangles[..i] + [mesh.triangles[i]];
        triangles := triangles + [Rebase(mesh.triangles[i], vertexOffset)];
        i := i + 1;
      }
      assert mesh.triangles[..i] == mesh.triangles;
      assert meshes[..k + 1][..k] == meshes[..k];
      k := k + 1;
    }
    assert meshes[..k] == meshes;
    out := Mesh(vertices, triangles, material);
  }

  /** Vertex i of mesh k sits at position VertexOffset(ms, k) + i of the merged vertex list. */
  lemma {:induction false} AllVerticesAt(ms: seq<Mesh>, k: nat, i: nat)
    requires k < |ms| && i < |ms[k].vertices|
    ensures VertexOffset(ms, k) + i < |AllVertices(ms)|
    ensures AllVertices(ms)[VertexOffset(ms, k) + i] == ms[k].vertices[i]
    decreases |ms|
  {
    var prefix := ms[..|ms| - 1];
    if k < |ms| - 1 {
      AllVerticesAt(prefix, k, i);
      assert prefix[..k] == ms[..k];
    } else {
      assert prefix == ms[..k];
    }
  }

  /**
   * Triangle i of mesh k sits at position TriangleOffset(ms, k) + i of the
   * merged triangle list, shifted by the vertex count of meshes 0 .. k-1.
   */
  lemma {:induction false} AllTrianglesAt(ms: seq<Mesh>, k: nat, i: nat)
    requires k < |ms| && i < |ms[k].triangles|
    ensures TriangleOffset(ms, k) + i < |AllTriangles(ms)|
    ensures AllTriangles(ms)[TriangleOffset(ms, k) + i] == Rebase(ms[k].triangles[i], VertexOffset(ms, k))
    decreases |ms|
  {
    var prefix := ms[..|ms| - 1];
    if k < |ms| - 1 {
      AllTrianglesAt(prefix, k, i);
      assert prefix[..k] == ms[..k];
    } else {
      assert prefix == ms[..k];
    }
  }

  /**
   * Merging keeps the mesh invariant: when every input's indices are in
   * bounds, the merged indices are in bounds of the merged vertex list,
   * whether or not an index wraps around.
   */
  lemma {:induction false} MergeKeepsIndicesInBounds(ms: seq<Mesh>, material: Material)
    requires forall k :: 0 <= k < |ms| ==> IndicesInBounds(ms[k])
    ensures IndicesInBounds(Mesh(AllVertices(ms), AllTriangles(ms), material))
    decreases |ms|
  {
    if ms != [] {
      var prefix := ms[..|ms| - 1];
      var last := ms[|ms| - 1];
      var offset := |AllVertices(prefix)|;
      var n := |AllVertices(ms)|;
      MergeKeepsIndicesInBounds(prefix, material);
      var rebased := RebaseAll(last.triangles, offset);
      forall i | 0 <= i < |rebased|
        ensures TriInBounds(rebased[i], n)
      {
        assert TriInBounds(last.triangles[i], |last.vertices|);
        RebaseInBounds(last.triangles[i], |last.vertices|, offset);
      }
      var all := AllTriangles(ms);
      forall t | 0 <= t < |all|
        ensures TriInBounds(all[t], n)
      {
        if t < |AllTriangles(prefix)| {
          assert all[t] == AllTriangles(prefix)[t];
          assert TriInBounds(all[t], |AllVertices(prefix)|);
        } else {
          assert all[t] == rebased[t - |AllTriangles(prefix)|];
        }
      }
    }
  }

  /**
   * When the merged vertex count fits in uint32, no index wraps, and each
   * corner of a merged triangle names the very vertex that the corner
   * named in its own mesh.
   */
  lemma MergedTriangleNamesSameVertices(ms: seq<Mesh>, k: nat, i: nat)
    requires k < |ms| && i < |ms[k].triangles| && IndicesInBounds(ms[k])
    requires |AllVertices(ms)| <= U32Count
    ensures TriangleOffset(ms, k) + i < |AllTriangles(ms)|
    ensures var t := AllTriangles(ms)[TriangleOffset(ms, k) + i];
      var o := ms[k].triangles[i];
      && TriInBounds(t, |AllVertices(ms)|)
      && AllVertices(ms)[t.i0] == ms[k].vertices[o.i0]
      && AllVertices(ms)[t.i1] == ms[k].vertices[o.i1]
      && AllVertices(ms)[t.i2] == ms[k].vertices[o.i2]
  {
    var o := ms[k].triangles[i];
    assert TriInBounds(o, |ms[k].vertices|);
    AllTrianglesAt(ms, k, i);
    RebasedNamesSameVertices(ms, k, o);
  }

  /** A triangle of mesh k, rebased past the meshes before it, names the same vertices in the merged list when nothing wraps. */
  lemma RebasedNamesSameVertices(ms: seq<Mesh>, k: nat, o: Tri)
    requires k < |ms| && TriInBounds(o, |ms[k].vertices|) && |AllVertices(ms)| <= U32Count
    ensures var t := Rebase(o, VertexOffset(ms, k));
      && TriInBounds(t, |AllVertices(ms)|)
      && AllVertices(ms)[t.i0] == ms[k].vertices[o.i0]
      && AllVertices(ms)[t.i1] == ms[k].vertices[o.i1]
      && AllVertices(ms)[t.i2] == ms[k].vertices[o.i2]
  {
    var t := Rebase(o, VertexOffset(ms, k));
    MergedCorner(ms, k, o.i0, t.i0);
    MergedCorner(ms, k, o.i1, t.i1);
    MergedCorner(ms, k, o.i2, t.i2);
  }

  /** Index x of mesh k, shifted in uint32 arithmetic past the meshes before it, names vertex x of mesh k in the merged list when nothing wraps. */
  lemma MergedCorner(ms: seq<Mesh>, k: nat, x: nat, j: nat)
    requires k < |ms| && x < |ms[k].vertices| && |AllVertices(ms)| <= U32Count
    requires j == (x + VertexOffset(ms, k)) % U32Count
    ensures j < |AllVertices(ms)| && AllVertices(ms)[j] == ms[k].vertices[x]
  {
    AllVerticesAt(ms, k, x);
  }

  // ---------------------------------------------------------------- meshFlipX/Y/Z

  /** One vertex mirrored along `axis`: that component of its position and of its normal negated. */
  function FlipVertex(v: Vertex, axis: Axis): (r: Vertex)
    ensures Get(r.position, axis) == -Get(v.position, axis) && Get(r.normal, axis) == -Get(v.normal, axis)
    ensures forall other :: other != axis ==>
      Get(r.position, other) == Get(v.position, other) && Get(r.normal, other) == Get(v.normal, other)
    ensures r.texCoord == v.texCoord
  {
    v.(position := NegateAxis(v.position, axis), normal := NegateAxis(v.normal, axis))
  }

  /** The mesh with every vertex mirrored along `axis`; triangles (and so winding) and material are kept. */
  function Flipped(m: Mesh, axis: Axis): (r: Mesh)
    ensures |r.vertices| == |m.vertices|
    ensures forall i :: 0 <= i < |m.vertices| ==> r.vertices[i] == FlipVertex(m.vertices[i], axis)
    ensures r.triangles == m.triangles && r.material == m.material
  {
    m.(vertices := seq(|m.vertices|, i requires 0 <= i < |m.vertices| => FlipVertex(m.vertices[i], axis)))
  }

  /** meshFlipX, meshFlipY and meshFlipZ: rewrite each vertex of the mesh in turn. */
  method Flip(mesh: Mesh, axis: Axis) returns (r: Mesh)
    ensures r == Flipped(mesh, axis)
  {
    var vertices := mesh.vertices;
    var i := 0;
    while i < |vertices|
      invariant 0 <= i <= |vertices| == |mesh.vertices|
      invariant forall k :: 0 <= k < i ==> vertices[k] == FlipVertex(mesh.vertices[k], axis)
      invariant forall k :: i <= k < |vertices| ==> vertices[k] == mesh.vertices[k]
    {
      vertices := vertices[i := FlipVertex(vertices[i], axis)];
      i := i + 1;
    }
    r := mesh.(vertices := vertices);
  }

  /** Mirroring along the same axis twice gives back the original mesh. */
  lemma FlipTwice(m: Mesh, axis: Axis)
    ensures Flipped(Flipped(m, axis), axis) == m
  {
    var once := Flipped(m, axis);
    var twice := Flipped(once, axis);
    forall i | 0 <= i < |m.vertices|
      ensures twice.vertices[i] == m.vertices[i]
    {
      var v := m.vertices[i];
      assert twice.vertices[i] == FlipVertex(FlipVertex(v, axis), axis);
      assert NegateAxis(NegateAxis(v.position, axis), axis) == v.position;
      assert NegateAxis(NegateAxis(v.normal, axis), axis) == v.normal;
    }
    assert twice.vertices == m.vertices;
  }

  /** Mirroring keeps the mesh invariant: it does not touch the triangles or the vertex count. */
  lemma FlipKeepsIndicesInBounds(m: Mesh, axis: Axis)
    requires IndicesInBounds(m)
    ensures IndicesInBounds(Flipped(m, axis))
  {
  }
}
