/**
 * The OBJ loader's core (loadMesh): each parsed shape's triangles are cut
 * into runs by material id, and each run becomes one Mesh whose vertices are
 * deduplicated on their (position, normal, texcoord) index triple.
 *
 * The parser's output is taken as input: the flat attribute arrays, the
 * shapes (corner index triples and one material id per triangle) and the
 * material table. glm::normalize is the parameter `normalize`.
 */
module ObjImport {
  import opened Vectors
  import opened VertexKeys
  import opened Meshes

  /** tinyobj::index_t: the attribute indices of one triangle corner; -1 marks an absent normal or texcoord. */
  datatype ObjIndex = ObjIndex(vertexIndex: int, normalIndex: int, texcoordIndex: int)

  /** tinyobj::attrib_t: flat float arrays, three floats per position and normal, two per texcoord. */
  datatype Attrib = Attrib(vertices: seq<real>, normals: seq<real>, texcoords: seq<real>)

  /** tinyobj::shape_t: three corners per triangle and one material id per triangle (-1: no material). */
  datatype Shape = Shape(indices: seq<ObjIndex>, materialIds: seq<int>)

  /** tinyobj::material_t, the fields the loader reads. */
  datatype ObjMaterial = ObjMaterial(diffuse: Vec3, specular: Vec3, shininess: real, dissolve: real, diffuseTexname: string)

  /** The triangles [start, end) of one shape. */
  datatype Run = Run(start: nat, end: nat)

  // ---------------------------------------------------------------- input well-formedness

  /** Every array read the loader makes for this corner is in range. */
  predicate IndexValid(attrib: Attrib, ix: ObjIndex)
  {
    && 0 <= ix.vertexIndex && 3 * ix.vertexIndex + 3 <= |attrib.vertices|
    && (ix.normalIndex == -1 || |attrib.normals| == 0 || (0 <= ix.normalIndex && 3 * ix.normalIndex + 3 <= |attrib.normals|))
    && (ix.texcoordIndex == -1 || |attrib.texcoords| == 0 || (0 <= ix.texcoordIndex && 2 * ix.texcoordIndex + 2 <= |attrib.texcoords|))
  }

  /** A shape as the loader expects it: whole triangles, at least one, one material id each, valid corners. */
  predicate ShapeValid(attrib: Attrib, shape: Shape)
  {
    && |shape.indices| % 3 == 0
    && |shape.indices| >= 3
    && |shape.materialIds| == |shape.indices| / 3
    && forall ix :: ix in shape.indices ==> IndexValid(attrib, ix)
  }

  predicate MaterialIdValid(id: int, materials: seq<ObjMaterial>)
  {
    id == -1 || 0 <= id < |materials|
  }

  // ---------------------------------------------------------------- run splitting

  /**
   * The runs the splitting loop emits from triangle `e` on, while the open
   * run starts at `start` and has material id `prev`. The shape's last
   * triangle always closes the open run, whatever its id, so at least one
   * run is emitted.
   */
  function RunsFrom(ids: seq<int>, start: nat, prev: int, e: nat): (rs: seq<Run>)
    requires start <= e < |ids|
    ensures |rs| > 0
    decreases |ids| - e
  {
    if e == |ids| - 1 then [Run(start, |ids|)]
    else if ids[e] == prev then RunsFrom(ids, start, prev, e + 1)
    else [Run(start, e)] + RunsFrom(ids, e, ids[e], e + 1)
  }

  /** The runs emitted for a shape whose per-triangle material ids are `ids`: at least one, so no shape yields no mesh. */
  function Runs(ids: seq<int>): (rs: seq<Run>)
    requires |ids| > 0
    ensures |rs| > 0
  {
    RunsFrom(ids, 0, ids[0], 0)
  }

  /** All triangles of run `r` carry the id of its first triangle, except possibly the shape's last triangle. */
  ghost predicate RunUniform(ids: seq<int>, r: Run)
    requires r.start < r.end <= |ids|
  {
    forall t :: r.start <= t < r.end && t != |ids| - 1 ==> ids[t] == ids[r.start]
  }

  /**
   * `runs` partitions the triangles of `ids` from `from` on into non-empty
   * contiguous runs ending at |ids|, each uniform in material id (the
   * shape's last triangle excepted), and every run but the last ends where
   * the id changes, before the last triangle.
   */
  ghost predicate IsRunPartitionFrom(ids: seq<int>, runs: seq<Run>, from: nat)
  {
    && |runs| > 0
    && runs[0].start == from
    && runs[|runs| - 1].end == |ids|
    && (forall k :: 0 <= k < |runs| ==> runs[k].start < runs[k].end <= |ids|)
    && (forall k :: 0 <= k < |runs| - 1 ==> runs[k].end == runs[k + 1].start)
    && (forall k :: 0 <= k < |runs| ==> RunUniform(ids, runs[k]))
    && (forall k :: 0 <= k < |runs| - 1 ==> runs[k].end < |ids| - 1 && ids[runs[k].end] != ids[runs[k].start])
  }

  /** `runs` partitions all the triangles of `ids`, from the first. */
  ghost predicate IsRunPartition(ids: seq<int>, runs: seq<Run>)
  {
    IsRunPartitionFrom(ids, runs, 0)
  }

  /** A uniform run closed where the id changes, followed by a partition of the rest, partitions from its start. */
  lemma PartitionCons(ids: seq<int>, r: Run, rest: seq<Run>)
    requires r.start < r.end < |ids| - 1 && ids[r.end] != ids[r.start]
    requires RunUniform(ids, r) && IsRunPartitionFrom(ids, rest, r.end)
    ensures IsRunPartitionFrom(ids, [r] + rest, r.start)
  {
    var rs := [r] + rest;
    forall k | 0 < k < |rs|
      ensures rs[k] == rest[k - 1]
    {
    }
  }

  /** The runs emitted from triangle e on partition the triangles from the open run's start. */
  lemma {:induction false} RunsFromPartition(ids: seq<int>, start: nat, prev: int, e: nat)
    requires start <= e < |ids|
    requires prev == ids[start]
    requires forall t :: start <= t < e ==> ids[t] == prev
    ensures IsRunPartitionFrom(ids, RunsFrom(ids, start, prev, e), start)
    decreases |ids| - e
  {
    if e == |ids| - 1 {
      assert RunUniform(ids, Run(start, |ids|));
    } else if ids[e] == prev {
      RunsFromPartition(ids, start, prev, e + 1);
    } else {
      RunsFromPartition(ids, e, ids[e], e + 1);
      assert RunUniform(ids, Run(start, e));
      PartitionCons(ids, Run(start, e), RunsFrom(ids, e, ids[e], e + 1));
    }
  }

  /** The runs of every shape partition its triangles as IsRunPartition says. */
  lemma RunsArePartition(ids: seq<int>)
    requires |ids| > 0
    ensures IsRunPartition(ids, Runs(ids))
  {
    RunsFromPartition(ids, 0, ids[0], 0);
  }

  /** Every triangle lies in exactly one run. */
  lemma EachTriangleInOneRun(ids: seq<int>, t: nat)
    requires t < |ids|
    ensures exists k :: 0 <= k < |Runs(ids)| && Runs(ids)[k].start <= t < Runs(ids)[k].end
    ensures forall k1, k2 ::
      (0 <= k1 < |Runs(ids)| && Runs(ids)[k1].start <= t < Runs(ids)[k1].end &&
       0 <= k2 < |Runs(ids)| && Runs(ids)[k2].start <= t < Runs(ids)[k2].end) ==> k1 == k2
  {
    var rs := Runs(ids);
    RunsArePartition(ids);
    RunStartsIncrease(rs, |ids|);
    var k := FindRun(rs, t);
    assert rs[k].start <= t < rs[k].end;
  }

  /** In a contiguous run list, later runs start at or after the end of earlier ones. */
  lemma {:induction false} RunStartsIncrease(rs: seq<Run>, n: nat)
    requires |rs| > 0
    requires forall k :: 0 <= k < |rs| ==> rs[k].start < rs[k].end <= n
    requires forall k :: 0 <= k < |rs| - 1 ==> rs[k].end == rs[k + 1].start
    ensures forall k1, k2 :: 0 <= k1 < k2 < |rs| ==> rs[k1].end <= rs[k2].start
    decreases |rs|
  {
    if |rs| > 1 {
      var prefix := rs[..|rs| - 1];
      RunStartsIncrease(prefix, n);
      forall k1, k2 | 0 <= k1 < k2 < |rs|
        ensures rs[k1].end <= rs[k2].start
      {
        if k2 == |rs| - 1 {
          assert prefix[k1].end <= prefix[|rs| - 2].end || k1 == |rs| - 2;
        }
      }
    }
  }

  /** The run holding triangle t, found by scanning the contiguous list. */
  lemma {:induction false} FindRunFrom(rs: seq<Run>, t: nat, k: nat) returns (j: nat)
    requires k < |rs| && rs[k].start <= t < rs[|rs| - 1].end
    requires forall i :: 0 <= i < |rs| - 1 ==> rs[i].end == rs[i + 1].start
    ensures k <= j < |rs| && rs[j].start <= t < rs[j].end
    decreases |rs| - k
  {
    if t < rs[k].end {
      j := k;
    } else {
      j := FindRunFrom(rs, t, k + 1);
    }
  }

  lemma FindRun(rs: seq<Run>, t: nat) returns (j: nat)
    requires |rs| > 0 && rs[0].start <= t < rs[|rs| - 1].end
    requires forall i :: 0 <= i < |rs| - 1 ==> rs[i].end == rs[i + 1].start
    ensures j < |rs| && rs[j].start <= t < rs[j].end
  {
    j := FindRunFrom(rs, t, 0);
  }

  /** A final triangle with a new material id does not open a run of its own: ids [A, A, B] give the single run [0, 3). */
  lemma LastTriangleJoinsOpenRun(a: int, b: int)
    requires a != b
    ensures Runs([a, a, b]) == [Run(0, 3)]
  {
    assert RunsFrom([a, a, b], 0, a, 1) == [Run(0, 3)];
  }

  // ---------------------------------------------------------------- vertex construction

  /** construct_vec3(&a[base]). */
  function Vec3At(a: seq<real>, base: int): Vec3
    requires 0 <= base && base + 3 <= |a|
  {
    Vec3(a[base], a[base + 1], a[base + 2])
  }

  function Position(attrib: Attrib, ix: ObjIndex): Vec3
    requires IndexValid(attrib, ix)
  {
    Vec3At(attrib.vertices, 3 * ix.vertexIndex)
  }

  /**
   * cross(v1 - v0, v2 - v0): the normal of the triangle v0 v1 v2 before
   * normalisation, perpendicular to each of its three edges.
   */
  function FaceNormal(v0: Vec3, v1: Vec3, v2: Vec3): (n: Vec3)
    ensures Dot(n, Sub(v1, v0)) == 0.0 && Dot(n, Sub(v2, v0)) == 0.0 && Dot(n, Sub(v2, v1)) == 0.0
  {
    Cross(Sub(v1, v0), Sub(v2, v0))
  }

  /** The face normal of triangle t: normalize(cross(v1 - v0, v2 - v0)) over its three corner positions. */
  function GeometricNormal(attrib: Attrib, indices: seq<ObjIndex>, normalize: Vec3 -> Vec3, t: nat): Vec3
    requires 3 * t + 3 <= |indices|
    requires forall ix :: ix in indices ==> IndexValid(attrib, ix)
  {
    var v0 := Position(attrib, indices[3 * t]);
    var v1 := Position(attrib, indices[3 * t + 1]);
    var v2 := Position(attrib, indices[3 * t + 2]);
    normalize(FaceNormal(v0, v1, v2))
  }

  /**
   * The vertex built for one corner: its position from the position array;
   * its normal from the normal array, or `geometricNormal` when the corner
   * has none or there are no normals; its texcoord from the texcoord array,
   * or (0, 0) likewise.
   */
  function ResolveVertex(attrib: Attrib, ix: ObjIndex, geometricNormal: Vec3): (v: Vertex)
    requires IndexValid(attrib, ix)
    ensures v.position == Vec3At(attrib.vertices, 3 * ix.vertexIndex)
    ensures ix.normalIndex == -1 || |attrib.normals| == 0 ==> v.normal == geometricNormal
    ensures ix.normalIndex != -1 && |attrib.normals| > 0 ==> v.normal == Vec3At(attrib.normals, 3 * ix.normalIndex)
    ensures ix.texcoordIndex == -1 || |attrib.texcoords| == 0 ==> v.texCoord == Vec2(0.0, 0.0)
    ensures ix.texcoordIndex != -1 && |attrib.texcoords| > 0 ==>
      v.texCoord == Vec2(attrib.texcoords[2 * ix.texcoordIndex], attrib.texcoords[2 * ix.texcoordIndex + 1])
  {
    var normal :=
      if ix.normalIndex != -1 && |attrib.normals| > 0 then Vec3At(attrib.normals, 3 * ix.normalIndex)
      else geometricNormal;
    var texCoord :=
      if ix.texcoordIndex != -1 && |attrib.texcoords| > 0
      then Vec2(attrib.texcoords[2 * ix.texcoordIndex], attrib.texcoords[2 * ix.texcoordIndex + 1])
      else Vec2(0.0, 0.0);
    Vertex(Position(attrib, ix), normal, texCoord)
  }

  function KeyOf(ix: ObjIndex): VertexKey
  {
    VertexKey(ix.vertexIndex, ix.normalIndex, ix.texcoordIndex)
  }

  /** The keys of corners lo .. hi-1, in order. */
  function CornerKeys(indices: seq<ObjIndex>, lo: nat, hi: nat): (ks: seq<VertexKey>)
    requires lo <= hi <= |indices|
    ensures |ks| == hi - lo
    decreases hi - lo
  {
    if hi == lo then [] else CornerKeys(indices, lo, hi - 1) + [KeyOf(indices[hi - 1])]
  }

  lemma {:induction false} CornerKeysAt(indices: seq<ObjIndex>, lo: nat, hi: nat, o: nat)
    requires lo <= hi <= |indices| && o < hi - lo
    ensures CornerKeys(indices, lo, hi)[o] == KeyOf(indices[lo + o])
    decreases hi - lo
  {
    if o < hi - lo - 1 {
      CornerKeysAt(indices, lo, hi - 1, o);
    }
  }

  /** The keys of the corners of run r, in order. */
  function RunKeys(indices: seq<ObjIndex>, r: Run): seq<VertexKey>
    requires r.start <= r.end && 3 * r.end <= |indices|
  {
    CornerKeys(indices, 3 * r.start, 3 * r.end)
  }

  /** The triangles' indices, corner by corner. */
  function Corners(ts: seq<Tri>): (cs: seq<nat>)
    ensures |cs| == 3 * |ts|
  {
    if ts == [] then [] else Corners(ts[..|ts| - 1]) + [ts[|ts| - 1].i0, ts[|ts| - 1].i1, ts[|ts| - 1].i2]
  }

  function KeySet(ks: seq<VertexKey>): set<VertexKey>
  {
    set k | k in ks
  }

  /** The distinct keys of `ks`, in the order of their first occurrence. */
  function Distinct(ks: seq<VertexKey>): seq<VertexKey>
    decreases |ks|
  {
    if ks == [] then []
    else
      var d := Distinct(ks[..|ks| - 1]);
      if ks[|ks| - 1] in d then d else d + [ks[|ks| - 1]]
  }

  /** The distinct keys are exactly the keys that occur. */
  lemma {:induction false} DistinctMembers(ks: seq<VertexKey>)
    ensures forall k :: k in Distinct(ks) <==> k in ks
    decreases |ks|
  {
    if ks != [] {
      var prefix := ks[..|ks| - 1];
      DistinctMembers(prefix);
      assert ks == prefix + [ks[|ks| - 1]];
    }
  }

  /** No key appears twice among the distinct keys. */
  lemma {:induction false} DistinctUnique(ks: seq<VertexKey>)
    ensures forall i, j :: 0 <= i < j < |Distinct(ks)| ==> Distinct(ks)[i] != Distinct(ks)[j]
    decreases |ks|
  {
    if ks != [] {
      DistinctUnique(ks[..|ks| - 1]);
    }
  }

  /** The position of the first occurrence of k in ks, or |ks| when k does not occur. */
  function FirstIndex(ks: seq<VertexKey>, k: VertexKey): (p: nat)
    ensures p <= |ks|
    ensures p < |ks| ==> ks[p] == k
    ensures k in ks ==> p < |ks|
  {
    if ks == [] then 0 else if ks[0] == k then 0 else 1 + FirstIndex(ks[1..], k)
  }

  /** No occurrence of k comes before FirstIndex(ks, k). */
  lemma {:induction false} FirstIndexMinimal(ks: seq<VertexKey>, k: VertexKey, q: nat)
    requires q < |ks| && ks[q] == k
    ensures FirstIndex(ks, k) <= q
    decreases q
  {
    if ks[0] != k {
      FirstIndexMinimal(ks[1..], k, q - 1);
    }
  }

  /** A sequence has as many distinct keys as the set of its keys has elements. */
  lemma {:induction false} DistinctCount(ks: seq<VertexKey>)
    ensures |Distinct(ks)| == |KeySet(ks)|
    decreases |ks|
  {
    if ks != [] {
      var prefix := ks[..|ks| - 1];
      var k := ks[|ks| - 1];
      assert ks == prefix + [k];
      DistinctCount(prefix);
      DistinctMembers(prefix);
      assert KeySet(ks) == KeySet(prefix) + {k};
      if k !in prefix {
        assert k !in KeySet(prefix);
      } else {
        assert KeySet(ks) == KeySet(prefix);
      }
    }
  }

  /** The vertices the loader builds for the three corners of triangle t, all with t's face normal. */
  function TriangleVertices(attrib: Attrib, indices: seq<ObjIndex>, normalize: Vec3 -> Vec3, t: nat): (vs: seq<Vertex>)
    requires 3 * t + 3 <= |indices|
    requires forall ix :: ix in indices ==> IndexValid(attrib, ix)
    ensures |vs| == 3
  {
    var g := GeometricNormal(attrib, indices, normalize, t);
    [ResolveVertex(attrib, indices[3 * t], g), ResolveVertex(attrib, indices[3 * t + 1], g), ResolveVertex(attrib, indices[3 * t + 2], g)]
  }

  /**
   * The vertex the loader builds for corner `o` of run r (counted from the
   * run's first corner): corner o % 3 of triangle start + o / 3.
   */
  function CornerVertex(attrib: Attrib, indices: seq<ObjIndex>, normalize: Vec3 -> Vec3, r: Run, o: nat): Vertex
    requires r.start <= r.end && 3 * r.end <= |indices| && o < 3 * (r.end - r.start)
    requires forall ix :: ix in indices ==> IndexValid(attrib, ix)
  {
    TriangleVertices(attrib, indices, normalize, r.start + o / 3)[o % 3]
  }

  /** The vertices built for triangles lo .. hi-1, corner by corner. */
  function TrianglesVertices(attrib: Attrib, indices: seq<ObjIndex>, normalize: Vec3 -> Vec3, lo: nat, hi: nat): (vs: seq<Vertex>)
    requires lo <= hi && 3 * hi <= |indices|
    requires forall ix :: ix in indices ==> IndexValid(attrib, ix)
    ensures |vs| == 3 * (hi - lo)
    decreases hi - lo
  {
    if hi == lo then []
    else TrianglesVertices(attrib, indices, normalize, lo, hi - 1) + TriangleVertices(attrib, indices, normalize, hi - 1)
  }

  lemma {:induction false} TrianglesVerticesAt(attrib: Attrib, indices: seq<ObjIndex>, normalize: Vec3 -> Vec3,
                                               lo: nat, hi: nat, t: nat, j: nat)
    requires lo <= t < hi && 3 * hi <= |indices| && j < 3
    requires forall ix :: ix in indices ==> IndexValid(attrib, ix)
    ensures TrianglesVertices(attrib, indices, normalize, lo, hi)[3 * (t - lo) + j]
         == TriangleVertices(attrib, indices, normalize, t)[j]
    decreases hi - lo
  {
    if t < hi - 1 {
      TrianglesVerticesAt(attrib, indices, normalize, lo, hi - 1, t, j);
    }
  }

  /** The vertices built at every corner of run r, in corner order. */
  function RunVertices(attrib: Attrib, indices: seq<ObjIndex>, normalize: Vec3 -> Vec3, r: Run): (vs: seq<Vertex>)
    requires r.start <= r.end && 3 * r.end <= |indices|
    requires forall ix :: ix in indices ==> IndexValid(attrib, ix)
    ensures |vs| == 3 * (r.end - r.start)
  {
    TrianglesVertices(attrib, indices, normalize, r.start, r.end)
  }

  /**
   * Deduplication of the corner keys `ks`, whose vertices would be `built`:
   * `vertices` holds one vertex per distinct key, in the order the keys are
   * first met, each the one built at its key's first corner; and corner o's
   * index `cs[o]` names the vertex of its key.
   */
  ghost predicate IsDedup(ks: seq<VertexKey>, built: seq<Vertex>, vertices: seq<Vertex>, cs: seq<nat>)
    requires |built| == |ks|
  {
    var d := Distinct(ks);
    && |cs| == |ks|
    && |vertices| == |d|
    && (forall o {:trigger cs[o]} :: 0 <= o < |cs| ==> cs[o] < |d| && d[cs[o]] == ks[o])
    && (forall i {:trigger vertices[i]} :: 0 <= i < |d| ==> FirstIndex(ks, d[i]) < |ks| && vertices[i] == built[FirstIndex(ks, d[i])])
  }

  /** `vertices` and `triangles` are what the loader builds for run r: one triangle per triangle of the run, deduplicated on the corner keys. */
  ghost predicate IsRunMesh(attrib: Attrib, indices: seq<ObjIndex>, normalize: Vec3 -> Vec3, r: Run,
                            vertices: seq<Vertex>, triangles: seq<Tri>)
    requires r.start <= r.end && 3 * r.end <= |indices|
    requires forall ix :: ix in indices ==> IndexValid(attrib, ix)
  {
    && |triangles| == r.end - r.start
    && IsDedup(RunKeys(indices, r), RunVertices(attrib, indices, normalize, r), vertices, Corners(triangles))
  }

  /** Every index of a run mesh is below its vertex count. */
  lemma RunMeshIndicesInBounds(attrib: Attrib, indices: seq<ObjIndex>, normalize: Vec3 -> Vec3, r: Run,
                               vertices: seq<Vertex>, triangles: seq<Tri>, material: Material)
    requires r.start <= r.end && 3 * r.end <= |indices|
    requires forall ix :: ix in indices ==> IndexValid(attrib, ix)
    requires IsRunMesh(attrib, indices, normalize, r, vertices, triangles)
    ensures IndicesInBounds(Mesh(vertices, triangles, material))
  {
    var cs := Corners(triangles);
    forall k | 0 <= k < |triangles|
      ensures TriInBounds(triangles[k], |vertices|)
    {
      CornersAt(triangles, k);
      assert cs[3 * k] < |vertices| && cs[3 * k + 1] < |vertices| && cs[3 * k + 2] < |vertices|;
    }
  }

  lemma {:induction false} CornersAt(ts: seq<Tri>, k: nat)
    requires k < |ts|
    ensures Corners(ts)[3 * k] == ts[k].i0
    ensures Corners(ts)[3 * k + 1] == ts[k].i1
    ensures Corners(ts)[3 * k + 2] == ts[k].i2
    decreases |ts|
  {
    if k < |ts| - 1 {
      CornersAt(ts[..|ts| - 1], k);
    }
  }

  /**
   * Within one run mesh two corners get the same vertex index exactly when
   * their keys are equal, even when the keys resolve to equal positions.
   */
  lemma RunMeshDedup(attrib: Attrib, indices: seq<ObjIndex>, normalize: Vec3 -> Vec3, r: Run,
                     vertices: seq<Vertex>, triangles: seq<Tri>, o: nat, o': nat)
    requires r.start <= r.end && 3 * r.end <= |indices|
    requires forall ix :: ix in indices ==> IndexValid(attrib, ix)
    requires IsRunMesh(attrib, indices, normalize, r, vertices, triangles)
    requires o < 3 * (r.end - r.start) && o' < 3 * (r.end - r.start)
    ensures KeyOf(indices[3 * r.start + o]) == KeyOf(indices[3 * r.start + o'])
        <==> Corners(triangles)[o] == Corners(triangles)[o']
  {
    CornerKeysAt(indices, 3 * r.start, 3 * r.end, o);
    CornerKeysAt(indices, 3 * r.start, 3 * r.end, o');
    DedupSameIndex(RunKeys(indices, r), RunVertices(attrib, indices, normalize, r), vertices, Corners(triangles), o, o');
  }

  /** Under deduplication two corners share an index exactly when they share a key. */
  lemma DedupSameIndex(ks: seq<VertexKey>, built: seq<Vertex>, vertices: seq<Vertex>, cs: seq<nat>, o: nat, o': nat)
    requires |built| == |ks| && IsDedup(ks, built, vertices, cs)
    requires o < |ks| && o' < |ks|
    ensures ks[o] == ks[o'] <==> cs[o] == cs[o']
  {
    var d := Distinct(ks);
    DistinctUnique(ks);
    assert d[cs[o]] == ks[o] && d[cs[o']] == ks[o'];
  }

  /** A run mesh has one vertex per distinct key among the run's corners. */
  lemma RunMeshVertexCount(attrib: Attrib, indices: seq<ObjIndex>, normalize: Vec3 -> Vec3, r: Run,
                           vertices: seq<Vertex>, triangles: seq<Tri>)
    requires r.start <= r.end && 3 * r.end <= |indices|
    requires forall ix :: ix in indices ==> IndexValid(attrib, ix)
    requires IsRunMesh(attrib, indices, normalize, r, vertices, triangles)
    ensures |vertices| == |KeySet(RunKeys(indices, r))|
    ensures |triangles| == r.end - r.start
  {
    DistinctCount(RunKeys(indices, r));
  }

  /**
   * The vertex a corner uses is the one built at the first corner of the run
   * with the same key: in particular a fallback normal is the face normal of
   * the first triangle that used the key.
   */
  lemma RunMeshSharedVertex(attrib: Attrib, indices: seq<ObjIndex>, normalize: Vec3 -> Vec3, r: Run,
                            vertices: seq<Vertex>, triangles: seq<Tri>, o: nat)
    requires r.start <= r.end && 3 * r.end <= |indices|
    requires forall ix :: ix in indices ==> IndexValid(attrib, ix)
    requires IsRunMesh(attrib, indices, normalize, r, vertices, triangles)
    requires o < 3 * (r.end - r.start)
    ensures var ks := RunKeys(indices, r);
      vertices[Corners(triangles)[o]] == CornerVertex(attrib, indices, normalize, r, FirstIndex(ks, ks[o]))
  {
    var ks := RunKeys(indices, r);
    var cs := Corners(triangles);
    assert Distinct(ks)[cs[o]] == ks[o];
    var p := FirstIndex(ks, ks[o]);
    TrianglesVerticesAt(attrib, indices, normalize, r.start, r.end, r.start + p / 3, p % 3);
  }

  /** The cache maps each distinct key seen so far to its position in `d`, and maps nothing else. */
  ghost predicate CacheIndexes(d: seq<VertexKey>, cache: map<VertexKey, nat>)
  {
    && (forall i :: 0 <= i < |d| ==> d[i] in cache && cache[d[i]] == i)
    && (forall k :: k in cache ==> cache[k] < |d| && d[cache[k]] == k)
  }

  /** Vertex i is the one built at the first corner whose key is d[i]. */
  ghost predicate VerticesBuilt(ks: seq<VertexKey>, built: seq<Vertex>, d: seq<VertexKey>, vertices: seq<Vertex>)
  {
    && |vertices| == |d|
    && forall i :: 0 <= i < |d| ==> FirstIndex(ks, d[i]) < |built| && vertices[i] == built[FirstIndex(ks, d[i])]
  }

  /** Every corner index written so far is the cache's index for that corner's key. */
  ghost predicate IndicesAgree(ks: seq<VertexKey>, cache: map<VertexKey, nat>, idx: seq<nat>)
  {
    |idx| <= |ks| && forall q :: 0 <= q < |idx| ==> ks[q] in cache && idx[q] == cache[ks[q]]
  }

  /** A key is cached exactly when it is one of the distinct keys seen so far. */
  lemma CachedIffSeen(d: seq<VertexKey>, cache: map<VertexKey, nat>, key: VertexKey)
    requires CacheIndexes(d, cache)
    ensures key in cache <==> key in d
  {
    if key in cache {
      assert d[cache[key]] == key;
    }
  }

  /** Caching a new key at the next position keeps the cache the inverse of the distinct keys. */
  lemma CacheIndexesAppend(d: seq<VertexKey>, cache: map<VertexKey, nat>, key: VertexKey)
    requires CacheIndexes(d, cache) && key !in cache
    ensures CacheIndexes(d + [key], cache[key := |d|])
  {
    var d' := d + [key];
    var cache' := cache[key := |d|];
    forall i | 0 <= i < |d'|
      ensures d'[i] in cache' && cache'[d'[i]] == i
    {
      if i < |d| {
        assert d'[i] == d[i] && d[i] in cache;
      }
    }
  }

  /** A reused index keeps every index written so far in agreement with the cache. */
  lemma IndicesAgreeHit(ks: seq<VertexKey>, cache: map<VertexKey, nat>, idx: seq<nat>)
    requires IndicesAgree(ks, cache, idx) && |idx| < |ks| && ks[|idx|] in cache
    ensures IndicesAgree(ks, cache, idx + [cache[ks[|idx|]]])
  {
  }

  /** Caching a new key does not disturb the indices already written. */
  lemma IndicesAgreeMiss(ks: seq<VertexKey>, cache: map<VertexKey, nat>, idx: seq<nat>, n: nat)
    requires IndicesAgree(ks, cache, idx) && |idx| < |ks| && ks[|idx|] !in cache
    ensures IndicesAgree(ks, cache[ks[|idx|] := n], idx + [n])
  {
    var idx' := idx + [n];
    var cache' := cache[ks[|idx|] := n];
    forall q | 0 <= q < |idx'|
      ensures ks[q] in cache' && idx'[q] == cache'[ks[q]]
    {
      if q < |idx| {
        assert ks[q] in cache && ks[q] != ks[|idx|];
      }
    }
  }

  /** A key not among the distinct keys of the first m corners first occurs at corner m. */
  lemma FirstOccurrence(ks: seq<VertexKey>, m: nat)
    requires m < |ks| && ks[m] !in Distinct(ks[..m])
    ensures FirstIndex(ks, ks[m]) == m
  {
    var p := FirstIndex(ks, ks[m]);
    FirstIndexMinimal(ks, ks[m], m);
    DistinctMembers(ks[..m]);
  }

  /** The distinct keys of one more corner: unchanged when its key was seen, one longer otherwise. */
  lemma DistinctStep(ks: seq<VertexKey>, m: nat)
    requires m < |ks|
    ensures Distinct(ks[..m + 1]) == if ks[m] in Distinct(ks[..m]) then Distinct(ks[..m]) else Distinct(ks[..m]) + [ks[m]]
  {
    assert ks[..m + 1][..m] == ks[..m];
  }

  /** Appending the vertex built at the first occurrence of a new key keeps the vertex list in step. */
  lemma VerticesBuiltAppend(ks: seq<VertexKey>, built: seq<Vertex>, d: seq<VertexKey>, vertices: seq<Vertex>, m: nat)
    requires VerticesBuilt(ks, built, d, vertices)
    requires m < |ks| == |built| && FirstIndex(ks, ks[m]) == m
    ensures VerticesBuilt(ks, built, d + [ks[m]], vertices + [built[m]])
  {
    var d' := d + [ks[m]];
    var vertices' := vertices + [built[m]];
    forall i | 0 <= i < |d'|
      ensures FirstIndex(ks, d'[i]) < |built| && vertices'[i] == built[FirstIndex(ks, d'[i])]
    {
      if i < |d| {
        assert d'[i] == d[i];
      }
    }
  }

  /**
   * The state of the per-run loop after the corners `idx` has written: `d`
   * is the distinct keys met so far in order, the cache is their inverse,
   * the vertex list is in step with `d`, and every index written is the
   * cache's index for its corner's key.
   */
  ghost predicate CacheState(ks: seq<VertexKey>, built: seq<Vertex>, d: seq<VertexKey>,
                             cache: map<VertexKey, nat>, vertices: seq<Vertex>, idx: seq<nat>)
  {
    && |idx| <= |ks|
    && d == Distinct(ks[..|idx|])
    && CacheIndexes(d, cache)
    && VerticesBuilt(ks, built, d, vertices)
    && IndicesAgree(ks, cache, idx)
  }

  /** A corner whose key is cached reuses the cached index; nothing else changes. */
  lemma CacheHit(ks: seq<VertexKey>, built: seq<Vertex>, d: seq<VertexKey>,
                 cache: map<VertexKey, nat>, vertices: seq<Vertex>, idx: seq<nat>)
    requires CacheState(ks, built, d, cache, vertices, idx)
    requires |idx| < |ks| && ks[|idx|] in cache
    ensures CacheState(ks, built, d, cache, vertices, idx + [cache[ks[|idx|]]])
  {
    var m := |idx|;
    var idx' := idx + [cache[ks[m]]];
    CachedIffSeen(d, cache, ks[m]);
    DistinctStep(ks, m);
    assert |idx'| == m + 1 && Distinct(ks[..|idx'|]) == d;
    IndicesAgreeHit(ks, cache, idx);
  }

  /** A corner whose key is not cached caches it at the next index and appends the vertex built there. */
  lemma CacheMiss(ks: seq<VertexKey>, built: seq<Vertex>, d: seq<VertexKey>,
                  cache: map<VertexKey, nat>, vertices: seq<Vertex>, idx: seq<nat>)
    requires CacheState(ks, built, d, cache, vertices, idx)
    requires |idx| < |ks| == |built| && ks[|idx|] !in cache
    ensures CacheState(ks, built, d + [ks[|idx|]], cache[ks[|idx|] := |vertices|],
                       vertices + [built[|idx|]], idx + [|vertices|])
  {
    var m := |idx|;
    var idx' := idx + [|vertices|];
    CachedIffSeen(d, cache, ks[m]);
    DistinctStep(ks, m);
    assert |idx'| == m + 1 && Distinct(ks[..|idx'|]) == d + [ks[m]];
    FirstOccurrence(ks, m);
    CacheIndexesAppend(d, cache, ks[m]);
    VerticesBuiltAppend(ks, built, d, vertices, m);
    IndicesAgreeMiss(ks, cache, idx, |vertices|);
  }

  /** Once every corner is processed, the loop's state is the deduplication of all the keys. */
  lemma CacheDone(ks: seq<VertexKey>, built: seq<Vertex>, d: seq<VertexKey>, cache: map<VertexKey, nat>,
                  vertices: seq<Vertex>, cs: seq<nat>)
    requires |built| == |ks| == |cs|
    requires CacheState(ks, built, d, cache, vertices, cs)
    ensures IsDedup(ks, built, vertices, cs)
  {
    assert ks[..|cs|] == ks;
    forall o | 0 <= o < |cs|
      ensures cs[o] < |d| && d[cs[o]] == ks[o]
    {
      assert ks[o] in cache;
    }
  }

  /**
   * Corner c of the shape, which belongs to triangle tri of run r, is corner
   * c - 3 * start of the run: its key is that of indices[c], and the vertex
   * built for it uses tri's face normal.
   */
  lemma CornerAt(attrib: Attrib, indices: seq<ObjIndex>, normalize: Vec3 -> Vec3, r: Run, tri: nat, c: nat, o: nat)
    requires r.start <= tri < r.end && 3 * r.end <= |indices|
    requires forall ix :: ix in indices ==> IndexValid(attrib, ix)
    requires 3 * tri <= c < 3 * tri + 3 && o == c - 3 * r.start
    ensures o < 3 * (r.end - r.start)
    ensures RunKeys(indices, r)[o] == KeyOf(indices[c])
    ensures RunVertices(attrib, indices, normalize, r)[o]
         == ResolveVertex(attrib, indices[c], GeometricNormal(attrib, indices, normalize, tri))
  {
    var j := c - 3 * tri;
    assert o == 3 * (tri - r.start) + j;
    CornerKeysAt(indices, 3 * r.start, 3 * r.end, o);
    TrianglesVerticesAt(attrib, indices, normalize, r.start, r.end, tri, j);
  }

  /** The key and the vertex the loop makes for corner c are the run's key and built vertex at o. */
  lemma CornerIs(attrib: Attrib, indices: seq<ObjIndex>, normalize: Vec3 -> Vec3, r: Run, tri: nat, c: nat, o: nat,
                 ks: seq<VertexKey>, built: seq<Vertex>, key: VertexKey, vertex: Vertex)
    requires r.start <= tri < r.end && 3 * r.end <= |indices|
    requires forall ix :: ix in indices ==> IndexValid(attrib, ix)
    requires 3 * tri <= c < 3 * tri + 3 && o == c - 3 * r.start
    requires ks == RunKeys(indices, r) && built == RunVertices(attrib, indices, normalize, r)
    requires key == KeyOf(indices[c]) && vertex == ResolveVertex(attrib, indices[c], GeometricNormal(attrib, indices, normalize, tri))
    ensures o < |ks| == |built| && ks[o] == key && built[o] == vertex
  {
    CornerAt(attrib, indices, normalize, r, tri, c, o);
  }

  /** glm::uvec3's `triangle[j] = x`. */
  function SetCorner(t: Tri, j: nat, x: nat): (r: Tri)
    requires j < 3
    ensures r.i0 == (if j == 0 then x else t.i0)
    ensures r.i1 == (if j == 1 then x else t.i1)
    ensures r.i2 == (if j == 2 then x else t.i2)
  {
    if j == 0 then t.(i0 := x) else if j == 1 then t.(i1 := x) else t.(i2 := x)
  }

  /** Triangles read off a corner list three entries at a time flatten back to that list. */
  lemma CornersAppend(ts: seq<Tri>, t: Tri)
    ensures Corners(ts + [t]) == Corners(ts) + [t.i0, t.i1, t.i2]
  {
    assert (ts + [t])[..|ts|] == ts;
  }

  /**
   * One corner of the per-run loop: the cache lookup of its key. A cached
   * key gives its index back; a new key is cached at the next index and its
   * vertex appended.
   */
  method CacheCorner(key: VertexKey, vertex: Vertex, cache: map<VertexKey, nat>, vertices: seq<Vertex>,
                     ghost ks: seq<VertexKey>, ghost built: seq<Vertex>, ghost d: seq<VertexKey>, ghost idx: seq<nat>)
    returns (index: nat, newCache: map<VertexKey, nat>, newVertices: seq<Vertex>, ghost newD: seq<VertexKey>)
    requires CacheState(ks, built, d, cache, vertices, idx)
    requires |idx| < |ks| == |built| && ks[|idx|] == key && built[|idx|] == vertex
    ensures key in cache ==> index == cache[key] && newCache == cache && newVertices == vertices
    ensures key !in cache ==> index == |vertices| && newCache == cache[key := index] && newVertices == vertices + [vertex]
    ensures CacheState(ks, built, newD, newCache, newVertices, idx + [index])
  {
    if key in cache {
      CacheHit(ks, built, d, cache, vertices, idx);
      index, newCache, newVertices, newD := cache[key], cache, vertices, d;
    } else {
      CacheMiss(ks, built, d, cache, vertices, idx);
      index := |vertices|;
      newCache := cache[key := index];
      newVertices := vertices + [vertex];
      newD := d + [key];
    }
  }

  /**
   * One triangle of a run: its face normal, then its three corners in
   * order, each looked up in the cache; the corner indices form the
   * triangle.
   */
  method BuildTriangle(attrib: Attrib, indices: seq<ObjIndex>, normalize: Vec3 -> Vec3, ghost run: Run, tri: nat,
                       cache: map<VertexKey, nat>, vertices: seq<Vertex>,
                       ghost ks: seq<VertexKey>, ghost built: seq<Vertex>, ghost d: seq<VertexKey>, ghost idx: seq<nat>)
    returns (triangle: Tri, newCache: map<VertexKey, nat>, newVertices: seq<Vertex>, ghost newD: seq<VertexKey>)
    requires run.start <= tri < run.end && 3 * run.end <= |indices|
    requires forall ix :: ix in indices ==> IndexValid(attrib, ix)
    requires ks == RunKeys(indices, run) && built == RunVertices(attrib, indices, normalize, run)
    requires |idx| == 3 * (tri - run.start)
    requires CacheState(ks, built, d, cache, vertices, idx)
    ensures CacheState(ks, built, newD, newCache, newVertices, idx + [triangle.i0, triangle.i1, triangle.i2])
  {
    var i := 3 * tri;
    var geometricNormal := GeometricNormal(attrib, indices, normalize, tri);
    triangle := Tri(0, 0, 0);
    newCache, newVertices, newD := cache, vertices, d;
    ghost var corners: seq<nat> := [];
    ghost var done := idx;
    var j := 0;
    while j < 3
      invariant 0 <= j <= 3 && |corners| == j && done == idx + corners && |done| == |idx| + j
      invariant j > 0 ==> triangle.i0 == corners[0]
      invariant j > 1 ==> triangle.i1 == corners[1]
      invariant j > 2 ==> triangle.i2 == corners[2]
      invariant CacheState(ks, built, newD, newCache, newVertices, done)
    {
      var ix := indices[i + j];
      var key := KeyOf(ix);
      var vertex := ResolveVertex(attrib, ix, geometricNormal);
      CornerIs(attrib, indices, normalize, run, tri, i + j, |done|, ks, built, key, vertex);
      var index;
      index, newCache, newVertices, newD := CacheCorner(key, vertex, newCache, newVertices, ks, built, newD, done);
      triangle := SetCorner(triangle, j, index);
      AppendAssoc(idx, corners, [index]);
      corners := corners + [index];
      done := done + [index];
      j := j + 1;
    }
    ThreeElements(corners);
  }

  lemma AppendAssoc(a: seq<nat>, b: seq<nat>, c: seq<nat>)
    ensures (a + b) + c == a + (b + c)
  {
  }

  lemma ThreeElements(s: seq<nat>)
    requires |s| == 3
    ensures s == [s[0], s[1], s[2]]
  {
  }

  /**
   * The body of the loader's per-run loop: walks the triangles [start, end),
   * looking each corner's key up in a per-run cache and appending a new
   * vertex for a key not seen before.
   */
  method BuildRun(attrib: Attrib, indices: seq<ObjIndex>, normalize: Vec3 -> Vec3, start: nat, end: nat)
    returns (vertices: seq<Vertex>, triangles: seq<Tri>)
    requires start <= end && 3 * end <= |indices|
    requires forall ix :: ix in indices ==> IndexValid(attrib, ix)
    ensures IsRunMesh(attrib, indices, normalize, Run(start, end), vertices, triangles)
  {
    ghost var run := Run(start, end);
    ghost var ks := RunKeys(indices, run);
    ghost var built := RunVertices(attrib, indices, normalize, run);
    ghost var idx: seq<nat> := [];
    ghost var d: seq<VertexKey> := [];
    var vertexCache: map<VertexKey, nat> := map[];
    vertices := [];
    triangles := [];
    var tri := start;
    while tri != end
      invariant start <= tri <= end
      invariant |triangles| == tri - start && idx == Corners(triangles) && |idx| == 3 * (tri - start)
      invariant CacheState(ks, built, d, vertexCache, vertices, idx)
    {
      var triangle;
      triangle, vertexCache, vertices, d := BuildTriangle(attrib, indices, normalize, run, tri, vertexCache, vertices, ks, built, d, idx);
      CornersAppend(triangles, triangle);
      idx := idx + [triangle.i0, triangle.i1, triangle.i2];
      triangles := triangles + [triangle];
      tri := tri + 1;
    }
    CacheDone(ks, built, d, vertexCache, vertices, idx);
    RunMeshOf(attrib, indices, normalize, Run(start, end), vertices, triangles, ks, built, idx);
  }

  lemma RunMeshOf(attrib: Attrib, indices: seq<ObjIndex>, normalize: Vec3 -> Vec3, r: Run,
                  vertices: seq<Vertex>, triangles: seq<Tri>, ks: seq<VertexKey>, built: seq<Vertex>, cs: seq<nat>)
    requires r.start <= r.end && 3 * r.end <= |indices|
    requires forall ix :: ix in indices ==> IndexValid(attrib, ix)
    requires ks == RunKeys(indices, r) && built == RunVertices(attrib, indices, normalize, r)
    requires |triangles| == r.end - r.start && cs == Corners(triangles)
    requires |built| == |ks| && IsDedup(ks, built, vertices, cs)
    ensures IsRunMesh(attrib, indices, normalize, r, vertices, triangles)
  {
  }

  // ---------------------------------------------------------------- materials

  /**
   * The material of a run, from the id of its first triangle: id -1 gives
   * white diffuse, black specular and shininess 1 (transparency keeps the
   * Material default); any other id copies the table entry, with a diffuse
   * texture exactly when the entry names one.
   */
  function ResolveMaterial(id: int, materials: seq<ObjMaterial>, defaultTransparency: real): (m: Material)
    requires MaterialIdValid(id, materials)
    ensures id == -1 ==>
      m == Material(Vec3(1.0, 1.0, 1.0), Vec3(0.0, 0.0, 0.0), 1.0, defaultTransparency, None)
    ensures id != -1 ==>
      && m.kd == materials[id].diffuse
      && m.ks == materials[id].specular
      && m.shininess == materials[id].shininess
      && m.transparency == materials[id].dissolve
      && (m.kdTexture.Some? <==> materials[id].diffuseTexname != "")
      && (m.kdTexture.Some? ==> m.kdTexture.value == materials[id].diffuseTexname)
  {
    if id == -1 then
      Material(Vec3(1.0, 1.0, 1.0), Vec3(0.0, 0.0, 0.0), 1.0, defaultTransparency, None)
    else
      var obj := materials[id];
      var texture := if obj.diffuseTexname != "" then Some(obj.diffuseTexname) else None;
      Material(obj.diffuse, obj.specular, obj.shininess, obj.dissolve, texture)
  }

  // ---------------------------------------------------------------- loadMesh

  /** Every run's first triangle names -1 or an entry of the material table. */
  predicate RunMaterialsValid(shape: Shape, materials: seq<ObjMaterial>)
    requires |shape.materialIds| > 0
  {
    forall r :: r in Runs(shape.materialIds) && r.start < |shape.materialIds| ==>
      MaterialIdValid(shape.materialIds[r.start], materials)
  }

  /** The first triangle of run k names a material the loader can resolve. */
  lemma RunMaterialValid(shape: Shape, materials: seq<ObjMaterial>, k: nat)
    requires |shape.materialIds| > 0 && RunMaterialsValid(shape, materials)
    requires k < |Runs(shape.materialIds)| && Runs(shape.materialIds)[k].start < |shape.materialIds|
    ensures MaterialIdValid(shape.materialIds[Runs(shape.materialIds)[k].start], materials)
  {
    assert Runs(shape.materialIds)[k] in Runs(shape.materialIds);
  }

  /** Mesh m is the submesh the loader emits for run r of `shape`. */
  ghost predicate IsSubmesh(attrib: Attrib, shape: Shape, materials: seq<ObjMaterial>, normalize: Vec3 -> Vec3,
                            defaultTransparency: real, r: Run, m: Mesh)
    requires ShapeValid(attrib, shape)
  {
    && r.start < r.end <= |shape.materialIds|
    && MaterialIdValid(shape.materialIds[r.start], materials)
    && IsRunMesh(attrib, shape.indices, normalize, r, m.vertices, m.triangles)
    && m.material == ResolveMaterial(shape.materialIds[r.start], materials, defaultTransparency)
  }

  /** Each mesh of `out` is the submesh of the run at the same position of `runs`. */
  ghost predicate SubmeshesOf(attrib: Attrib, shape: Shape, materials: seq<ObjMaterial>, normalize: Vec3 -> Vec3,
                              defaultTransparency: real, runs: seq<Run>, out: seq<Mesh>)
    requires ShapeValid(attrib, shape)
  {
    && |out| <= |runs|
    && forall k :: 0 <= k < |out| ==> IsSubmesh(attrib, shape, materials, normalize, defaultTransparency, runs[k], out[k])
  }

  lemma SubmeshesOfAppend(attrib: Attrib, shape: Shape, materials: seq<ObjMaterial>, normalize: Vec3 -> Vec3,
                          defaultTransparency: real, runs: seq<Run>, out: seq<Mesh>, r: Run, m: Mesh)
    requires ShapeValid(attrib, shape)
    requires SubmeshesOf(attrib, shape, materials, normalize, defaultTransparency, runs, out)
    requires |out| < |runs| && runs[|out|] == r
    requires IsSubmesh(attrib, shape, materials, normalize, defaultTransparency, r, m)
    ensures SubmeshesOf(attrib, shape, materials, normalize, defaultTransparency, runs, out + [m])
  {
    var out' := out + [m];
    forall k | 0 <= k < |out'|
      ensures IsSubmesh(attrib, shape, materials, normalize, defaultTransparency, runs[k], out'[k])
    {
      if k < |out| {
        SameSubmesh(attrib, shape, materials, normalize, defaultTransparency, runs[k], out[k], out'[k]);
      } else {
        SameSubmesh(attrib, shape, materials, normalize, defaultTransparency, runs[k], m, out'[k]);
      }
    }
  }

  lemma SubmeshesOfAt(attrib: Attrib, shape: Shape, materials: seq<ObjMaterial>, normalize: Vec3 -> Vec3,
                      defaultTransparency: real, runs: seq<Run>, out: seq<Mesh>, k: nat)
    requires ShapeValid(attrib, shape)
    requires SubmeshesOf(attrib, shape, materials, normalize, defaultTransparency, runs, out)
    requires k < |out|
    ensures k < |runs| && IsSubmesh(attrib, shape, materials, normalize, defaultTransparency, runs[k], out[k])
  {
  }

  /**
   * The splitting loop's state before triangle e: the runs emitted so far,
   * followed by those still to come from the open run [start, ..) with
   * material id prev, are all the runs of the shape.
   */
  ghost predicate Pending(ids: seq<int>, emitted: seq<Run>, start: nat, prev: int, e: nat)
  {
    && start <= e < |ids|
    && prev == ids[start]
    && emitted + RunsFrom(ids, start, prev, e) == Runs(ids)
  }

  /** One turn of the splitting loop, in its three cases: last triangle, same id, new id. */
  lemma SplitStep(ids: seq<int>, emitted: seq<Run>, start: nat, prev: int, e: nat)
    requires Pending(ids, emitted, start, prev, e)
    ensures e == |ids| - 1 ==>
      && emitted + [Run(start, |ids|)] == Runs(ids)
      && |emitted| < |Runs(ids)| && Runs(ids)[|emitted|] == Run(start, |ids|)
    ensures e < |ids| - 1 && ids[e] == prev ==> Pending(ids, emitted, start, prev, e + 1)
    ensures e < |ids| - 1 && ids[e] != prev ==>
      && Pending(ids, emitted + [Run(start, e)], e, ids[e], e + 1)
      && |emitted| < |Runs(ids)| && Runs(ids)[|emitted|] == Run(start, e)
  {
    var all := Runs(ids);
    if e == |ids| - 1 {
      assert all[|emitted|] == [Run(start, |ids|)][0];
    } else if ids[e] != prev {
      var rest := RunsFrom(ids, e, ids[e], e + 1);
      assert emitted + ([Run(start, e)] + rest) == all;
      assert all[|emitted|] == ([Run(start, e)] + rest)[0];
      assert (emitted + [Run(start, e)]) + rest == emitted + ([Run(start, e)] + rest);
    }
  }

  /** The submesh of run [start, end): its deduplicated vertices and triangles, and the material of its first triangle. */
  method BuildSubmesh(attrib: Attrib, shape: Shape, materials: seq<ObjMaterial>, normalize: Vec3 -> Vec3,
                      defaultTransparency: real, start: nat, end: nat)
    returns (m: Mesh)
    requires ShapeValid(attrib, shape)
    requires start < end <= |shape.materialIds| && MaterialIdValid(shape.materialIds[start], materials)
    ensures IsSubmesh(attrib, shape, materials, normalize, defaultTransparency, Run(start, end), m)
  {
    var vertices, triangles := BuildRun(attrib, shape.indices, normalize, start, end);
    var material := ResolveMaterial(shape.materialIds[start], materials, defaultTransparency);
    m := Mesh(vertices, triangles, material);
  }

  /** The meshes loadMesh emits for one shape: one per run, in order. */
  method LoadShape(attrib: Attrib, shape: Shape, materials: seq<ObjMaterial>, normalize: Vec3 -> Vec3,
                   defaultTransparency: real)
    returns (out: seq<Mesh>)
    requires ShapeValid(attrib, shape)
    requires RunMaterialsValid(shape, materials)
    ensures |out| == |Runs(shape.materialIds)|
    ensures SubmeshesOf(attrib, shape, materials, normalize, defaultTransparency, Runs(shape.materialIds), out)
  {
    var ids := shape.materialIds;
    var n := |ids|;  // the triangle count, indices.size() / 3
    ghost var runs := Runs(ids);
    out := [];
    ghost var emitted: seq<Run> := [];
    var startTriangle := 0;
    var prevMaterialId := ids[0];
    var endTriangle := 0;
    while endTriangle < n
      invariant endTriangle < n || endTriangle == n + 1
      invariant endTriangle < n ==> Pending(ids, emitted, startTriangle, prevMaterialId, endTriangle)
      invariant endTriangle == n + 1 ==> emitted == runs
      invariant |out| == |emitted|
      invariant SubmeshesOf(attrib, shape, materials, normalize, defaultTransparency, runs, out)
      decreases n + 1 - endTriangle
    {
      SplitStep(ids, emitted, startTriangle, prevMaterialId, endTriangle);
      var emit := true;
      if endTriangle == n - 1 {
        endTriangle := endTriangle + 1;
      } else if ids[endTriangle] == prevMaterialId {
        emit := false;
      } else {
        prevMaterialId := ids[endTriangle];
      }
      if emit {
        var run := Run(startTriangle, endTriangle);
        RunMaterialValid(shape, materials, |emitted|);
        var mesh := BuildSubmesh(attrib, shape, materials, normalize, defaultTransparency, startTriangle, endTriangle);
        SubmeshesOfAppend(attrib, shape, materials, normalize, defaultTransparency, runs, out, run, mesh);
        out := out + [mesh];
        emitted := emitted + [run];
        startTriangle := endTriangle;
      }
      endTriangle := endTriangle + 1;
    }
  }

  /** Every shape of the file is well-formed and names only materials the table has. */
  predicate ShapesValid(attrib: Attrib, shapes: seq<Shape>, materials: seq<ObjMaterial>)
  {
    forall i :: 0 <= i < |shapes| ==> ShapeValid(attrib, shapes[i]) && RunMaterialsValid(shapes[i], materials)
  }

  /** Every shape has at least one triangle, so its runs are defined. */
  predicate HasTriangles(shapes: seq<Shape>)
  {
    forall i :: 0 <= i < |shapes| ==> |shapes[i].materialIds| > 0
  }

  /** The number of meshes the shapes give: one per run, over all shapes. */
  function RunCount(shapes: seq<Shape>): nat
    requires HasTriangles(shapes)
  {
    if shapes == [] then 0
    else RunCount(shapes[..|shapes| - 1]) + |Runs(shapes[|shapes| - 1].materialIds)|
  }

  /** The number of meshes the shapes before shape s produce: where shape s's meshes start in the output. */
  function RunOffset(shapes: seq<Shape>, s: nat): nat
    requires HasTriangles(shapes) && s <= |shapes|
  {
    RunCount(shapes[..s])
  }

  /** The groups of meshes, concatenated in order. */
  function Concat(groups: seq<seq<Mesh>>): seq<Mesh>
  {
    if groups == [] then [] else Concat(groups[..|groups| - 1]) + groups[|groups| - 1]
  }

  lemma ConcatAppend(groups: seq<seq<Mesh>>, g: seq<Mesh>)
    ensures Concat(groups + [g]) == Concat(groups) + g
  {
    assert (groups + [g])[..|groups|] == groups;
  }

  /** Mesh k of group s sits at position |Concat(groups[..s])| + k of the concatenation. */
  lemma {:induction false} ConcatAt(groups: seq<seq<Mesh>>, s: nat, k: nat)
    requires s < |groups| && k < |groups[s]|
    ensures |Concat(groups[..s])| + k < |Concat(groups)|
    ensures Concat(groups)[|Concat(groups[..s])| + k] == groups[s][k]
    decreases |groups|
  {
    var prefix := groups[..|groups| - 1];
    if s < |groups| - 1 {
      ConcatAt(prefix, s, k);
      assert prefix[..s] == groups[..s];
    } else {
      assert prefix == groups[..s];
    }
  }

  /** Group s holds one mesh per run of shape s, for every s. */
  predicate GroupSizes(shapes: seq<Shape>, groups: seq<seq<Mesh>>)
    requires HasTriangles(shapes)
  {
    && |groups| == |shapes|
    && forall s :: 0 <= s < |shapes| ==> |groups[s]| == |Runs(shapes[s].materialIds)|
  }

  /** Groups sized as GroupSizes says hold RunCount(shapes) meshes in all. */
  lemma {:induction false} ConcatCount(shapes: seq<Shape>, groups: seq<seq<Mesh>>)
    requires HasTriangles(shapes) && GroupSizes(shapes, groups)
    ensures |Concat(groups)| == RunCount(shapes)
    decreases |shapes|
  {
    if shapes != [] {
      ConcatCount(shapes[..|shapes| - 1], groups[..|groups| - 1]);
    }
  }

  /** Mesh k of group s is mesh RunCount(shapes[..s]) + k of the concatenation. */
  lemma GroupOffset(shapes: seq<Shape>, groups: seq<seq<Mesh>>, s: nat, k: nat)
    requires HasTriangles(shapes) && GroupSizes(shapes, groups)
    requires s < |shapes| && k < |groups[s]|
    ensures RunCount(shapes[..s]) + k < |Concat(groups)|
    ensures Concat(groups)[RunCount(shapes[..s]) + k] == groups[s][k]
  {
    ConcatAt(groups, s, k);
    ConcatCount(shapes[..s], groups[..s]);
  }

  lemma GroupSizesAppend(shapes: seq<Shape>, groups: seq<seq<Mesh>>, meshes: seq<Mesh>)
    requires HasTriangles(shapes) && |groups| < |shapes|
    requires forall s :: 0 <= s < |groups| ==> |groups[s]| == |Runs(shapes[s].materialIds)|
    requires |meshes| == |Runs(shapes[|groups|].materialIds)|
    ensures forall s :: 0 <= s < |groups| + 1 ==> |(groups + [meshes])[s]| == |Runs(shapes[s].materialIds)|
  {
  }

  /** Group s holds the submeshes of shape s's runs, for every s. */
  ghost predicate GroupsOf(attrib: Attrib, shapes: seq<Shape>, materials: seq<ObjMaterial>, normalize: Vec3 -> Vec3,
                           defaultTransparency: real, groups: seq<seq<Mesh>>)
    requires ShapesValid(attrib, shapes, materials)
    decreases |shapes|
  {
    && |groups| == |shapes|
    && (shapes != [] ==>
        var last := shapes[|shapes| - 1];
        && GroupsOf(attrib, shapes[..|shapes| - 1], materials, normalize, defaultTransparency, groups[..|groups| - 1])
        && SubmeshesOf(attrib, last, materials, normalize, defaultTransparency, Runs(last.materialIds), groups[|groups| - 1]))
  }

  lemma GroupsOfAppend(attrib: Attrib, shapes: seq<Shape>, materials: seq<ObjMaterial>, normalize: Vec3 -> Vec3,
                       defaultTransparency: real, groups: seq<seq<Mesh>>, i: nat, meshes: seq<Mesh>)
    requires ShapesValid(attrib, shapes, materials) && i < |shapes|
    requires GroupsOf(attrib, shapes[..i], materials, normalize, defaultTransparency, groups)
    requires SubmeshesOf(attrib, shapes[i], materials, normalize, defaultTransparency, Runs(shapes[i].materialIds), meshes)
    ensures GroupsOf(attrib, shapes[..i + 1], materials, normalize, defaultTransparency, groups + [meshes])
  {
    assert shapes[..i + 1][..i] == shapes[..i];
    assert (groups + [meshes])[..|groups|] == groups;
  }

  lemma {:induction false} GroupsOfAt(attrib: Attrib, shapes: seq<Shape>, materials: seq<ObjMaterial>, normalize: Vec3 -> Vec3,
                                      defaultTransparency: real, groups: seq<seq<Mesh>>, s: nat)
    requires ShapesValid(attrib, shapes, materials)
    requires GroupsOf(attrib, shapes, materials, normalize, defaultTransparency, groups)
    requires s < |shapes|
    ensures SubmeshesOf(attrib, shapes[s], materials, normalize, defaultTransparency, Runs(shapes[s].materialIds), groups[s])
    decreases |shapes|
  {
    if s < |shapes| - 1 {
      var prefix := shapes[..|shapes| - 1];
      var before := groups[..|groups| - 1];
      GroupsOfAt(attrib, prefix, materials, normalize, defaultTransparency, before, s);
      assert prefix[s] == shapes[s] && before[s] == groups[s];
    }
  }

  /** Run k of shape s is mesh RunOffset(shapes, s) + k of the concatenated groups. */
  lemma LoadedAt(attrib: Attrib, shapes: seq<Shape>, materials: seq<ObjMaterial>, normalize: Vec3 -> Vec3,
                 defaultTransparency: real, groups: seq<seq<Mesh>>, out: seq<Mesh>, s: nat, k: nat)
    requires ShapesValid(attrib, shapes, materials) && HasTriangles(shapes) && GroupSizes(shapes, groups)
    requires GroupsOf(attrib, shapes, materials, normalize, defaultTransparency, groups) && out == Concat(groups)
    requires s < |shapes| && k < |Runs(shapes[s].materialIds)|
    ensures RunOffset(shapes, s) + k < |out|
    ensures IsSubmesh(attrib, shapes[s], materials, normalize, defaultTransparency, Runs(shapes[s].materialIds)[k],
                      out[RunOffset(shapes, s) + k])
  {
    GroupOffset(shapes, groups, s, k);
    GroupsOfAt(attrib, shapes, materials, normalize, defaultTransparency, groups, s);
    var runs := Runs(shapes[s].materialIds);
    SubmeshesOfAt(attrib, shapes[s], materials, normalize, defaultTransparency, runs, groups[s], k);
    assert out[RunOffset(shapes, s) + k] == groups[s][k];
    SameSubmesh(attrib, shapes[s], materials, normalize, defaultTransparency, runs[k], groups[s][k],
                out[RunOffset(shapes, s) + k]);
  }

  lemma SameSubmesh(attrib: Attrib, shape: Shape, materials: seq<ObjMaterial>, normalize: Vec3 -> Vec3,
                    defaultTransparency: real, r: Run, m: Mesh, m': Mesh)
    requires ShapeValid(attrib, shape)
    requires IsSubmesh(attrib, shape, materials, normalize, defaultTransparency, r, m) && m == m'
    ensures IsSubmesh(attrib, shape, materials, normalize, defaultTransparency, r, m')
  {
  }

  /** Run k of shape s is mesh RunOffset(shapes, s) + k of `out`, for every shape s and run k of it. */
  ghost predicate LoadedRuns(attrib: Attrib, shapes: seq<Shape>, materials: seq<ObjMaterial>, normalize: Vec3 -> Vec3,
                             defaultTransparency: real, out: seq<Mesh>)
    requires ShapesValid(attrib, shapes, materials) && HasTriangles(shapes)
  {
    forall s, k :: 0 <= s < |shapes| && 0 <= k < |Runs(shapes[s].materialIds)| ==>
      RunOffset(shapes, s) + k < |out| &&
      IsSubmesh(attrib, shapes[s], materials, normalize, defaultTransparency, Runs(shapes[s].materialIds)[k],
                out[RunOffset(shapes, s) + k])
  }

  /** Concatenated groups that satisfy GroupsOf hold run k of shape s at RunOffset(shapes, s) + k, for every s and k. */
  lemma {:induction false} LoadedAll(attrib: Attrib, shapes: seq<Shape>, materials: seq<ObjMaterial>, normalize: Vec3 -> Vec3,
                  defaultTransparency: real, groups: seq<seq<Mesh>>, out: seq<Mesh>)
    requires ShapesValid(attrib, shapes, materials) && HasTriangles(shapes) && GroupSizes(shapes, groups)
    requires GroupsOf(attrib, shapes, materials, normalize, defaultTransparency, groups) && out == Concat(groups)
    ensures LoadedRuns(attrib, shapes, materials, normalize, defaultTransparency, out)
  {
    forall s, k | 0 <= s < |shapes| && 0 <= k < |Runs(shapes[s].materialIds)|
      ensures RunOffset(shapes, s) + k < |out| &&
        IsSubmesh(attrib, shapes[s], materials, normalize, defaultTransparency, Runs(shapes[s].materialIds)[k],
                  out[RunOffset(shapes, s) + k])
    {
      LoadedAt(attrib, shapes, materials, normalize, defaultTransparency, groups, out, s, k);
    }
  }

  /**
   * loadMesh without centring: the meshes of every shape in turn, one per
   * run of the shape; run k of shape s becomes mesh RunOffset(shapes, s) + k.
   */
  method LoadMesh(attrib: Attrib, shapes: seq<Shape>, materials: seq<ObjMaterial>, normalize: Vec3 -> Vec3,
                  defaultTransparency: real)
    returns (out: seq<Mesh>)
    requires ShapesValid(attrib, shapes, materials) && HasTriangles(shapes)
    ensures |out| == RunCount(shapes)
    ensures LoadedRuns(attrib, shapes, materials, normalize, defaultTransparency, out)
  {
    out := [];
    ghost var groups: seq<seq<Mesh>> := [];
    var i := 0;
    while i < |shapes|
      invariant 0 <= i <= |shapes| && |groups| == i && out == Concat(groups)
      invariant forall s :: 0 <= s < i ==> |groups[s]| == |Runs(shapes[s].materialIds)|
      invariant GroupsOf(attrib, shapes[..i], materials, normalize, defaultTransparency, groups)
    {
      var meshes := LoadShape(attrib, shapes[i], materials, normalize, defaultTransparency);
      GroupsOfAppend(attrib, shapes, materials, normalize, defaultTransparency, groups, i, meshes);
      GroupSizesAppend(shapes, groups, meshes);
      ConcatAppend(groups, meshes);
      out := out + meshes;
      groups := groups + [meshes];
      i := i + 1;
    }
    assert shapes[..i] == shapes;
    ConcatCount(shapes, groups);
    LoadedAll(attrib, shapes, materials, normalize, defaultTransparency, groups, out);
  }
}
