# Mesh loading and voxel grid of a voxel global-illumination demo

This project models two parts of a C++ real-time voxel global-illumination demo:

- its mesh framework (`framework/src/mesh.cpp`);
- its voxel grid (`src/voxel_grid.cpp`).

The models are written in Dafny, and Dafny proves what the code promises about them.

The mesh framework turns a parsed Wavefront OBJ file into renderable meshes.

- Each shape's triangles are cut into runs of equal material id.
- Each run becomes one `Mesh`.
- A run's vertices are deduplicated on the triple (position index, normal index, texcoord index). `VertexKey` is that triple, with its `==` and its hash.
- A corner without a normal takes the face normal of its triangle, unless its key already appeared earlier in the run. That corner reuses the earlier vertex, so it gets the face normal of the first triangle that used the key.
- A corner without a texture coordinate takes (0, 0).
- The run's material comes from the material id of its first triangle.

Two mesh utilities work on finished meshes:

- `mergeMeshes` concatenates meshes and rebases their triangle indices.
- `meshFlipX/Y/Z` mirror a mesh along one axis.

The voxel grid is a cubic grid laid over a world box. It maps world positions to grid cells and back, and keeps the list of occupied cells.

Modules:

- `Vectors` (`vectors.dfy`): the glm value types. Floats are modelled as reals.
- `VertexKeys` (`vertex_key.dfy`): the dedup key, its equality and its 64-bit hash, with `size_t` wrap-around written out as `bv64`.
- `Meshes` (`mesh.dfy`): `Vertex`, `Tri`, `Material` and `Mesh`, `mergeMeshes`, and the flips.
- `ObjImport` (`obj_import.dfy`): `loadMesh`.
  - The splitting loop is written as the function `Runs`.
  - The per-run loop with its vertex cache is the method `BuildRun`, with `BuildTriangle` and `CacheCorner`.
  - Material resolution is `ResolveMaterial`.
  - The per-shape loop is `LoadShape`, and the loop over shapes is `LoadMesh`.
  - Each method is proved against a specification predicate: `IsRunMesh`, `IsSubmesh` and `LoadedRuns`. Lemmas then state what those predicates imply.
- `Voxels` (`voxel_grid.dfy`): the class `VoxelGrid`, its fields and methods, and lemmas about the coordinate mappings.

Behaviour the model reproduces as written:

- **The last triangle of a shape always closes the open run, whatever its material id.** A final triangle with a new id is emitted with the previous run and takes that run's material. `RunUniform` states this exception, and `LastTriangleJoinsOpenRun` shows it on `[A, A, B]`.
- **`worldToGridPosition`'s upper bound is inclusive.** The position is clamped to [0, 1] before it is scaled and floored. A position at or beyond `worldMax` therefore maps to `gridLength`, one past the last cell, which is not a cell of the grid (`WorldToGridAtUpperBound`). On each axis, a coordinate below `worldMax` maps into [0, gridLength), and a coordinate below `worldMin` maps to cell 0 (`WorldToGridBelowMax`, `AxisToGridBelow`).
- **`mergeMeshes` rebases indices in uint32 arithmetic.** A rebased index that reaches 2^32 wraps around. The wrapped index still names a merged vertex (`MergeKeepsIndicesInBounds`), but one that precedes its own mesh. While the merged vertex count fits in uint32, no index wraps, and every corner names the vertex it named in its own mesh (`MergedTriangleNamesSameVertices`).

## Model

| member | source | states |
|---|---|---|
| VertexKeys.KeyEquals | framework/src/mesh.cpp:60-63 | `VertexKey::operator==` holds exactly when the two keys are equal values (both directions). |
| VertexKeys.HashOrderMatters | framework/src/mesh.cpp:70-76 | For example, (1, 0, 0) hashes differently from (0, 1, 0) and from (0, 0, 1): the fields are combined in declaration order. |
| VertexKeys.HashRespectsEquality | framework/src/mesh.cpp:28-78 | Keys that compare equal have equal `std::hash<VertexKey>` values, as an `unordered_map` key requires; the hash is `hash_combine` in 64-bit wrap-around. |
| Vectors.NegateAxis | framework/src/mesh.cpp:227-249 | Negating one axis changes that component's sign and leaves the other two components unchanged. |
| Meshes.FlipVertex | framework/src/mesh.cpp:227-249 | A flipped vertex has the chosen axis of its position and its normal negated; the other axes and the texcoord are kept. |
| Meshes.Flipped | framework/src/mesh.cpp:227-249 | The mirrored mesh has the same vertex count, and each vertex is the flipped original; triangles (so winding) and material are unchanged. |
| Meshes.Flip | framework/src/mesh.cpp:227-249 | `meshFlipX/Y/Z`'s loop, rewriting each vertex in turn, yields exactly `Flipped(mesh, axis)`. |
| Meshes.FlipTwice | framework/src/mesh.cpp:227-249 | Mirroring twice along the same axis gives back the original mesh. |
| Meshes.FlipKeepsIndicesInBounds | framework/src/mesh.cpp:227-249 | Mirroring keeps every triangle index within the vertex list. |
| Meshes.RebaseInBounds | framework/src/mesh.cpp:220-222 | A triangle in bounds of its mesh's n vertices, shifted past `offset` vertices in uint32 arithmetic (`tri + (unsigned)vertexOffset`), is in bounds of offset + n vertices, even when an index wraps around. |
| Meshes.MergeMeshes | framework/src/mesh.cpp:211-225 | The merged mesh takes the first mesh's material; its vertices are all vertices in order, and its triangles are each mesh's triangles rebased by the vertex count before it. |
| Meshes.AllVerticesAt | framework/src/mesh.cpp:215-218 | Vertex i of mesh k is vertex `VertexOffset(ms, k) + i` of the merged mesh. |
| Meshes.AllTrianglesAt | framework/src/mesh.cpp:215-222 | Triangle i of mesh k is triangle `TriangleOffset(ms, k) + i` of the merged mesh, rebased by `VertexOffset(ms, k)`. |
| Meshes.MergeKeepsIndicesInBounds | framework/src/mesh.cpp:211-225 | When every input mesh's indices are in bounds, every merged index names a merged vertex. |
| Meshes.MergedTriangleNamesSameVertices | framework/src/mesh.cpp:211-225 | When the merged vertex count fits in uint32, each corner of a merged triangle names the same vertex that it named in its own mesh. |
| ObjImport.RunsFrom | framework/src/mesh.cpp:106-174 | From any state of the splitting loop at least one run is emitted, because the shape's last triangle always closes the open run. |
| ObjImport.Runs | framework/src/mesh.cpp:106-174 | Every shape with triangles yields at least one run, so at least one mesh. |
| ObjImport.RunsFromPartition | framework/src/mesh.cpp:106-174 | The runs the splitting loop emits from any state partition the remaining triangles from the open run's start. |
| ObjImport.RunsArePartition | framework/src/mesh.cpp:106-174 | A shape's runs are non-empty and contiguous, run from 0 to the triangle count, and are uniform in material id except for the shape's last triangle. Every run but the last ends where the id changes, before the last triangle. |
| ObjImport.EachTriangleInOneRun | framework/src/mesh.cpp:106-174 | Every triangle lies in some run, and in only one. |
| ObjImport.LastTriangleJoinsOpenRun | framework/src/mesh.cpp:110-111 | A final triangle with a new id joins the open run: ids [A, A, B] give the single run [0, 3). |
| ObjImport.SplitStep | framework/src/mesh.cpp:108-174 | Each of the loop's three cases (last triangle, same id, new id) keeps "runs emitted + runs still to come = all runs". The last-triangle and new-id cases emit the next run of the list. |
| ObjImport.FaceNormal | framework/src/mesh.cpp:121-124 | The cross product of the edges v1 - v0 and v2 - v0, from which the face normal is normalised, is perpendicular to all three edges of the triangle. |
| ObjImport.ResolveVertex | framework/src/mesh.cpp:134-137 | A corner's vertex takes its position from the position array. Its normal is the indexed normal, or the face normal when the index is -1 or there are no normals. Its texcoord is the indexed one, or (0, 0) likewise. |
| ObjImport.CornerKeysAt | framework/src/mesh.cpp:130-132 | The key of corner o of a corner range is built from that corner's three indices. |
| ObjImport.TrianglesVerticesAt | framework/src/mesh.cpp:120-137 | Corner j of triangle t is built from `indices[3t + j]` with triangle t's face normal. |
| ObjImport.CornerAt | framework/src/mesh.cpp:120-137 | Corner c of triangle tri is corner `c - 3 * start` of its run, with that corner's key and with a vertex that uses tri's face normal. |
| ObjImport.CacheHit | framework/src/mesh.cpp:140-143 | A cached key reuses its index and keeps the cache invariant (cache = inverse of the distinct keys seen, vertices in step, indices agree). |
| ObjImport.CacheMiss | framework/src/mesh.cpp:144-150 | A new key is cached at the current vertex count, and its vertex is appended; the cache invariant is kept. |
| ObjImport.CacheCorner | framework/src/mesh.cpp:140-150 | The cache lookup returns the cached index unchanged, or caches and appends a new vertex at index `vertices.size()`; the invariant is kept either way. |
| ObjImport.BuildTriangle | framework/src/mesh.cpp:120-153 | The three corners of a triangle, looked up in order, extend the run's corner indices by the triangle, and the cache invariant is kept. |
| ObjImport.CacheDone | framework/src/mesh.cpp:119-154 | Once every corner is processed, the vertices and indices are the deduplication of the run's keys. |
| ObjImport.BuildRun | framework/src/mesh.cpp:117-154 | The per-run loop yields one triangle per run triangle. The vertex list is deduplicated on the corner keys in first-occurrence order (`IsRunMesh`). |
| ObjImport.RunMeshDedup | framework/src/mesh.cpp:131-150 | Two corners of a run get the same vertex index exactly when their keys are equal (both directions), even when the keys resolve to equal positions. |
| ObjImport.DedupSameIndex | framework/src/mesh.cpp:140-150 | Under deduplication two corners share an index exactly when they share a key. |
| ObjImport.RunMeshVertexCount | framework/src/mesh.cpp:117-154 | A run mesh has one vertex per distinct key among its corners, and one triangle per run triangle. |
| ObjImport.RunMeshSharedVertex | framework/src/mesh.cpp:124-150 | A corner's vertex is the one built at the first corner with the same key. In particular, a fallback normal is the face normal of the first triangle that used the key. |
| ObjImport.RunMeshIndicesInBounds | framework/src/mesh.cpp:140-153 | Every index of a run mesh names one of its vertices. |
| ObjImport.ResolveMaterial | framework/src/mesh.cpp:156-170 | Id -1 gives white diffuse, black specular, shininess 1, the default transparency and no texture. Any other id copies diffuse, specular, shininess and dissolve, with a texture exactly when the texture name is non-empty. |
| ObjImport.BuildSubmesh | framework/src/mesh.cpp:117-172 | The mesh built for a run is its run mesh, with the material of its first triangle's id. |
| ObjImport.LoadShape | framework/src/mesh.cpp:104-175 | One shape gives one mesh per run, in run order, and mesh k is the submesh of run k. |
| ObjImport.ConcatAt | framework/src/mesh.cpp:102-172 | Mesh k of shape s's group sits after all meshes of the shapes before it. |
| ObjImport.LoadedAt | framework/src/mesh.cpp:102-176 | Run k of shape s is output mesh `RunOffset(shapes, s) + k`. |
| ObjImport.LoadMesh | framework/src/mesh.cpp:82-182 | `loadMesh` (without centring) returns one mesh per run over all shapes. Run k of shape s is mesh `RunOffset(shapes, s) + k` and is that run's submesh. |
| Voxels.Clamp01 | src/voxel_grid.cpp:42 | The clamp lies in [0, 1], is the identity inside, and saturates at 0 below and 1 above. |
| Voxels.AxisToGrid | src/voxel_grid.cpp:37-50 | On one axis, whatever the coordinate and whatever the sign of the extent, the cell index lies in [0, n]. |
| Voxels.AxisToWorld | src/voxel_grid.cpp:58-60 | On one axis, for a positive scale, the mapped point lies strictly inside cell g, between its faces lo + g * scale and lo + (g + 1) * scale. |
| Voxels.AxisToGridAbove | src/voxel_grid.cpp:39-49 | A coordinate at or beyond the upper bound maps to n. |
| Voxels.AxisToGridBelow | src/voxel_grid.cpp:39-49 | A coordinate at or below the lower bound maps to 0. |
| Voxels.AxisToGridInside | src/voxel_grid.cpp:39-49 | Inside [lo, hi) the clamp does nothing: the index is the floor of the scaled offset, in [0, n). |
| Voxels.AxisRoundTrip | src/voxel_grid.cpp:37-60 | With scale = extent / n, a coordinate of the closed box [lo, hi] has its cell centre within half a voxel of it (in (-scale/2, scale/2]). |
| Voxels.CellCentreRoundTrip | src/voxel_grid.cpp:37-60 | With scale = extent / n, the centre of every cell 0 <= g < n maps back to g. |
| Voxels.VoxelGrid.constructor | src/voxel_grid.cpp:14-19 | The defaults are 64 cells, world length 2, scale 2/64 and the box [-1, 1]^3, with no cell occupied. The box is valid and the scale tiles it. |
| Voxels.VoxelGrid.IsGridPositionOccupied | src/voxel_grid.cpp:27-29 | The linear search returns true exactly when the cell is in the occupied list. |
| Voxels.VoxelGrid.ClearGrid | src/voxel_grid.cpp:65-67 | The occupied list becomes empty, and every other field is unchanged. |
| Voxels.VoxelGrid.CalculateVoxelScale | src/voxel_grid.cpp:70-72 | The voxel scale becomes worldLength / gridLength, ignoring the bounds; every other field is unchanged. |
| Voxels.VoxelGrid.WorldToGridPosition | src/voxel_grid.cpp:37-50 | For any position, every component of the mapped cell lies in [0, gridLength]. |
| Voxels.VoxelGrid.GridToWorldPosition | src/voxel_grid.cpp:58-60 | For a positive voxel scale, the mapped point lies strictly inside the cell on every axis, between worldMin + gridPos * voxelScale and worldMin + (gridPos + 1) * voxelScale. |
| Voxels.WorldToGridAtUpperBound | src/voxel_grid.cpp:37-50 | A position at or beyond `worldMax` on every axis maps to (gridLength, gridLength, gridLength), outside the grid. |
| Voxels.AxisToGridBelowMax | src/voxel_grid.cpp:39-49 | On one axis, any coordinate below the upper bound, including one below the lower bound, maps to a cell in [0, n). |
| Voxels.WorldToGridBelowMax | src/voxel_grid.cpp:37-50 | A position below `worldMax` on every axis maps to a grid cell, in [0, gridLength) on every axis. |
| Voxels.WorldGridRoundTrip | src/voxel_grid.cpp:37-60 | When voxels tile the box, mapping a position of the closed box [worldMin, worldMax] to a cell and back lands within half a voxel on every axis. |
| Voxels.CellCentreMapsBack | src/voxel_grid.cpp:37-60 | When voxels tile the box, the centre of every cell of the grid maps back to that cell. |
| Voxels.FourCellExample | src/voxel_grid.cpp:37-60 | On a 4-cell grid over [-1, 1]: 0.9 maps to cell 3, 5 is clamped to 4, and cell 3's centre at scale 0.5 is 0.75. |

## Left out

- Reading the file is not modelled: the existence check, the exception, and tinyobj's parsing. The model takes the parser's output (attribute arrays, shapes and the material table) as its input.
- Loading a texture image is not modelled. The material keeps the texture's file name (`kdTexture`).
- `glm::normalize` is the parameter `normalize`. The cross product and the subtractions are written out.
- `std::hash<int>` is modelled as libstdc++ and libc++ define it on a 64-bit target: the identity, sign-extended to a 64-bit `size_t`. The C++ standard leaves it unspecified, and other libraries (MSVC's FNV-1a) or 32-bit targets give other hash values.
- Single-precision floats are modelled as reals, and rounding is not modelled.
- `centerAndScaleToUnitMesh` and the `centerAndNormalize == true` path of `loadMesh` are left out, because they need floating-point lengths and a square root. `ObjImport.LoadMesh` models `centerAndNormalize == false`.
- `VertexHash` is never used by the loader and is left out.
- The default `Material::transparency` is declared in the mesh header, which is not part of this model. It is the parameter `defaultTransparency`.
- `src/application.cpp` is not part of this model.
- ObjImport.BuildTriangle: the `static_cast<uint32_t>` of a new vertex index is not modelled. Indices are unbounded naturals, which agrees with the source while a run has fewer than 2^32 vertices.
- Meshes.Flip: modelled on values. It returns the updated mesh instead of changing a mesh in place through a reference, so aliasing is not modelled.
- Voxels.VoxelGrid.CalculateVoxelScale: requires `gridLength != 0`. The source divides a float by zero there, which yields infinity and is not modelled.
- ObjImport.LoadShape: requires each shape to have at least one triangle, a whole number of triangles, one material id per triangle, in-range attribute indices, and run material ids that are -1 or in the table. The source asserts the triangle multiple and reads out of bounds (undefined behaviour) otherwise. For example, it reads `material_ids[0]` even when a shape has no triangles.
- ObjImport.LoadMesh: requires the same of every shape, for the same reason.
- Meshes.MergeMeshes: requires a non-empty input. The source reads `meshes[0]` unconditionally, which is undefined behaviour on an empty span.
- Voxels.VoxelGrid.WorldToGridPosition: requires `worldMin != worldMax` on every axis. The source divides by the box extent, and a zero extent gives a float division by zero, which is not modelled. A negative extent is modelled.
- Voxels.VoxelGrid.WorldToGridPosition: takes the `static_cast<int>` of the floored value as exact. The values lie in [0, gridLength], so the cast cannot overflow.
