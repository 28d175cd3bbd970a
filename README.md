# BloomFramework / BloomBirb engine core in Dafny

This project models the CPU-side bookkeeping of the BloomFramework 2D game
engine and of its older sibling BloomBirb. Both are written in C# over
OpenGL and OpenAL. The model covers:

- **Texture atlases.** The shelf packer of BloomFramework and the
  free-rectangle ("guillotine") packer of BloomBirb.
- **Texture uploads.** The padded row upload of `Texture.UploadData`.
- **Index and vertex buffers.** The quad index and element buffers, the
  plain, ring and triple vertex buffers, BloomBirb's dirty-range vertex
  buffer, and the two vertex batches that rotate over them.
- **Drawing.** The drawable batch tree, which groups draws by shader and
  texture, and the OpenGL renderer's binding caches, buffer pool and
  deferred drawing stack.
- **Scene graph.** The drawable life cycle with its change-guarded setters,
  and the composite drawable's child list.
- **Resource stores.** The filesystem, shader (with `#include` expansion)
  and texture stores.
- **BMFont binary fonts.** The block parser, the four descriptor-block
  decoders and the glyph and kerning lookups.
- **Vertex layouts.** The layouts and sizes, and the attribute setup of
  `GLUtils.SetVAO`.
- **Audio.** The audio format checks and the PCM sample assembly of
  `ToPcm16`.
- **Input.** The input manager's consumer sets and its key press/release
  map.

GL, AL and file-system effects are not performed. They are recorded as
values:

- A GL call becomes an event appended to a log field, or a counter or
  sequence that the method updates.
- Handles that GL would generate are passed in as parameters.
- The set of files that exist is a parameter.

Objects whose fields the C# code updates in place are Dafny classes with
`modifies` frames. Pure computations (decoders, lookups, the include
expansion, the sample layout) are functions with lemmas. C# 32-bit
wrap-around is written out in three places: the shifts of `ToPcm16`,
`2 << MipMapLevels` and the casts of the font decoders. Other integers
(areas, counters, offsets) are unbounded.

The files follow the source:

| file | models |
|---|---|
| `wrappers.dfy` | `Option`, `Result` and the exceptions the core throws |
| `bytes.dfy` | little-endian integers and C# 16/32-bit wrap-around |
| `sequences.dfy` | sequence helpers (`List.Remove`, reversal) |
| `geometry.dfy` | integer rectangles |
| `texture.dfy` | `Texture.UploadData`, `padPixelRow`, `hasTransparentPixels` |
| `shelf_atlas.dfy` | BloomFramework `TextureAtlas` |
| `guillotine_atlas.dfy` | BloomBirb `TextureAtlas` |
| `quad_indices.dfy` | `QuadElementBuffer`, `QuadIndexBuffer`, `QuadBuffer` sizes |
| `vertex_buffer.dfy`, `ring_vertex_buffer.dfy`, `triple_vertex_buffer.dfy` | BloomFramework vertex buffers |
| `dirty_vertex_buffer.dfy` | BloomBirb `VertexBuffer` and its shared element buffer |
| `framework_vertex_batch.dfy`, `birb_vertex_batch.dfy` | the two `VertexBatch` classes |
| `drawable_batch_tree.dfy` | `DrawableBatchTree` with its shader and texture nodes |
| `drawable.dfy`, `composite_drawable.dfy` | `Drawable`, `CompositeDrawable` |
| `opengl_renderer.dfy` | `OpenGlRenderer` |
| `filesystem_store.dfy`, `shader_store.dfy`, `texture_store.dfy` | the resource stores |
| `bmfont.dfy`, `bmfont_blocks.dfy` | BMFont `Font` and its descriptor blocks |
| `vertex_layouts.dfy`, `gl_utils.dfy` | vertex structs, `DepthWrappingVertex`, `GLUtils` |
| `audio_base.dfy` | `AudioBase` |
| `input_manager.dfy` | `InputManager` (consumers and keyboard) |

## Model

| member | source | states |
|---|---|---|
| Geometry.HalfGapKeepsApart | BloomFramework/Renderers/OpenGL/Textures/TextureAtlas.cs:79-86 | two rectangles kept `paddingAmount` apart do not overlap, and stay apart when either or both grow by half the padding (the margin the upload writes) |
| Texture.Clamp | BloomFramework/Renderers/OpenGL/Textures/Texture.cs:76-77 | `Math.Clamp`: the result lies in [lo, hi], equals the value inside the range, and is the nearer bound outside it |
| Texture.HasTransparentPixels | BloomFramework/Renderers/OpenGL/Textures/Texture.cs:115-126 | the scan returns true iff some pixel of the row has alpha below 255 |
| Texture.ScanTransparency | BloomFramework/Renderers/OpenGL/Textures/TextureAtlas.cs:36-51 | the atlases' transparency scan is true iff some row holds a pixel with alpha below 255 (the inner `break` leaves only the current row) |
| Texture.PaddedRow | BloomFramework/Renderers/OpenGL/Textures/Texture.cs:109-113 | the padded row has the requested length, holds the source row shifted right by the left padding, and repeats the first pixel to its left and the last pixel to its right |
| Texture.PadPixelRow | BloomFramework/Renderers/OpenGL/Textures/Texture.cs:109-113 | the loop fills the whole output span with `PaddedRow` of the source |
| Texture.SourceIndex | BloomFramework/Renderers/OpenGL/Textures/Texture.cs:88 | the image row read for a texture line is clamped into the image |
| Texture.SourceSlice | BloomFramework/Renderers/OpenGL/Textures/Texture.cs:88 | the row read for a texture line is cut to exactly the target width |
| Texture.WrittenRowsTransparency | BloomFramework/Renderers/OpenGL/Textures/Texture.cs:83-90 | the lines written, padding lines included, hold a translucent pixel iff the target-sized top-left corner of the image does |
| Texture.WriteRows | BloomFramework/Renderers/OpenGL/Textures/Texture.cs:79-99 | one upload per texture line from `padding` above to `padding` below the image that falls inside the texture, in order; each is the padded clamped source row at `x - leftSpace`; the transparency flag is that of the written corner |
| Texture.UploadData | BloomFramework/Renderers/OpenGL/Textures/Texture.cs:70-105 | the region is the offset with width and height `min(image, texture - offset)`, lies inside the texture and is non-empty; left and right spaces are the offset and the remaining width clamped to [0, padding]; every written line lies inside the texture and within `padding` of the region |
| ShelfAtlas.Padding | BloomFramework/Renderers/OpenGL/Textures/TextureAtlas.cs:86 | `2 << MipMapLevels` on a C# int is always a signed 32-bit value (shift count taken modulo 32, product wrapped) |
| ShelfAtlas.PaddingIsPowerOfTwo | BloomFramework/Renderers/OpenGL/Textures/TextureAtlas.cs:86 | for 0 to 29 mip levels the padding is 2^(levels+1), at least 2 |
| ShelfAtlas.PaddedRowsStayClear | BloomFramework/Renderers/OpenGL/Textures/TextureAtlas.cs:53 | rows written within half the padding around a new image that is kept `padding` from every earlier image and from the white corner touch no earlier image and not the corner |
| ShelfAtlas.TextureAtlas.Initialize | BloomFramework/Renderers/OpenGL/Textures/TextureAtlas.cs:14-24 | the cursor starts at (1 + padding, 0), maxY at 1 + padding, the white pixels are exactly the (halfPad + 1)² corner, nothing is placed; the atlas invariant holds |
| ShelfAtlas.TextureAtlas.FindFittingRect | BloomFramework/Renderers/OpenGL/Textures/TextureAtlas.cs:62-83 | fails, changing nothing, iff the height does not fit below the (possibly wrapped) row or the width exceeds the texture; on success the rectangle is at the cursor, or at (0, y + maxY) after a wrap, maxY becomes max(row max, h + padding) and the cursor moves w + padding right; the rectangle lies inside the texture and at least `padding` from every earlier one; the invariant is kept |
| ShelfAtlas.TextureAtlas.AddSubtexture | BloomFramework/Renderers/OpenGL/Textures/TextureAtlas.cs:26-56 | null iff no rectangle fits, with nothing changed; otherwise the usage carries the found rectangle and the transparency of the image, and every uploaded row lies inside the texture and within half the padding of the region, so it touches no earlier image and not the white corner |
| ShelfAtlas.FreshAtlasTakesSmallImage | BloomFramework/Renderers/OpenGL/Textures/TextureAtlas.cs:67-77 | a fresh 4096 x 4096 atlas with at most 10 mip levels takes any image below 2048 x 2048 in its first row |
| GuillotineAtlas.BestFit | BloomBirb/Renderers/OpenGL/Texture/TextureAtlas.cs:61-71 | none iff no free rectangle holds the image; otherwise an index of a holding rectangle whose area is least among all holding ones |
| GuillotineAtlas.RemoveFirst | BloomBirb/Renderers/OpenGL/Texture/TextureAtlas.cs:86 | `List.Remove`: one element shorter when the value is present, unchanged otherwise |
| GuillotineAtlas.RemoveFirstAt | BloomBirb/Renderers/OpenGL/Texture/TextureAtlas.cs:86 | removing by value a rectangle with no equal one before it removes exactly its own index |
| GuillotineAtlas.BestFitRemoved | BloomBirb/Renderers/OpenGL/Texture/TextureAtlas.cs:71-86 | removing the chosen rectangle by value removes it at its own index |
| GuillotineAtlas.SplitAsWritten | BloomBirb/Renderers/OpenGL/Texture/TextureAtlas.cs:79-84 | the chosen rectangle is replaced by exactly two rectangles |
| GuillotineAtlas.AllocateAsWritten | BloomBirb/Renderers/OpenGL/Texture/TextureAtlas.cs:59-91 | fails iff no rectangle holds the image; otherwise the region is the image size at the chosen rectangle's origin and the free list is the others in order followed by rect1 (x + w, y, W - w, H) and rect2 (x, y + h, W, H + h), one longer |
| GuillotineAtlas.TextureAtlas.Initialize | BloomBirb/Renderers/OpenGL/Texture/TextureAtlas.cs:12-19 | the free list is a single rectangle covering the texture |
| GuillotineAtlas.TextureAtlas.TryGetRegion | BloomBirb/Renderers/OpenGL/Texture/TextureAtlas.cs:59-91 | fails, leaving the free list, iff no free rectangle holds the image; otherwise region and new free list are those of `AllocateAsWritten`, and the list grows by one |
| GuillotineAtlas.TextureAtlas.AddSubtexture | BloomBirb/Renderers/OpenGL/Texture/TextureAtlas.cs:21-55 | null iff no region is found, with nothing written; otherwise the image is written at the region and the usage carries the region and the image's transparency |
| GuillotineAtlas.SplitAsWrittenOverlaps | BloomBirb/Renderers/OpenGL/Texture/TextureAtlas.cs:84 | in a fresh 4 x 4 atlas a 2 x 2 image leaves two free rectangles that overlap, one reaching past the texture |
| GuillotineAtlas.AllocationStep2 | BloomBirb/Renderers/OpenGL/Texture/TextureAtlas.cs:59-91 | the second 2 x 2 image of the counterexample goes to (2, 0) |
| GuillotineAtlas.AllocationStep3 | BloomBirb/Renderers/OpenGL/Texture/TextureAtlas.cs:59-91 | a following 4 x 2 image goes to (0, 2) |
| GuillotineAtlas.AllocationsAsWrittenOverlap | BloomBirb/Renderers/OpenGL/Texture/TextureAtlas.cs:59-91 | a fourth 2 x 2 image is then placed at (2, 2), on top of the 4 x 2 image |
| GuillotineAtlas.SplitCorrected | BloomBirb/Renderers/OpenGL/Texture/TextureAtlas.cs:76-84 | the two pieces lie within the chosen rectangle, miss the image and miss each other |
| GuillotineAtlas.AllocateCorrected | BloomBirb/Renderers/OpenGL/Texture/TextureAtlas.cs:59-91 | fails iff no rectangle holds the image; otherwise the region has the image size and lies within the chosen rectangle |
| GuillotineAtlas.DisjointReplace | BloomBirb/Renderers/OpenGL/Texture/TextureAtlas.cs:86-88 | replacing a rectangle of a disjoint free list by disjoint pieces within it keeps the list disjoint |
| GuillotineAtlas.AllocateCorrectedKeepsPacking | BloomBirb/Renderers/OpenGL/Texture/TextureAtlas.cs:59-91 | with the corrected split every allocation keeps the packing invariant: free rectangles and placed images lie inside the texture and no two of them share a pixel |
| QuadIndices.ToIndicesCount | BloomFramework/Renderers/OpenGL/Buffers/ElementBuffers/QuadElementBuffer.cs:43 | the vertex count times 6/4, truncated toward zero: for a non-negative count 2·r ≤ 3·v < 2·r + 2, mirrored for a negative one |
| QuadIndices.QuadTriangles | BloomFramework/Renderers/OpenGL/Buffers/ElementBuffers/QuadElementBuffer.cs:30-38 | each quad contributes six indices |
| QuadIndices.QuadIndexList | BloomFramework/Renderers/OpenGL/Buffers/ElementBuffers/QuadElementBuffer.cs:30-38 | the list for n quads has 6·n indices |
| QuadIndices.QuadPattern | BloomFramework/Renderers/OpenGL/Buffers/ElementBuffers/QuadElementBuffer.cs:30-38 | quad k of the list is 4k, 4k+1, 4k+2, 4k+2, 4k+3, 4k |
| QuadIndices.QuadIndicesInRange | BloomFramework/Renderers/OpenGL/Buffers/ElementBuffers/QuadElementBuffer.cs:30-38 | every index of n quads is in [0, 4·n) |
| QuadIndices.IndicesBelowVertexCount | BloomFramework/Renderers/OpenGL/Buffers/ElementBuffers/QuadElementBuffer.cs:20-38 | for a vertex count that is a multiple of 4 the index count is 6 per quad and every generated index is below the vertex count |
| QuadIndices.GenerateQuadIndices | BloomFramework/Renderers/OpenGL/Buffers/ElementBuffers/QuadElementBuffer.cs:27-38 | succeeds iff the count is non-negative and a multiple of 6, giving exactly the quad index list of that length; a negative count fails at the allocation; otherwise the last step writes past the array end (IndexOutOfRange) |
| QuadIndices.QuadElementBuffer.Bind | BloomFramework/Renderers/OpenGL/Buffers/ElementBuffers/QuadElementBuffer.cs:13-41 | the handle is generated once and bound; regeneration is skipped iff the stored maxVertices ≥ the new index count (mixed units, as written); otherwise maxVertices becomes the vertex count and the uploaded indices are the quad index list, or the fill fails |
| QuadIndices.QuadIndexBuffer.InitializeEbo | BloomFramework/Renderers/OpenGL/Buffers/QuadBuffer.cs:8-30 | the handle is generated once and bound; nothing more when maxIndices ≥ the request; otherwise the quad index list is uploaded and maxIndices becomes the request, so maxIndices never decreases and always matches the upload |
| QuadIndices.QuadBufferSizesAgree | BloomFramework/Renderers/OpenGL/Buffers/QuadBuffer.cs:38-49 | a quad buffer of n quads asks for n·6 indices, which is the index count of its n·4 vertices, a multiple of 6, and names only its own vertices |
| VertexBuffers.VertexBuffer.constructor | BloomFramework/Renderers/OpenGL/Buffers/VertexBuffer.cs:20-41 | a fresh CPU array of the requested capacity, the generated VBO and VAO names, cursor 0, nothing submitted, not disposed |
| VertexBuffers.VertexBuffer.AddVertex | BloomFramework/Renderers/OpenGL/Buffers/VertexBuffer.cs:56-64 | the vertex is stored at the cursor and the pending vertices grow by it; when that fills the array, the whole array is submitted with the index count of the capacity and the cursor returns to 0; the cursor stays in [0, capacity) |
| VertexBuffers.VertexBuffer.Draw | BloomFramework/Renderers/OpenGL/Buffers/VertexBuffer.cs:66-85 | no submission when the cursor is 0; otherwise exactly `data[0..currentIndex)` is submitted with `ToIndicesCount(currentIndex)` indices; the cursor ends at 0 |
| VertexBuffers.VertexBuffer.Reset | BloomFramework/Renderers/OpenGL/Buffers/VertexBuffer.cs:87-90 | the cursor becomes 0 and nothing else changes |
| VertexBuffers.VertexBuffer.Dispose | BloomFramework/Renderers/OpenGL/Buffers/VertexBuffer.cs:95-110 | the VAO and the VBO are deleted on the first call only; afterwards the buffer is disposed |
| RingBuffers.RingVertexBuffer.constructor | BloomFramework/Renderers/OpenGL/Buffers/RingVertexBuffer.cs:27-65 | a mapped buffer of the requested size with both indices 0 and no fences or draws |
| RingBuffers.RingVertexBuffer.AddVertex | BloomFramework/Renderers/OpenGL/Buffers/RingVertexBuffer.cs:76-96 | the head fence is dequeued and waited for exactly when it guards the slot about to be written; the vertex is written at the cursor and only there; reaching the end draws `[startIndex, maxVertices)`, leaves a fence at `startIndex` and wraps both indices to 0; 0 ≤ startIndex ≤ currentIndex < maxVertices is kept |
| RingBuffers.RingVertexBuffer.Span | BloomFramework/Renderers/OpenGL/Buffers/RingVertexBuffer.cs:105-112 | the draw covers vertices start to end - 1, with the index count of that many vertices and the byte offset of `ToIndicesCount(start)` uint indices |
| RingBuffers.RingVertexBuffer.Draw | BloomFramework/Renderers/OpenGL/Buffers/RingVertexBuffer.cs:98-115 | nothing when currentIndex == startIndex; otherwise one draw of exactly the pending range, then the reset |
| RingBuffers.RingVertexBuffer.Reset | BloomFramework/Renderers/OpenGL/Buffers/RingVertexBuffer.cs:117-127 | a fence tagged with the old startIndex is enqueued, the cursor wraps to 0 at maxVertices, and startIndex becomes the cursor |
| RingBuffers.RingVertexBuffer.Dispose | BloomFramework/Renderers/OpenGL/Buffers/RingVertexBuffer.cs:138-141 | always fails with NotImplementedException |
| TripleBuffers.TripleBuffer.constructor | BloomFramework/Renderers/OpenGL/Buffers/TripleVertexBuffer.cs:14-25 | three distinct fresh vertex buffers of `verticesPerBuffer` vertices each, with the given GL names; index and count 0 |
| TripleBuffers.TripleBuffer.AddVertex | BloomFramework/Renderers/OpenGL/Buffers/TripleVertexBuffer.cs:27-35 | the vertex goes to the current buffer (which draws itself when full); the count reaching `verticesPerBuffer` moves to buffer (index + 1) % 3 with count 0; the other two buffers are untouched |
| TripleBuffers.TripleBuffer.Draw | BloomFramework/Renderers/OpenGL/Buffers/TripleVertexBuffer.cs:42-51 | nothing when the count is 0; otherwise the current buffer submits its pending vertices and the next buffer becomes current |
| TripleBuffers.TripleBuffer.Reset | BloomFramework/Renderers/OpenGL/Buffers/TripleVertexBuffer.cs:54-61 | nothing when the count is 0; otherwise the index becomes (index + 1) % 3 and the count 0; the index stays in [0, 3) |
| TripleBuffers.TripleBuffer.Dispose | BloomFramework/Renderers/OpenGL/Buffers/TripleVertexBuffer.cs:63-82 | on the first call each of the three buffers is disposed (deleting its GL objects if it had not been); later calls change nothing |
| DirtyBuffers.UploadAsWritten | BloomBirb/Renderers/OpenGL/Buffers/VertexBuffer.cs:106-116 | an upload fails iff it ends past the buffer size; one covering the whole buffer or starting at offset 0 re-creates the store with exactly the data |
| DirtyBuffers.UploadAsWrittenShrinks | BloomBirb/Renderers/OpenGL/Buffers/VertexBuffer.cs:106-116 | a dirty range that starts at slot 0 and is shorter than the buffer leaves a store shorter than the buffer |
| DirtyBuffers.UploadAsWrittenLosesVertices | BloomBirb/Renderers/OpenGL/Buffers/VertexBuffer.cs:112 | an 8-vertex buffer whose first 4 vertices changed is left with a 4-vertex store |
| DirtyBuffers.UploadCorrected | BloomBirb/Renderers/OpenGL/Buffers/VertexBuffer.cs:106-116 | a failed upload iff it ends past the size; otherwise the store keeps its size, holds the data at the offset and is unchanged elsewhere |
| DirtyBuffers.CorrectedUploadSynchronises | BloomBirb/Renderers/OpenGL/Buffers/VertexBuffer.cs:126-137 | a store that matched the CPU array outside the dirty range matches it everywhere after the dirty range is uploaded |
| DirtyBuffers.SharedElementBuffer.constructor | BloomBirb/Renderers/OpenGL/Buffers/VertexBuffer.cs:9-10 | no element buffer name and a largest size of 0 |
| DirtyBuffers.SharedElementBuffer.CreateAndUse | BloomBirb/Renderers/OpenGL/Buffers/VertexBuffer.cs:34-51 | the name is generated once and bound; the indices are uploaded iff more are wanted than before, and the largest size never decreases |
| DirtyBuffers.DirtyVertexBuffer.constructor | BloomBirb/Renderers/OpenGL/Buffers/VertexBuffer.cs:28-32 | the capacity and primitive sizes as given, no CPU array, count 0, a clean range, no GL state |
| DirtyBuffers.DirtyVertexBuffer.Initialize | BloomBirb/Renderers/OpenGL/Buffers/VertexBuffer.cs:53-68 | a fresh CPU array of the capacity, an unwritten store of that size, the element buffer set up for `size / verticesPerPrimitive * indicesPerPrimitive` indices; count and dirty range kept |
| DirtyBuffers.DirtyVertexBuffer.AddVertex | BloomBirb/Renderers/OpenGL/Buffers/VertexBuffer.cs:77-97 | fails with ArgumentNull before Initialize and IndexOutOfRange when full, changing nothing; otherwise the slot takes the vertex, the count advances, and the dirty range grows to the slot iff the vertex differs from the one there; the dirty range always covers exactly the changed slots' span |
| DirtyBuffers.DirtyVertexBuffer.Reset | BloomBirb/Renderers/OpenGL/Buffers/VertexBuffer.cs:99-104 | count 0 and a clean dirty range |
| DirtyBuffers.DirtyVertexBuffer.BufferData | BloomBirb/Renderers/OpenGL/Buffers/VertexBuffer.cs:106-116 | the store becomes the as-written upload's result, or the call fails with IndexOutOfRange and the store is kept |
| DirtyBuffers.DirtyVertexBuffer.DrawBuffer | BloomBirb/Renderers/OpenGL/Buffers/VertexBuffer.cs:126-137 | the dirty range, if any, is uploaded as written; one draw of `count / verticesPerPrimitive * indicesPerPrimitive` indices; then the reset |
| DirtyBuffers.DirtyVertexBuffer.Dispose | BloomBirb/Renderers/OpenGL/Buffers/VertexBuffer.cs:141-156 | on the first call the VAO, the VBO and the shared element buffer are deleted; later calls change nothing |
| FrameworkVertexBatches.VertexBatch.constructor | BloomFramework/Renderers/OpenGL/Batches/VertexBatch.cs:8-23 | not initialized, no slot array, nothing drawn |
| FrameworkVertexBatches.VertexBatch.Initialize | BloomFramework/Renderers/OpenGL/Batches/VertexBatch.cs:25-39 | a second call fails with InvalidOperation and changes nothing; a negative slot count fails at the allocation and 0 slots at the first slot; otherwise only slot 0 holds a (new) buffer and it is current |
| FrameworkVertexBatches.VertexBatch.AddVertex | BloomFramework/Renderers/OpenGL/Batches/VertexBatch.cs:41-62 | the current buffer's count grows by one (the vertex itself is not carried, see Left out); when that fills it, it is drawn with `size` vertices, the slot (i + 1) % maxBuffers becomes current and holds a new buffer if it had none, or its own buffer reset; no other slot changes, and every buffer stays below `size` |
| FrameworkVertexBatches.VertexBatch.DrawAndAdvance | BloomFramework/Renderers/OpenGL/Batches/VertexBatch.cs:49-61 | the full current buffer is drawn and emptied, then the next slot becomes current as in AddVertex |
| FrameworkVertexBatches.VertexBatch.Advance | BloomFramework/Renderers/OpenGL/Batches/VertexBatch.cs:50-61 | the slot (i + 1) % maxBuffers becomes current, empty, created when missing and reset otherwise; the other slots are unchanged |
| FrameworkVertexBatches.VertexBatch.FlushBatch | BloomFramework/Renderers/OpenGL/Batches/VertexBatch.cs:64-68 | the current buffer is drawn and emptied iff it holds a vertex; the slot index stays |
| FrameworkVertexBatches.VertexBatch.ResetBatch | BloomFramework/Renderers/OpenGL/Batches/VertexBatch.cs:70-76 | slot 0 becomes current and its buffer is emptied; no other slot changes |
| FrameworkVertexBatches.VertexBatch.Dispose | BloomFramework/Renderers/OpenGL/Batches/VertexBatch.cs:80-89 | nothing before Initialize; afterwards exactly the created buffers are disposed and the empty slots stay empty |
| BirbVertexBatches.VertexBatch.constructor | BloomBirb/Renderers/OpenGL/Batches/VertexBatch.cs:17-25 | `numberOfBuffers` distinct fresh buffers of `bufferSize` vertices, uninitialized and empty; the first is current |
| BirbVertexBatches.VertexBatch.Initialize | BloomBirb/Renderers/OpenGL/Batches/VertexBatch.cs:27-31 | every buffer is initialized with its own GL names, keeping its count and its draws; the current index is kept |
| BirbVertexBatches.VertexBatch.AddVertex | BloomBirb/Renderers/OpenGL/Batches/VertexBatch.cs:33-43 | an uninitialized buffer fails with ArgumentNull and a full one with IndexOutOfRange, each leaving the batch unchanged; otherwise the vertex is written to the current buffer's next slot and its count grows by one; a buffer that became full draws all its vertices, resets, and the index moves to (i + 1) % bufferCount; the other buffers are untouched |
| BirbVertexBatches.VertexBatch.FlushBatch | BloomBirb/Renderers/OpenGL/Batches/VertexBatch.cs:45-51 | the current buffer draws its whole primitives and empties iff it holds a vertex; the index returns to 0; the other buffers are untouched |
| BirbVertexBatches.VertexBatch.Dispose | BloomBirb/Renderers/OpenGL/Batches/VertexBatch.cs:55-61 | every buffer is disposed |
| DrawableBatchTrees.DedupMembers | BloomFramework/Renderers/DrawableBatchTree.cs:11-19 | the queue of first uses holds exactly the keys that were used |
| DrawableBatchTrees.DedupDistinct | BloomFramework/Renderers/DrawableBatchTree.cs:15-19 | no key is queued twice |
| DrawableBatchTrees.GroupedIsPermutation | BloomFramework/Renderers/DrawableBatchTree.cs:24-28 | the drawing order is a permutation of the drawables added: each is drawn exactly once |
| DrawableBatchTrees.GroupedKeepsBlocks | BloomFramework/Renderers/DrawableBatchTree.cs:13-54 | all the drawables of one shader are drawn as one contiguous block, and within it all those of one texture, in the order they were added |
| DrawableBatchTrees.ShaderBlock | BloomFramework/Renderers/DrawableBatchTree.cs:24-28 | the drawables of one shader form a contiguous block of the drawing order |
| DrawableBatchTrees.TextureBlock | BloomFramework/Renderers/DrawableBatchTree.cs:50-54 | the drawables of one texture form a contiguous block of their shader's group |
| DrawableBatchTrees.ShaderNode.Add | BloomFramework/Renderers/DrawableBatchTree.cs:39-48 | the texture node is created on first use and gains the drawable at its end; the texture is enqueued iff its node was empty; the queue keeps each texture once and exactly those with drawables; other nodes are unchanged |
| DrawableBatchTrees.ShaderNode.Cleared | BloomFramework/Renderers/DrawableBatchTree.cs:50-54 | a drawn node keeps all its texture nodes, each empty, and an empty queue |
| DrawableBatchTrees.NodeOf | BloomFramework/Renderers/DrawableBatchTree.cs:15-16 | a shader without a node gets a new empty one |
| DrawableBatchTrees.PendingIsGrouped | BloomFramework/Renderers/DrawableBatchTree.cs:24-28 | the work queued in a tree that represents a sequence of Add calls is exactly their grouping by shader then texture in order of first use |
| DrawableBatchTrees.AddKeepsRepresentation | BloomFramework/Renderers/DrawableBatchTree.cs:13-22 | a shader is enqueued iff its node is idle, and after the Add the tree represents the Add calls plus this one |
| DrawableBatchTrees.DrawableBatchTree.constructor | BloomFramework/Renderers/DrawableBatchTree.cs:9-11 | an empty dictionary and queue, nothing drawn |
| DrawableBatchTrees.DrawableBatchTree.Add | BloomFramework/Renderers/DrawableBatchTree.cs:13-22 | the shader's node is created on first use and enqueued iff it had no pending work; the drawable goes to its texture node; the tree keeps representing the Add calls since the last DrawAll |
| DrawableBatchTrees.DrawableBatchTree.DrawAll | BloomFramework/Renderers/DrawableBatchTree.cs:24-28 | the drawables drawn are exactly the grouping of the Add calls since the last DrawAll; all queues are empty afterwards and every node is kept, cleared |
| DrawableBatchTrees.DrawableBatchTree.DrawQueuedShaders | BloomFramework/Renderers/DrawableBatchTree.cs:24-28 | the queued shader nodes are drawn in queue order and cleared; the queue ends empty |
| DrawableBatchTrees.DrawableBatchTree.DrainShaderNode | BloomFramework/Renderers/DrawableBatchTree.cs:50-54 | a node draws exactly its pending work, texture by texture in queue order, and ends cleared |
| DrawableBatchTrees.DrawableBatchTree.DrawTextureNode | BloomFramework/Renderers/DrawableBatchTree.cs:65-69 | a texture node draws its drawables in the order they were added |
| Drawables.AfterLoad | BloomFramework/Graphics/Drawable.cs:221-231 | loading leaves Loaded or Ready, keeps a loaded or ready drawable as it is, and never moves a drawable back |
| Drawables.LoadHooks | BloomFramework/Graphics/Drawable.cs:221-231 | Load runs (once) exactly when loading changes the state |
| Drawables.QueueDrawHooks | BloomFramework/Graphics/Drawable.cs:253-260 | Revalidate runs exactly when the drawable is ready and invalidated |
| Drawables.Close | BloomFramework/Graphics/Drawable.cs:102 | the setters' tolerance test holds iff the values differ by less than the tolerance, in either direction |
| Drawables.LoadTwice | BloomFramework/Graphics/Drawable.cs:221-231 | loading is idempotent: a second load changes nothing and runs no hook |
| Drawables.QueueDrawTwice | BloomFramework/Graphics/Drawable.cs:253-260 | after one QueueDraw a second one revalidates nothing |
| Drawables.OtherHooksKeepValid | BloomFramework/Graphics/Drawable.cs:360-374 | hooks other than Dispose(true) leave the count of Dispose(true) calls unchanged |
| Drawables.Drawable.constructor | BloomFramework/Graphics/Drawable.cs:11-219 | the field initialisers: no parent, bottom-left anchor and origin, no relative axes, origin position, alpha 1, white, unit size and scale, no shear or rotation, no fill mode with ratio 1, invalidated, NotLoaded, not disposed |
| Drawables.Drawable.Invalidate | BloomFramework/Graphics/Drawable.cs:353-356 | the drawable is invalidated |
| Drawables.Drawable.SetParent | BloomFramework/Graphics/Drawable.cs:13-23 | the parent becomes the value; the drawable is invalidated iff it was, or the parent changed |
| Drawables.Drawable.SetAnchor | BloomFramework/Graphics/Drawable.cs:27-37 | the anchor becomes the value; invalidated iff it was, or the anchor changed |
| Drawables.Drawable.SetOrigin | BloomFramework/Graphics/Drawable.cs:41-51 | the origin becomes the value; invalidated iff it was, or the origin changed |
| Drawables.Drawable.SetRelativeSizeAxes | BloomFramework/Graphics/Drawable.cs:55-65 | the axes become the value; invalidated iff they were, or the axes changed |
| Drawables.Drawable.SetRelativePositionAxes | BloomFramework/Graphics/Drawable.cs:69-79 | the axes become the value; invalidated iff they were, or the axes changed |
| Drawables.Drawable.SetPosition | BloomFramework/Graphics/Drawable.cs:83-93 | the position becomes the value; invalidated iff it was, or the position changed |
| Drawables.Drawable.SetAlpha | BloomFramework/Graphics/Drawable.cs:97-107 | a change of less than 0.01 keeps the old alpha and the invalidation flag; any other sets the alpha and invalidates |
| Drawables.Drawable.SetColour | BloomFramework/Graphics/Drawable.cs:111-121 | the colour becomes the value; invalidated iff it was, or the colour changed |
| Drawables.Drawable.SetSize | BloomFramework/Graphics/Drawable.cs:125-135 | the size becomes the value; invalidated iff it was, or the size changed |
| Drawables.Drawable.SetScale | BloomFramework/Graphics/Drawable.cs:139-149 | the scale becomes the value; invalidated iff it was, or the scale changed |
| Drawables.Drawable.SetShear | BloomFramework/Graphics/Drawable.cs:153-163 | the shear becomes the value; invalidated iff it was, or the shear changed |
| Drawables.Drawable.SetRotation | BloomFramework/Graphics/Drawable.cs:167-177 | a change of less than 0.01 keeps the old rotation and the invalidation flag; any other sets it and invalidates |
| Drawables.Drawable.SetFillMode | BloomFramework/Graphics/Drawable.cs:181-192 | the fill mode becomes the value; invalidated iff it was, or the mode changed |
| Drawables.Drawable.SetFillRatio | BloomFramework/Graphics/Drawable.cs:196-206 | only a change of less than float.Epsilon is ignored; any other sets the ratio and invalidates |
| Drawables.Drawable.LoadInternal | BloomFramework/Graphics/Drawable.cs:221-231 | the state becomes AfterLoad of the old one and Load runs exactly when that is a change |
| Drawables.Drawable.UpdateInternal | BloomFramework/Graphics/Drawable.cs:237-247 | a drawable never loaded is loaded first; Update runs once; the drawable ends Ready |
| Drawables.Drawable.Revalidate | BloomFramework/Graphics/Drawable.cs:270-336 | Revalidate runs and the drawable is no longer invalidated |
| Drawables.Drawable.QueueDraw | BloomFramework/Graphics/Drawable.cs:253-260 | nothing unless Ready; a ready drawable ends valid, and Revalidate ran iff it was invalidated |
| Drawables.Drawable.Dispose | BloomFramework/Graphics/Drawable.cs:364-374 | Dispose(true) runs on the first call only, and the drawable is disposed afterwards; Dispose(true) has run exactly once iff disposed |
| CompositeDrawables.FirstRejected | BloomBirb/Graphics/Containers/CompositeDrawable.cs:20-24 | the first drawable, from a position on, that already has a parent or appears earlier in the array; every one before it has no parent and is new |
| CompositeDrawables.CompositeDrawable.constructor | BloomBirb/Graphics/Containers/CompositeDrawable.cs:7 | no children |
| CompositeDrawables.CompositeDrawable.Add | BloomBirb/Graphics/Containers/CompositeDrawable.cs:11-18 | fails with InvalidOperation iff the drawable has a parent, changing nothing; otherwise its parent becomes the composite (invalidating it) and it is appended to the children |
| CompositeDrawables.CompositeDrawable.AddRange | BloomBirb/Graphics/Containers/CompositeDrawable.cs:20-24 | the drawables before the first refused one are added in order, each with the composite as parent; the call fails iff one is refused, and the drawables after it are untouched |
| CompositeDrawables.CompositeDrawable.Remove | BloomBirb/Graphics/Containers/CompositeDrawable.cs:26-30 | the first occurrence of the drawable leaves the children (nothing else does) and the drawable has no parent, invalidated iff it had one or was already |
| CompositeDrawables.CompositeDrawable.LoadInternal | BloomBirb/Graphics/Containers/CompositeDrawable.cs:32-38 | the composite and every child end in AfterLoad of their old state, each running Load exactly when that is a change |
| CompositeDrawables.CompositeDrawable.UpdateInternal | BloomBirb/Graphics/Containers/CompositeDrawable.cs:40-46 | the composite and every child end Ready; with distinct children each ran Update once, after a Load when never loaded |
| CompositeDrawables.CompositeDrawable.QueueDraw | BloomBirb/Graphics/Containers/CompositeDrawable.cs:48-54 | the children are queued from last to first, and each, as the composite, is queued exactly once |
| CompositeDrawables.CompositeDrawable.Invalidate | BloomBirb/Graphics/Containers/CompositeDrawable.cs:57-63 | the composite and all its children are invalidated, the children from last to first, with their load state and hooks unchanged |
| Sequences.Occurrences | BloomBirb/Graphics/Containers/CompositeDrawable.cs:26-30 | counts the occurrences of an element: 0 exactly when absent, at most the length |
| Sequences.OccurrencesAppend | BloomBirb/Graphics/Containers/CompositeDrawable.cs:26-30 | occurrences add up over a concatenation |
| Sequences.Reversed | BloomBirb/Graphics/Containers/CompositeDrawable.cs:52-53 | element i of the reverse is element n-1-i |
| Sequences.ReversedReversed | BloomBirb/Graphics/Containers/CompositeDrawable.cs:52-53 | reversing twice gives the sequence back |
| Sequences.FirstIndex | BloomBirb/Graphics/Containers/CompositeDrawable.cs:28 | the first index holding the element |
| Sequences.RemoveFirst | BloomBirb/Graphics/Containers/CompositeDrawable.cs:28 | List.Remove: one element fewer when present, the same list otherwise, and the multiset loses exactly one copy |
| Sequences.RemoveUndoesAppend | BloomBirb/Graphics/Containers/CompositeDrawable.cs:17-28 | removing a drawable just added, that was not a child before, restores the children |
| OpenGlRenderers.Flush | BloomFramework/Renderers/OpenGL/OpenGlRenderer.cs:101 | the current buffer draws exactly when there is one |
| OpenGlRenderers.Wait | BloomFramework/Renderers/OpenGL/OpenGlRenderer.cs:138-144 | one wait exactly when a fence was ever created |
| OpenGlRenderers.Resets | BloomFramework/Renderers/OpenGL/OpenGlRenderer.cs:183-184 | one Reset per used buffer, in order |
| OpenGlRenderers.PopDraws | BloomFramework/Renderers/OpenGL/OpenGlRenderer.cs:215-216 | the deferred drawables are drawn from the top of the stack down, each at the depth it was queued at |
| OpenGlRenderers.DeferredFrom2001 | BloomBirb/Graphics/DrawDepth.cs:7-8 | starting at -1 and stepping by 0.001, the depth passes 1 exactly after the 2000th drawable of a frame |
| OpenGlRenderers.OpenGlRenderer.constructor | BloomFramework/Renderers/OpenGL/OpenGlRenderer.cs:19-22 | nothing bound, no fence, no buffers, nothing deferred, not disposed |
| OpenGlRenderers.OpenGlRenderer.BindBuffer | BloomFramework/Renderers/OpenGL/OpenGlRenderer.cs:74-82 | answers true and binds iff the buffer was not bound; the buffer is bound afterwards |
| OpenGlRenderers.OpenGlRenderer.BindVertexArrayObject | BloomFramework/Renderers/OpenGL/OpenGlRenderer.cs:86-94 | answers true and binds iff the vertex array was not bound; it is bound afterwards |
| OpenGlRenderers.OpenGlRenderer.BindShader | BloomFramework/Renderers/OpenGL/OpenGlRenderer.cs:96-106 | nothing for the bound program; otherwise the current buffer draws, the fences are waited on, then the program is used |
| OpenGlRenderers.OpenGlRenderer.BoundTexture | BloomFramework/Renderers/OpenGL/OpenGlRenderer.cs:122-127 | the texture last bound to the unit, none when the unit was never bound |
| OpenGlRenderers.OpenGlRenderer.BindTexture | BloomFramework/Renderers/OpenGL/OpenGlRenderer.cs:108-120 | nothing when the unit holds an equal texture; otherwise the current buffer draws, the fences are waited on, the unit is activated and the texture bound; the unit holds the texture afterwards |
| OpenGlRenderers.OpenGlRenderer.CreateFence | BloomFramework/Renderers/OpenGL/OpenGlRenderer.cs:136 | a fence exists afterwards |
| OpenGlRenderers.OpenGlRenderer.WaitForFences | BloomFramework/Renderers/OpenGL/OpenGlRenderer.cs:138-144 | a wait exactly when a fence exists |
| OpenGlRenderers.OpenGlRenderer.UseBuffer | BloomFramework/Renderers/OpenGL/OpenGlRenderer.cs:157-171 | nothing when the current buffer has the type; otherwise the type's buffer (created on first use only, with 10000 vertices) draws, becomes current and is listed as used; every type is created at most once |
| OpenGlRenderers.OpenGlRenderer.BeginFrame | BloomFramework/Renderers/OpenGL/OpenGlRenderer.cs:175-188 | depth writes on, blending off, colour and depth cleared, the depth reset to -1, every buffer used last frame reset in order; no buffer used or current afterwards |
| OpenGlRenderers.OpenGlRenderer.ResetUsed | BloomFramework/Renderers/OpenGL/OpenGlRenderer.cs:183-184 | each used buffer is reset, in order |
| OpenGlRenderers.OpenGlRenderer.QueueDrawable | BloomFramework/Renderers/OpenGL/OpenGlRenderer.cs:190-201 | the drawable gets the current depth and the depth steps by 0.001; it is deferred iff translucent or the new depth exceeds 1, and drawn at once otherwise; within a frame that is iff translucent or after the 2000th drawable |
| OpenGlRenderers.OpenGlRenderer.EndFrame | BloomFramework/Renderers/OpenGL/OpenGlRenderer.cs:208-220 | nothing when nothing was deferred; otherwise a flush, blending on and depth writes off, the deferred drawables popped and drawn top first, and a second flush; the stack ends empty |
| OpenGlRenderers.OpenGlRenderer.DrawDeferred | BloomFramework/Renderers/OpenGL/OpenGlRenderer.cs:215-216 | pops and draws each deferred drawable, top first, until the stack is empty |
| OpenGlRenderers.OpenGlRenderer.Dispose | BloomFramework/Renderers/OpenGL/OpenGlRenderer.cs:236-244 | the renderer is disposed |
| FilesystemStores.Split | BloomFramework/ResourceStores/FilesystemResourceStore.cs:6-10 | String.Split over '.', '\' and '/': at least one segment, none containing a separator |
| FilesystemStores.Dotted | BloomFramework/ResourceStores/FilesystemResourceStore.cs:50-52 | the name with every separator written as '.' |
| FilesystemStores.JoinSplit | BloomFramework/ResourceStores/FilesystemResourceStore.cs:31-52 | splitting a name and joining the segments with dots gives the name with its separators written as dots |
| FilesystemStores.SplitJoin | BloomFramework/ResourceStores/FilesystemResourceStore.cs:31-52 | joining separator-free segments with a separator and splitting again gives the segments back |
| FilesystemStores.SplitJoinFirstChar | BloomFramework/ResourceStores/FilesystemResourceStore.cs:31-52 | the case of SplitJoin whose first segment is non-empty |
| FilesystemStores.SplitJoinEmptyFirst | BloomFramework/ResourceStores/FilesystemResourceStore.cs:31-52 | the case of SplitJoin whose first segment is empty |
| FilesystemStores.FindActualPath | BloomFramework/ResourceStores/FilesystemResourceStore.cs:39-53 | a path found is an existing file |
| FilesystemStores.Candidates | BloomFramework/ResourceStores/FilesystemResourceStore.cs:39-53 | the paths the search may try, directory before dot at every separator; there is at least one |
| FilesystemStores.FirstExisting | BloomFramework/ResourceStores/FilesystemResourceStore.cs:44-52 | none iff no path exists; otherwise one of the paths, and an existing one |
| FilesystemStores.FirstExistingAppend | BloomFramework/ResourceStores/FilesystemResourceStore.cs:50-52 | the first existing path of two lists is the first list's, or else the second's |
| FilesystemStores.FindActualPathIsFirstCandidate | BloomFramework/ResourceStores/FilesystemResourceStore.cs:39-53 | the search returns the first candidate that exists, in the order above, and nothing when none does |
| FilesystemStores.JoinedAreCandidates | BloomFramework/ResourceStores/FilesystemResourceStore.cs:39-53 | the all-dots and the all-directories joins are both candidates |
| FilesystemStores.Get | BloomFramework/ResourceStores/FilesystemResourceStore.cs:29-37 | a resource found is an existing file |
| FilesystemStores.GetFindsExisting | BloomFramework/ResourceStores/FilesystemResourceStore.cs:29-53 | nothing is found iff no candidate exists; a resource stored under its dotted name below the root is always found |
| ShaderStores.TrimStartTrims | BloomFramework/ResourceStores/ShaderStore.cs:115 | Trim on the left drops exactly the leading quotes: the result is a suffix, does not start with a quote, and everything dropped is a quote |
| ShaderStores.TrimEndTrims | BloomFramework/ResourceStores/ShaderStore.cs:115 | Trim on the right drops exactly the trailing quotes: the result is a prefix, does not end with a quote, and everything dropped is a quote |
| ShaderStores.ReplaceSlashesReplaces | BloomFramework/ResourceStores/ShaderStore.cs:115 | Replace('/', '.') keeps the length, turns every '/' into '.' and keeps every other character |
| ShaderStores.IncludeNameShape | BloomFramework/ResourceStores/ShaderStore.cs:115 | an include name holds no '/' and neither starts nor ends with a quote |
| ShaderStores.ResolvedAppend | BloomFramework/ResourceStores/ShaderStore.cs:113-121 | two resolved line lists concatenate to a resolved one |
| ShaderStores.Expanded | BloomFramework/ResourceStores/ShaderStore.cs:102-105 | a missing resource expands to nothing |
| ShaderStores.ExpandFrom | BloomFramework/ResourceStores/ShaderStore.cs:109-122 | nothing is left once every line is read |
| ShaderStores.ExpandedResolved | BloomFramework/ResourceStores/ShaderStore.cs:98-124 | an expansion holds no include line, and every line of it is a line of some resource |
| ShaderStores.ExpandFromResolved | BloomFramework/ResourceStores/ShaderStore.cs:109-122 | the expansion from any line on holds no include line and only resource lines |
| ShaderStores.TextAppend | BloomFramework/ResourceStores/ShaderStore.cs:120 | the AppendLine text of two line lists is the concatenation of their texts |
| ShaderStores.ExpandStep | BloomFramework/ResourceStores/ShaderStore.cs:111-121 | appending one line's expansion advances the builder by exactly that line's share of the text |
| ShaderStores.ExpandFromStep | BloomFramework/ResourceStores/ShaderStore.cs:109-122 | the expansion from line i is line i's expansion followed by the rest |
| ShaderStores.LineText | BloomFramework/ResourceStores/ShaderStore.cs:113-121 | the builder after one line holds that line's expansion text |
| ShaderStores.IncludeRanksLower | BloomFramework/ResourceStores/ShaderStore.cs:116 | the resource an include names ranks below the one holding the line, so the recursion ends |
| ShaderStores.NoIncludesExpandsToItself | BloomFramework/ResourceStores/ShaderStore.cs:98-124 | a resource without include lines expands to its own lines |
| ShaderStores.PlainLinesKept | BloomFramework/ResourceStores/ShaderStore.cs:118-121 | include-free lines are kept as they are, in order |
| ShaderStores.IncludeIsReplaced | BloomFramework/ResourceStores/ShaderStore.cs:113-117 | an include line is replaced by the whole expansion of the resource it names |
| ShaderStores.TextEmpty | BloomFramework/ResourceStores/ShaderStore.cs:74 | the source is empty exactly when the expansion has no line |
| ShaderStores.ShaderStore.constructor | BloomFramework/ResourceStores/ShaderStore.cs:24-29 | the given prefix and resources, empty caches, nothing compiled or linked |
| ShaderStores.ShaderStore.LoadFileInto | BloomFramework/ResourceStores/ShaderStore.cs:98-124 | the builder gains exactly the text of the path's expansion |
| ShaderStores.ShaderStore.LoadLine | BloomFramework/ResourceStores/ShaderStore.cs:111-121 | an include line appends the named resource's expansion; any other line is appended with a newline |
| ShaderStores.ShaderStore.LoadFile | BloomFramework/ResourceStores/ShaderStore.cs:91-96 | the expanded source of the path |
| ShaderStores.ShaderStore.RetrieveOrLoadPart | BloomFramework/ResourceStores/ShaderStore.cs:68-82 | a cached part is returned unchanged; otherwise 0 iff the source is empty (nothing cached), else the part is compiled from the source, gets a fresh handle and is cached under the name; the other cache is untouched |
| ShaderStores.ShaderStore.ExtensionFor | BloomFramework/ResourceStores/ShaderStore.cs:84-89 | ".vert" for vertex, ".frag" for fragment, "" otherwise |
| ShaderStores.ShaderStore.GetShaderPart | BloomFramework/ResourceStores/ShaderStore.cs:47-66 | 0 for a type without a cache; otherwise 0 iff both the name and the name with the type's extension have empty sources, and a non-zero result is a part compiled from one of them; cached parts are kept |
| ShaderStores.ShaderStore.Get | BloomFramework/ResourceStores/ShaderStore.cs:31-45 | the program of the pair of parts, both looked up by the vertex part's name; a pair seen before gives its program, a new pair links one new program; the cache only grows |
| TextureStores.FirstLookup | BloomFramework/ResourceStores/TextureStore.cs:41-67 | the first extension, in the order "", ".png", ".jpg", ".bmp", under which the name is cached or has a resource; none before it is either |
| TextureStores.LookupAfterCaching | BloomFramework/ResourceStores/TextureStore.cs:62-66 | once the usage is cached under the name Get stopped at, a later Get stops at the same extension and finds it cached |
| TextureStores.FirstLookupSkips | BloomFramework/ResourceStores/TextureStore.cs:41-49 | extensions under which nothing is cached or stored are skipped |
| TextureStores.TextureStore.constructor | BloomFramework/ResourceStores/TextureStore.cs:31-37 | the given prefix, resources and mip levels; no atlases, textures or cached usages |
| TextureStores.TextureStore.FirstFit | BloomFramework/ResourceStores/TextureStore.cs:85-90 | the first atlas with room for the image, none before it having room |
| TextureStores.TextureStore.FirstFitFrom | BloomFramework/ResourceStores/TextureStore.cs:85-90 | the first atlas from a position on with room for the image |
| TextureStores.TextureStore.AddLargeTexture | BloomFramework/ResourceStores/TextureStore.cs:72-81 | a new texture holding the image, with the store's mip levels, is appended and handed out whole |
| TextureStores.TextureStore.LoadNew | BloomFramework/ResourceStores/TextureStore.cs:51-63 | a large image (2048 or more in either direction) gets a texture of its own; any other goes to the first atlas with room; the usage is cached under the name and was made from its image |
| TextureStores.TextureStore.Get | BloomFramework/ResourceStores/TextureStore.cs:39-70 | the blank texture when no extension gives a cached usage or a resource, changing nothing; a cached usage is handed out unchanged; otherwise the new usage is cached under that name |
| TextureStores.TextureStore.OfferTo | BloomFramework/ResourceStores/TextureStore.cs:87-89 | the atlas takes the image iff it has room, giving a region of the image's size, and is unchanged otherwise |
| TextureStores.TextureStore.TryAtlases | BloomFramework/ResourceStores/TextureStore.cs:85-90 | the image goes into the first atlas with room, and only that atlas changes; none changes when none has room |
| TextureStores.TextureStore.AppendAtlasWith | BloomFramework/ResourceStores/TextureStore.cs:92-98 | a new atlas is appended and offered the image; a small image always fits it with at most 10 mip levels |
| TextureStores.TextureStore.AddRegularTexture | BloomFramework/ResourceStores/TextureStore.cs:83-99 | the first atlas with room takes the image; when none has room exactly one new atlas is appended and takes it; the other atlases are unchanged; a small image always gets a region of its size with at most 10 mip levels |
| BMFonts.IsValidFontStream | BloomFramework/Fonts/BMFont/Font.cs:123-135 | a stream shorter than four bytes fails the read; otherwise true iff it starts with "BMF" 3 |
| BMFonts.NamesFrom | BloomFramework/Fonts/BMFont/Font.cs:52-56 | one name per remaining page; a negative length or a name past the data fails with ArgumentOutOfRange |
| BMFonts.PageNamesAsWritten | BloomFramework/Fonts/BMFont/Font.cs:49-58 | a page count of 0 divides by zero; otherwise one name per page, each read from offset pages·i |
| BMFonts.PageNamesCorrected | BloomFramework/Fonts/BMFont/Font.cs:49-58 | a page count of 0 divides by zero; otherwise one name per page, each read from offset i·(blockLength / pages) |
| BMFonts.JoinNamesLength | BloomFramework/Fonts/BMFont/Font.cs:49-58 | a block of n names of equal length L, each NUL-terminated, is n·(L + 1) bytes |
| BMFonts.JoinNamesSlice | BloomFramework/Fonts/BMFont/Font.cs:51-55 | name i of such a block sits at i·(L + 1) |
| BMFonts.NamesFromJoined | BloomFramework/Fonts/BMFont/Font.cs:52-56 | reading such a block at stride L + 1 gives the names back |
| BMFonts.PageNamesCorrectedRoundTrip | BloomFramework/Fonts/BMFont/Font.cs:49-58 | the corrected reader gives back every name of a block of equally long NUL-terminated names |
| BMFonts.PageNamesAsWrittenMisreads | BloomFramework/Fonts/BMFont/Font.cs:54 | for the names "ab" and "cd" the reader as written gives "ab" and NUL "c", the corrected one "ab" and "cd" |
| BMFonts.CharacterRecords | BloomFramework/Fonts/BMFont/Font.cs:61-66 | blockLength / 20 records, each fitting the record's field widths |
| BMFonts.AddCharacters | BloomFramework/Fonts/BMFont/Font.cs:62-66 | a failure is a duplicate key; a success keeps every old id |
| BMFonts.AddCharactersSucceeds | BloomFramework/Fonts/BMFont/Font.cs:62-66 | a character block loads iff its ids are distinct and new |
| BMFonts.AddCharactersContents | BloomFramework/Fonts/BMFont/Font.cs:62-66 | a loaded block keeps the old entries, maps each record's id to the record and adds no other key |
| BMFonts.KerningRecords | BloomFramework/Fonts/BMFont/Font.cs:73-82 | blockLength / 10 pairs, each fitting the pair's field widths |
| BMFonts.AddKerningPairs | BloomFramework/Fonts/BMFont/Font.cs:74-82 | a failure is a duplicate key |
| BMFonts.InsertPair | BloomFramework/Fonts/BMFont/Font.cs:78-81 | adding a pair to the nested maps adds exactly that pair and keeps every other |
| BMFonts.AddKerningPairsSucceeds | BloomFramework/Fonts/BMFont/Font.cs:74-82 | a kerning block loads iff its (first, second) pairs are distinct and new |
| BMFonts.AddKerningPairsContents | BloomFramework/Fonts/BMFont/Font.cs:74-82 | a loaded block keeps every old entry and holds each record under its first and second code points |
| BMFonts.ApplyBlock | BloomFramework/Fonts/BMFont/Font.cs:39-86 | an unknown block type leaves the font as it is; a block never removes a character |
| BMFonts.ParseFont | BloomFramework/Fonts/BMFont/Font.cs:19-88 | a stream without the header fails with InvalidData; the bare header gives the empty font |
| BMFonts.BlockFields | BloomFramework/Fonts/BMFont/Font.cs:28-37 | the type, the length and the data are read at the start of a well-formed block |
| BMFonts.ParseBlockAt | BloomFramework/Fonts/BMFont/Font.cs:26-87 | a well-formed block is applied and parsing goes on right after its data |
| BMFonts.ParseBlocksStep | BloomFramework/Fonts/BMFont/Font.cs:26-87 | one round of the block loop |
| BMFonts.UnknownBlockSkipped | BloomFramework/Fonts/BMFont/Font.cs:39-86 | a block of an unknown type is skipped whatever it holds |
| BMFonts.GetCharacterInfo | BloomFramework/Fonts/BMFont/Font.cs:103-109 | the glyph of the character, else the glyph of '?'; fails with KeyNotFound iff neither exists |
| BMFonts.GetKerningAmount | BloomFramework/Fonts/BMFont/Font.cs:111-117 | the recorded amount of the pair, 0 when there is none |
| BMFonts.GetCharacterTexture | BloomFramework/Fonts/BMFont/Font.cs:90-101 | the glyph's page name and its rectangle; a missing glyph and '?' fail with KeyNotFound, no page block with NullReference |
| BMFonts.EncodeCharacters | BloomFramework/Fonts/BMFont/Font.cs:61-66 | records back to back, 20 bytes each |
| BMFonts.CharacterRecordsCons | BloomFramework/Fonts/BMFont/Font.cs:62-66 | the records of a block starting with one record are that record and then the rest |
| BMFonts.DecodeEncodedCharacters | BloomFramework/Fonts/BMFont/Font.cs:61-66 | the records of an encoded character block are the characters encoded |
| BMFonts.EncodeKerningPairs | BloomFramework/Fonts/BMFont/Font.cs:73-82 | pairs back to back, 10 bytes each |
| BMFonts.KerningRecordsCons | BloomFramework/Fonts/BMFont/Font.cs:74-82 | the records of a block starting with one pair are that pair and then the rest |
| BMFonts.DecodeEncodedKerningPairs | BloomFramework/Fonts/BMFont/Font.cs:73-82 | the records of an encoded kerning block are the pairs encoded |
| BMFonts.SingleBlockFile | BloomFramework/Fonts/BMFont/Font.cs:19-88 | a file of the header and one well-formed block is that block applied to the empty font |
| BMFonts.LoadedCharactersAreFound | BloomFramework/Fonts/BMFont/Font.cs:19-109 | a file holding one character block of distinct ids loads, and every glyph is then found by its id |
| BMFonts.CharacterBlockFound | BloomFramework/Fonts/BMFont/Font.cs:59-109 | a character block of distinct ids makes every glyph found by its id |
| BMFonts.LoadedKerningAmountsAreFound | BloomFramework/Fonts/BMFont/Font.cs:19-117 | a file holding one kerning block of distinct pairs loads, and each pair's amount is then found |
| BMFonts.KerningBlockFound | BloomFramework/Fonts/BMFont/Font.cs:71-117 | a kerning block of distinct pairs makes every pair's amount found |
| BMFonts.ReadPageNames | BloomFramework/Fonts/BMFont/Font.cs:49-58 | the loop of block 3 gives exactly the page names as written |
| BMFonts.ReadCharacters | BloomFramework/Fonts/BMFont/Font.cs:59-69 | the loop of block 4 gives exactly the characters the records add |
| BMFonts.ReadKerningPairs | BloomFramework/Fonts/BMFont/Font.cs:71-85 | the loop of block 5 gives exactly the nested maps the records add |
| BMFonts.ReadBlock | BloomFramework/Fonts/BMFont/Font.cs:39-86 | the switch gives exactly the block's effect |
| BMFonts.LoadFont | BloomFramework/Fonts/BMFont/Font.cs:19-88 | the constructor's loop gives exactly the font the stream parses to |
| BMFontBlocks.DecodeCharacter | BloomFramework/Fonts/BMFont/DescriptorBlocks/Character.cs:26-38 | fails with IndexOutOfRange iff the span is shorter than 20 bytes; otherwise a record that fits the field widths |
| BMFontBlocks.EncodeCharacter | BloomFramework/Fonts/BMFont/DescriptorBlocks/Character.cs:26-38 | a record is 20 bytes |
| BMFontBlocks.DecodeEncodeCharacter | BloomFramework/Fonts/BMFont/DescriptorBlocks/Character.cs:26-38 | decoding an encoded character gives it back |
| BMFontBlocks.EncodeDecodeCharacter | BloomFramework/Fonts/BMFont/DescriptorBlocks/Character.cs:26-38 | encoding a decoded character gives back the 20 bytes it was read from |
| BMFontBlocks.DecodeFontInfo | BloomFramework/Fonts/BMFont/DescriptorBlocks/FontInfo.cs:32-47 | fails on a missing byte iff shorter than 14 bytes, on the name's slice iff exactly 14; otherwise fields that fit, with a name of length - 15 bytes |
| BMFontBlocks.EncodeFontInfo | BloomFramework/Fonts/BMFont/DescriptorBlocks/FontInfo.cs:32-47 | the fixed fields, the name and its NUL |
| BMFontBlocks.DecodeEncodeFontInfo | BloomFramework/Fonts/BMFont/DescriptorBlocks/FontInfo.cs:32-47 | decoding an encoded info block gives it back |
| BMFontBlocks.EncodeDecodeFontInfo | BloomFramework/Fonts/BMFont/DescriptorBlocks/FontInfo.cs:32-47 | encoding a decoded info block gives back its bytes with the unread last byte as NUL |
| BMFontBlocks.DecodeCommon | BloomBirb/Fonts/BMFont/DescriptorBlocks/Common.cs:25-37 | fails with IndexOutOfRange iff shorter than 15 bytes; otherwise fields that fit |
| BMFontBlocks.CommonReadsFifteenBytes | BloomBirb/Fonts/BMFont/DescriptorBlocks/Common.cs:25-37 | only the first 15 bytes are read |
| BMFontBlocks.EncodeCommon | BloomBirb/Fonts/BMFont/DescriptorBlocks/Common.cs:25-37 | a common block is 15 bytes |
| BMFontBlocks.DecodeEncodeCommon | BloomBirb/Fonts/BMFont/DescriptorBlocks/Common.cs:25-37 | decoding an encoded common block gives it back |
| BMFontBlocks.EncodeDecodeCommon | BloomBirb/Fonts/BMFont/DescriptorBlocks/Common.cs:25-37 | encoding a decoded common block gives back its 15 bytes, byte 10 reduced to bit 0 |
| BMFontBlocks.DecodeKerningPair | BloomBirb/Fonts/BMFont/DescriptorBlocks/KerningPair.cs:9-14 | fails with IndexOutOfRange iff shorter than 10 bytes; otherwise a pair that fits |
| BMFontBlocks.EncodeKerningPair | BloomBirb/Fonts/BMFont/DescriptorBlocks/KerningPair.cs:9-14 | a pair is 10 bytes |
| BMFontBlocks.DecodeEncodeKerningPair | BloomBirb/Fonts/BMFont/DescriptorBlocks/KerningPair.cs:9-14 | decoding an encoded pair gives it back |
| BMFontBlocks.EncodeDecodeKerningPair | BloomBirb/Fonts/BMFont/DescriptorBlocks/KerningPair.cs:9-14 | encoding a decoded pair gives back the 10 bytes it was read from |
| Bytes.LE16 | BloomBirb/Fonts/BMFont/DescriptorBlocks/Common.cs:27 | an unsigned 16-bit value whose low byte is the first byte and high byte the second |
| Bytes.LE32 | BloomBirb/Fonts/BMFont/DescriptorBlocks/KerningPair.cs:11 | an unsigned 32-bit value |
| Bytes.ToInt16 | BloomFramework/Fonts/BMFont/DescriptorBlocks/Character.cs:33 | the (short) cast: a signed 16-bit value congruent to the input modulo 2^16 |
| Bytes.ToInt32 | BloomFramework/Fonts/BMFont/Font.cs:35 | the int reading: a signed 32-bit value congruent to the input modulo 2^32 |
| Bytes.Bytes16 | BloomBirb/Fonts/BMFont/DescriptorBlocks/Common.cs:27 | two bytes that LE16 reads back as the value |
| Bytes.Bytes32 | BloomBirb/Fonts/BMFont/DescriptorBlocks/KerningPair.cs:11 | four bytes that LE32 reads back as the value |
| Bytes.FromInt16 | BloomFramework/Fonts/BMFont/DescriptorBlocks/Character.cs:33-35 | the 16-bit pattern that the (short) cast reads back as the value |
| Bytes.Bytes16OfLE16 | BloomBirb/Fonts/BMFont/DescriptorBlocks/Common.cs:27 | the bytes of a value read from two bytes are those bytes |
| Bytes.Bytes32OfLE32 | BloomBirb/Fonts/BMFont/DescriptorBlocks/KerningPair.cs:11 | the bytes of a value read from four bytes are those bytes |
| Bytes.FromInt16OfToInt16 | BloomFramework/Fonts/BMFont/DescriptorBlocks/Character.cs:33 | wrapping to signed 16 bits and back is the identity |
| Bytes.Wrap32 | BloomBirb/Audio/Formats/AudioBase.cs:80 | the C# int a value wraps to: signed 32-bit and congruent modulo 2^32 |
| Bytes.Shl32 | BloomBirb/Audio/Formats/AudioBase.cs:80 | a left shift on a C# int: the shift count taken modulo 32 and the result wrapped |
| AudioFormats.ThrowIfInvalid | BloomBirb/Audio/Formats/AudioBase.cs:39-49 | nothing is thrown iff the encoding is PCM or IEEE float; otherwise an InvalidDataException |
| AudioFormats.Channels | BloomBirb/Audio/Formats/AudioBase.cs:51-71 | the mono formats have one channel and the stereo formats two |
| AudioFormats.BitsPerSample | BloomBirb/Audio/Formats/AudioBase.cs:51-71 | the 8-bit formats are 8 bits wide and the 16-bit formats 16 |
| AudioFormats.ConvertToBufferFormat | BloomBirb/Audio/Formats/AudioBase.cs:51-71 | succeeds iff one or two channels of 8 or 16 bits, with a format of that channel count and width; otherwise throws |
| AudioFormats.ConvertToBufferFormatRoundTrip | BloomBirb/Audio/Formats/AudioBase.cs:51-71 | every buffer format is what its own channel count and width convert to |
| AudioFormats.SampleCount | BloomBirb/Audio/Formats/AudioBase.cs:75 | for a positive sample size, the number of whole samples in the buffer; for a negative one, none |
| AudioFormats.SampleInBuffer | BloomBirb/Audio/Formats/AudioBase.cs:75-80 | every byte ToPcm16 reads lies inside the buffer |
| AudioFormats.Wrap32Add | BloomBirb/Audio/Formats/AudioBase.cs:80 | wrapping after each addition gives the same int as wrapping once at the end |
| AudioFormats.SameResidueSameWrap | BloomBirb/Audio/Formats/AudioBase.cs:80 | values congruent modulo 2^32 wrap to the same int |
| AudioFormats.AccumulateIsLittleEndian | BloomBirb/Audio/Formats/AudioBase.cs:79-80 | up to four bytes, the inner loop computes the little-endian value of the bytes, wrapped to an int |
| AudioFormats.ShiftWithinWord | BloomBirb/Audio/Formats/AudioBase.cs:80 | a shift by less than 32 is a multiplication by a power of two, wrapped |
| AudioFormats.Pcm24Sample | BloomBirb/Audio/Formats/AudioBase.cs:79-83 | a 3-byte sample is its signed 24-bit little-endian value times 256 |
| AudioFormats.Pcm32Sample | BloomBirb/Audio/Formats/AudioBase.cs:79-80 | a 4-byte sample is its signed 32-bit little-endian value |
| AudioFormats.AssembleSamples | BloomBirb/Audio/Formats/AudioBase.cs:73-84 | a sample size of 0 divides by zero; otherwise one value per whole sample, sample i assembled from its own bytes |
| AudioFormats.AssembleOne | BloomBirb/Audio/Formats/AudioBase.cs:77-83 | the inner loop and the 24-bit shift give exactly the sample's assembled value |
| AudioFormats.AccumulateStep | BloomBirb/Audio/Formats/AudioBase.cs:79-80 | one round of the inner loop adds the next byte shifted to its place |
| Vertices.Ordinal | BloomBirb/Graphics/Vertices/VertexAttribType.cs:3-15 | the underlying value of an attribute type is one of the ten declared positions |
| Vertices.NewTexturedVertex2D | BloomBirb/Graphics/Vertices/TexturedVertex2D.cs:20-24 | the vertex holds exactly the position, colour and texture position given |
| Vertices.TexturedEquals | BloomBirb/Graphics/Vertices/TexturedVertex2D.cs:26 | true iff the two vertices are equal |
| Vertices.DepthWrappingLayout | BloomBirb/Graphics/Vertices/DepthWrappingVertex.cs:12-14 | the inner layout followed by one float |
| Vertices.DepthEquals | BloomBirb/Graphics/Vertices/DepthWrappingVertex.cs:32 | true iff the two vertices are equal |
| Vertices.ShaderVertexLayoutIsDeclared | BloomBirb/Resources/Shaders/shared.h:1-4 | the drawn vertex is a position of 2 floats, a colour of 4, a texture position of 2 and a depth of 1, in the shader's location order, 36 bytes long |
| Vertices.DepthCounter.constructor | BloomBirb/Graphics/Vertices/DepthWrappingVertex.cs:20 | the next depth starts at zero |
| Vertices.DepthCounter.Reset | BloomBirb/Graphics/Vertices/DepthWrappingVertex.cs:21 | the next depth becomes -1 |
| Vertices.DepthCounter.Increment | BloomBirb/Graphics/Vertices/DepthWrappingVertex.cs:22 | the next depth grows by 0.001 |
| Vertices.DepthCounter.Wrap | BloomBirb/Graphics/Vertices/DepthWrappingVertex.cs:24-30 | the vertex is wrapped at the current next depth |
| GLUtils.GLComponentBytes | BloomBirb/Renderers/OpenGL/GLUtils.cs:28-29 | the GL vertex attribute types and their component widths |
| GLUtils.ToGLTypeAsWritten | BloomBirb/Renderers/OpenGL/GLUtils.cs:28-29 | the enum value added to GL_BYTE, which stays within the ten codes from GL_BYTE |
| GLUtils.ToGLType | BloomBirb/Renderers/OpenGL/GLUtils.cs:28-29 | the intended map: each attribute type goes to a code from GL_BYTE to GL_FIXED, never to the three list-only byte-count codes |
| GLUtils.SizeOf | BloomBirb/Renderers/OpenGL/GLUtils.cs:31-39 | the bytes of one component are 0, 1, 2, 4 or 8, and 0 exactly for HalfFloat and Fixed |
| GLUtils.ToGLTypeIsFaithful | BloomBirb/Renderers/OpenGL/GLUtils.cs:28-39 | the corrected map gives every type a distinct GL attribute type whose width is what sizeOf gives, wherever sizeOf gives one |
| GLUtils.AsWrittenAgreesUpToFloat | BloomBirb/Renderers/OpenGL/GLUtils.cs:28-29 | the map as written is right exactly on the types up to Float |
| GLUtils.AsWrittenMisnamesDouble | BloomBirb/Renderers/OpenGL/GLUtils.cs:28-29 | the map as written sends Double, HalfFloat and Fixed to codes that are not attribute types |
| GLUtils.LayoutBytesAppend | BloomBirb/Renderers/OpenGL/GLUtils.cs:23 | the running offset over a layout adds up over its parts |
| GLUtils.DepthWrappingSizeIsLayout | BloomBirb/Graphics/Vertices/DepthWrappingVertex.cs:10-14 | a depth-wrapping vertex's size is the room its layout takes |
| GLUtils.SizesMatchLayouts | BloomBirb/Renderers/OpenGL/GLUtils.cs:10-23 | each vertex format's size, the stride, is exactly the room its layout takes |
| GLUtils.SetVAOCalls | BloomBirb/Renderers/OpenGL/GLUtils.cs:14-25 | two calls per attribute |
| GLUtils.SetVAOCallsAt | BloomBirb/Renderers/OpenGL/GLUtils.cs:14-25 | attribute i is pointed at location i with its count, its type, the stride and the room of the attributes before it, then enabled |
| GLUtils.SetVAO | BloomBirb/Renderers/OpenGL/GLUtils.cs:8-26 | the loop makes exactly the calls SetVAOCalls lists |
| GLUtils.ShaderVertexAttributes | BloomBirb/Renderers/OpenGL/GLUtils.cs:8-26 | for the drawn vertex, locations 0 to 3 are at offsets 0, 8, 24 and 32 of a 36-byte stride, all floats, the last ending at the stride |
| Input.RegisterFirstMatch | BloomFramework/Input/InputManager.cs:69-83 | a consumer joins only the set of its first handler interface, keyboard before mouse before joystick; a non-handler changes nothing |
| Input.RegisterIdempotent | BloomFramework/Input/InputManager.cs:69-83 | registering twice is registering once |
| Input.UnregisterUndoesRegister | BloomFramework/Input/InputManager.cs:69-99 | unregistering a consumer that was not registered undoes its registration |
| Input.UnregisterRemoves | BloomFramework/Input/InputManager.cs:85-99 | the consumer leaves the set of its first handler interface and no other set changes |
| Input.PressEntries | BloomFramework/Input/InputManager_Keyboard.cs:35-41 | exactly one record per keyboard handler that returned a handler, mapped to what it returned |
| Input.PressEntriesAdd | BloomFramework/Input/InputManager_Keyboard.cs:35-41 | asking one more handler records its press, if it returned one |
| Input.MergeUpdate | BloomFramework/Input/InputManager_Keyboard.cs:40 | one more record on top of a merge |
| Input.Released | BloomFramework/Input/InputManager_Keyboard.cs:46-54 | exactly the records of this key towards the keyboard handlers are removed |
| Input.ReleasedAdd | BloomFramework/Input/InputManager_Keyboard.cs:46-54 | releasing towards one more handler removes its record |
| Input.PressThenRelease | BloomFramework/Input/InputManager_Keyboard.cs:32-55 | a press and then the release of the same key leave the records as they were |
| Input.Tops | BloomFramework/Input/InputManager_Keyboard.cs:46-54 | the top-level handlers of the notifications |
| Input.NotifiedStep | BloomFramework/Input/InputManager_Keyboard.cs:46-54 | asking one more handler keeps the notifications exact, whether or not it has a record |
| Input.InputManager.constructor | BloomFramework/Input/InputManager.cs:12-14 | no handlers and no recorded presses |
| Input.InputManager.Register | BloomFramework/Input/InputManager.cs:69-83 | the sets become AfterRegister of the old ones; the records stay |
| Input.InputManager.Unregister | BloomFramework/Input/InputManager.cs:85-99 | the sets become AfterUnregister of the old ones; the records stay |
| Input.InputManager.OnKeyPressed | BloomFramework/Input/InputManager_Keyboard.cs:32-42 | succeeds iff no new record collides with an old one, adding exactly the handlers' records; a collision throws DuplicateKey |
| Input.InputManager.OnKeyReleased | BloomFramework/Input/InputManager_Keyboard.cs:44-55 | every recorded handler of this key is notified once, and exactly those records are removed |

## Left out

- GL and AL calls are not performed. They are recorded in logs, counters and sequences. Handles that GL would generate are parameters.
- Fences are abstract handles. Waiting on a fence, and the GPU's progress behind it, is not modelled.
- The GL allocations made by the buffer constructors, `GLUtils.SetVAO` inside them and the element buffer's `Bind` are not recorded as events.
- Floating point: `Drawable.Revalidate`, `computeFillModeSize` and the transform matrices are not modelled. Depths and alphas are reals without float rounding. The float scaling at the end of `ToPcm16` and `FloatToPcm16` are not modelled.
- Enums become datatypes. `Anchor` is limited to its named values, not to combinations of flags.
- Finalizers (`Dispose(false)` from a destructor) are not modelled; only explicit disposal is.
- `WeakList`, `Bindable`, audio streaming and the wave, Ogg and MP3 decoders are not part of this model.
- The GL context, the debug callback, `CreateShader` and the blank texture of `OpenGlRenderer` are not modelled. Whether a drawable is translucent is a parameter. `ITexture` equality is object identity.
- `OpenGlRenderer.AddVertex` is a cast that forwards to the current batch and is not modelled separately. The renderer's static fields are instance fields of one renderer.
- `ShaderStore.Dispose`, `TextureStore.Dispose` and the `FilesystemResourceStore` constructor are not modelled. The constructor only sets the root directory from the file system.
- The set of existing files, the resources a store can open, the wall clock and key-handler answers are parameters.
- The input manager's device connection events, character events and mouse and joystick handlers are not modelled. They only forward calls to handlers.
- `CompositeDrawable` comes from BloomBirb, but the model builds it over BloomFramework's `Drawable`, whose members it overrides. Children are visited as plain drawables, so nested composites are not followed. The base class's setters call the base `Invalidate`, not the composite's override.
- FrameworkVertexBatches.VertexBatch.AddVertex: takes no vertex. Each slot holds a buffer's vertex count and disposed flag, so which vertices a buffer holds is not modelled here; vertex contents are modelled only in VertexBuffers.VertexBuffer.
- OpenGlRenderers.OpenGlRenderer.EndFrame: a deferred drawable's `Draw` is one logged event and does not call back into the renderer. So the closing flush uses the buffer that was current before the pops, where the code flushes whichever buffer the last drawable made current.
- OpenGlRenderers.OpenGlRenderer.QueueDrawable: drawing a drawable at once is one logged event; the `UseBuffer` and `AddVertex` calls its `Draw` makes are not modelled.
- BMFonts.PageNamesAsWritten and BMFontBlocks.DecodeFontInfo: page names and the font name stay raw bytes. The `Encoding.Default.GetString` decoding, with its replacement of invalid UTF-8, is not modelled.
- ShaderStores.ShaderStore.LoadLine: `AppendLine` ends each line with "\n", where the code writes `Environment.NewLine` (CR LF on Windows).
- GuillotineAtlas.TextureAtlas.AddSubtexture: the usage carries the integer region, where the code returns it as a `RectangleF` divided by the texture size.
- `ShaderStores.ShaderStore.Get` follows the code as written and looks the fragment part up under the vertex part's name.
- ShaderStores.ShaderStore.constructor: requires that the includes form no cycle, given as a rank that falls along every include. With a cycle the C# expansion recurses without end.
- VertexBuffers.VertexBuffer.constructor: requires a positive vertex count, which the draw's range arithmetic needs.
- RingBuffers.RingVertexBuffer.constructor: requires a positive vertex count.
- TripleBuffers.TripleBuffer.constructor: requires a positive vertex count and exactly three GL buffer and array handles.
- BirbVertexBatches.VertexBatch.constructor: requires at least one buffer and a positive number of vertices per primitive.
- FrameworkVertexBatches.VertexBatch.Initialize: requires a positive buffer size.
- ShelfAtlas.TextureAtlas.Initialize: requires 0 <= mipLevels < 30, where `2 << mipLevels` still fits a C# int without wrapping.
- TextureStores.TextureStore.constructor: requires the same mip-level range, and that every resource is a well-formed image.
- Texture.UploadData: requires the upload's origin to lie inside the texture.
- QuadIndices.ToIndicesCount: computes exactly, where the source's float product loses precision above 2^24 vertices.
- Input.InputManager.OnKeyPressed and Input.InputManager.OnKeyReleased: visit the handler set in an unspecified order, as a `HashSet` does. The contracts state the records and notifications, not their order.

## Findings

| source | as written | input that shows it | evidently intended | confidence | as-written member | corrected member |
|---|---|---|---|---|---|---|
| BloomBirb/Renderers/OpenGL/Texture/TextureAtlas.cs:78-84 | the lower free rectangle keeps the full width and is `H + h` tall, and the right strip keeps the full height | a fresh 4 x 4 atlas: a 2 x 2 image leaves free rectangles that overlap at (2, 2), one reaching past the bottom; after 2 x 2, 2 x 2 and 4 x 2 images, a fourth 2 x 2 image is placed on top of the 4 x 2 one | free rectangles that cover the leftover space without overlapping each other or placed images | high, not executed | GuillotineAtlas.AllocationsAsWrittenOverlap | GuillotineAtlas.AllocateCorrectedKeepsPacking |
| BloomFramework/Fonts/BMFont/Font.cs:54 | page name i starts at byte `pages * i` | two pages named "ab" and "cd": the second is read as NUL followed by "c" | name i starts at `i * (blockLength / pages)` | high, not executed | BMFonts.PageNamesAsWrittenMisreads | BMFonts.PageNamesCorrectedRoundTrip |
| BloomBirb/Renderers/OpenGL/GLUtils.cs:28-29 | the GL type is the enum's position added to GL_BYTE | `Double` maps to 0x1407 (GL_2_BYTES), not GL_DOUBLE (0x140A); `HalfFloat` and `Fixed` also map to non-attribute codes | each attribute type maps to its own GL constant | high, not executed | GLUtils.AsWrittenMisnamesDouble | GLUtils.ToGLTypeIsFaithful |
| BloomBirb/Renderers/OpenGL/Buffers/VertexBuffer.cs:112 | the GL store is re-created when the upload covers the whole buffer OR starts at offset 0 | an 8-vertex buffer whose next batch changes only its first 4 vertices: the store shrinks to 4 vertices while the draw reads 8 | re-create only for a whole-buffer upload; otherwise update the range in place | medium, not executed | DirtyBuffers.UploadAsWrittenLosesVertices | DirtyBuffers.CorrectedUploadSynchronises |

The classes follow the code as written: `GuillotineAtlas.TextureAtlas`, `DirtyBuffers.DirtyVertexBuffer`, `BMFonts.LoadFont` and `GLUtils.SetVAO` use the as-written definitions. The corrected definitions sit beside them, each with its intended property proved.
