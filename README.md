# vermicelli: a verified model of the frame bookkeeping

vermicelli is a small C++ Vulkan engine. This project models the bookkeeping that surrounds
its Vulkan calls and proves properties of that model:

- the swap chain's selection rules (image count, surface format, present mode, extent),
- the swap chain's per-image and per-frame-slot resources,
- the frame-slot counter and the images-in-flight table of acquire and submit,
- the renderer's begin/end frame protocol, its result-code dispatch and its swap-chain rebuild,
- the buffer's alignment round-up, sizes, per-index ranges, mapping and the in-place copy of host writes,
- the descriptor set layout builder, pool builder and writer,
- the de-duplication of an OBJ model's corners into unique vertices and indices, and the draw choice,
- hex colour parsing for strings and for 32-bit values,
- game-object identifiers,
- the point-light system's packing of lights into the global uniform buffer, and its draws.

Every `vk*` call is an external action. Its result code, and whatever else it reports, is a
method parameter. Handles come from a `Vulkan.Device` counter, so the handles one device
hands out are distinct and never null. The window's extent answers and its resize flag are
inputs as well. C++ exceptions become outcome and `Result` values. `assert`s become `requires`.

One module per source file:

- `Vulkan`: shared handles, result codes and integer widths.
- `SwapChain`: `src/vermicelli_swap_chain.cpp`.
- `Renderer`: `src/vermicelli_renderer.cpp` and `libs/vermicelli_renderer.h`.
  - It includes a pure reference, the `Frame`/`Run` functions over the counters, that the methods are proved against.
- `Bits` and `Buffer`: `src/vermicelli_buffer.cpp`.
- `Descriptors`: `src/vermicelli_descriptors.cpp`.
- `Mesh`: `src/vermicelli_model.cpp`.
- `Color`: `vermicelli_functions.cpp`.
- `GameObjects`: `libs/vermicelli_game_object.h`.
- `PointLightSystem`: `src/systems/vermicelli_point_light_system.cpp`.

Behaviour of the code the model keeps:

- Command buffers are allocated once, one per frame slot (`MAX_FRAMES_IN_FLIGHT`), and rebuilding the chain never reallocates them.
- A rebuilt swap chain restarts its own frame-slot counter at 0, while the renderer's frame index keeps counting.
  - `Renderer.ResizeSeparatesCounters` shows the two drifting apart after one resize.
- Entries of the images-in-flight table are only ever overwritten, never cleared.
  - So after two frames on a three-image chain two entries are non-null, one per slot.
  - See `SwapChain.TwoFramesLeaveTwoClaims`.
- The present-mode rule yields FIFO whatever the surface offers.
- The extent rule returns the surface's current extent unless its width is the `UINT32_MAX` sentinel.
- The descriptor writer's `build` returns true when allocation succeeds and false when it fails.
- `compareSwapFormats` is declared in `libs/vermicelli_swap_chain.h`, which is not part of this model.
  - It is modelled as equality of the colour and depth formats, which is what its name and its use after a rebuild call for.

## Model

| member | source | states |
|---|---|---|
| SwapChain.RequestedImageCount | src/vermicelli_swap_chain.cpp:149-153 | one more than the surface minimum; lowered to the maximum only when a maximum (> 0) exists and the request exceeds it; the `uint32_t` increment wraps |
| SwapChain.ScenarioMinTwoMaxThree | src/vermicelli_swap_chain.cpp:149-153 | a 2..3 surface yields a request for three images |
| SwapChain.Clamp | src/vermicelli_swap_chain.cpp:418-423 | `max(lo, min(hi, x))` lies in [lo, hi] when lo <= hi, is x when x is in range, lo below or when the range is empty, hi above |
| SwapChain.ChooseSwapExtent | src/vermicelli_swap_chain.cpp:413-427 | the current extent unless its width is UINT32_MAX; otherwise the window extent clamped per dimension into [min, max] |
| SwapChain.FormatChoice | src/vermicelli_swap_chain.cpp:382-392 | the answer is in the list; it is B8G8R8A8_SRGB/SRGB_NONLINEAR when offered, else the first entry |
| SwapChain.ChooseSwapSurfaceFormat | src/vermicelli_swap_chain.cpp:382-392 | the search loop returns exactly `FormatChoice` on a non-empty list |
| SwapChain.ChooseSwapPresentMode | src/vermicelli_swap_chain.cpp:394-411 | FIFO for every list, the empty one included |
| SwapChain.InitialSlots | src/vermicelli_swap_chain.cpp:358-362 | after creation the counter is 0 and the images-in-flight table has one null entry per image |
| SwapChain.SubmitStep | src/vermicelli_swap_chain.cpp:96-99 | the image gets the current slot's fence, every other entry is unchanged, the counter advances mod 2 only after a successful queue submission, and slot validity is preserved |
| SwapChain.SubmitAll | src/vermicelli_swap_chain.cpp:94-140 | a run of successful submissions keeps the bookkeeping valid and the table's size |
| SwapChain.SlotRotation | src/vermicelli_swap_chain.cpp:137 | after n submissions the counter has moved by n mod 2, whatever images were used |
| SwapChain.ClaimsPersist | src/vermicelli_swap_chain.cpp:99 | an image no submission used keeps its recorded fence: entries are never cleared |
| SwapChain.ImageReuseCrossesSlots | src/vermicelli_swap_chain.cpp:96-99 | on three images, after images 0, 1, 2, image 0 holds slot 0's fence while the counter is at slot 1 |
| SwapChain.TwoFramesLeaveTwoClaims | src/vermicelli_swap_chain.cpp:99 | two frames on a three-image chain leave two non-null entries, one per slot |
| SwapChain.SwapChain.constructor | src/vermicelli_swap_chain.cpp:19-42 | builds the chain by the selection rules, with the previous chain (or null) as `oldSwapchain`; per-image and per-slot resources are sized; the counter starts at 0 with no image claimed; the previous chain is released |
| SwapChain.SwapChain.CreateSwapChain | src/vermicelli_swap_chain.cpp:142-201 | the create info follows the selection rules and the image list has the size the driver reports |
| SwapChain.SwapChain.CreateImageViews | src/vermicelli_swap_chain.cpp:203-222 | one view per image |
| SwapChain.SwapChain.CreateRenderPass | src/vermicelli_swap_chain.cpp:224-283 | a non-null render pass |
| SwapChain.SwapChain.CreateDepthResources | src/vermicelli_swap_chain.cpp:310-356 | depth image, memory and view vectors each of length `imageCount()` |
| SwapChain.SwapChain.CreateFrameBuffers | src/vermicelli_swap_chain.cpp:285-308 | one framebuffer per image |
| SwapChain.SwapChain.CreateSyncObjects | src/vermicelli_swap_chain.cpp:358-380 | two semaphore vectors and a fence vector of length 2; the fences are distinct and non-null |
| SwapChain.SwapChain.AcquireNextImage | src/vermicelli_swap_chain.cpp:75-92 | waits on and signals with the current slot's fence and semaphore; the counter and table do not change |
| SwapChain.SwapChain.SubmitCommandBuffers | src/vermicelli_swap_chain.cpp:94-140 | waits on the fence already recorded for the image; the bookkeeping moves as `SubmitStep` says; submission uses the current slot's semaphores and fence; a failed submission throws before the counter advances, otherwise the present result is returned |
| Renderer.BeginFailure | src/vermicelli_renderer.cpp:72-93 | OUT_OF_DATE fails only through a format change on rebuild; other results than SUCCESS/SUBOPTIMAL throw; a usable result fails only when recording cannot begin |
| Renderer.BeginStep | src/vermicelli_renderer.cpp:72-93 | `beginFrame` keeps the frame index; it starts a frame exactly on SUCCESS or SUBOPTIMAL; OUT_OF_DATE restarts the new chain's counter |
| Renderer.EndFailure | src/vermicelli_renderer.cpp:95-111 | failures in code order: recording, submission, then the rebuild's format check after OUT_OF_DATE/SUBOPTIMAL/resize, or any non-SUCCESS present result |
| Renderer.EndStep | src/vermicelli_renderer.cpp:95-111 | only a non-throwing `endFrame` clears the flag and advances the index mod 2; the chain counter advances on accepted submissions and restarts on a rebuild |
| Renderer.Frame | src/vermicelli_renderer.cpp:72-111 | one non-throwing frame ends with no frame in progress and advances the index exactly when it completes |
| Renderer.Run | src/vermicelli_renderer.cpp:72-111 | a run of non-throwing frames keeps the counters valid |
| Renderer.FrameIndexCountsCompletedFrames | src/vermicelli_renderer.cpp:109-110 | the frame index counts completed frames mod 2; skipped frames do not move it |
| Renderer.CountersStayInStep | src/vermicelli_renderer.cpp:102-110 | while no frame rebuilds the chain, the renderer's index equals the chain's slot |
| Renderer.ResizeSeparatesCounters | src/vermicelli_renderer.cpp:103-110 | a resize at the end of the first frame leaves the renderer on slot 1 and the fresh chain on slot 0 |
| Renderer.SkipKeepsFrameIndex | src/vermicelli_renderer.cpp:76-79 | a skipped frame changes only the chain's counter, which restarts at 0 |
| Renderer.WaitForExtent | src/vermicelli_renderer.cpp:27-33 | the extent used is the first poll with both dimensions non-zero |
| Renderer.Renderer.constructor | src/vermicelli_renderer.cpp:16-20 | the first chain is built with no previous chain; two command buffers; frame index 0, no frame started |
| SwapChain.SwapChain.CompareSwapFormats | src/vermicelli_renderer.cpp:42 | colour and depth formats both agree; a chain agrees with itself |
| Renderer.Renderer.RecreateSwapChain | src/vermicelli_renderer.cpp:26-48 | waits for a non-zero extent; the new chain replaces the old one and names it as `oldSwapchain`; it starts at slot 0 with the colour format the selection rule picks; after an old chain, the check reports exactly whether colour and depth formats are both unchanged, and the new chain is installed either way |
| Renderer.Renderer.CreateCommandBuffers | src/vermicelli_renderer.cpp:50-61 | exactly `MAX_FRAMES_IN_FLIGHT` non-null command buffers |
| Renderer.Renderer.IsFrameInProgress | libs/vermicelli_renderer.h:60 | exactly the frame flag |
| Renderer.Renderer.GetCommandBuffer | libs/vermicelli_renderer.h:62-65 | only while a frame runs: the current slot's command buffer |
| Renderer.Renderer.GetFrameIndex | libs/vermicelli_renderer.h:67-70 | only while a frame runs: the current slot, below 2 |
| Renderer.Renderer.BeginFrame | src/vermicelli_renderer.cpp:72-93 | requires no frame in progress; counters move as `BeginStep` says; exactly OUT_OF_DATE rebuilds; failure as `BeginFailure` says; a started frame uses the acquired image and returns the current slot's buffer |
| Renderer.Renderer.EndFrame | src/vermicelli_renderer.cpp:95-111 | requires a frame in progress; counters move as `EndStep` says; failure as `EndFailure` says; the resize flag is cleared exactly when the chain is rebuilt; once recording has ended it submits the command buffer of the slot it started on, with the old chain's image-available and render-finished semaphores and in-flight fence of the chain's current slot, and after an accepted submission presents the acquired image |
| Renderer.Renderer.BeginSwapChainRenderPass | src/vermicelli_renderer.cpp:113-143 | only on the current slot's buffer during a frame: the chain's render pass, the acquired image's framebuffer, and area, viewport and scissor of the chain's extent |
| Renderer.Renderer.EndSwapChainRenderPass | src/vermicelli_renderer.cpp:145-150 | only on the current slot's buffer during a frame |
| Buffer.GetAlignment | src/vermicelli_buffer.cpp:25-30 | `(s + a - 1) & ~(a - 1)` in 64 bits, or s when a is 0 |
| Buffer.AlignmentRoundsUp | src/vermicelli_buffer.cpp:25-30 | for a power-of-two a without overflow: a multiple of a, at least s, and the smallest such |
| Buffer.AlignedWhenPow2 | src/vermicelli_buffer.cpp:25-30 | for a power-of-two a without overflow the result is a multiple of a |
| Buffer.DefaultAlignmentIsInstanceSize | libs/vermicelli_buffer.h:26 | the default alignment 1 leaves the instance size unchanged |
| Buffer.AlignmentWrapsAtTop | src/vermicelli_buffer.cpp:27 | the round-up wraps: UINT64_MAX aligned to 2 is 0 |
| Buffer.BufferSize | src/vermicelli_buffer.cpp:45 | alignment size times instance count, when it fits in 64 bits |
| Buffer.IndexOffset | src/vermicelli_buffer.cpp:166 | `index * mAlignmentSize` when it fits in 64 bits |
| Buffer.Overwrite | src/vermicelli_buffer.cpp:94-98 | the copied bytes land at the offset and no other byte changes |
| Buffer.OverwriteTwice | src/vermicelli_buffer.cpp:94-98 | a second copy over the same range wins |
| Buffer.OverwritesCommute | src/vermicelli_buffer.cpp:94-98 | copies into disjoint ranges commute |
| Buffer.IndexRangesDisjoint | src/vermicelli_buffer.cpp:44-45 | with power-of-two alignment and no overflow, instance slots lie inside the buffer and do not overlap |
| Buffer.WriteRange | src/vermicelli_buffer.cpp:93-99 | WHOLE_SIZE copies the whole buffer from the mapped pointer; otherwise `size` bytes at `offset` |
| Buffer.Buffer.constructor | src/vermicelli_buffer.cpp:32-47 | the alignment size and buffer size follow `getAlignment` and the product; the buffer starts unmapped |
| Buffer.Buffer.Map | src/vermicelli_buffer.cpp:64-67 | requires buffer and memory; mapped exactly when the driver succeeds |
| Buffer.Buffer.Unmap | src/vermicelli_buffer.cpp:74-79 | always ends unmapped; memory is released only if it was mapped |
| Buffer.Buffer.WriteToBuffer | src/vermicelli_buffer.cpp:90-100 | requires a mapping; memory becomes `Overwrite` at the write range, nothing else changes |
| Buffer.Buffer.WriteToIndex | src/vermicelli_buffer.cpp:165-167 | instance-size bytes at `index * alignmentSize` |
| Buffer.Buffer.Flush | src/vermicelli_buffer.cpp:113-120 | the range is (memory, offset, size) as given |
| Buffer.Buffer.Invalidate | src/vermicelli_buffer.cpp:133-140 | the range is (memory, offset, size) as given |
| Buffer.Buffer.FlushIndex | src/vermicelli_buffer.cpp:175 | the aligned slot of the index |
| Buffer.Buffer.InvalidateIndex | src/vermicelli_buffer.cpp:197-199 | the aligned slot of the index |
| Buffer.Buffer.DescriptorInfo | src/vermicelli_buffer.cpp:150-156 | (buffer, offset, size) exactly as given |
| Buffer.Buffer.DescriptorInfoForIndex | src/vermicelli_buffer.cpp:184-186 | the aligned slot of the index |
| Buffer.Buffer.GetAlignmentSizeAsWritten | libs/vermicelli_buffer.h:62 | the getter answers with the instance size |
| Buffer.Buffer.GetAlignmentSize | libs/vermicelli_buffer.h:62 | the intended getter is the stride the per-index helpers use, a multiple of the alignment |
| Buffer.FourBytesAt256 | src/vermicelli_buffer.cpp:25-30 | 4 bytes at alignment 256 occupy 256-byte slots |
| Buffer.AlignmentGetterDisagrees | libs/vermicelli_buffer.h:62 | the getter as written reports a stride that is not aligned and is not where `writeToIndex(1)` writes |
| Descriptors.LayoutBindingList | src/vermicelli_descriptors.cpp:39-42 | one entry per map entry, each the map's value for its binding, no binding twice |
| Descriptors.SetLayoutBuilder.constructor | libs/vermicelli_descriptors.h:36 | the builder starts with no bindings |
| Descriptors.SetLayoutBuilder.AddBinding | src/vermicelli_descriptors.cpp:15-28 | requires an unused binding; adds it with type, count and stages; the other entries are kept |
| Descriptors.SetLayoutBuilder.Build | src/vermicelli_descriptors.cpp:30-32 | a layout over exactly the collected bindings |
| Descriptors.SetLayout.constructor | src/vermicelli_descriptors.cpp:36-56 | `bindingCount` equals the map size and the list holds every binding |
| Descriptors.PoolBuilder.constructor | libs/vermicelli_descriptors.h:74-76 | no pool sizes, 1000 sets, flags 0 |
| Descriptors.PoolBuilder.AddPoolSize | src/vermicelli_descriptors.cpp:64-68 | appends one (type, count) |
| Descriptors.PoolBuilder.SetPoolFlags | src/vermicelli_descriptors.cpp:70-74 | overwrites the flags |
| Descriptors.PoolBuilder.SetMaxSets | src/vermicelli_descriptors.cpp:76-79 | overwrites the set count |
| Descriptors.PoolBuilder.Build | src/vermicelli_descriptors.cpp:81-83 | a pool with the builder's settings |
| Descriptors.Pool.constructor | src/vermicelli_descriptors.cpp:87-104 | the pool keeps the settings given |
| Descriptors.Pool.AllocateDescriptor | src/vermicelli_descriptors.cpp:110-124 | true exactly when the driver succeeds, with a non-null set then |
| Descriptors.Stamp | src/vermicelli_descriptors.cpp:195-200 | every write aimed at the set, everything else unchanged, count unchanged |
| Descriptors.StampTwice | src/vermicelli_descriptors.cpp:195-200 | re-stamping keeps only the last set |
| Descriptors.StampAppend | src/vermicelli_descriptors.cpp:195-200 | stamping distributes over appending a write |
| Descriptors.Writer.constructor | src/vermicelli_descriptors.cpp:140-142 | a writer over the layout and pool with no writes |
| Descriptors.Writer.PendingWrite | src/vermicelli_descriptors.cpp:154-159 | the layout's type, `dstBinding = binding`, count 1, no set yet |
| Descriptors.Writer.WriteBuffer | src/vermicelli_descriptors.cpp:144-163 | requires a single-descriptor binding of the layout; appends exactly one write |
| Descriptors.Writer.WriteImage | src/vermicelli_descriptors.cpp:165-184 | requires a single-descriptor binding of the layout; appends exactly one write |
| Descriptors.Writer.Build | src/vermicelli_descriptors.cpp:186-193 | false with writes untouched when allocation fails; otherwise stamps and applies them and returns true |
| Descriptors.Writer.Overwrite | src/vermicelli_descriptors.cpp:195-200 | sets `dstSet` on every write in place and applies them all |
| Mesh.BindingDescriptions | src/vermicelli_model.cpp:69-71 | one per-vertex binding 0 with stride `sizeof(Vertex)` |
| Mesh.AttributeDescriptions | src/vermicelli_model.cpp:73-80 | four attributes at locations 0..3 of binding 0, contiguous offsets covering the vertex, three vec3 then a vec2 |
| Mesh.FlattenLength | src/vermicelli_model.cpp:188-189 | the corners of all shapes number the total of their index counts |
| Mesh.IndexOf | src/vermicelli_model.cpp:222-223 | the first position of a vertex, or the length when absent |
| Mesh.AddVertex | src/vermicelli_model.cpp:222-226 | one index more; a new vertex is appended, a seen one reuses its position; the index names the vertex |
| Mesh.Deduplicate | src/vermicelli_model.cpp:188-227 | one index per corner |
| Mesh.DedupIndexesCorners | src/vermicelli_model.cpp:222-226 | every index is in range and `vertices[indices[k]]` is corner k |
| Mesh.DedupDistinct | src/vermicelli_model.cpp:222-224 | no vertex appears twice |
| Mesh.DedupFromCorners | src/vermicelli_model.cpp:222-224 | every unique vertex comes from a corner |
| Mesh.SameVertexSet | src/vermicelli_model.cpp:222-226 | the unique vertices are exactly the corners' vertices |
| Mesh.CornersCovered | src/vermicelli_model.cpp:222-226 | every corner's vertex is kept |
| Mesh.DedupPrefix | src/vermicelli_model.cpp:222-226 | more corners only append to both lists |
| Mesh.FirstOccurrenceOrder | src/vermicelli_model.cpp:222-224 | unique vertices are in first-occurrence order |
| Mesh.OldVertexKeepsIndex | src/vermicelli_model.cpp:222-224 | a vertex seen before the last corner keeps its place and first occurrence |
| Mesh.NewVertexIsLast | src/vermicelli_model.cpp:222-224 | a vertex added by the last corner first occurs there |
| Mesh.RepeatedCornerShared | src/vermicelli_model.cpp:222-226 | corners a, b, a give vertices [a, b] and indices [0, 1, 0] |
| Mesh.DedupAppend | src/vermicelli_model.cpp:222-226 | one more corner is one `AddVertex` step |
| Mesh.AddCorner | src/vermicelli_model.cpp:222-226 | the map step equals `AddVertex` and keeps the map tracking positions |
| Mesh.AddShape | src/vermicelli_model.cpp:189-227 | one shape's corners extend the de-duplication of what was seen |
| Mesh.Builder.constructor | libs/vermicelli_model.h:49-51 | empty vertex and index lists |
| Mesh.Builder.LoadModel | src/vermicelli_model.cpp:184-231 | the lists start empty and end as the de-duplication of all corners, shape by shape |
| Mesh.Model.constructor | src/vermicelli_model.cpp:41-45 | counts are the `uint32_t` casts of the list sizes; an index buffer exists exactly when there are indices |
| Mesh.Model.CreateVertexBuffers | src/vermicelli_model.cpp:82-109 | requires at least 3 vertices; copies `sizeof(Vertex) * count` bytes to a new vertex buffer |
| Mesh.Model.CreateIndexBuffers | src/vermicelli_model.cpp:111-142 | `mHasIndexBuffer` exactly when the count is > 0; only then an index buffer and a 4-byte-per-index copy |
| Mesh.Model.DrawModel | src/vermicelli_model.cpp:61-67 | an indexed draw exactly when there is an index buffer, else a plain draw of all vertices |
| Color.HexValue | vermicelli_functions.cpp:44-46 | a digit's base-16 value, below 16 |
| Color.LeadingDigits | vermicelli_functions.cpp:44-46 | the longest hex-digit prefix |
| Color.StrToL16Digits | vermicelli_functions.cpp:44-46 | `strtol(…, 16)` reads a run of hex digits as their base-16 value |
| Color.StrToL16SkipsSpace | vermicelli_functions.cpp:44-46 | `strtol` skips leading white space before the sign |
| Color.SignedValue | vermicelli_functions.cpp:44-46 | after the white space: a leading `-` gives a value of at most 0, no `-` one of at least 0, and a `0x`/`0X` prefix followed by a digit is skipped |
| Color.TwoDigitsChannel | vermicelli_functions.cpp:44-46 | two hex digits read as `16 * hi + lo`, in 0..255 |
| Color.Substr | vermicelli_functions.cpp:40-46 | out of range exactly past the end; otherwise a prefix of the rest of the length `substr` gives |
| Color.Expand | vermicelli_functions.cpp:39-43 | three characters are doubled; other lengths are unchanged |
| Color.RefHex | vermicelli_functions.cpp:35-48 | the in-place erase and expansion, then the cuts at 0, 2, 4, equal `ParseHex` |
| Color.HexString | vermicelli_functions.cpp:55-57 | the string path on a copy |
| Color.EmptyIsOutOfRange | vermicelli_functions.cpp:36 | an empty string throws |
| Color.ErrorExactlyWhenShort | vermicelli_functions.cpp:36-46 | throws exactly for the empty string or a normalised body under four characters |
| Color.HashIsIgnored | vermicelli_functions.cpp:36-38 | `hex("#" + s) == hex(s)` |
| Color.ShorthandDoubles | vermicelli_functions.cpp:39-43 | `hex("abc") == hex("aabbcc")` |
| Color.SixDigitsGiveChannels | vermicelli_functions.cpp:44-46 | six hex digits give three pairs, each in 0..255 |
| Color.HexDigitsGiveChannels | vermicelli_functions.cpp:35-48 | a body of six or more hex digits gives its first three pairs, each in 0..255 |
| Color.SignedPairIsNegative | vermicelli_functions.cpp:44 | `strtol` accepts a sign, so `"-f0000"` gives red -15 |
| Color.FourDigitsLeaveBlueZero | vermicelli_functions.cpp:44-46 | four digits give red and green, and blue 0 from the empty cut |
| Color.LowerDigit | vermicelli_functions.cpp:65 | a lowercase hex digit of the value |
| Color.LowerHex | vermicelli_functions.cpp:65 | lowercase digits, no leading zero |
| Color.LowerHexRoundTrip | vermicelli_functions.cpp:65 | the formatted digits read back as the value |
| Color.HexU32AsWritten | vermicelli_functions.cpp:64-67 | the unpadded formatting, then the string path |
| Color.PaddedHex | vermicelli_functions.cpp:65 | `{:06x}`: at least six hex digits |
| Color.PaddedHexValue | vermicelli_functions.cpp:65 | the padded digits read back as the value: leading zeros add nothing |
| Color.LowerHexLength | vermicelli_functions.cpp:65 | `{:x}` has at most k digits exactly when the value is below 16^k |
| Color.PaddedHexLength | vermicelli_functions.cpp:65 | six digits exactly for a 24-bit value, seven or eight for the rest of `uint32_t` |
| Color.PrefixValue | vermicelli_functions.cpp:44-46 | the first m digits of a run are its value with the other digits dropped |
| Color.PaddedHexReads | vermicelli_functions.cpp:64-67 | the padded form reads as the bytes of the value cut to its first six digits |
| Color.PaddedHexU32 | vermicelli_functions.cpp:64-67 | for a `uint32_t`: the bytes of the value below 2^24, of the value / 16 with seven digits, of the value / 256 with eight |
| Color.HexU32 | vermicelli_functions.cpp:64-67 | the corrected path never throws; a 24-bit value gives its red, green and blue bytes, a longer one the bytes of its top 24 bits |
| Color.PaddedHexChannels | vermicelli_functions.cpp:64-67 | the padded form of a 24-bit value reads back its bytes |
| Color.LongValuesLoseLowDigits | vermicelli_functions.cpp:64-67 | a seven- or eight-digit value reads as the value with its digits past the sixth dropped |
| Color.SevenDigitsDropLast | vermicelli_functions.cpp:64-67 | `0x1ff00ff` keeps its seven digits when padded and reads as (31, 240, 15) |
| Color.GreenReadsAsRed | vermicelli_functions.cpp:64-67 | `0x00ff00` formats as `ff00` and reads as red |
| Color.ShortValueReadsAsShorthand | vermicelli_functions.cpp:64-67 | `hex(0xfff) == hex("ffffff")`, while the padded form reads (0, 15, 255) |
| GameObjects.GameObject.constructor | libs/vermicelli_game_object.h:55-67 | the identifier is fixed; a null model and a null light; zero colour and translation, unit scale |
| GameObjects.IssuedId | libs/vermicelli_game_object.h:40-43 | the i-th identifier after `start` is `start + i` while it fits in 32 bits |
| GameObjects.IssuedIdsStep | libs/vermicelli_game_object.h:42 | each identifier is one more than the last, wrapping at UINT32_MAX |
| GameObjects.IssuedIdsDistinct | libs/vermicelli_game_object.h:40-43 | fewer than 2^32 calls never repeat an identifier |
| GameObjects.IdCounter.constructor | libs/vermicelli_game_object.h:41 | the counter starts at 0 |
| GameObjects.IdCounter.CreateGameObject | libs/vermicelli_game_object.h:40-43 | the object gets the current identifier and null components; the counter steps by one |
| GameObjects.IdCounter.CreateObjects | src/vermicelli_application.cpp:153 | emplacing n created objects under `getID` keeps every one, and the map holds nothing else |
| PointLightSystem.GlobalUbo.constructor | libs/vermicelli_frame_info.h:36-44 | a value-initialised UBO: 20 zero slots and no lights |
| PointLightSystem.Views | src/systems/vermicelli_point_light_system.cpp:78-85 | what each object holds now |
| PointLightSystem.LightIndices | src/systems/vermicelli_point_light_system.cpp:104-106 | the positions of light-bearing objects, no more of them than objects |
| PointLightSystem.LightIndicesBelow | src/systems/vermicelli_point_light_system.cpp:106 | every listed position is in range and carries a light |
| PointLightSystem.LightIndicesMembers | src/systems/vermicelli_point_light_system.cpp:106 | a position is listed exactly when its object carries a light |
| PointLightSystem.LightIndicesIncreasing | src/systems/vermicelli_point_light_system.cpp:104 | the positions are strictly increasing: iteration order |
| PointLightSystem.LightIndicesPrefix | src/systems/vermicelli_point_light_system.cpp:104-115 | a prefix of the objects has no more lights than the whole |
| PointLightSystem.Packed | src/systems/vermicelli_point_light_system.cpp:110-113 | one slot per light-bearing object |
| PointLightSystem.PackedSlots | src/systems/vermicelli_point_light_system.cpp:110-114 | slot k holds the k-th light-bearing object: its moved position, its colour and intensity |
| PointLightSystem.PackLight | src/systems/vermicelli_point_light_system.cpp:105-114 | one loop pass: a light-bearing object is moved and fills the next slot; others are skipped |
| PointLightSystem.PackLights | src/systems/vermicelli_point_light_system.cpp:103-115 | the slots become `Packed` followed by the untouched old slots; exactly the light-bearing objects are moved |
| PointLightSystem.Update | src/systems/vermicelli_point_light_system.cpp:101-117 | requires at most 20 lights; `numLights` is their number; slots as `Packed`; others kept; exactly the light-bearing objects are moved |
| PointLightSystem.Draws | src/systems/vermicelli_point_light_system.cpp:78-96 | one draw per light-bearing object |
| PointLightSystem.DrawsOfLights | src/systems/vermicelli_point_light_system.cpp:80-95 | draw k has the k-th light's position, colour, intensity and radius, and is 6 vertices, 1 instance |
| PointLightSystem.Render | src/systems/vermicelli_point_light_system.cpp:71-99 | the draws issued are `Draws` of the objects as they are |

## Left out

- Creating Vulkan objects can fail, and the source then throws. Those failures are not modelled: every `vkCreate*` succeeds and yields a fresh handle. Acquire, submit, present and map results, and descriptor-set allocation results, are modelled.
- Renderer.Renderer.CreateCommandBuffers: the `vkAllocateCommandBuffers` failure that throws (src/vermicelli_renderer.cpp:58-60) is not modelled, like the `vkCreate*` failures; allocation always yields two fresh handles.
- Strings are taken as sequences of ASCII characters. `std::string` counts UTF-8 bytes, so for non-ASCII input the length test and the `substr` cuts of `ref_hex` (vermicelli_functions.cpp:39-46) count differently from the model; for example "é12" is four bytes in the source and three characters here.
- GPU execution, fence waits and semaphore signalling are left out. A wait is recorded as the fence waited on, not as a blocking call.
- `vkDeviceWaitIdle`, destructors and `freeCommandBuffers` release resources only and are not modelled.
- Depth-format probing is a device query, so the chosen depth format is an input.
- Floats are modelled as reals. Rounding, NaN and its equality are not modelled.
- The light rotation matrix from `glm::rotate` (sines and cosines) is an input; its product with the position is modelled.
- The SDL window and event loop are represented by the extent answers and the resize flag.
- Verbose printing and the `std::cout` warnings are not modelled.
- `makePointLight` is declared in the header but defined in `src/vermicelli_game_object.cpp`, which is not part of this model.
- tinyobj parsing and the attribute lookups of `loadModel` are foreign code: corners come in as a sequence of abstract vertices. The lookups read UVs with a stride of 3 (src/vermicelli_model.cpp:217).
- The iteration order of `std::unordered_map` is unspecified.
  - The light system takes the map's objects as a sequence in that order.
  - The layout's binding list is stated up to order.
- The map keys are not read by the light system, so they are not passed to it.
- Mesh.Builder.LoadModel: indices are natural numbers; the `uint32_t` cast of the vertex position is not modelled, because a model with 2^32 unique vertices is out of reach.
- Renderer.Renderer.EndFrame: `Valid()` is not promised after a format-change exception, because the frame stays in progress with an image index from the old chain that the new one may not have.
- The staging buffers of `createVertexBuffers` and `createIndexBuffers` are reduced to the copy they perform.
- PointLightSystem.Update: the objects' state on entry is passed as a ghost snapshot of values alongside the objects; the requires ties each entry to its object. The contracts are stated over that snapshot.
- `GlobalUbo`'s matrices and ambient colour are not used by the light system and are not modelled.
- Bits: bitwise AND and complement are defined arithmetically, and only the facts the alignment round-up needs are proved.

## Findings

| source | as written | input that shows it | evidently intended | confidence | as-written member | corrected member |
|---|---|---|---|---|---|---|
| libs/vermicelli_buffer.h:62 | `getAlignmentSize()` returns `mInstanceSize` | a 4-byte instance with minimum offset alignment 256: the getter says 4, the slots are 256 bytes apart | return `mAlignmentSize`, the stride `writeToIndex` and the other per-index helpers use | not executed | Buffer.AlignmentGetterDisagrees | Buffer.Buffer.GetAlignmentSize |
| vermicelli_functions.cpp:64-67 | `hex(uint32_t)` formats with `{:x}`, which drops leading zeros | `0x00ff00` is formatted as `ff00` and parsed as red (255, 0, 0) | format with at least six digits, `{:06x}`, so that a 24-bit value's bytes are the channels. `{:06x}` does not pad longer values, so the string path still reads only their first six digits: `0x1ff00ff` gives (31, 240, 15) (Color.LongValuesLoseLowDigits, Color.SevenDigitsDropLast). It also gives up the 3-character reading of small values: `0xfff` gives (0, 15, 255) instead of white (Color.ShortValueReadsAsShorthand) | not executed | Color.GreenReadsAsRed | Color.PaddedHexChannels |
