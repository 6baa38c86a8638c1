# Morrigu rendering core in Dafny

This project models the logic inside the rendering layer of the Morrigu engine and proves properties of it. The layer is otherwise Vulkan and OpenGL plumbing. The model covers five pieces:

- **Vertex-layout arithmetic** (`Buffers`, `OpenGLVertexArray`, and the quad vertex in `Renderer2D`):
  - the shader-type size and component tables;
  - the `BufferLayout` constructor, which assigns prefix-sum offsets and a stride;
  - the OpenGL vertex array, which binds the i-th layout element to attribute index i.
- **Swap-chain configuration** (`VulkanSwapChain`):
  - the choice of surface format, present mode and extent;
  - the requested image count in `uint32_t` arithmetic;
  - the sharing mode;
  - the first-match search for a depth format.
- **Physical-device selection** (`VulkanContext`):
  - validation-layer and instance-extension matching;
  - the queue-family search;
  - the device-extension check, suitability and scoring;
  - the choice of the best device, taking the last one on ties, as a `std::multimap` read from `rbegin` does;
  - vendor names.
- **Frame-in-flight ring and image-owner table** (`VulkanRenderer2D.Renderer2D`):
  - one fence and one semaphore per ring slot;
  - a table recording which slot's fence last claimed each swap-chain image;
  - per-image command buffers;
  - swap-chain recreation after a resize or an out-of-date or suboptimal result;
  - the ring advancing modulo `m_maxFramesInFlight`.
- **Draw statistics** (`Renderer2D.RenderingStatistics` and the draw methods of `VulkanRenderer2D.Renderer2D`):
  - each draw queues one entry and counts one quad;
  - `endFrame` records one indexed draw per entry and counts one draw call each;
  - the derived vertex and index counts.

Vulkan handles are numbers and queries are data. The following reach the model as arguments:

- the results of `vkAcquireNextImageKHR` and `vkQueuePresentKHR`;
- the window sizes polled while the window is minimised;
- the image count the driver grants;
- the driver's per-format properties.

A fence is modelled as its ring slot plus a signalled bit:

- waiting on a fence leaves it signalled;
- `vkResetFences` clears it;
- a submit leaves it unsignalled;
- `vkDeviceWaitIdle` signals every fence.

Every `uint32_t` is the subset type `u32`. Its wrap-around is written out in `Wrappers.AddU32`.

Where the revisions of the files disagree, the model follows the code:

- The quad vertex declares its object id as `ShaderDataType::UInt`. In this revision of `Buffers.h` the enum has no UInt members, so its size table sends UInt to the asserting default arm, which yields 0. The model therefore gives the quad layout a stride of 44 rather than the 48 bytes of the struct (`Renderer2D.QuadVertexLayoutOffsets`). The OpenGL base-type table does know UInt (`OpenGLVertexArray.BaseTypeKnownButSizeless`).
- `Vulkan/Renderer2D.cpp` predates its header `Vulkan/Renderer2D.h`. The model follows the `.cpp` for every behaviour it implements, and the header for the field initialisers and the inline members.

## Model

| member | source | states |
|---|---|---|
| Wrappers.AddU32 | src/Morrigu/Renderer/Renderer2D.h:40-44 | `uint32_t` addition is the exact sum below 2^32 and wraps by 2^32 above it |
| Buffers.ComponentCount | src/Morrigu/Renderer/Buffers.h:62-89 | 0 exactly for the types with no arm (None and the UInt family); at most 4; a matrix is read as 3 or 4 columns |
| Buffers.ShaderDataTypeSize | src/Morrigu/Renderer/Buffers.h:20-46 | float and int vectors take 4 bytes per component, a square matrix 4 per cell, Bool 1 byte; the size is 0 exactly when there is no component |
| Buffers.NewElement | src/Morrigu/Renderer/Buffers.h:57-60 | an element keeps its name, type and flag, takes its size from the table and starts at offset 0; size 0 exactly for a type the table has no arm for |
| Buffers.DefaultLayout | src/Morrigu/Renderer/Buffers.h:95 | the default layout is empty, has stride 0 and is well formed |
| Buffers.NewLayout | src/Morrigu/Renderer/Buffers.h:96-104 | the constructor loop sets each offset to the sum of the sizes before it and the stride to the sum of all sizes, so the layout is well formed |
| Buffers.LaidOut | src/Morrigu/Renderer/Buffers.h:96-104 | laying out keeps the number of elements |
| Buffers.LaidOutIsWellFormed | src/Morrigu/Renderer/Buffers.h:96-104 | every constructed layout is well formed and keeps each element's name, type, size and flag in order |
| Buffers.SizeSumOnlySizes | src/Morrigu/Renderer/Buffers.h:99-103 | the stride and offsets depend only on the element sizes |
| Buffers.SizeSumPrefixMonotone | src/Morrigu/Renderer/Buffers.h:99-103 | a longer prefix never has a smaller total size, and has a strictly larger one when every size is positive |
| Buffers.OffsetsIncrease | src/Morrigu/Renderer/Buffers.h:99-103 | offsets in a layout never decrease, and strictly increase when no element is sizeless |
| Buffers.ElementsFitInStride | src/Morrigu/Renderer/Buffers.h:99-103 | every element ends within the stride, and the last ends exactly at it |
| OpenGLVertexArray.BaseType | src/Morrigu/Renderer/APIs/OpenGL/VertexArray.cpp:9-40 | GL_FLOAT exactly for the float vectors and matrices, GL_INT for Int..Int4, GL_UNSIGNED_INT for UInt..UInt4, GL_BOOL for Bool, GL_INVALID_ENUM for None |
| OpenGLVertexArray.BaseTypeKnownButSizeless | src/Morrigu/Renderer/APIs/OpenGL/VertexArray.cpp:26-29 | the base-type table and the size table disagree exactly on the UInt family |
| OpenGLVertexArray.VertexArray.constructor | src/Morrigu/Renderer/APIs/OpenGL/VertexArray.cpp:45-50 | a new array has its GL name, no buffers, no index buffer and no attributes |
| OpenGLVertexArray.VertexArray.AddVertexBuffer | src/Morrigu/Renderer/APIs/OpenGL/VertexArray.cpp:71-94 | for a non-empty layout, element i is bound at attribute i with its component count, base type, flag, offset and the stride; other attributes are kept; the buffer is appended |
| OpenGLVertexArray.VertexArray.SetIndexBuffer | src/Morrigu/Renderer/APIs/OpenGL/VertexArray.cpp:96-104 | the index buffer is replaced and the buffer list and attributes are untouched |
| OpenGLVertexArray.AttributesInsideVertex | src/Morrigu/Renderer/APIs/OpenGL/VertexArray.cpp:84-89 | with a constructed layout, attribute i is bound at its prefix-sum offset and lies inside one vertex stride |
| Renderer2D.QuadVertexElements | src/Morrigu/Renderer/Renderer2D.h:26-35 | the quad vertex layout lists six attributes in field order: position Float3 (12 bytes), colour Float4 (16), texture coordinate Float2 (8), texture index and tiling factor Float (4 each), and object id UInt (0 bytes, from the size table's default arm), all unnormalised and not yet placed |
| Renderer2D.QuadVertexLayoutOffsets | src/Morrigu/Renderer/Renderer2D.h:28-33 | the six attributes are position, color, texCoord, texIndex, tilingFactor and objectID, at offsets 0, 12, 28, 36, 40 and 44; the UInt object id has size 0, so the stride is 44 |
| Renderer2D.FreshStats | src/Morrigu/Renderer/Renderer2D.h:38-45 | fresh statistics have zero draw calls and quads, hence zero derived vertices and indices |
| Renderer2D.VertexCount | src/Morrigu/Renderer/Renderer2D.h:43 | the vertex count is four per quad whenever that does not wrap |
| Renderer2D.IndexCount | src/Morrigu/Renderer/Renderer2D.h:44 | the index count is six per quad whenever that does not wrap |
| Renderer2D.DerivedCountsWrap | src/Morrigu/Renderer/Renderer2D.h:43-44 | once the products pass `uint32_t`, the vertex count is four times the quad count modulo 2^30 (0 for 2^30 quads), and an index count between 2^32 and 2^33 loses exactly 2^32 |
| Renderer2D.DerivedCountsWithinCapacity | src/Morrigu/Renderer/Renderer2D.h:101-104 | within `maxQuads` quads the derived counts do not wrap and stay within `maxVertices` = 40000 and `maxIndices` = 60000, in the ratio 2:3 |
| Renderer2D.QuadTemplateMatchesTexture | src/Morrigu/Renderer/Renderer2D.h:107-113 | the template has 4 corners and 4 texture coordinates; each coordinate is its corner shifted onto the unit square |
| Renderer2D.InitialBatchState | src/Morrigu/Renderer/Renderer2D.h:115-119 | no index queued, both vertex pointers null, 32 empty texture slots, and the next free slot is 1 |
| VulkanHelper.Validate | src/Morrigu/Renderer/APIs/Vulkan/Helper.h:9-12 | a result is an error exactly when it is not VK_SUCCESS, and the error carries the given message |
| VulkanContext.CheckValidationLayerSupport | src/Morrigu/Renderer/APIs/Vulkan/Context.cpp:44-68 | true exactly when every layer of `validationLayers` (`VK_LAYER_KHRONOS_validation`) is among the available layers |
| VulkanContext.MatchInstanceExtensions | src/Morrigu/Renderer/APIs/Vulkan/Context.cpp:146-175 | erasing each found extension from the supported list succeeds exactly when the required multiset is contained in the supported one; the leftover list is the multiset difference |
| VulkanContext.FirstMatch | src/Morrigu/Renderer/APIs/Vulkan/Context.cpp:154-162 | the inner scan finds the name exactly when it is in the list, and then at its first position |
| VulkanContext.ProbeAsWritten | src/Morrigu/Renderer/APIs/Vulkan/Context.cpp:154-161 | the inner loop as written either finds the name, or runs off the end of the shrunk list only when the name is absent, or stops within the list |
| VulkanContext.MatchAsWritten | src/Morrigu/Renderer/APIs/Vulkan/Context.cpp:152-168 | the outer loop as written, run on the shrinking list with the stale count: when it finishes, the leftover list is no longer than the supported one, and when every name matched, exactly one entry was erased per required name |
| VulkanContext.MatchAsWrittenReadsPastEnd | src/Morrigu/Renderer/APIs/Vulkan/Context.cpp:152-161 | with one supported extension and one missing required extension, the loop as written indexes past the end of the vector |
| VulkanContext.ReadPastEndOnlyWhenMissing | src/Morrigu/Renderer/APIs/Vulkan/Context.cpp:152-168 | when the loop as written reads past the end, some required extension really is missing, so the corrected match reports the same failure |
| VulkanContext.MatchAsWrittenAgreesInBounds | src/Morrigu/Renderer/APIs/Vulkan/Context.cpp:152-168 | whenever the loop as written stays inside the list, its verdict is multiset inclusion of the required names in the supported ones and its leftover list is the supported names minus the required ones, as for the corrected match |
| VulkanContext.CheckDeviceExtensionsSupport | src/Morrigu/Renderer/APIs/Vulkan/Context.cpp:254-276 | the set left after erasing is exactly the required extensions the device lacks; the device passes exactly when that set is empty |
| VulkanContext.RecordedIsSound | src/Morrigu/Renderer/APIs/Vulkan/Context.cpp:225-252 | a recorded queue-family index always names a family with that capability, and one is recorded exactly when such a family exists |
| VulkanContext.FindQueueFamilies | src/Morrigu/Renderer/APIs/Vulkan/Context.cpp:225-252 | the indices name a graphics family and a present family; complete exactly when both kinds exist; the search stops at the first family that completes them |
| VulkanContext.StopsAtFirstComplete | src/Morrigu/Renderer/APIs/Vulkan/Context.cpp:246-247 | the early return reports valid indices, and both kinds of family exist |
| VulkanContext.UniqueQueueFamilies | src/Morrigu/Renderer/APIs/Vulkan/Context.cpp:400 | the set of queue families holds exactly the two indices, once each, in ascending order |
| VulkanContext.Resize | src/Morrigu/Renderer/APIs/Vulkan/Context.cpp:287 | `std::vector::resize` keeps the first elements and value-initialises the new ones |
| VulkanContext.QuerySwapChainSupportAsWritten | src/Morrigu/Renderer/APIs/Vulkan/Context.cpp:278-299 | as written, the present-mode list stays empty and the format list is sized by the present-mode count |
| VulkanContext.QuerySwapChainSupport | src/Morrigu/Renderer/APIs/Vulkan/Context.cpp:278-299 | the corrected query reports the surface's capabilities, formats and present modes in full, and agrees with the query as written exactly when the surface reports no present mode |
| VulkanContext.SuitableWith | src/Morrigu/Renderer/APIs/Vulkan/Context.cpp:301-315 | against given swap-chain details: suitable exactly when there is a geometry shader, the queue-family search records both a graphics and a present family, the device extensions are supported, and the formats and present modes are both non-empty |
| VulkanContext.IsDeviceSuitable | src/Morrigu/Renderer/APIs/Vulkan/Context.cpp:301-315 | over the corrected query: suitable exactly when there is a geometry shader, some family can draw and some family can present, the device extensions are supported, and the surface reports at least one format and one present mode |
| VulkanContext.AsWrittenRejectsEveryDevice | src/Morrigu/Renderer/APIs/Vulkan/Context.cpp:294 | as written, no device is suitable, every score is 0, and selection always fails |
| VulkanContext.Score | src/Morrigu/Renderer/APIs/Vulkan/Context.cpp:317-338 | an unsuitable device scores 0; a suitable one scores exactly its framebuffer width plus height, plus 10000 when it is a discrete GPU |
| VulkanContext.EvaluateDevice | src/Morrigu/Renderer/APIs/Vulkan/Context.cpp:317-338 | over the corrected query: 0 for an unsuitable device, otherwise the framebuffer width plus height, plus 10000 for a discrete GPU |
| VulkanContext.EvaluateDeviceAsWritten | src/Morrigu/Renderer/APIs/Vulkan/Context.cpp:317-338 | over the query as written: every device scores 0 |
| VulkanContext.CapableDeviceIsSuitable | src/Morrigu/Renderer/APIs/Vulkan/Context.cpp:301-338 | with the corrected query, a device with a geometry shader, both queue families, the swap-chain extension, a format and a present mode is suitable; a discrete device outscores an integrated one with no larger framebuffer |
| VulkanContext.PickBest | src/Morrigu/Renderer/APIs/Vulkan/Context.cpp:361-390 | fails with "no GPU" exactly on an empty list; otherwise the chosen device has a positive, maximal score and no later device ties it |
| VulkanContext.LastBest | src/Morrigu/Renderer/APIs/Vulkan/Context.cpp:386-389 | `rbegin` of the score multimap is the last enumerated device among those with the maximum score |
| VulkanContext.PickBestFailsOnlyWhenAllZero | src/Morrigu/Renderer/APIs/Vulkan/Context.cpp:386-387 | "no suitable GPU" is reported exactly when the list is non-empty and every score is 0 |
| VulkanContext.ScoreCandidates | src/Morrigu/Renderer/APIs/Vulkan/Context.cpp:373-389 | the loop over the devices ends on the last enumerated device with the maximum score, and returns that score |
| VulkanContext.PickPhysicalDevice | src/Morrigu/Renderer/APIs/Vulkan/Context.cpp:361-390 | over the corrected swap-chain query (first finding; for the code as written see `AsWrittenRejectsEveryDevice`), the scoring loop returns the best-scoring device, the last one enumerated among ties, and fails as "no suitable GPU" exactly when every device is unsuitable or scores 0 |
| VulkanContext.VendorString | src/Morrigu/Renderer/APIs/Vulkan/Context.cpp:340-359 | "Unknown vendor" exactly for IDs outside the six known vendors |
| VulkanContext.VendorStringsDistinct | src/Morrigu/Renderer/APIs/Vulkan/Context.cpp:340-359 | a known vendor's name is given to no other ID |
| VulkanSwapChain.FindPreferredFormat | src/Morrigu/Renderer/APIs/Vulkan/Renderer2D.cpp:56-59 | the search finds a format exactly when B8G8R8_SRGB with SRGB_NONLINEAR is offered, and then returns it |
| VulkanSwapChain.ChooseSwapFormat | src/Morrigu/Renderer/APIs/Vulkan/Renderer2D.cpp:54-65 | the chosen format is offered; it is the preferred one exactly when that is offered, and the first one otherwise |
| VulkanSwapChain.ChooseSwapPresentMode | src/Morrigu/Renderer/APIs/Vulkan/Renderer2D.cpp:67-77 | MAILBOX exactly when offered, otherwise FIFO even if FIFO is not listed |
| VulkanSwapChain.ChosenPresentModeIsOffered | src/Morrigu/Renderer/APIs/Vulkan/Renderer2D.cpp:67-77 | when FIFO is offered, as every surface must, the chosen mode is offered |
| VulkanSwapChain.Clamp | src/Morrigu/Renderer/APIs/Vulkan/Renderer2D.cpp:88-89 | a clamp lies between its bounds when they are ordered, keeps a value already between them, and is always the value or one of the bounds |
| VulkanSwapChain.ChooseSwapExtent | src/Morrigu/Renderer/APIs/Vulkan/Renderer2D.cpp:79-93 | the current extent when its width is not 0xFFFFFFFF; otherwise the window size clamped dimension by dimension |
| VulkanSwapChain.ChosenExtentFits | src/Morrigu/Renderer/APIs/Vulkan/Renderer2D.cpp:79-93 | a chosen extent lies within the surface's bounds, and a window that fits keeps its size |
| VulkanSwapChain.ImageCount | src/Morrigu/Renderer/APIs/Vulkan/Renderer2D.cpp:117-119 | one more than the minimum, capped by a non-zero maximum; never below the minimum when the minimum is below `UINT32_MAX` and does not exceed a non-zero maximum (which Vulkan guarantees for a conforming surface) |
| VulkanSwapChain.ChooseSharingMode | src/Morrigu/Renderer/APIs/Vulkan/Renderer2D.cpp:135-143 | concurrent over the two distinct families exactly when graphics and present families differ |
| VulkanSwapChain.CreateSwapChain | src/Morrigu/Renderer/APIs/Vulkan/Renderer2D.cpp:105-159 | the swap chain takes the format `chooseSwapFormat` picks (the preferred B8G8R8_SRGB / SRGB_NONLINEAR pair when offered, else the first offered), the present mode `chooseSwapPresentMode` picks (MAILBOX exactly when offered, else FIFO), the extent `chooseSwapExtent` picks, the sharing `ChooseSharingMode` gives (concurrent over graphics then present exactly when they differ), and the requested and granted image counts |
| VulkanSwapChain.FindSupportedFormat | src/Morrigu/Renderer/APIs/Vulkan/Renderer2D.cpp:213-230 | the first candidate whose features for the tiling include every requested bit; VK_FORMAT_MAX_ENUM when none does |
| VulkanSwapChain.FindDepthFormat | src/Morrigu/Renderer/APIs/Vulkan/Renderer2D.cpp:232-238 | the "no format" value exactly when none of D32_SFLOAT, D32_SFLOAT_S8_UINT and D24_UNORM_S8_UINT can be a depth attachment with optimal tiling; otherwise the first of them, in that order, that can |
| VulkanSwapChain.DepthFormatIsPreferredCandidate | src/Morrigu/Renderer/APIs/Vulkan/Renderer2D.cpp:232-238 | the depth format is one of the three candidates or "no format", and D32_SFLOAT whenever it can be an optimal-tiling depth attachment |
| VulkanRenderer2D.NextFrame | src/Morrigu/Renderer/APIs/Vulkan/Renderer2D.cpp:848 | the next slot is a different ring slot, and is 0 exactly after the last slot |
| VulkanRenderer2D.AdvanceFrames | src/Morrigu/Renderer/APIs/Vulkan/Renderer2D.cpp:848 | any number of frames stays on the ring |
| VulkanRenderer2D.RingCycles | src/Morrigu/Renderer/APIs/Vulkan/Renderer2D.cpp:848 | after k frames the ring is at `(frame + k) % 2`, and is back at its start exactly when k is a multiple of 2 |
| VulkanRenderer2D.FirstVisibleSize | src/Morrigu/Renderer/APIs/Vulkan/Renderer2D.cpp:540-544 | the size the polling settles on has no zero dimension, is one of the polled sizes, every size polled before it has a zero dimension, and it is the current size when that is already visible |
| VulkanRenderer2D.PollVisibleSize | src/Morrigu/Renderer/APIs/Vulkan/Renderer2D.cpp:540-547 | the polling loop ends on the first visible size |
| VulkanRenderer2D.EmptyBuffers | src/Morrigu/Renderer/APIs/Vulkan/Renderer2D.cpp:474-488 | freshly allocated command buffers, one per image, hold nothing |
| VulkanRenderer2D.NoOwners | src/Morrigu/Renderer/APIs/Vulkan/Renderer2D.cpp:656 | the owner table starts with one null entry per image |
| VulkanRenderer2D.AllSignalled | src/Morrigu/Renderer/APIs/Vulkan/Renderer2D.cpp:663-670 | fences created with the signalled bit, one per ring slot |
| VulkanRenderer2D.RecordDrawCalls | src/Morrigu/Renderer/APIs/Vulkan/Renderer2D.cpp:789-812 | one indexed draw of the quad's six indices per queued entry, in queue order, and the draw-call counter grows by the number of entries modulo 2^32 |
| VulkanRenderer2D.Framebuffer.SetClearColor | src/Morrigu/Renderer/APIs/Vulkan/Renderer2D.h:73 | the render target takes the forwarded colour |
| VulkanRenderer2D.Renderer2D.constructor | src/Morrigu/Renderer/APIs/Vulkan/Renderer2D.h:88-105 | before `init`: image index 0, empty vectors, no flags set, black opaque clear colour, no render target, zero statistics; the frame counter lives in the window data, whose initialiser is not part of this model, and is assumed to start at 0 |
| VulkanRenderer2D.Renderer2D.Init | src/Morrigu/Renderer/APIs/Vulkan/Renderer2D.cpp:586-674 | the swap chain is created for the window; one framebuffer, allocator and empty command buffer per image; one semaphore and one signalled fence per ring slot; an owner table of nulls sized by the image count |
| VulkanRenderer2D.Renderer2D.OnWindowResize | src/Morrigu/Renderer/APIs/Vulkan/Renderer2D.cpp:699 | a resize only sets the recreate flag |
| VulkanRenderer2D.Renderer2D.RecreateSwapChain | src/Morrigu/Renderer/APIs/Vulkan/Renderer2D.cpp:535-580 | the size becomes the first visible size among the current one and the polled ones; the swap chain is created for that size, its generation grows by one and the frame-buffer count becomes its image count; every fence is signalled by the idle wait; swap chain, framebuffers and command buffers are rebuilt for the new image count; the owner table and allocators keep their size |
| VulkanRenderer2D.Renderer2D.BeginFrame | src/Morrigu/Renderer/APIs/Vulkan/Renderer2D.cpp:701-732 | the slot's fence is waited on and the draw list cleared; false exactly on OUT_OF_DATE, after recreation (new size, swap chain and frame-buffer count as for `RecreateSwapChain`, all fences signalled, command buffers empty) and with the owner table untouched; on success the size, swap chain and frame-buffer count are unchanged, the previous owner's fence is waited on and the current slot becomes the image's owner |
| VulkanRenderer2D.Renderer2D.RecordAndSubmit | src/Morrigu/Renderer/APIs/Vulkan/Renderer2D.cpp:739-828 | the slot's fence is reset before the submit that uses it; only the acquired image's command buffer is re-recorded, with one draw per entry; draw calls grow by the entry count |
| VulkanRenderer2D.Renderer2D.EndFrame | src/Morrigu/Renderer/APIs/Vulkan/Renderer2D.cpp:734-851 | always true; recreation happens exactly on OUT_OF_DATE, SUBOPTIMAL or a pending resize, and clears the flag, leaving size, swap chain and frame-buffer count as `RecreateSwapChain` states; without it they are unchanged; draw calls grow by the entry count; the ring moves to the next slot |
| VulkanRenderer2D.Renderer2D.QueueDrawCall | src/Morrigu/Renderer/APIs/Vulkan/Renderer2D.cpp:862-870 | one entry appended and one quad counted |
| VulkanRenderer2D.Renderer2D.DrawQuad | src/Morrigu/Renderer/APIs/Vulkan/Renderer2D.cpp:862-870 | appends one unrotated flat-colour entry and adds 1 to the quad count |
| VulkanRenderer2D.Renderer2D.DrawTexturedQuad | src/Morrigu/Renderer/APIs/Vulkan/Renderer2D.cpp:872-884 | appends one unrotated textured entry and adds 1 to the quad count |
| VulkanRenderer2D.Renderer2D.DrawRotatedQuad | src/Morrigu/Renderer/APIs/Vulkan/Renderer2D.cpp:886-896 | appends one rotated flat-colour entry and adds 1 to the quad count |
| VulkanRenderer2D.Renderer2D.DrawRotatedTexturedQuad | src/Morrigu/Renderer/APIs/Vulkan/Renderer2D.cpp:898-915 | appends one rotated textured entry and adds 1 to the quad count |
| VulkanRenderer2D.Renderer2D.SetClearColor | src/Morrigu/Renderer/APIs/Vulkan/Renderer2D.h:69-75 | the colour is always stored, and is forwarded to the render target exactly when there is one |
| VulkanRenderer2D.Renderer2D.ResetStats | src/Morrigu/Renderer/APIs/Vulkan/Renderer2D.h:78 | both counters become 0 |
| VulkanRenderer2D.Renderer2D.GetStats | src/Morrigu/Renderer/APIs/Vulkan/Renderer2D.h:79 | the current counters are returned and nothing changes |
| VulkanRenderer2D.Renderer2D.GetRenderTarget | src/Morrigu/Renderer/APIs/Vulkan/Renderer2D.h:66 | the stored target is returned and nothing changes |
| VulkanRenderer2D.Renderer2D.SetViewport | src/Morrigu/Renderer/APIs/Vulkan/Renderer2D.h:68 | nothing changes |

## Findings

| source | as written | input that shows it | evidently intended | confidence | as-written member | corrected member |
|---|---|---|---|---|---|---|
| src/Morrigu/Renderer/APIs/Vulkan/Context.cpp:294 | the present-mode branch resizes `details.formats` to the present-mode count, so `presentModes` stays empty and `isDeviceSuitable` rejects every device | any device, e.g. one with a surface format and FIFO: `presentModes` is empty, the score is 0 and selection throws "no suitable GPU" | `details.presentModes.resize(count)` | not executed | VulkanContext.AsWrittenRejectsEveryDevice | VulkanContext.CapableDeviceIsSuitable |
| src/Morrigu/Renderer/APIs/Vulkan/Context.cpp:152-159 | the inner loop runs `j` up to the original `supportedExtensionCount` after `erase` has shrunk the vector | required `["VK_KHR_surface", "VK_EXT_debug_utils"]`, supported `["VK_KHR_surface"]`: the second search reads index 0 of an empty vector | bound the loop by `supportedExtensions.size()` | not executed | VulkanContext.MatchAsWrittenReadsPastEnd | VulkanContext.MatchInstanceExtensions |

## Left out

- Vulkan object creation is not modelled: instance, surface, logical device, render pass, pipeline, descriptor layouts, images, buffers and command pools. It is structure filling for a foreign API, so a created object is only a number or a count, and `MRG_VKVALIDATE` is only `VulkanHelper.Validate`. The try/catch blocks that log and swallow these errors are not modelled.
- GPU synchronisation is abstract. A fence is a signalled bit and a semaphore only a count. The asynchronous completion of submitted work is not modelled.
- Matrix and colour arithmetic is not modelled: transforms, push constants, the projection from `beginScene`, and clear values. It is floating-point glm code, so a queued entry keeps the position, size, rotation, texture and tint it was drawn with. `beginScene` (it only stores the camera matrix) and the empty `endScene` have no member.
- ImGui rendering and platform windows inside `endFrame` are left out (a foreign library).
- `setRenderTarget`, `resetRenderTarget`, `clear`, `flushAndReset` and `setupScene` are declared in the headers but never defined. The batch state of `Generic2DRenderer` is modelled only as its initial values.
- `shutdown` only destroys Vulkan objects, so it is not modelled.
- The GLFW callback that writes the new window size is not modelled. `onWindowResize` ignores its arguments, and the size reaches `recreateSwapChain` through the window data, which the model keeps as `width` and `height`.
- VulkanContext.PickPhysicalDevice, VulkanContext.IsDeviceSuitable and VulkanContext.EvaluateDevice use the corrected `querySwapChainSupport` (first finding). The code as written rejects every device; that behaviour is modelled only by `QuerySwapChainSupportAsWritten`, `EvaluateDeviceAsWritten` and `AsWrittenRejectsEveryDevice`.
- VulkanRenderer2D.Renderer2D.constructor: `m_data->currentFrame` is a field of the window data, whose initialiser is not part of this model; the model starts it at 0.
- VulkanRenderer2D.Renderer2D.RecreateSwapChain: the source polls forever while the window stays minimised. The model requires some polled size to be visible.
- VulkanRenderer2D.Renderer2D.BeginFrame: the source indexes the owner table with the acquired image without a check. That table is never resized after `init`, so the model requires the index to be in range. If `recreateSwapChain` throws on OUT_OF_DATE, the catch around the acquire makes `beginFrame` return true; the model's recreation cannot fail, so it always returns false there. The model also keeps `m_imageIndex` on OUT_OF_DATE, although Vulkan does not say what the acquire writes to it on an error.
- VulkanRenderer2D.Renderer2D.EndFrame: the source indexes the command buffers and `m_allocators` with the image index without a check. `m_allocators` is sized by `init` like the owner table and never resized (`Valid` keeps the two the same length), and the descriptor sets it hands out are not modelled; the model requires the image index to be in range of the command buffers. `endFrame` has no try/catch: when `MRG_VKVALIDATE` rejects `vkBeginCommandBuffer`, `vkEndCommandBuffer` or `vkQueueSubmit`, it throws out of `endFrame` after the slot's fence was reset, leaving that fence unsignalled and nothing submitted. Such failures are treated as fatal, and the model covers only the path where all three succeed.
- Buffers.NewLayout: offsets and the stride are unbounded integers. The `uint32_t` stride of the source could wrap only for layouts over 4 GiB, which this model does not consider.
- The printing of unsupported instance extensions after the match, and all logging and profiling, are left out.
