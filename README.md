# Solarium engine core in Dafny

A model of the self-contained logic inside the Solarium Vulkan engine,
with proofs of what that logic promises. Every query the engine makes of the
Vulkan driver is an input value: surface capabilities, formats and present
modes, queue families and their present support, extension and layer names,
format and memory properties. Every handle is an opaque number.

The model covers:

- **Swapchain negotiation** (`SwapChainRules`). The choice of surface format,
  present mode, extent, image count and image sharing mode, and the create info
  assembled from them.
- **The SwapChain object** (`SwapChain`).
  - The constructor's six creation steps. Each object is created through a
    `Registry` of device objects with ids from a counter.
  - The per-image and per-frame tables.
  - The frame-in-flight bookkeeping of `acquireNextImage` and
    `submitCommandBuffers`, with `currentFrame` cycling modulo
    `MAX_FRAMES_IN_FLIGHT` (2).
  - `imagesInFlight`, which maps each image to the fence of the frame that
    last used it.
  - Every wait, acquire, reset, submit and present is appended to an event log
    instead of being executed.
- **Device selection** (`Device`).
  - Queue-family discovery with its early stop.
  - The required-extension and validation-layer checks.
  - Device suitability and the choice of the first suitable device.
  - The distinct queue families of the logical device.
  - The supported-format and memory-type searches.
- **The memory-type search** (`MemoryTypes`). The search of the "Device
  Memory" section of the Vulkan specification, shared by `Device` and
  `BufferHelper`.
- **BufferHelper** (`BufferHelper`). Its copy of the memory-type search and
  the error paths of `createBuffer`.
- **Texture upload** (`Texture`). The image-layout transition table, and
  `createTextureImage`'s staging size and fixed step sequence, with the image
  layout threaded through it.
- **Shader path pairing** (`Paths`, `ShaderHelper`).
  - The subset of `std::filesystem::path` the helper uses.
  - `getSiblingShaderPath`.
  - `getShaderPaths`: the directory listing is an input sequence, and the
    paths that exist are an input set.

Files: `wrappers.dfy` (Option, Result), `vulkan.dfy` (integer widths, flag
bits, enumerants), `swapchain_rules.dfy`, `swapchain.dfy`, `device.dfy`,
`memory_types.dfy`, `buffer_helper.dfy`, `texture.dfy`, `paths.dfy`,
`shader_helper.dfy`.

## Model

| member | source | states |
|---|---|---|
| SwapChainRules.PreferredFormatIndex | Solarium/Engine/SwapChain.cpp:347-353 | the index the loop stops at is a B8G8R8A8_UNORM/sRGB-non-linear entry with none before it; None iff no entry is one |
| SwapChainRules.ChooseSwapSurfaceFormat | Solarium/Engine/SwapChain.cpp:345-356 | the result is one of the offered formats; it is the preferred pair when that is offered, else the first entry (non-empty input required, as the source reads `[0]`) |
| SwapChainRules.ChooseSwapPresentMode | Solarium/Engine/SwapChain.cpp:358-376 | Mailbox iff Mailbox is listed; Fifo iff it is not, whether or not Fifo is listed |
| SwapChainRules.ClampDimension | Solarium/Engine/SwapChain.cpp:384-389 | `max(lo, min(hi, v))`: never below lo, at most hi when lo <= hi, v when within bounds, and lo wins when lo > hi |
| SwapChainRules.ChooseSwapExtent | Solarium/Engine/SwapChain.cpp:378-393 | the current extent unchanged unless its width is UINT32_MAX; then each window dimension clamped to the surface's limits |
| SwapChainRules.RequestedImageCount | Solarium/Engine/SwapChain.cpp:115-120 | minImageCount + 1 in uint32_t arithmetic, capped at maxImageCount only when maxImageCount > 0; wraps to 0 for minImageCount = UINT32_MAX |
| SwapChainRules.RequestedImageCountWithinLimits | Solarium/Engine/SwapChain.cpp:115-120 | for capabilities the Vulkan specification allows, the request lies between minImageCount and maxImageCount |
| SwapChainRules.ChooseSharing | Solarium/Engine/SwapChain.cpp:136-145 | Concurrent with index count 2 and [graphics, present] iff the families differ; Exclusive with count 0 and no indices iff they are equal |
| SwapChainRules.SwapchainCreateInfoFor | Solarium/Engine/SwapChain.cpp:122-153 | the format/colour-space pair is an offered one; present mode Mailbox or Fifo; one layer, colour-attachment usage, the current transform, opaque alpha, clipped, no old swapchain |
| SwapChain.SubmitsAreFencedAppend | Solarium/Engine/SwapChain.cpp:86-100 | two logs in which every submit follows the reset of its fence and precedes a present waiting on its signal semaphore concatenate into such a log |
| SwapChain.FrameEventsAreFenced | Solarium/Engine/SwapChain.cpp:59-100 | the calls of acquireNextImage and of submitCommandBuffers each keep that discipline |
| SwapChain.AcquireKeepsFenced | Solarium/Engine/SwapChain.cpp:61-62 | appending the wait and the acquire to a disciplined log gives the log extended by AcquireEvents, still disciplined |
| SwapChain.SubmitKeepsFenced | Solarium/Engine/SwapChain.cpp:67-100 | appending the optional image wait, reset, submit and present gives the log extended by SubmitEvents, still disciplined |
| SwapChain.AcquireThenSubmit | Solarium/Engine/SwapChain.cpp:59-100 | in one acquire/submit pair the frame's fence is waited on first and not reset before the reset just ahead of the submit that signals it; the submit waits on the semaphore the acquire signals; the pair ends in a present that waits on the render-finished semaphore |
| SwapChain.NextFrame | Solarium/Engine/SwapChain.cpp:102 | the advanced frame index is below MAX_FRAMES_IN_FLIGHT |
| SwapChain.FrameAfterCycles | Solarium/Engine/SwapChain.cpp:102 | starting from frame 0, after n submits currentFrame is n mod MAX_FRAMES_IN_FLIGHT |
| SwapChain.FindDepthFormat | Solarium/Engine/SwapChain.cpp:395-400 | the first of D32Sfloat, D32SfloatS8Uint, D24UnormS8Uint, in that order, that supports depth-stencil attachment with optimal tiling; Ok iff one does; else the findSupportedFormat error |
| SwapChain.CreateSwapChain | Solarium/Engine/SwapChain.cpp:107-170 | the create info is the negotiated one; a fresh handle is recorded as a swapchain with it; format and extent are taken from it |
| SwapChain.CreateImageViews | Solarium/Engine/SwapChain.cpp:173-191 | one new view per image, in order, each a colour view of that image in the swapchain format; earlier objects kept |
| SwapChain.CreateRenderPass | Solarium/Engine/SwapChain.cpp:248 | a fresh handle recorded as a render pass; earlier objects kept |
| SwapChain.CreateDepthResources | Solarium/Engine/SwapChain.cpp:278-322 | per image, a depth-stencil image of the swapchain extent, its device-local memory and a new depth view of it; the three tables have imageCount entries |
| SwapChain.CreateFramebuffers | Solarium/Engine/SwapChain.cpp:254-276 | per image, a framebuffer of the render pass joining that image's view and depth view, at the extent's width and height, one layer |
| SwapChain.NewFrameSyncObjects | Solarium/Engine/SwapChain.cpp:335-337 | two semaphores and a fence with the requested signalled state, on three consecutive new ids |
| SwapChain.CreateSyncObjects | Solarium/Engine/SwapChain.cpp:324-343 | MAX_FRAMES_IN_FLIGHT image-available semaphores, render-finished semaphores and fences, the fences created signalled, all of them distinct; imagesInFlight with one null entry per image |
| SwapChain.SwapChain.ImageCount | Solarium/Engine/SwapChain.hpp:29 | the number of swapchain images, which every per-image table matches |
| SwapChain.SwapChain.Width | Solarium/Engine/SwapChain.hpp:32 | the extent's width, which every framebuffer has |
| SwapChain.SwapChain.Height | Solarium/Engine/SwapChain.hpp:33 | the extent's height, which every framebuffer has |
| SwapChain.SwapChain.constructor | Solarium/Engine/SwapChain.cpp:14-23 | the stored create info is the negotiated one, and the image format and extent are its chosen surface format and extent (so width() and height() are the chosen extent's); the swapchain and render pass exist; each image has a colour view of that format, and a depth image of the extent with device-local memory and a depth view; the class invariant holds: every per-image table has one entry per image and every per-frame table MAX_FRAMES_IN_FLIGHT, the framebuffers join the views; imagesInFlight is all null; the fences exist signalled; the semaphores and fences are all distinct; currentFrame is 0 and nothing has been waited on or submitted |
| SwapChain.SwapChain.AcquireNextImage | Solarium/Engine/SwapChain.cpp:59-64 | appends the wait on inFlightFences[currentFrame] and an acquire signalling imageAvailableSemaphores[currentFrame]; currentFrame and imagesInFlight unchanged; the driver's result returned |
| SwapChain.SwapChain.SubmitCommandBuffers | Solarium/Engine/SwapChain.cpp:65-105 | waits on the image's recorded fence if there is one, then sets only that entry of imagesInFlight to the current frame's fence; resets the fence, submits and presents with the current frame's objects; when present reports success or suboptimal, returns it and currentFrame becomes (currentFrame + 1) mod 2; for any other result, the error vulkan-hpp throws, with currentFrame unchanged; every entry stays a frame fence |
| SwapChain.SwapChain.SetCurrentFrame | Solarium/Engine/SwapChain.hpp:61 | stores its argument, unchecked |
| SwapChain.SwapChain.SetImageInFlight | Solarium/Engine/SwapChain.hpp:62 | overwrites entry `index` and no other (the index must be in range); storing a frame fence or null keeps every entry a frame fence |
| Device.VisitQueueFamily | Solarium/Engine/Device.cpp:342-352 | a family with queues and the graphics bit (resp. present support) becomes that role's index and sets its flag, overwriting an earlier match; otherwise the role is left as it was |
| Device.ScanQueueFamilies | Solarium/Engine/Device.cpp:339-359 | a role once found stays found; a role's index is either the one it started with or a later family that has that role, and so is every role newly found |
| Device.FindQueueFamilies | Solarium/Engine/Device.cpp:333-362 | the loop with its break computes the scan that stops after the first family at which both roles are known |
| Device.VisitAllFacts | Solarium/Engine/Device.cpp:339-359 | without stopping, a role is known iff some family so far has it, and its index is the last such family |
| Device.ScanIsVisitAll | Solarium/Engine/Device.cpp:353-356 | the scan ends at the first prefix after which both roles are known, or at the end |
| Device.QueueFamiliesFound | Solarium/Engine/Device.cpp:339-359 | a role is found iff some family has queueCount > 0 and the graphics bit (resp. present support), and the recorded index has it |
| Device.QueueFamiliesStopEarly | Solarium/Engine/Device.cpp:353-356 | when complete, the scan stopped at the larger of the two indices; before it one role was still missing; each index is the last matching family up to there |
| Device.CheckDeviceExtensionSupport | Solarium/Engine/Device.cpp:319-331 | after erasing every available name from the required set, the result holds iff every required extension is available |
| Device.CheckValidationLayerSupport | Solarium/Engine/Device.cpp:253-277 | true iff every requested layer equals some available layer's name |
| Device.IsDeviceSuitable | Solarium/Engine/Device.cpp:208-225 | a suitable device's recorded graphics and present families are real families with that role |
| Device.SuitableDeviceMeans | Solarium/Engine/Device.cpp:208-225 | suitable iff there are graphics and present families, every required extension, a surface format, a present mode, and anisotropic sampling |
| Device.PickPhysicalDevice | Solarium/Engine/Device.cpp:116-136 | the GPU-less error for an empty list; otherwise Ok iff some device is suitable, and then the first suitable one; the no-suitable-GPU error otherwise |
| Device.UniqueQueueFamilies | Solarium/Engine/Device.cpp:147 | the set {graphics, present} in ascending order without repeats |
| Device.QueueCreateInfos | Solarium/Engine/Device.cpp:146-157 | one queue-create entry with one queue per distinct family: 1 entry when graphics = present, else 2, covering both, ascending |
| Device.FindSupportedFormat | Solarium/Engine/Device.cpp:374-393 | Ok iff some candidate's feature set for the tiling contains the features, and then the first such; the error message otherwise; always an error for another tiling |
| Device.FindMemoryType | Solarium/Engine/Device.cpp:395-408 | the least suitable index when there is one, else "failed to find suitable memory type!" |
| MemoryTypes.FirstMemoryTypeFrom | Solarium/Engine/Device.cpp:398-405 | the first index from `from` whose filter bit is set and whose property flags contain the request; None iff there is none |
| MemoryTypes.MemoryTypeIndexIsLeast | Solarium/Engine/BufferHelper.cpp:45-50 | a suitable index with no suitable index below it is the one the search returns |
| BufferHelper.FindMemoryType | Solarium/Engine/BufferHelper.cpp:41-53 | a result is below memoryTypeCount, has its filter bit set, contains the properties and is the least such; an error iff no index qualifies; the same index as Device::findMemoryType |
| BufferHelper.CreateBuffer | Solarium/Engine/BufferHelper.cpp:5-39 | fails only on a null buffer or a missing memory type, with their messages; otherwise an exclusive buffer of the size and usage, memory of the required size in the least suitable type, bound at offset 0 |
| Texture.TransitionImageLayout | Solarium/Engine/Texture.cpp:99-127 | Undefined to TransferDst: none to TransferWrite, TopOfPipe to Transfer; TransferDst to ShaderReadOnly: TransferWrite to ShaderRead, Transfer to FragmentShader; both layouts kept, queue families IGNORED, colour mip 0 layer 0; every other pair is "Invalid layout transition" |
| Texture.StagingSize | Solarium/Engine/Texture.cpp:52 | texWidth * texHeight * 4: four bytes per pixel, positive |
| Texture.LayoutAfterAppend | Solarium/Engine/Texture.cpp:66-72 | running two step sequences one after the other threads the image layout through them |
| Texture.LayoutChangesAppend | Solarium/Engine/Texture.cpp:66-72 | the transitions of two concatenated step sequences are those of the first followed by those of the second |
| Texture.AppendStep | Solarium/Engine/Texture.cpp:66-72 | the effect of one more step on the layout and on the transition list |
| Texture.CreateImage | Solarium/Engine/Texture.cpp:29-44 | "Failed to find suitable memory type" when no memory type has the requested properties, "Failed to allocate image memory" for a null memory handle, success otherwise; then an exclusive image of the size, format, tiling and usage, with memory of the required size in the least suitable type, bound at offset 0 |
| Texture.UploadSteps | Solarium/Engine/Texture.cpp:59-72 | staging buffer first, image second; the transitions are exactly Undefined to TransferDst then to ShaderReadOnly, all on textureImage; the staging buffer is copied into textureImage at a point where the image is in TransferDst; the image ends in ShaderReadOnlyOptimal; the last step destroys the staging buffer and its memory |
| Texture.CreateTextureImage | Solarium/Engine/Texture.cpp:46-73 | errors for a failed load, a null staging buffer, a missing host-visible/coherent staging memory type, a missing device-local image memory type or a null image memory, each with its message, and succeeds otherwise; the staging buffer holds texWidth * texHeight * 4 bytes for transfer; the image is R8G8B8A8 sRGB, optimal tiling, transfer-destination and sampled, in the least device-local memory type; the transitions are exactly Undefined to TransferDst then to ShaderReadOnly, all on the texture image, which receives the staging buffer in TransferDst and ends in ShaderReadOnlyOptimal; the staging buffer is destroyed last |
| Paths.LastIndexOf | Solarium/Engine/ShaderHelper.cpp:78-84 | the last position of the character, and none after it; -1 when absent |
| Paths.FileNameStart | Solarium/Engine/ShaderHelper.cpp:78-84 | the filename starts right after the last separator and holds none |
| Paths.FileNameFacts | Solarium/Engine/ShaderHelper.cpp:80-84 | filename() is a separator-free suffix of the path |
| Paths.TrimTrailingSeparatorsFacts | Solarium/Engine/ShaderHelper.cpp:80-84 | trimming keeps a prefix not ending in a separator and removes only separators |
| Paths.ParentPathFacts | Solarium/Engine/ShaderHelper.cpp:80-84 | parent_path() is empty exactly for a bare name, otherwise "/" or not ending in a separator |
| Paths.FileNameExtensionFacts | Solarium/Engine/ShaderHelper.cpp:78 | a filename's extension is a suffix starting at its last '.', which is not its first character |
| Paths.ExtensionFacts | Solarium/Engine/ShaderHelper.cpp:78 | extension() is a suffix of filename() starting with '.' and holding no other '.' |
| Paths.StemFacts | Solarium/Engine/ShaderHelper.cpp:80-84 | stem() + extension() == filename(); the stem has no separator, and is non-empty when there is an extension |
| Paths.FileNameAfterSeparator | Solarium/Engine/ShaderHelper.cpp:80-84 | the filename of `dir/file` is `file`, preceded by `dir/` |
| Paths.ExtensionAfterName | Solarium/Engine/ShaderHelper.cpp:78 | a name followed by an extension it does not swallow has that extension |
| Paths.NoSeparatorInFileName | Solarium/Engine/ShaderHelper.cpp:80-84 | a separator-free name plus an extension has no separator |
| Paths.PathParts | Solarium/Engine/ShaderHelper.cpp:80-84 | filename, extension, stem and parent of `dir/name.ext` |
| Paths.ParentOfParent | Solarium/Engine/ShaderHelper.cpp:80-84 | a non-empty parent path is the parent of a file placed in it |
| Paths.BareFileName | Solarium/Engine/ShaderHelper.cpp:80-84 | a separator-free path is its own filename with the empty parent |
| ShaderHelper.GetSiblingShaderPath | Solarium/Engine/ShaderHelper.cpp:76-86 | the sibling path ends in ".vert" for a .frag file and in ".frag" for every other path |
| ShaderHelper.SiblingOfPath | Solarium/Engine/ShaderHelper.cpp:76-86 | the sibling of `dir/name.frag` is `dir/name.vert`; of `dir/name.ext` for any other extension, empty included, `dir/name.frag` |
| ShaderHelper.SiblingSwapsShaderKind | Solarium/Engine/ShaderHelper.cpp:76-86 | for a .vert or .frag file the sibling has the other shader extension and the same stem, and the same parent unless the parent was empty |
| ShaderHelper.SiblingRoundTrip | Solarium/Engine/ShaderHelper.cpp:76-86 | for `dir/name.vert` and `dir/name.frag` with a non-empty directory, the sibling of the sibling is the path itself |
| ShaderHelper.BareNameSibling | Solarium/Engine/ShaderHelper.cpp:80-84 | a bare `name.ext` has the empty parent, so its sibling is `/name.other`, in the root directory |
| ShaderHelper.BareExtension | Solarium/Engine/ShaderHelper.cpp:78 | a bare shader file name is its own filename, with the shader extension |
| ShaderHelper.StemBeforeExtension | Solarium/Engine/ShaderHelper.cpp:80-84 | the stem of a bare `name.ext` is `name` |
| ShaderHelper.VisitEntry | Solarium/Engine/ShaderHelper.cpp:94-101 | one listed path extends out and ignoredShaders together by at most one entry, keeping what was there; it adds one exactly when the path is a .vert or .frag file with an existing sibling whose stem is not yet recorded |
| ShaderHelper.ScanShaders | Solarium/Engine/ShaderHelper.cpp:92-104 | out and ignoredShaders have the same length, at most the number of listed paths |
| ShaderHelper.GetShaderPaths | Solarium/Engine/ShaderHelper.cpp:88-105 | the loop over the listing builds exactly the scan ScanShaders describes |
| ShaderHelper.ScanShadersStems | Solarium/Engine/ShaderHelper.cpp:94-101 | ignoredShaders grows by one exactly when a set is pushed, and no stem is recorded twice |
| ShaderHelper.ScanShadersSources | Solarium/Engine/ShaderHelper.cpp:92-102 | each pushed set is the pair of a listed file with an existing sibling, whose stem is recorded at the same position |
| ShaderHelper.PairForIsShaderPair | Solarium/Engine/ShaderHelper.cpp:94-100 | the set built for a listed .vert or .frag file with an existing sibling is a vertex/fragment pair with the file's stem |
| ShaderHelper.ScanShadersPairs | Solarium/Engine/ShaderHelper.cpp:94-101 | every emitted set is a .vert/.frag pair, one listed and one existing, with the stem at the same position of ignoredShaders; no stem twice |
| ShaderHelper.ScanShadersPrefix | Solarium/Engine/ShaderHelper.cpp:92-104 | the output after a prefix of the listing is a prefix of the final output, so it follows listing order |
| ShaderHelper.ScanShadersComplete | Solarium/Engine/ShaderHelper.cpp:94-101 | the stem of every listed shader file with an existing sibling ends up recorded, so a later file with that stem in any directory adds nothing |
| ShaderHelper.ScanShadersBound | Solarium/Engine/ShaderHelper.cpp:92-104 | at most one set per listed .vert or .frag file |
| ShaderHelper.ShaderSetAsWritten | Solarium/Engine/ShaderHelper.cpp:96-100 | `ShaderSet((a, b))` as written: the comma expression yields b, which becomes the vertex field, and the fragment field is empty |
| ShaderHelper.ShaderSetAsWrittenMisnamesPaths | Solarium/Engine/ShaderHelper.cpp:96-100 | as written, the set built for `dir/name.vert` holds `dir/name.frag` as its vertex shader and nothing else, and neither branch builds the pair its fields name |

## Left out

- Instance, surface, debug-messenger, window and logical-device creation
  beyond the queue-create entries: these are calls into Vulkan and GLFW with
  no logic of their own.
- GPU work is recorded, not executed: waits, acquire, reset, submit and
  present become entries of an event log. Command recording, the
  single-time command helpers, the staging copy, `mapMemory`/`memcpy` and
  `waitIdle` are not modelled. So the command buffer that transitionImageLayout
  has already begun when it throws "Invalid layout transition" is not
  modelled either.
- Handles come from a counter and are never null. vulkan-hpp throws from a
  failed create call, so the `if (!handle)` checks after the SwapChain
  creation calls are not modelled. `createImageWithInfo` failure is not
  modelled either.
- SwapChain.CreateRenderPass: the attachment, subpass and dependency
  descriptions of the render pass are not modelled; only the new handle is.
- SwapChain.SwapChain.constructor: each create step returns what it
  creates, and the constructor stores all of it in the fields at the end.
  The order in which the source's steps write the fields is not
  modelled.
- SwapChain.SwapChain.constructor: the depth format is an input. Its choice is
  FindDepthFormat, which the source calls from both createRenderPass and
  createDepthResources.
- The surface queries, `getSwapchainImagesKHR` and `acquireNextImageKHR` are
  inputs; their results are passed through unchanged. The result of
  `presentKHR` is an input too: the vulkan-hpp overload that submitCommandBuffers
  calls throws for any result other than success or suboptimal, which the
  model returns as an error before currentFrame advances.
- SwapChain.SwapChain.AcquireNextImage: requires `currentFrame <
  MAX_FRAMES_IN_FLIGHT`, as indexing the per-frame vectors needs.
  `setCurrentFrame` can store any value, so the class invariant does not
  bound `currentFrame`.
- `imagesInFlight` is a sequence field that the methods reassign with one
  entry changed, not a vector updated in place.
- The SwapChain destructor and every destroy/free call are not modelled.
- The remaining one-line getters of SwapChain.hpp return a field and are not
  modelled. `extentAspectRatio` is floating point.
- The float queue priority of createLogicalDevice is not modelled.
- `getQueue`, `querySwapChainSupport` and `findPhysicalQueueFamilies` are not
  modelled: their results are inputs.
- Device::createBuffer is outside the modelled core; BufferHelper's copy
  is modelled.
- Solarium/Engine/Device.hpp is not part of this model. QueueFamilyIndices
  is a family index and a has-value flag per role, and `isComplete()` means
  both flags are set, as findQueueFamilies uses it.
- Texture.CreateTextureImage: requires that the decoded image's byte size
  fits in an int, which stbi_load ensures. The int overflow of
  `texWidth * texHeight * 4` is not modelled.
- Texture.CreateTextureImage: the source computes `imageSize` before testing
  the load result (from uninitialised dimensions if the load failed). The
  model computes it only for a loaded image.
- Texture.CreateImage: the source writes the members `textureImage` and
  `textureImageMemory` instead of its out-parameters. Its only caller passes
  those members as the out-parameters, so the model returns the created image
  and memory in the result.
- BufferHelper.CreateBuffer: in the source the out-parameter buffer is already
  created when findMemoryType throws, and it is never destroyed; the model's
  error result does not record that leaked buffer. The same holds for the image
  of Texture.CreateImage.
- The shader compilation (`compileShaders`, shaderc), `readFile` and
  `stbi_load` are file and compiler I/O. They are not modelled.
- The directory walk of `recursive_directory_iterator` is an input sequence,
  and `std::filesystem::exists` is membership in an input set.
- Paths: only POSIX paths with '/' are modelled. Root names, `.`/`..`
  normalisation and other platforms' separators are not.
- The `std::cout` output of chooseSwapPresentMode and pickPhysicalDevice is
  not modelled.

## Findings

| source | as written | input that shows it | evidently intended | confidence | as-written member | corrected member |
|---|---|---|---|---|---|---|
| Solarium/Engine/ShaderHelper.cpp:96-100 | `ShaderSet((a, b))`: the inner parentheses form one comma expression whose value is `b`, so the set holds `b` as its vertex shader and an empty fragment shader; the call compiles only as C++20 parenthesised aggregate initialisation and is ill-formed in C++17 | listing `shaders/tri.vert` with `shaders/tri.frag` existing yields ShaderSet("shaders/tri.frag", "") | ShaderSet(vertex path, fragment path), as the fields vertexShaderLoc and fragmentShaderLoc name them | not executed | ShaderHelper.ShaderSetAsWritten, ShaderHelper.ShaderSetAsWrittenMisnamesPaths | ShaderHelper.GetShaderPaths, ShaderHelper.ScanShadersPairs |
