/** Texture: the image-layout transition table and the fixed sequence of
    steps that uploads the texture through a staging buffer. Command
    recording and submission are not executed; each transition is returned
    as the barrier and the two stage masks it would record. */
module Texture {
  import opened Wrappers
  import opened Vulkan
  import opened MemoryTypes
  import BufferHelper

  /** VkImageSubresourceRange */
  datatype ImageSubresourceRange = ImageSubresourceRange(
    aspectMask: Flags, baseMipLevel: U32, levelCount: U32, baseArrayLayer: U32, layerCount: U32)

  /** The single colour mip level and array layer every transition covers. */
  const ColorSubresource: ImageSubresourceRange := ImageSubresourceRange(ImageAspectColor, 0, 1, 0, 1)

  /** VkImageMemoryBarrier, without its chaining pointer. */
  datatype ImageMemoryBarrier = ImageMemoryBarrier(
    srcAccessMask: Flags,
    dstAccessMask: Flags,
    oldLayout: ImageLayout,
    newLayout: ImageLayout,
    srcQueueFamilyIndex: U32,
    dstQueueFamilyIndex: U32,
    image: Handle,
    subresourceRange: ImageSubresourceRange)

  /** The arguments transitionImageLayout passes to pipelineBarrier. */
  datatype LayoutTransition = LayoutTransition(sourceStage: Flags, destinationStage: Flags, barrier: ImageMemoryBarrier)

  /** The two layout changes the table accepts. */
  predicate IsSupportedTransition(oldLayout: ImageLayout, newLayout: ImageLayout)
  {
    (oldLayout == ImageLayoutUndefined && newLayout == ImageLayoutTransferDstOptimal) ||
    (oldLayout == ImageLayoutTransferDstOptimal && newLayout == ImageLayoutShaderReadOnlyOptimal)
  }

  /** transitionImageLayout: the barrier starts with both layouts, no queue
      family transfer and the colour subresource; the table then fills in
      the access masks and stages, or throws for any other pair. */
  method TransitionImageLayout(image: Handle, format: Format, oldLayout: ImageLayout, newLayout: ImageLayout)
    returns (r: Result<LayoutTransition>)
    ensures r.Ok? <==> IsSupportedTransition(oldLayout, newLayout)
    ensures r.Err? ==> r.msg == "Invalid layout transition"
    ensures r.Ok? ==>
              r.value.barrier.oldLayout == oldLayout && r.value.barrier.newLayout == newLayout &&
              r.value.barrier.srcQueueFamilyIndex == QueueFamilyIgnored &&
              r.value.barrier.dstQueueFamilyIndex == QueueFamilyIgnored &&
              r.value.barrier.image == image && r.value.barrier.subresourceRange == ColorSubresource
    ensures oldLayout == ImageLayoutUndefined && newLayout == ImageLayoutTransferDstOptimal ==>
              r.Ok? &&
              r.value.barrier.srcAccessMask == AccessNone && r.value.barrier.dstAccessMask == AccessTransferWrite &&
              r.value.sourceStage == PipelineStageTopOfPipe && r.value.destinationStage == PipelineStageTransfer
    ensures oldLayout == ImageLayoutTransferDstOptimal && newLayout == ImageLayoutShaderReadOnlyOptimal ==>
              r.Ok? &&
              r.value.barrier.srcAccessMask == AccessTransferWrite && r.value.barrier.dstAccessMask == AccessShaderRead &&
              r.value.sourceStage == PipelineStageTransfer && r.value.destinationStage == PipelineStageFragmentShader
  {
    var barrier := ImageMemoryBarrier(0, 0, oldLayout, newLayout, QueueFamilyIgnored, QueueFamilyIgnored, image, ColorSubresource);
    var sourceStage: Flags;
    var destinationStage: Flags;
    if oldLayout == ImageLayoutUndefined && newLayout == ImageLayoutTransferDstOptimal {
      barrier := barrier.(srcAccessMask := AccessNone);
      barrier := barrier.(dstAccessMask := AccessTransferWrite);
      sourceStage := PipelineStageTopOfPipe;
      destinationStage := PipelineStageTransfer;
    } else if oldLayout == ImageLayoutTransferDstOptimal && newLayout == ImageLayoutShaderReadOnlyOptimal {
      barrier := barrier.(srcAccessMask := AccessTransferWrite);
      barrier := barrier.(dstAccessMask := AccessShaderRead);
      sourceStage := PipelineStageTransfer;
      destinationStage := PipelineStageFragmentShader;
    } else {
      return Err("Invalid layout transition");
    }
    r := Ok(LayoutTransition(sourceStage, destinationStage, barrier));
  }

  /** The dimensions stbi_load reports for a decoded image. stbi_load
      refuses an image whose 4-channel size does not fit in an int, so a
      loaded image satisfies it. */
  datatype LoadedImage = LoadedImage(texWidth: int, texHeight: int)

  predicate IsLoadable(image: LoadedImage)
  {
    0 < image.texWidth && 0 < image.texHeight && image.texWidth * image.texHeight * 4 <= IntMax
  }

  /** `texWidth * texHeight * 4`: four bytes per pixel (RGBA, one byte per
      channel, as STBI_rgb_alpha decodes). */
  function StagingSize(image: LoadedImage): (r: U64)
    requires IsLoadable(image)
    ensures r == image.texWidth * image.texHeight * 4
    ensures r % 4 == 0 && r / 4 == image.texWidth * image.texHeight
    ensures r > 0
  {
    image.texWidth * image.texHeight * 4
  }

  /** VkImageCreateInfo as createImage fills it: a 2D image of depth 1,
      one mip level, one array layer, one sample per pixel. */
  datatype ImageCreateInfo = ImageCreateInfo(
    width: U32, height: U32, format: Format, tiling: ImageTiling, usage: Flags, sharingMode: SharingMode)

  /** What createImage leaves behind: the image, its create info, the
      memory allocated for it, the allocate info used and the offset it
      binds at. */
  datatype ImageAllocation = ImageAllocation(
    image: Handle,
    imageInfo: ImageCreateInfo,
    imageMemory: Handle,
    allocInfo: BufferHelper.MemoryAllocateInfo,
    bindOffset: nat)

  /** Texture::createImage. `createdImage` is what createImage(imageInfo)
      returned (vulkan-hpp throws instead of returning a null image),
      `memRequirements` what getImageMemoryRequirements reports for it, and
      `allocatedMemory` what allocateMemory returned. The memory type is
      BufferHelper's search for the requested properties; a missing type
      and a null memory handle both throw. */
  method CreateImage(width: U32, height: U32, format: Format, tiling: ImageTiling, usage: Flags, properties: Flags,
                     createdImage: Handle, memRequirements: BufferHelper.MemoryRequirements, memoryTypes: seq<Flags>,
                     allocatedMemory: Handle) returns (r: Result<ImageAllocation>)
    requires |memoryTypes| <= MaxMemoryTypes
    ensures MemoryTypeIndex(memRequirements.memoryTypeBits, properties, memoryTypes).None? ==>
              r == Err("Failed to find suitable memory type")
    ensures MemoryTypeIndex(memRequirements.memoryTypeBits, properties, memoryTypes).Some? && allocatedMemory == NullHandle ==>
              r == Err("Failed to allocate image memory")
    ensures r.Ok? <==> MemoryTypeIndex(memRequirements.memoryTypeBits, properties, memoryTypes).Some? &&
                       allocatedMemory != NullHandle
    ensures r.Ok? ==>
              r.value == ImageAllocation(
                createdImage,
                ImageCreateInfo(width, height, format, tiling, usage, SharingModeExclusive),
                allocatedMemory,
                BufferHelper.MemoryAllocateInfo(memRequirements.size,
                                                MemoryTypeIndex(memRequirements.memoryTypeBits, properties, memoryTypes).value),
                0)
  {
    var imageInfo := ImageCreateInfo(width, height, format, tiling, usage, SharingModeExclusive);
    var image := createdImage;
    var memoryTypeIndex := BufferHelper.FindMemoryType(memRequirements.memoryTypeBits, properties, memoryTypes);
    if memoryTypeIndex.Err? {
      return Err(memoryTypeIndex.msg);
    }
    var allocInfo := BufferHelper.MemoryAllocateInfo(memRequirements.size, memoryTypeIndex.value);
    var imageMemory := allocatedMemory;
    if imageMemory == NullHandle {
      return Err("Failed to allocate image memory");
    }
    r := Ok(ImageAllocation(image, imageInfo, imageMemory, allocInfo, 0));
  }

  /** One step of createTextureImage, in the order it issues them. */
  datatype TextureStep =
    | CreateStagingBuffer(allocation: BufferHelper.BufferAllocation)
    | CreateTextureStorage(storage: ImageAllocation)
    | Transition(transition: LayoutTransition)
    | CopyBufferToImage(buffer: Handle, image: Handle, dstImageLayout: ImageLayout, width: U32, height: U32)
    | DestroyStagingBuffer(buffer: Handle, memory: Handle)

  /** The layout the texture image is in after `steps`, starting in
      `layout`, or None if some step expects the image in another layout
      than the one it is in. */
  function LayoutAfter(steps: seq<TextureStep>, layout: ImageLayout): Option<ImageLayout>
  {
    if |steps| == 0 then Some(layout)
    else
      match steps[0]
      case Transition(t) =>
        if t.barrier.oldLayout == layout then LayoutAfter(steps[1..], t.barrier.newLayout) else None
      case CopyBufferToImage(_, _, dstImageLayout, _, _) =>
        if dstImageLayout == layout then LayoutAfter(steps[1..], layout) else None
      case _ => LayoutAfter(steps[1..], layout)
  }

  /** The layout changes, in order, of the transitions among `steps`. */
  function LayoutChanges(steps: seq<TextureStep>): seq<(ImageLayout, ImageLayout)>
  {
    if |steps| == 0 then []
    else if steps[0].Transition? then
      [(steps[0].transition.barrier.oldLayout, steps[0].transition.barrier.newLayout)] + LayoutChanges(steps[1..])
    else LayoutChanges(steps[1..])
  }

  /** Running two step sequences one after the other threads the layout
      through: the second starts in the layout the first ends in. */
  lemma {:induction false} LayoutAfterAppend(first: seq<TextureStep>, second: seq<TextureStep>, layout: ImageLayout)
    ensures LayoutAfter(first + second, layout) ==
            if LayoutAfter(first, layout).Some? then LayoutAfter(second, LayoutAfter(first, layout).value) else None
  {
    if |first| > 0 {
      assert (first + second)[1..] == first[1..] + second;
      match first[0]
      case Transition(t) =>
        LayoutAfterAppend(first[1..], second, t.barrier.newLayout);
      case CopyBufferToImage(_, _, _, _, _) =>
        LayoutAfterAppend(first[1..], second, layout);
      case _ =>
        LayoutAfterAppend(first[1..], second, layout);
    } else {
      assert first + second == second;
    }
  }

  /** The transitions of two step sequences run one after the other are
      those of the first followed by those of the second. */
  lemma {:induction false} LayoutChangesAppend(first: seq<TextureStep>, second: seq<TextureStep>)
    ensures LayoutChanges(first + second) == LayoutChanges(first) + LayoutChanges(second)
  {
    if |first| > 0 {
      assert (first + second)[1..] == first[1..] + second;
      LayoutChangesAppend(first[1..], second);
    } else {
      assert first + second == second;
    }
  }

  /** Appending one step: its effect on the layout and on the list of
      transitions. */
  lemma AppendStep(steps: seq<TextureStep>, step: TextureStep, layout: ImageLayout)
    ensures LayoutAfter(steps + [step], layout) ==
            if LayoutAfter(steps, layout).Some? then LayoutAfter([step], LayoutAfter(steps, layout).value) else None
    ensures LayoutChanges(steps + [step]) == LayoutChanges(steps) + LayoutChanges([step])
  {
    LayoutAfterAppend(steps, [step], layout);
    LayoutChangesAppend(steps, [step]);
  }

  /** The steps createTextureImage issues once the staging buffer and the
      image exist: the image goes Undefined -> TransferDstOptimal by the
      first table entry, receives the staging buffer's contents in that
      layout, goes on to ShaderReadOnlyOptimal by the second entry, and the
      staging buffer is destroyed. */
  /** The upload of createTextureImage: every transition acts on
      `textureImage`; the staging buffer is copied into it at a step the
      image reaches in TransferDstOptimal, after the staging buffer and the
      image are created; and the last step destroys the staging buffer. */
  predicate CopiesStagingInto(steps: seq<TextureStep>, staging: BufferHelper.BufferAllocation, textureImage: Handle,
                              texWidth: U32, texHeight: U32)
  {
    |steps| > 1 &&
    (forall k :: 0 <= k < |steps| && steps[k].Transition? ==> steps[k].transition.barrier.image == textureImage) &&
    (exists k :: 2 <= k < |steps| - 1 &&
       steps[k] == CopyBufferToImage(staging.buffer, textureImage, ImageLayoutTransferDstOptimal, texWidth, texHeight) &&
       LayoutAfter(steps[..k], ImageLayoutUndefined) == Some(ImageLayoutTransferDstOptimal)) &&
    steps[|steps| - 1] == DestroyStagingBuffer(staging.buffer, staging.bufferMemory)
  }

  method UploadSteps(staging: BufferHelper.BufferAllocation, storage: ImageAllocation, textureImage: Handle,
                     texWidth: U32, texHeight: U32) returns (steps: seq<TextureStep>)
    ensures |steps| > 1 && steps[0] == CreateStagingBuffer(staging) && steps[1] == CreateTextureStorage(storage)
    ensures LayoutChanges(steps) == [(ImageLayoutUndefined, ImageLayoutTransferDstOptimal), (ImageLayoutTransferDstOptimal, ImageLayoutShaderReadOnlyOptimal)]
    ensures LayoutAfter(steps, ImageLayoutUndefined) == Some(ImageLayoutShaderReadOnlyOptimal)
    ensures CopiesStagingInto(steps, staging, textureImage, texWidth, texHeight)
  {
    steps := [CreateStagingBuffer(staging)];
    AppendStep(steps, CreateTextureStorage(storage), ImageLayoutUndefined);
    steps := steps + [CreateTextureStorage(storage)];
    var toTransfer := TransitionImageLayout(textureImage, FormatR8G8B8A8Srgb, ImageLayoutUndefined, ImageLayoutTransferDstOptimal);
    AppendStep(steps, Transition(toTransfer.value), ImageLayoutUndefined);
    steps := steps + [Transition(toTransfer.value)];
    var copy := CopyBufferToImage(staging.buffer, textureImage, ImageLayoutTransferDstOptimal, texWidth, texHeight);
    AppendStep(steps, copy, ImageLayoutUndefined);
    ghost var beforeCopy := steps;
    steps := steps + [copy];
    var toShader := TransitionImageLayout(textureImage, FormatR8G8B8A8Srgb, ImageLayoutTransferDstOptimal, ImageLayoutShaderReadOnlyOptimal);
    AppendStep(steps, Transition(toShader.value), ImageLayoutUndefined);
    steps := steps + [Transition(toShader.value)];
    var destroy := DestroyStagingBuffer(staging.buffer, staging.bufferMemory);
    AppendStep(steps, destroy, ImageLayoutUndefined);
    steps := steps + [destroy];
    assert steps[..3] == beforeCopy && steps[3] == copy;
  }

  /** The device-local memory type createImage picks for the texture. */
  function TextureMemoryType(imageRequirements: BufferHelper.MemoryRequirements, memoryTypes: seq<Flags>): Option<nat>
    requires |memoryTypes| <= MaxMemoryTypes
  {
    MemoryTypeIndex(imageRequirements.memoryTypeBits, MemoryPropertyDeviceLocal, memoryTypes)
  }

  /** The host-visible, host-coherent memory type createBuffer picks for
      the staging buffer. */
  function StagingMemoryType(stagingRequirements: BufferHelper.MemoryRequirements, memoryTypes: seq<Flags>): Option<nat>
    requires |memoryTypes| <= MaxMemoryTypes
  {
    MemoryTypeIndex(stagingRequirements.memoryTypeBits, MemoryPropertyHostVisible | MemoryPropertyHostCoherent, memoryTypes)
  }

  /** createTextureImage. `loaded` is what stbi_load decoded (None for a
      failed load); the staging buffer's handle, memory requirements and
      memory, and the texture image's handle, memory requirements and
      memory come from the driver; `memoryTypes` lists the device's memory
      types. It throws when the load fails, when either createBuffer or
      createImage throws, and succeeds otherwise. On success the staging
      buffer holds texWidth * texHeight * 4 bytes, the image is an
      R8G8B8A8 sRGB optimal-tiling image in device-local memory, it goes
      Undefined -> TransferDstOptimal -> ShaderReadOnlyOptimal by the two
      table entries, and the copy happens while it is in
      TransferDstOptimal. */
  method CreateTextureImage(loaded: Option<LoadedImage>,
                            stagingBuffer: Handle, stagingRequirements: BufferHelper.MemoryRequirements,
                            memoryTypes: seq<Flags>, stagingMemory: Handle,
                            textureImage: Handle, imageRequirements: BufferHelper.MemoryRequirements, imageMemory: Handle)
    returns (r: Result<seq<TextureStep>>)
    requires loaded.Some? ==> IsLoadable(loaded.value)
    requires |memoryTypes| <= MaxMemoryTypes
    ensures loaded.None? ==> r == Err("Failed to load texture image")
    ensures loaded.Some? && stagingBuffer == NullHandle ==> r == Err("failed to create vertex buffer!")
    ensures loaded.Some? && stagingBuffer != NullHandle &&
            (StagingMemoryType(stagingRequirements, memoryTypes).None? ||
             TextureMemoryType(imageRequirements, memoryTypes).None?) ==>
              r == Err("Failed to find suitable memory type")
    ensures loaded.Some? && stagingBuffer != NullHandle && StagingMemoryType(stagingRequirements, memoryTypes).Some? &&
            TextureMemoryType(imageRequirements, memoryTypes).Some? && imageMemory == NullHandle ==>
              r == Err("Failed to allocate image memory")
    ensures r.Ok? <==>
              loaded.Some? && stagingBuffer != NullHandle && StagingMemoryType(stagingRequirements, memoryTypes).Some? &&
              TextureMemoryType(imageRequirements, memoryTypes).Some? && imageMemory != NullHandle
    ensures r.Ok? ==>
              |r.value| > 1 && r.value[0].CreateStagingBuffer? &&
              r.value[0].allocation.bufferInfo.size == StagingSize(loaded.value) &&
              r.value[0].allocation.bufferInfo.usage == BufferUsageTransferSrc &&
              r.value[1].CreateTextureStorage? && r.value[1].storage.image == textureImage &&
              r.value[1].storage.imageInfo ==
                ImageCreateInfo(loaded.value.texWidth, loaded.value.texHeight, FormatR8G8B8A8Srgb, ImageTilingOptimal,
                                ImageUsageTransferDst | ImageUsageSampled, SharingModeExclusive) &&
              r.value[1].storage.allocInfo.memoryTypeIndex == TextureMemoryType(imageRequirements, memoryTypes).value
    ensures r.Ok? ==> (LayoutChanges(r.value) ==
                       [(ImageLayoutUndefined, ImageLayoutTransferDstOptimal),
                        (ImageLayoutTransferDstOptimal, ImageLayoutShaderReadOnlyOptimal)])
    ensures r.Ok? ==> LayoutAfter(r.value, ImageLayoutUndefined) == Some(ImageLayoutShaderReadOnlyOptimal)
    ensures r.Ok? ==> r.value[0].CreateStagingBuffer? &&
                      CopiesStagingInto(r.value, r.value[0].allocation, textureImage, loaded.value.texWidth, loaded.value.texHeight)
  {
    if loaded.None? {
      return Err("Failed to load texture image");
    }
    var texWidth, texHeight := loaded.value.texWidth, loaded.value.texHeight;
    var imageSize: U64 := texWidth * texHeight * 4;
    var staging := BufferHelper.CreateBuffer(imageSize, BufferUsageTransferSrc,
                                             MemoryPropertyHostVisible | MemoryPropertyHostCoherent,
                                             stagingBuffer, stagingRequirements, memoryTypes, stagingMemory);
    if staging.Err? {
      return Err(staging.msg);
    }
    var image := CreateImage(texWidth, texHeight, FormatR8G8B8A8Srgb, ImageTilingOptimal,
                             ImageUsageTransferDst | ImageUsageSampled, MemoryPropertyDeviceLocal,
                             textureImage, imageRequirements, memoryTypes, imageMemory);
    if image.Err? {
      return Err(image.msg);
    }
    var steps := UploadSteps(staging.value, image.value, textureImage, texWidth, texHeight);
    r := Ok(steps);
  }
}
