/** The SwapChain object: the per-image and per-frame tables its
    constructor sets up, and the frame-in-flight bookkeeping of
    acquireNextImage and submitCommandBuffers. Handles are opaque ids
    drawn from a counter, `objects` records what each id was created as,
    and every wait, reset, submit and present is appended to `events`
    instead of being executed. */
module SwapChain {
  import opened Wrappers
  import opened Vulkan
  import opened SwapChainRules
  import opened Device

  /** MAX_FRAMES_IN_FLIGHT */
  const MaxFramesInFlight: nat := 2

  type FenceId = Handle
  type SemaphoreId = Handle

  /** What a handle was created as, with the creation parameters the
      engine chooses. */
  datatype DeviceObject =
    | SwapchainObject(info: SwapchainCreateInfo)
    | ImageViewObject(image: Handle, format: Format, aspectMask: Flags)
    | RenderPassObject
    | ImageObject(format: Format, extent: Extent2D, usage: Flags)
    | MemoryObject(image: Handle, properties: Flags)
    | FramebufferObject(renderPass: Handle, attachments: seq<Handle>, width: U32, height: U32, layers: U32)
    | SemaphoreObject
    | FenceObject(signaled: bool)

  /** A device call the frame loop makes, in the order it makes them. */
  datatype Event =
    | WaitForFence(fence: FenceId)
    | AcquireImage(swapchain: Handle, signal: SemaphoreId, imageIndex: U32)
    | ResetFence(fence: FenceId)
    | Submit(wait: SemaphoreId, waitStage: Flags, commandBuffer: Handle, signal: SemaphoreId, fence: FenceId)
    | Present(wait: SemaphoreId, swapchain: Handle, imageIndex: U32)

  /** acquireNextImage's calls: wait on the frame's fence, then acquire an
      image that signals the frame's image-available semaphore. */
  function AcquireEvents(fence: FenceId, imageAvailable: SemaphoreId, swapchain: Handle, imageIndex: U32): seq<Event>
  {
    [WaitForFence(fence), AcquireImage(swapchain, imageAvailable, imageIndex)]
  }

  /** submitCommandBuffers' calls: wait on the fence last recorded for the
      image if there is one, reset the frame's fence, submit waiting on the
      image-available semaphore at the colour-attachment-output stage and
      signalling the render-finished semaphore and the fence, then present
      waiting on that render-finished semaphore. */
  function SubmitEvents(imageFence: Option<FenceId>, imageAvailable: SemaphoreId, renderFinished: SemaphoreId,
                        fence: FenceId, commandBuffer: Handle, swapchain: Handle, imageIndex: U32): seq<Event>
  {
    (if imageFence.Some? then [WaitForFence(imageFence.value)] else []) +
    [ResetFence(fence),
     Submit(imageAvailable, PipelineStageColorAttachmentOutput, commandBuffer, renderFinished, fence),
     Present(renderFinished, swapchain, imageIndex)]
  }

  /** In a log, every submit comes right after the reset of the fence it
      signals and right before a present that waits on the semaphore it
      signals. */
  predicate SubmitsAreFenced(events: seq<Event>)
  {
    forall j :: 0 <= j < |events| && events[j].Submit? ==>
      0 < j && events[j - 1] == ResetFence(events[j].fence) &&
      j + 1 < |events| && events[j + 1].Present? && events[j + 1].wait == events[j].signal
  }

  /** Logs with that discipline can be concatenated in any order. */
  lemma {:induction false} SubmitsAreFencedAppend(first: seq<Event>, second: seq<Event>)
    requires SubmitsAreFenced(first) && SubmitsAreFenced(second)
    ensures SubmitsAreFenced(first + second)
  {
    var log := first + second;
    forall j | 0 <= j < |log| && log[j].Submit?
      ensures 0 < j && log[j - 1] == ResetFence(log[j].fence)
      ensures j + 1 < |log| && log[j + 1].Present? && log[j + 1].wait == log[j].signal
    {
      if j < |first| {
        assert log[j] == first[j] && log[j - 1] == first[j - 1] && log[j + 1] == first[j + 1];
      } else {
        var k := j - |first|;
        assert log[j] == second[k] && second[k].Submit?;
        assert log[j + 1] == second[k + 1];
        if k > 0 {
          assert log[j - 1] == second[k - 1];
        }
      }
    }
  }

  /** Each of the two call sequences keeps the discipline. */
  lemma FrameEventsAreFenced(imageFence: Option<FenceId>, imageAvailable: SemaphoreId, renderFinished: SemaphoreId,
                             fence: FenceId, commandBuffer: Handle, swapchain: Handle, imageIndex: U32)
    ensures SubmitsAreFenced(AcquireEvents(fence, imageAvailable, swapchain, imageIndex))
    ensures SubmitsAreFenced(SubmitEvents(imageFence, imageAvailable, renderFinished, fence, commandBuffer, swapchain, imageIndex))
  {
    var events := SubmitEvents(imageFence, imageAvailable, renderFinished, fence, commandBuffer, swapchain, imageIndex);
    var offset := if imageFence.Some? then 1 else 0;
    forall j | 0 <= j < |events| && events[j].Submit?
      ensures j == offset + 1
    {
      if imageFence.Some? {
        assert events == [WaitForFence(imageFence.value), ResetFence(fence), events[2], events[3]];
      } else {
        assert events == [ResetFence(fence), events[1], events[2]];
      }
    }
  }

  /** Appending acquireNextImage's calls, one at a time, keeps the discipline. */
  lemma AcquireKeepsFenced(before: seq<Event>, after: seq<Event>, fence: FenceId, imageAvailable: SemaphoreId,
                           swapchain: Handle, imageIndex: U32)
    requires SubmitsAreFenced(before)
    requires after == before + [WaitForFence(fence)] + [AcquireImage(swapchain, imageAvailable, imageIndex)]
    ensures after == before + AcquireEvents(fence, imageAvailable, swapchain, imageIndex)
    ensures SubmitsAreFenced(after)
  {
    FrameEventsAreFenced(None, imageAvailable, imageAvailable, fence, NullHandle, swapchain, imageIndex);
    SubmitsAreFencedAppend(before, AcquireEvents(fence, imageAvailable, swapchain, imageIndex));
  }

  /** Appending submitCommandBuffers' calls, one at a time, keeps the
      discipline. */
  lemma SubmitKeepsFenced(before: seq<Event>, after: seq<Event>, imageFence: Option<FenceId>,
                          imageAvailable: SemaphoreId, renderFinished: SemaphoreId, fence: FenceId,
                          commandBuffer: Handle, swapchain: Handle, imageIndex: U32)
    requires SubmitsAreFenced(before)
    requires after == (if imageFence.Some? then before + [WaitForFence(imageFence.value)] else before) +
                      [ResetFence(fence)] +
                      [Submit(imageAvailable, PipelineStageColorAttachmentOutput, commandBuffer, renderFinished, fence)] +
                      [Present(renderFinished, swapchain, imageIndex)]
    ensures after == before + SubmitEvents(imageFence, imageAvailable, renderFinished, fence, commandBuffer, swapchain, imageIndex)
    ensures SubmitsAreFenced(after)
  {
    var submitted := SubmitEvents(imageFence, imageAvailable, renderFinished, fence, commandBuffer, swapchain, imageIndex);
    assert after == before + submitted;
    FrameEventsAreFenced(imageFence, imageAvailable, renderFinished, fence, commandBuffer, swapchain, imageIndex);
    SubmitsAreFencedAppend(before, submitted);
  }

  /** Within one acquire/submit pair of a frame: the acquire waits on the
      frame's fence before the image-waiting submit, the fence is reset
      after that wait and before the submit that signals it, and the submit
      waits on the very semaphore the acquire signals. */
  lemma AcquireThenSubmit(imageFence: Option<FenceId>, imageAvailable: SemaphoreId, renderFinished: SemaphoreId,
                          fence: FenceId, commandBuffer: Handle, swapchain: Handle, acquired: U32, imageIndex: U32)
    ensures var log := AcquireEvents(fence, imageAvailable, swapchain, acquired) +
                       SubmitEvents(imageFence, imageAvailable, renderFinished, fence, commandBuffer, swapchain, imageIndex);
            var submitAt := |log| - 2;
            log[0] == WaitForFence(fence) &&
            log[1].AcquireImage? && log[1].signal == imageAvailable &&
            log[submitAt - 1] == ResetFence(fence) &&
            log[submitAt].Submit? && log[submitAt].fence == fence && log[submitAt].wait == log[1].signal &&
            (forall k :: 0 <= k < submitAt - 1 ==> log[k] != ResetFence(fence)) &&
            log[|log| - 1] == Present(renderFinished, swapchain, imageIndex)
  {
  }

  /** The results presentKHR returns rather than throws. */
  predicate PresentSucceeded(result: VkResult)
  {
    result == ResultSuccess || result == ResultSuboptimalKHR
  }

  /** The frame after `frame`: `(currentFrame + 1) % MAX_FRAMES_IN_FLIGHT`. */
  function NextFrame(frame: nat): (r: nat)
    ensures r < MaxFramesInFlight
  {
    (frame + 1) % MaxFramesInFlight
  }

  /** The frame index after n submits, starting from frame 0. */
  function FrameAfter(n: nat): nat
  {
    if n == 0 then 0 else NextFrame(FrameAfter(n - 1))
  }

  /** currentFrame cycles 0, 1, 0, 1, ...: after n submits it is n modulo
      MAX_FRAMES_IN_FLIGHT. */
  lemma {:induction false} FrameAfterCycles(n: nat)
    ensures FrameAfter(n) == n % MaxFramesInFlight
  {
    if n > 0 {
      FrameAfterCycles(n - 1);
    }
  }

  /** No two entries of s are equal. */
  predicate Distinct<T(==)>(s: seq<T>)
  {
    forall i, j :: 0 <= i < j < |s| ==> s[i] != s[j]
  }

  /** `after` keeps every entry of `before`. */
  predicate Extends(before: map<Handle, DeviceObject>, after: map<Handle, DeviceObject>)
  {
    forall h {:trigger before[h]} :: h in before ==> h in after && after[h] == before[h]
  }

  /** The objects created on the device so far, by id, and the next id
      to hand out. */
  datatype Registry = Registry(objects: map<Handle, DeviceObject>, nextHandle: nat)
  {
    /** Every id in use is below the counter, and the counter never hands
        out the null handle. */
    predicate Valid()
    {
      NullHandle < nextHandle && forall h :: h in objects ==> h < nextHandle
    }
  }

  /** The registry of a device on which nothing has been created yet. */
  const EmptyRegistry := Registry(map[], NullHandle + 1)

  /** A fresh id for a new object: one no existing object has, recorded
      as `obj`, with every earlier record kept. */
  method NewHandle(registry: Registry, obj: DeviceObject) returns (r: Registry, h: Handle)
    requires registry.Valid()
    ensures h == registry.nextHandle && h != NullHandle && h !in registry.objects
    ensures r.objects == registry.objects[h := obj] && r.nextHandle == h + 1
    ensures r.Valid() && Extends(registry.objects, r.objects)
  {
    h := registry.nextHandle;
    r := Registry(registry.objects[h := obj], h + 1);
  }

  /** Each framebuffer joins the image's view with its depth view, at the
      swapchain's extent, in one layer. */
  predicate FramebuffersJoinViews(objects: map<Handle, DeviceObject>, framebuffers: seq<Handle>, renderPass: Handle,
                                  imageViews: seq<Handle>, depthImageViews: seq<Handle>, extent: Extent2D)
  {
    |imageViews| == |framebuffers| && |depthImageViews| == |framebuffers| &&
    forall i :: 0 <= i < |framebuffers| ==>
      framebuffers[i] in objects &&
      objects[framebuffers[i]] ==
        FramebufferObject(renderPass, [imageViews[i], depthImageViews[i]], extent.width, extent.height, 1)
  }

  /** Creating more objects keeps the framebuffers' records. */
  lemma FramebuffersJoinViewsExtends(before: map<Handle, DeviceObject>, after: map<Handle, DeviceObject>,
                                     framebuffers: seq<Handle>, renderPass: Handle,
                                     imageViews: seq<Handle>, depthImageViews: seq<Handle>, extent: Extent2D)
    requires Extends(before, after)
    requires FramebuffersJoinViews(before, framebuffers, renderPass, imageViews, depthImageViews, extent)
    ensures FramebuffersJoinViews(after, framebuffers, renderPass, imageViews, depthImageViews, extent)
  {
  }

  /** Each swapchain image has a colour view of the swapchain's format,
      at the same position. */
  predicate ColorViewsOfImages(objects: map<Handle, DeviceObject>, images: seq<Handle>, views: seq<Handle>, format: Format)
  {
    |views| == |images| &&
    forall i :: 0 <= i < |views| ==>
      views[i] in objects && objects[views[i]] == ImageViewObject(images[i], format, ImageAspectColor)
  }

  /** Per swapchain image, a depth image of the extent, its device-local
      memory and a depth view of it. */
  predicate DepthResourcesOfImages(objects: map<Handle, DeviceObject>, imageCount: nat, images: seq<Handle>,
                                   memories: seq<Handle>, views: seq<Handle>, depthFormat: Format, extent: Extent2D)
  {
    |images| == imageCount && |memories| == imageCount && |views| == imageCount &&
    forall i :: 0 <= i < imageCount ==>
      images[i] in objects && memories[i] in objects && views[i] in objects &&
      objects[images[i]] == ImageObject(depthFormat, extent, ImageUsageDepthStencilAttachment) &&
      objects[memories[i]] == MemoryObject(images[i], MemoryPropertyDeviceLocal) &&
      objects[views[i]] == ImageViewObject(images[i], depthFormat, ImageAspectDepth)
  }

  /** Keeping every record of a registry that keeps every record of a
      first one keeps the first one's records. */
  lemma ExtendsTransitive(first: map<Handle, DeviceObject>, second: map<Handle, DeviceObject>,
                          third: map<Handle, DeviceObject>)
    requires Extends(first, second) && Extends(second, third)
    ensures Extends(first, third)
  {
  }

  /** Creating more objects keeps the colour views' and the depth
      resources' records. */
  lemma ImageResourcesExtends(before: map<Handle, DeviceObject>, after: map<Handle, DeviceObject>,
                              images: seq<Handle>, colorViews: seq<Handle>, format: Format,
                              depthImages: seq<Handle>, depthMemories: seq<Handle>, depthViews: seq<Handle>,
                              depthFormat: Format, extent: Extent2D)
    requires Extends(before, after)
    requires ColorViewsOfImages(before, images, colorViews, format)
    requires DepthResourcesOfImages(before, |images|, depthImages, depthMemories, depthViews, depthFormat, extent)
    ensures ColorViewsOfImages(after, images, colorViews, format)
    ensures DepthResourcesOfImages(after, |images|, depthImages, depthMemories, depthViews, depthFormat, extent)
  {
  }

  /** One image-available semaphore, one render-finished semaphore and one
      fence per frame in flight. */
  predicate SyncObjectsExist(objects: map<Handle, DeviceObject>, imageAvailable: seq<SemaphoreId>,
                             renderFinished: seq<SemaphoreId>, fences: seq<FenceId>)
  {
    |imageAvailable| == MaxFramesInFlight && |renderFinished| == MaxFramesInFlight && |fences| == MaxFramesInFlight &&
    forall i :: 0 <= i < MaxFramesInFlight ==>
      imageAvailable[i] in objects && objects[imageAvailable[i]] == SemaphoreObject &&
      renderFinished[i] in objects && objects[renderFinished[i]] == SemaphoreObject &&
      fences[i] in objects && objects[fences[i]].FenceObject?
  }

  /** Three handles per frame, numbered in creation order, never coincide. */
  lemma SyncHandlesDistinct(first: nat, imageAvailable: seq<SemaphoreId>, renderFinished: seq<SemaphoreId>, fences: seq<FenceId>)
    requires imageAvailable == [first, first + 3] && renderFinished == [first + 1, first + 4] && fences == [first + 2, first + 5]
    ensures Distinct(imageAvailable + renderFinished + fences)
  {
    assert imageAvailable + renderFinished + fences == [first, first + 3, first + 1, first + 4, first + 2, first + 5];
  }

  /** The depth formats findDepthFormat tries, in order of preference. */
  const DepthFormatCandidates: seq<Format> := [FormatD32Sfloat, FormatD32SfloatS8Uint, FormatD24UnormS8Uint]

  /** findDepthFormat: the first of D32Sfloat, D32SfloatS8Uint and
      D24UnormS8Uint that supports depth-stencil attachment with optimal
      tiling; `formatProperties` lists what the device reports for the
      three, in that order. */
  method FindDepthFormat(formatProperties: seq<FormatProperties>) returns (r: Result<Format>)
    requires |formatProperties| == 3
    ensures SupportsFeatures(formatProperties[0], ImageTilingOptimal, FormatFeatureDepthStencilAttachment) ==>
              r == Ok(FormatD32Sfloat)
    ensures !SupportsFeatures(formatProperties[0], ImageTilingOptimal, FormatFeatureDepthStencilAttachment) &&
            SupportsFeatures(formatProperties[1], ImageTilingOptimal, FormatFeatureDepthStencilAttachment) ==>
              r == Ok(FormatD32SfloatS8Uint)
    ensures !SupportsFeatures(formatProperties[0], ImageTilingOptimal, FormatFeatureDepthStencilAttachment) &&
            !SupportsFeatures(formatProperties[1], ImageTilingOptimal, FormatFeatureDepthStencilAttachment) &&
            SupportsFeatures(formatProperties[2], ImageTilingOptimal, FormatFeatureDepthStencilAttachment) ==>
              r == Ok(FormatD24UnormS8Uint)
    ensures r.Ok? <==> exists i :: (0 <= i < 3 &&
              SupportsFeatures(formatProperties[i], ImageTilingOptimal, FormatFeatureDepthStencilAttachment))
    ensures r.Err? ==> r.msg == "failed to find supported format!"
  {
    r := FindSupportedFormat(DepthFormatCandidates, formatProperties, ImageTilingOptimal, FormatFeatureDepthStencilAttachment);
  }

  /** createSwapChain: the create info assembled from the negotiation
      rules, a new swapchain created with it, and the image format and
      extent it was created with. */
  method CreateSwapChain(registry: Registry, support: SwapChainSupportDetails, indices: QueueFamilyIndices,
                         windowExtent: Extent2D)
    returns (r: Registry, createInfo: SwapchainCreateInfo, swapChain: Handle, format: Format, extent: Extent2D)
    requires registry.Valid()
    requires |support.formats| > 0
    ensures r.Valid() && Extends(registry.objects, r.objects)
    ensures createInfo == SwapchainCreateInfoFor(support, indices.graphicsFamily, indices.presentFamily, windowExtent)
    ensures swapChain !in registry.objects && r.objects == registry.objects[swapChain := SwapchainObject(createInfo)]
    ensures format == createInfo.imageFormat && extent == createInfo.imageExtent
  {
    createInfo := SwapchainCreateInfoFor(support, indices.graphicsFamily, indices.presentFamily, windowExtent);
    r, swapChain := NewHandle(registry, SwapchainObject(createInfo));
    format, extent := createInfo.imageFormat, createInfo.imageExtent;
  }

  /** createImageViews: one new colour view per swapchain image, in the
      images' order. */
  method CreateImageViews(registry: Registry, images: seq<Handle>, format: Format) returns (r: Registry, views: seq<Handle>)
    requires registry.Valid()
    ensures r.Valid() && Extends(registry.objects, r.objects)
    ensures |views| == |images|
    ensures forall i :: 0 <= i < |views| ==>
              views[i] !in registry.objects && views[i] in r.objects &&
              r.objects[views[i]] == ImageViewObject(images[i], format, ImageAspectColor)
  {
    r := registry;
    views := seq(|images|, _ => NullHandle);
    for i := 0 to |images|
      invariant r.Valid() && Extends(registry.objects, r.objects)
      invariant |views| == |images|
      invariant forall k :: 0 <= k < i ==>
                  views[k] !in registry.objects && views[k] in r.objects &&
                  r.objects[views[k]] == ImageViewObject(images[k], format, ImageAspectColor)
    {
      var view;
      r, view := NewHandle(r, ImageViewObject(images[i], format, ImageAspectColor));
      views := views[i := view];
    }
  }

  /** createRenderPass: a new render pass (its attachments and subpass
      are not modelled). */
  method CreateRenderPass(registry: Registry) returns (r: Registry, renderPass: Handle)
    requires registry.Valid()
    ensures r.Valid() && Extends(registry.objects, r.objects)
    ensures renderPass !in registry.objects && renderPass in r.objects && r.objects[renderPass] == RenderPassObject
  {
    r, renderPass := NewHandle(registry, RenderPassObject);
  }

  /** createDepthResources: per swapchain image, a new depth image of the
      swapchain's extent, its device-local memory and a depth view of it. */
  method CreateDepthResources(registry: Registry, imageCount: nat, depthFormat: Format, extent: Extent2D)
    returns (r: Registry, images: seq<Handle>, memories: seq<Handle>, views: seq<Handle>)
    requires registry.Valid()
    ensures r.Valid() && Extends(registry.objects, r.objects)
    ensures |images| == |memories| == |views| == imageCount
    ensures forall i :: 0 <= i < imageCount ==>
              images[i] in r.objects && memories[i] in r.objects && views[i] in r.objects &&
              views[i] !in registry.objects &&
              r.objects[images[i]] == ImageObject(depthFormat, extent, ImageUsageDepthStencilAttachment) &&
              r.objects[memories[i]] == MemoryObject(images[i], MemoryPropertyDeviceLocal) &&
              r.objects[views[i]] == ImageViewObject(images[i], depthFormat, ImageAspectDepth)
  {
    r := registry;
    images := seq(imageCount, _ => NullHandle);
    memories := seq(imageCount, _ => NullHandle);
    views := seq(imageCount, _ => NullHandle);
    for i := 0 to imageCount
      invariant r.Valid() && Extends(registry.objects, r.objects)
      invariant |images| == |memories| == |views| == imageCount
      invariant forall k :: 0 <= k < i ==>
                  images[k] in r.objects && memories[k] in r.objects && views[k] in r.objects &&
                  views[k] !in registry.objects &&
                  r.objects[images[k]] == ImageObject(depthFormat, extent, ImageUsageDepthStencilAttachment) &&
                  r.objects[memories[k]] == MemoryObject(images[k], MemoryPropertyDeviceLocal) &&
                  r.objects[views[k]] == ImageViewObject(images[k], depthFormat, ImageAspectDepth)
    {
      var image, memory, view;
      r, image := NewHandle(r, ImageObject(depthFormat, extent, ImageUsageDepthStencilAttachment));
      r, memory := NewHandle(r, MemoryObject(image, MemoryPropertyDeviceLocal));
      r, view := NewHandle(r, ImageViewObject(image, depthFormat, ImageAspectDepth));
      images, memories, views := images[i := image], memories[i := memory], views[i := view];
    }
  }

  /** createFramebuffers: per swapchain image, a new framebuffer of the
      render pass joining the image's view and its depth view, at the
      swapchain's extent, one layer. */
  method CreateFramebuffers(registry: Registry, renderPass: Handle, colorViews: seq<Handle>, depthViews: seq<Handle>,
                            extent: Extent2D)
    returns (r: Registry, framebuffers: seq<Handle>)
    requires registry.Valid()
    requires |depthViews| == |colorViews|
    ensures r.Valid() && Extends(registry.objects, r.objects)
    ensures FramebuffersJoinViews(r.objects, framebuffers, renderPass, colorViews, depthViews, extent)
  {
    r := registry;
    framebuffers := seq(|colorViews|, _ => NullHandle);
    for i := 0 to |colorViews|
      invariant r.Valid() && Extends(registry.objects, r.objects)
      invariant |framebuffers| == |colorViews|
      invariant forall k :: 0 <= k < i ==>
                  framebuffers[k] in r.objects &&
                  r.objects[framebuffers[k]] ==
                    FramebufferObject(renderPass, [colorViews[k], depthViews[k]], extent.width, extent.height, 1)
    {
      var attachments := [colorViews[i], depthViews[i]];
      var framebuffer;
      r, framebuffer := NewHandle(r, FramebufferObject(renderPass, attachments, extent.width, extent.height, 1));
      framebuffers := framebuffers[i := framebuffer];
    }
  }

  /** The two semaphores and the fence of one frame in flight, on three
      consecutive ids. */
  method NewFrameSyncObjects(registry: Registry, signaled: bool)
    returns (r: Registry, imageAvailable: SemaphoreId, renderFinished: SemaphoreId, fence: FenceId)
    requires registry.Valid()
    ensures imageAvailable == registry.nextHandle && renderFinished == registry.nextHandle + 1 &&
            fence == registry.nextHandle + 2
    ensures r.nextHandle == registry.nextHandle + 3
    ensures r.objects == registry.objects[imageAvailable := SemaphoreObject][renderFinished := SemaphoreObject]
                                         [fence := FenceObject(signaled)]
    ensures r.Valid() && Extends(registry.objects, r.objects)
  {
    r, imageAvailable := NewHandle(registry, SemaphoreObject);
    r, renderFinished := NewHandle(r, SemaphoreObject);
    r, fence := NewHandle(r, FenceObject(signaled));
  }

  /** createSyncObjects: per frame in flight, two new semaphores and a new
      fence created signalled, all distinct; and one null imagesInFlight
      entry per swapchain image. */
  method CreateSyncObjects(registry: Registry, imageCount: nat)
    returns (r: Registry, imageAvailable: seq<SemaphoreId>, renderFinished: seq<SemaphoreId>, fences: seq<FenceId>,
             imagesInFlight: seq<Option<FenceId>>)
    requires registry.Valid()
    ensures r.Valid() && Extends(registry.objects, r.objects)
    ensures SyncObjectsExist(r.objects, imageAvailable, renderFinished, fences)
    ensures forall i :: 0 <= i < MaxFramesInFlight ==> r.objects[fences[i]] == FenceObject(true)
    ensures Distinct(imageAvailable + renderFinished + fences)
    ensures |imagesInFlight| == imageCount && forall i :: 0 <= i < imageCount ==> imagesInFlight[i].None?
  {
    r := registry;
    imageAvailable := seq(MaxFramesInFlight, _ => NullHandle);
    renderFinished := seq(MaxFramesInFlight, _ => NullHandle);
    fences := seq(MaxFramesInFlight, _ => NullHandle);
    var signaled := true;
    ghost var first := registry.nextHandle;
    for i := 0 to MaxFramesInFlight
      invariant r.Valid() && Extends(registry.objects, r.objects)
      invariant |imageAvailable| == |renderFinished| == |fences| == MaxFramesInFlight
      invariant r.nextHandle == first + 3 * i
      invariant forall k :: 0 <= k < i ==>
                  imageAvailable[k] in r.objects && r.objects[imageAvailable[k]] == SemaphoreObject &&
                  renderFinished[k] in r.objects && r.objects[renderFinished[k]] == SemaphoreObject &&
                  fences[k] in r.objects && r.objects[fences[k]] == FenceObject(true)
      invariant forall k :: 0 <= k < i ==>
                  imageAvailable[k] == first + 3 * k && renderFinished[k] == first + 3 * k + 1 &&
                  fences[k] == first + 3 * k + 2
    {
      var semaphore, finished, fence;
      r, semaphore, finished, fence := NewFrameSyncObjects(r, signaled);
      imageAvailable := imageAvailable[i := semaphore];
      renderFinished := renderFinished[i := finished];
      fences := fences[i := fence];
    }
    assert imageAvailable == [first, first + 3] && renderFinished == [first + 1, first + 4] && fences == [first + 2, first + 5];
    SyncHandlesDistinct(first, imageAvailable, renderFinished, fences);
    imagesInFlight := seq(imageCount, _ => None);
  }

  class SwapChain {
    var createInfo: SwapchainCreateInfo
    var swapChain: Handle
    var swapChainImageFormat: Format
    var swapChainExtent: Extent2D
    var swapChainImages: seq<Handle>
    var swapChainImageViews: seq<Handle>
    var renderPass: Handle
    var depthImages: seq<Handle>
    var depthImageMemorys: seq<Handle>
    var depthImageViews: seq<Handle>
    var swapChainFramebuffers: seq<Handle>
    var imageAvailableSemaphores: seq<SemaphoreId>
    var renderFinishedSemaphores: seq<SemaphoreId>
    var inFlightFences: seq<FenceId>
    var imagesInFlight: seq<Option<FenceId>>
    /** size_t currentFrame */
    var currentFrame: U64
    var events: seq<Event>
    /** What the engine has created on the device. */
    var registry: Registry

    /** Every per-image table has one entry per swapchain image, every
        per-frame table one entry per frame in flight; the framebuffers
        join each image's view with its depth view at the swapchain's
        extent; the sync objects exist; and the event log keeps the
        submit discipline. The value of currentFrame is not constrained:
        setCurrentFrame stores any value. */
    predicate Valid()
      reads this
    {
      registry.Valid() &&
      |swapChainImageViews| == |swapChainImages| &&
      |depthImages| == |swapChainImages| &&
      |depthImageMemorys| == |swapChainImages| &&
      |depthImageViews| == |swapChainImages| &&
      |swapChainFramebuffers| == |swapChainImages| &&
      |imagesInFlight| == |swapChainImages| &&
      |imageAvailableSemaphores| == MaxFramesInFlight &&
      |renderFinishedSemaphores| == MaxFramesInFlight &&
      |inFlightFences| == MaxFramesInFlight &&
      FramebuffersJoinViews(registry.objects, swapChainFramebuffers, renderPass, swapChainImageViews, depthImageViews,
                            swapChainExtent) &&
      SyncObjectsExist(registry.objects, imageAvailableSemaphores, renderFinishedSemaphores, inFlightFences) &&
      SubmitsAreFenced(events)
    }

    /** Every image's entry is either null or the fence of some frame. */
    predicate ImagesInFlightAreFrameFences()
      reads this
    {
      forall i :: 0 <= i < |imagesInFlight| && imagesInFlight[i].Some? ==> imagesInFlight[i].value in inFlightFences
    }

    /** imageCount(): the number of swapchain images, which every per-image
        table matches. */
    function ImageCount(): (r: nat)
      reads this
      ensures r == |swapChainImages|
      ensures Valid() ==>
                r == |swapChainImageViews| == |depthImages| == |depthImageMemorys| == |depthImageViews| ==
                     |swapChainFramebuffers| == |imagesInFlight|
    {
      |swapChainImages|
    }

    /** width(): the swapchain extent's width, which every framebuffer has. */
    function Width(): (r: U32)
      reads this
      ensures r == swapChainExtent.width
      ensures Valid() ==> forall i :: 0 <= i < |swapChainFramebuffers| ==> registry.objects[swapChainFramebuffers[i]].width == r
    {
      swapChainExtent.width
    }

    /** height(): the swapchain extent's height, which every framebuffer has. */
    function Height(): (r: U32)
      reads this
      ensures r == swapChainExtent.height
      ensures Valid() ==> forall i :: 0 <= i < |swapChainFramebuffers| ==> registry.objects[swapChainFramebuffers[i]].height == r
    {
      swapChainExtent.height
    }

    /** The swapchain that the SwapChain constructor builds: createSwapChain,
        createImageViews, createRenderPass, createDepthResources,
        createFramebuffers and createSyncObjects, in that order, on a device
        with nothing created yet. `images` is what getSwapchainImagesKHR
        returns and `depthFormat` what findDepthFormat chose. */
    constructor (support: SwapChainSupportDetails, indices: QueueFamilyIndices, windowExtent: Extent2D,
                 images: seq<Handle>, depthFormat: Format)
      requires |support.formats| > 0
      ensures Valid()
      ensures createInfo == SwapchainCreateInfoFor(support, indices.graphicsFamily, indices.presentFamily, windowExtent)
      ensures swapChainImageFormat == createInfo.imageFormat == ChooseSwapSurfaceFormat(support.formats).format
      ensures swapChainExtent == createInfo.imageExtent == ChooseSwapExtent(support.capabilities, windowExtent)
      ensures swapChain in registry.objects && registry.objects[swapChain] == SwapchainObject(createInfo)
      ensures renderPass in registry.objects && registry.objects[renderPass] == RenderPassObject
      ensures swapChainImages == images
      ensures ColorViewsOfImages(registry.objects, images, swapChainImageViews, swapChainImageFormat)
      ensures DepthResourcesOfImages(registry.objects, |images|, depthImages, depthImageMemorys, depthImageViews,
                                     depthFormat, swapChainExtent)
      ensures forall i :: 0 <= i < |imagesInFlight| ==> imagesInFlight[i].None?
      ensures ImagesInFlightAreFrameFences()
      ensures forall i :: 0 <= i < MaxFramesInFlight ==> registry.objects[inFlightFences[i]] == FenceObject(true)
      ensures Distinct(imageAvailableSemaphores + renderFinishedSemaphores + inFlightFences)
      ensures currentFrame == 0 && events == []
    {
      var created := EmptyRegistry;
      var info, chain, format, extent;
      created, info, chain, format, extent := CreateSwapChain(created, support, indices, windowExtent);
      ghost var withSwapChain := created.objects;
      var colorViews;
      created, colorViews := CreateImageViews(created, images, format);
      ghost var withViews := created.objects;
      var pass;
      created, pass := CreateRenderPass(created);
      ghost var withRenderPass := created.objects;
      var depthImgs, depthMemories, depthViews;
      created, depthImgs, depthMemories, depthViews := CreateDepthResources(created, |images|, depthFormat, extent);
      ghost var withDepth := created.objects;
      var framebuffers;
      created, framebuffers := CreateFramebuffers(created, pass, colorViews, depthViews, extent);
      ghost var withFramebuffers := created.objects;
      var semaphores, finished, fences, inFlight;
      created, semaphores, finished, fences, inFlight := CreateSyncObjects(created, |images|);
      FramebuffersJoinViewsExtends(withFramebuffers, created.objects, framebuffers, pass, colorViews, depthViews, extent);
      ExtendsTransitive(withDepth, withFramebuffers, created.objects);
      ExtendsTransitive(withRenderPass, withDepth, created.objects);
      ExtendsTransitive(withViews, withRenderPass, created.objects);
      ExtendsTransitive(withSwapChain, withViews, created.objects);
      assert ColorViewsOfImages(withDepth, images, colorViews, format) by {
        ExtendsTransitive(withViews, withRenderPass, withDepth);
        assert ColorViewsOfImages(withViews, images, colorViews, format);
      }
      ImageResourcesExtends(withDepth, created.objects, images, colorViews, format,
                            depthImgs, depthMemories, depthViews, depthFormat, extent);
      createInfo, swapChain, swapChainImageFormat, swapChainExtent := info, chain, format, extent;
      swapChainImages, swapChainImageViews, renderPass := images, colorViews, pass;
      depthImages, depthImageMemorys, depthImageViews := depthImgs, depthMemories, depthViews;
      swapChainFramebuffers := framebuffers;
      imageAvailableSemaphores, renderFinishedSemaphores, inFlightFences := semaphores, finished, fences;
      imagesInFlight := inFlight;
      currentFrame := 0;
      events := [];
      registry := created;
    }

    /** acquireNextImage: wait on the current frame's fence, then acquire
        the next image, signalling the current frame's image-available
        semaphore. `acquiredIndex` and `acquireResult` are what
        acquireNextImageKHR reports. currentFrame does not change. */
    method AcquireNextImage(acquiredIndex: U32, acquireResult: VkResult) returns (result: VkResult, imageIndex: U32)
      requires Valid() && currentFrame < MaxFramesInFlight
      modifies this`events
      ensures events == old(events) +
                AcquireEvents(inFlightFences[currentFrame], imageAvailableSemaphores[currentFrame], swapChain, acquiredIndex)
      ensures result == acquireResult && imageIndex == acquiredIndex
      ensures currentFrame == old(currentFrame) && imagesInFlight == old(imagesInFlight)
      ensures Valid()
    {
      var fence := inFlightFences[currentFrame];
      var log := events + [WaitForFence(fence)];
      var signal := imageAvailableSemaphores[currentFrame];
      log := log + [AcquireImage(swapChain, signal, acquiredIndex)];
      result, imageIndex := acquireResult, acquiredIndex;
      AcquireKeepsFenced(old(events), log, fence, signal, swapChain, acquiredIndex);
      events := log;
    }

    /** submitCommandBuffers: wait on the fence of the frame that last used
        the image, if any; record the current frame's fence for the image;
        reset that fence, submit, present; advance currentFrame.
        `presentResult` is what presentKHR reports. The vulkan-hpp overload
        the engine calls throws for any result other than success and
        suboptimal, after the present and before currentFrame advances;
        the error carries the message vulkan-hpp gives it. */
    method SubmitCommandBuffers(commandBuffer: Handle, imageIndex: U32, presentResult: VkResult) returns (result: Result<VkResult>)
      requires Valid() && currentFrame < MaxFramesInFlight
      requires imageIndex < |imagesInFlight|
      modifies this`events, this`currentFrame, this`imagesInFlight
      ensures events == old(events) +
                SubmitEvents(old(imagesInFlight[imageIndex]), imageAvailableSemaphores[old(currentFrame)],
                             renderFinishedSemaphores[old(currentFrame)], inFlightFences[old(currentFrame)],
                             commandBuffer, swapChain, imageIndex)
      ensures imagesInFlight == old(imagesInFlight)[imageIndex := Some(inFlightFences[old(currentFrame)])]
      ensures PresentSucceeded(presentResult) ==>
                result == Ok(presentResult) && currentFrame == NextFrame(old(currentFrame))
      ensures !PresentSucceeded(presentResult) ==>
                result == Err("vk::Queue::presentKHR") && currentFrame == old(currentFrame)
      ensures currentFrame < MaxFramesInFlight
      ensures old(ImagesInFlightAreFrameFences()) ==> ImagesInFlightAreFrameFences()
      ensures Valid()
    {
      var previous := imagesInFlight[imageIndex];
      var log := events;
      if previous.Some? {
        log := log + [WaitForFence(previous.value)];
      }
      var fence := inFlightFences[currentFrame];
      var inFlight := imagesInFlight[imageIndex := Some(fence)];
      var waitSemaphore := imageAvailableSemaphores[currentFrame];
      var signalSemaphore := renderFinishedSemaphores[currentFrame];
      log := log + [ResetFence(fence)];
      log := log + [Submit(waitSemaphore, PipelineStageColorAttachmentOutput, commandBuffer, signalSemaphore, fence)];
      log := log + [Present(signalSemaphore, swapChain, imageIndex)];
      SubmitKeepsFenced(events, log, previous, waitSemaphore, signalSemaphore, fence, commandBuffer, swapChain, imageIndex);
      var frame := currentFrame;
      if PresentSucceeded(presentResult) {
        frame := (currentFrame + 1) % MaxFramesInFlight;
        result := Ok(presentResult);
      } else {
        result := Err("vk::Queue::presentKHR");
      }
      events, imagesInFlight, currentFrame := log, inFlight, frame;
    }

    /** setCurrentFrame: stores its argument as it is, with no range check. */
    method SetCurrentFrame(newFrame: U64)
      requires Valid()
      modifies this`currentFrame
      ensures currentFrame == newFrame
      ensures Valid()
    {
      currentFrame := newFrame;
    }

    /** setImageInFlight: overwrites entry `index` of imagesInFlight and no
        other. */
    method SetImageInFlight(index: int, target: Option<FenceId>)
      requires Valid()
      requires 0 <= index < |imagesInFlight|
      modifies this`imagesInFlight
      ensures imagesInFlight == old(imagesInFlight)[index := target]
      ensures old(ImagesInFlightAreFrameFences()) && (target.None? || target.value in inFlightFences) ==>
                ImagesInFlightAreFrameFences()
      ensures Valid()
    {
      imagesInFlight := imagesInFlight[index := target];
    }
  }
}
