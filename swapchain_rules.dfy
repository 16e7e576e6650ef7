/** The choices SwapChain::createSwapChain makes from what the surface
    reports: surface format, present mode, extent, image count and
    image sharing mode. All of them are pure functions of the queried
    values and of the window's extent. */
module SwapChainRules {
  import opened Wrappers
  import opened Vulkan

  /** The format the engine prefers: B8G8R8A8_UNORM in the sRGB non-linear colour space. */
  predicate IsPreferredFormat(f: SurfaceFormat)
  {
    f.format == FormatB8G8R8A8Unorm && f.colorSpace == ColorSpaceSrgbNonlinear
  }

  /** The index at which the loop of chooseSwapSurfaceFormat returns, if it does. */
  function PreferredFormatIndex(available: seq<SurfaceFormat>): (r: Option<nat>)
    ensures r.Some? ==> r.value < |available| && IsPreferredFormat(available[r.value])
    ensures r.Some? ==> forall j :: 0 <= j < r.value ==> !IsPreferredFormat(available[j])
    ensures r.None? ==> forall j :: 0 <= j < |available| ==> !IsPreferredFormat(available[j])
  {
    if |available| == 0 then None
    else if IsPreferredFormat(available[0]) then Some(0)
    else match PreferredFormatIndex(available[1..])
      case Some(i) => Some(i + 1)
      case None => None
  }

  /** chooseSwapSurfaceFormat: the preferred format when the surface offers
      it, else the first format offered. The caller must pass a non-empty
      list (the source reads availableFormats[0]). */
  function ChooseSwapSurfaceFormat(available: seq<SurfaceFormat>): (r: SurfaceFormat)
    requires |available| > 0
    ensures r in available
    ensures (exists i :: 0 <= i < |available| && IsPreferredFormat(available[i])) ==>
              r == SurfaceFormat(FormatB8G8R8A8Unorm, ColorSpaceSrgbNonlinear)
    ensures (forall i :: 0 <= i < |available| ==> !IsPreferredFormat(available[i])) ==>
              r == available[0]
  {
    match PreferredFormatIndex(available)
    case Some(i) => available[i]
    case None => available[0]
  }

  /** chooseSwapPresentMode: scans for Mailbox and falls back to Fifo,
      which is returned even when the surface does not list it. */
  function ChooseSwapPresentMode(available: seq<PresentMode>): (r: PresentMode)
    ensures r == PresentModeMailbox <==> PresentModeMailbox in available
    ensures r == PresentModeFifo <==> PresentModeMailbox !in available
  {
    if |available| == 0 then PresentModeFifo
    else if available[0] == PresentModeMailbox then available[0]
    else
      assert available == [available[0]] + available[1..];
      ChooseSwapPresentMode(available[1..])
  }

  /** `std::max(lo, std::min(hi, value))`: the lower bound wins when lo > hi. */
  function ClampDimension(lo: U32, hi: U32, value: U32): (r: U32)
    ensures r >= lo
    ensures lo <= hi ==> r <= hi
    ensures lo <= value <= hi ==> r == value
    ensures value < lo ==> r == lo
    ensures value > hi ==> r == (if lo > hi then lo else hi)
  {
    var capped := if hi < value then hi else value;
    if lo < capped then capped else lo
  }

  /** chooseSwapExtent: the surface's current extent, unless its width is the
      special value UINT32_MAX, which means the window decides; then the
      window extent clamped per dimension to the surface's limits. */
  function ChooseSwapExtent(capabilities: SurfaceCapabilities, windowExtent: Extent2D): (r: Extent2D)
    ensures capabilities.currentExtent.width != UInt32Max ==> r == capabilities.currentExtent
    ensures capabilities.currentExtent.width == UInt32Max ==>
              r.width == ClampDimension(capabilities.minImageExtent.width, capabilities.maxImageExtent.width, windowExtent.width) &&
              r.height == ClampDimension(capabilities.minImageExtent.height, capabilities.maxImageExtent.height, windowExtent.height)
  {
    if capabilities.currentExtent.width != UInt32Max then capabilities.currentExtent
    else
      Extent2D(
        ClampDimension(capabilities.minImageExtent.width, capabilities.maxImageExtent.width, windowExtent.width),
        ClampDimension(capabilities.minImageExtent.height, capabilities.maxImageExtent.height, windowExtent.height))
  }

  /** The minImageCount requested in createSwapChain: one more than the
      surface's minimum, in uint32_t arithmetic, capped at the maximum
      only when the surface reports one (maxImageCount 0 means no limit). */
  function RequestedImageCount(capabilities: SurfaceCapabilities): (r: U32)
    ensures capabilities.maxImageCount > 0 ==> r <= capabilities.maxImageCount
    ensures capabilities.minImageCount < UInt32Max &&
            (capabilities.maxImageCount == 0 || capabilities.minImageCount < capabilities.maxImageCount) ==>
              r == capabilities.minImageCount + 1
    ensures capabilities.minImageCount < UInt32Max && 0 < capabilities.maxImageCount <= capabilities.minImageCount ==>
              r == capabilities.maxImageCount
    ensures capabilities.minImageCount == UInt32Max ==> r == 0
  {
    var imageCount: U32 := (capabilities.minImageCount + 1) % 0x1_0000_0000;
    if capabilities.maxImageCount > 0 && imageCount > capabilities.maxImageCount then capabilities.maxImageCount
    else imageCount
  }

  /** What the Vulkan specification ("Surface Queries") guarantees of
      reported capabilities: at least one image, and a maximum, when there
      is one, no smaller than the minimum. */
  predicate WellFormedCapabilities(capabilities: SurfaceCapabilities)
  {
    capabilities.minImageCount >= 1 &&
    (capabilities.maxImageCount == 0 || capabilities.minImageCount <= capabilities.maxImageCount)
  }

  /** For capabilities the driver may report, the requested count lies
      within the surface's limits. */
  lemma RequestedImageCountWithinLimits(capabilities: SurfaceCapabilities)
    requires WellFormedCapabilities(capabilities)
    requires capabilities.minImageCount < UInt32Max
    ensures capabilities.minImageCount <= RequestedImageCount(capabilities)
    ensures capabilities.maxImageCount > 0 ==> RequestedImageCount(capabilities) <= capabilities.maxImageCount
  {
  }

  /** The image-sharing fields of VkSwapchainCreateInfoKHR. */
  datatype SharingInfo = SharingInfo(
    imageSharingMode: SharingMode,
    queueFamilyIndexCount: U32,
    queueFamilyIndices: seq<nat>)

  /** Concurrent sharing between the two families when graphics and present
      are different queue families, otherwise exclusive with no index array. */
  function ChooseSharing(graphicsFamily: nat, presentFamily: nat): (r: SharingInfo)
    ensures r.imageSharingMode == SharingModeConcurrent <==> graphicsFamily != presentFamily
    ensures r.imageSharingMode == SharingModeExclusive <==> graphicsFamily == presentFamily
    ensures r.queueFamilyIndexCount == |r.queueFamilyIndices|
    ensures graphicsFamily != presentFamily ==> r.queueFamilyIndices == [graphicsFamily, presentFamily]
    ensures graphicsFamily == presentFamily ==> r.queueFamilyIndices == []
  {
    if graphicsFamily != presentFamily then SharingInfo(SharingModeConcurrent, 2, [graphicsFamily, presentFamily])
    else SharingInfo(SharingModeExclusive, 0, [])
  }

  /** The VkSwapchainCreateInfoKHR that createSwapChain fills in. */
  datatype SwapchainCreateInfo = SwapchainCreateInfo(
    minImageCount: U32,
    imageFormat: Format,
    imageColorSpace: ColorSpace,
    imageExtent: Extent2D,
    imageArrayLayers: U32,
    imageUsage: Flags,
    sharing: SharingInfo,
    preTransform: Flags,
    compositeAlpha: Flags,
    presentMode: PresentMode,
    clipped: bool,
    oldSwapchain: Handle)

  /** createSwapChain's request, assembled from the three choices above. */
  function SwapchainCreateInfoFor(support: SwapChainSupportDetails, graphicsFamily: nat, presentFamily: nat,
                                  windowExtent: Extent2D): (r: SwapchainCreateInfo)
    requires |support.formats| > 0
    ensures SurfaceFormat(r.imageFormat, r.imageColorSpace) in support.formats
    ensures r.presentMode == PresentModeMailbox || r.presentMode == PresentModeFifo
    ensures r.imageArrayLayers == 1 && r.imageUsage == ImageUsageColorAttachment
    ensures r.preTransform == support.capabilities.currentTransform
    ensures r.compositeAlpha == CompositeAlphaOpaque && r.clipped && r.oldSwapchain == NullHandle
  {
    var surfaceFormat := ChooseSwapSurfaceFormat(support.formats);
    SwapchainCreateInfo(
      RequestedImageCount(support.capabilities),
      surfaceFormat.format,
      surfaceFormat.colorSpace,
      ChooseSwapExtent(support.capabilities, windowExtent),
      1,
      ImageUsageColorAttachment,
      ChooseSharing(graphicsFamily, presentFamily),
      support.capabilities.currentTransform,
      CompositeAlphaOpaque,
      ChooseSwapPresentMode(support.presentModes),
      true,
      NullHandle)
  }
}
