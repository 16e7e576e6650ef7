/** The Vulkan values the engine reads and writes, with the enumerant and
    flag-bit values that the Vulkan specification assigns to them. Every
    query the engine makes of the driver becomes an input of one of these
    types; every handle is an opaque number. */
module Vulkan {

  /** uint32_t */
  type U32 = x: int | 0 <= x < 0x1_0000_0000
  /** uint64_t and size_t (VkDeviceSize, vector sizes) */
  type U64 = x: int | 0 <= x < 0x1_0000_0000_0000_0000
  /** int */
  const IntMax: int := 0x7FFF_FFFF

  const UInt32Max: U32 := 0xFFFF_FFFF

  /** Every Vk*Flags type is a 32-bit mask. */
  type Flags = bv32

  /** `(available & required) == required`: every bit of `required` is set in `available`. */
  predicate Contains(available: Flags, required: Flags)
  {
    available & required == required
  }

  /** An opaque handle (VkImage, VkFence, ...); 0 is VK_NULL_HANDLE. */
  type Handle = nat
  const NullHandle: Handle := 0

  /** VkResult (negative values are errors). */
  type VkResult = int
  const ResultSuccess: VkResult := 0
  const ResultSuboptimalKHR: VkResult := 1000001003

  // VkFormat
  type Format = U32
  const FormatR8G8B8A8Srgb: Format := 43
  const FormatB8G8R8A8Unorm: Format := 44
  const FormatD32Sfloat: Format := 126
  const FormatD24UnormS8Uint: Format := 129
  const FormatD32SfloatS8Uint: Format := 130

  // VkColorSpaceKHR
  type ColorSpace = U32
  const ColorSpaceSrgbNonlinear: ColorSpace := 0

  // VkPresentModeKHR
  type PresentMode = U32
  const PresentModeMailbox: PresentMode := 1
  const PresentModeFifo: PresentMode := 2

  // VkImageLayout
  type ImageLayout = U32
  const ImageLayoutUndefined: ImageLayout := 0
  const ImageLayoutShaderReadOnlyOptimal: ImageLayout := 5
  const ImageLayoutTransferDstOptimal: ImageLayout := 7

  // VkImageTiling
  type ImageTiling = U32
  const ImageTilingOptimal: ImageTiling := 0
  const ImageTilingLinear: ImageTiling := 1

  // VkSharingMode
  type SharingMode = U32
  const SharingModeExclusive: SharingMode := 0
  const SharingModeConcurrent: SharingMode := 1

  /** VK_QUEUE_FAMILY_IGNORED (~0U) */
  const QueueFamilyIgnored: U32 := 0xFFFF_FFFF
  /** VK_MAX_MEMORY_TYPES: memoryTypeCount never exceeds it. */
  const MaxMemoryTypes: nat := 32

  // VkQueueFlagBits
  const QueueGraphicsBit: Flags := 0x1
  // VkMemoryPropertyFlagBits
  const MemoryPropertyDeviceLocal: Flags := 0x1
  const MemoryPropertyHostVisible: Flags := 0x2
  const MemoryPropertyHostCoherent: Flags := 0x4
  // VkFormatFeatureFlagBits
  const FormatFeatureDepthStencilAttachment: Flags := 0x200
  // VkAccessFlagBits
  const AccessNone: Flags := 0x0
  const AccessShaderRead: Flags := 0x20
  const AccessTransferWrite: Flags := 0x1000
  // VkPipelineStageFlagBits
  const PipelineStageTopOfPipe: Flags := 0x1
  const PipelineStageFragmentShader: Flags := 0x80
  const PipelineStageColorAttachmentOutput: Flags := 0x400
  const PipelineStageTransfer: Flags := 0x1000
  // VkImageAspectFlagBits
  const ImageAspectColor: Flags := 0x1
  const ImageAspectDepth: Flags := 0x2
  // VkImageUsageFlagBits
  const ImageUsageTransferDst: Flags := 0x2
  const ImageUsageSampled: Flags := 0x4
  const ImageUsageColorAttachment: Flags := 0x10
  const ImageUsageDepthStencilAttachment: Flags := 0x20
  // VkBufferUsageFlagBits
  const BufferUsageTransferSrc: Flags := 0x1
  // VkCompositeAlphaFlagBitsKHR
  const CompositeAlphaOpaque: Flags := 0x1

  /** VkExtent2D */
  datatype Extent2D = Extent2D(width: U32, height: U32)

  /** VkSurfaceCapabilitiesKHR (the fields the engine reads). */
  datatype SurfaceCapabilities = SurfaceCapabilities(
    minImageCount: U32,
    maxImageCount: U32,
    currentExtent: Extent2D,
    minImageExtent: Extent2D,
    maxImageExtent: Extent2D,
    currentTransform: Flags)

  /** VkSurfaceFormatKHR */
  datatype SurfaceFormat = SurfaceFormat(format: Format, colorSpace: ColorSpace)

  /** The engine's SwapChainSupportDetails: what the three surface queries
      of Device::querySwapChainSupport returned. */
  datatype SwapChainSupportDetails = SwapChainSupportDetails(
    capabilities: SurfaceCapabilities,
    formats: seq<SurfaceFormat>,
    presentModes: seq<PresentMode>)
}
