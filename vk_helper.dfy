/** Vulkan values the renderer reads, as plain records
    (src/Morrigu/Renderer/APIs/Vulkan/Helper.h and the Vulkan structures it
    names). Handles become numbers, queries become data, and only the
    enumerant values the renderer compares against are named. */
module VulkanHelper {
  import opened Wrappers

  /** `VkResult` values the renderer distinguishes. */
  const VkSuccess: int := 0
  const VkSuboptimal: int := 1000001003
  const VkErrorOutOfDate: int := -1000001004

  /** `MRG_VKVALIDATE`: any result other than VK_SUCCESS becomes a thrown
      error carrying the given message. */
  function Validate(result: int, message: string): (r: Result<(), string>)
    ensures r.Ok? <==> result == VkSuccess
    ensures r.Err? ==> r.error == message
  {
    if result != VkSuccess then Err(message) else Ok(())
  }

  /** `VkFormat` codes. */
  type Format = int
  const FormatB8G8R8Srgb: Format := 36
  const FormatD32Sfloat: Format := 126
  const FormatD24UnormS8Uint: Format := 129
  const FormatD32SfloatS8Uint: Format := 130
  const FormatMaxEnum: Format := 0x7FFF_FFFF

  /** `VkColorSpaceKHR` codes. */
  type ColorSpace = int
  const ColorSpaceSrgbNonlinear: ColorSpace := 0

  /** `VkPresentModeKHR` codes. */
  type PresentMode = int
  const PresentModeImmediate: PresentMode := 0
  const PresentModeMailbox: PresentMode := 1
  const PresentModeFifo: PresentMode := 2
  const PresentModeFifoRelaxed: PresentMode := 3

  datatype SurfaceFormat = SurfaceFormat(format: Format, colorSpace: ColorSpace)

  datatype Extent = Extent(width: u32, height: u32)

  /** The parts of `VkSurfaceCapabilitiesKHR` the renderer reads. A
      `maxImageCount` of 0 means "no limit"; a `currentExtent.width` of
      0xFFFFFFFF means the swap chain chooses the extent. */
  datatype SurfaceCapabilities = SurfaceCapabilities(
    minImageCount: u32,
    maxImageCount: u32,
    currentExtent: Extent,
    minImageExtent: Extent,
    maxImageExtent: Extent)

  /** `SwapChainSupportDetails`. */
  datatype SwapChainSupportDetails = SwapChainSupportDetails(
    capabilities: SurfaceCapabilities,
    formats: seq<SurfaceFormat>,
    presentModes: seq<PresentMode>)

  /** `QueueFamilyIndices`: the queue families found for graphics and for
      presentation, if any. */
  datatype QueueFamilyIndices = QueueFamilyIndices(graphicsFamily: Option<nat>, presentFamily: Option<nat>)
  {
    /** `isComplete`. */
    predicate IsComplete() { graphicsFamily.Some? && presentFamily.Some? }
  }

  /** `VkQueueFlags` bit for graphics queues. */
  const QueueGraphicsBit: bv32 := 1

  /** One queue family of a physical device: its flags and whether the
      surface reported present support for it. */
  datatype QueueFamily = QueueFamily(queueFlags: bv32, presentSupport: bool)

  predicate HasGraphics(f: QueueFamily) { f.queueFlags & QueueGraphicsBit != 0 }
}
