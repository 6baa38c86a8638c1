/** Swap-chain configuration of the Vulkan 2D renderer
    (src/Morrigu/Renderer/APIs/Vulkan/Renderer2D.cpp): the choice of surface
    format, present mode and extent, the requested image count, the sharing
    mode between the graphics and present queues, and the search for a depth
    format. All of it is first-match search and clamping over what the
    surface reports. */
module VulkanSwapChain {
  import opened Wrappers
  import opened VulkanHelper

  /** The surface format the renderer prefers: 8-bit BGR in sRGB. */
  const PreferredSurfaceFormat := SurfaceFormat(FormatB8G8R8Srgb, ColorSpaceSrgbNonlinear)

  /** The first preferred format of `formats`, if any. */
  function FindPreferredFormat(formats: seq<SurfaceFormat>): (r: Option<SurfaceFormat>)
    ensures r.Some? <==> PreferredSurfaceFormat in formats
    ensures r.Some? ==> r.value == PreferredSurfaceFormat
  {
    if formats == [] then None
    else if formats[0].format == FormatB8G8R8Srgb && formats[0].colorSpace == ColorSpaceSrgbNonlinear then Some(formats[0])
    else
      assert formats == [formats[0]] + formats[1..];
      FindPreferredFormat(formats[1..])
  }

  /** `chooseSwapFormat`: the preferred format when the surface offers it,
      the first format offered otherwise. The list must not be empty, which
      the suitability check is meant to guarantee. */
  function ChooseSwapFormat(formats: seq<SurfaceFormat>): (r: SurfaceFormat)
    requires formats != []
    ensures r in formats
    ensures r == PreferredSurfaceFormat <==> PreferredSurfaceFormat in formats
    ensures PreferredSurfaceFormat !in formats ==> r == formats[0]
  {
    match FindPreferredFormat(formats)
    case Some(f) => f
    case None => formats[0]
  }

  /** `chooseSwapPresentMode`: mailbox (triple buffering) when offered,
      otherwise FIFO, whether or not the list names it. */
  function ChooseSwapPresentMode(modes: seq<PresentMode>): (r: PresentMode)
    ensures r == PresentModeMailbox <==> PresentModeMailbox in modes
    ensures r != PresentModeMailbox ==> r == PresentModeFifo
  {
    if modes == [] then PresentModeFifo
    else if modes[0] == PresentModeMailbox then modes[0]
    else
      assert modes == [modes[0]] + modes[1..];
      ChooseSwapPresentMode(modes[1..])
  }

  /** Every surface supports FIFO, so on a conforming surface the chosen
      present mode is always one the surface offers. */
  lemma ChosenPresentModeIsOffered(modes: seq<PresentMode>)
    requires PresentModeFifo in modes
    ensures ChooseSwapPresentMode(modes) in modes
  {
  }

  /** `std::clamp(v, lo, hi)`, which the standard defines for `lo <= hi`:
      `lo` when `v` is below it, `hi` when `v` is above it, else `v`. When
      `hi < lo` the source's behaviour is undefined and this is one possible
      value; the contracts below say nothing about that case beyond
      returning one of the three arguments. */
  function Clamp(v: u32, lo: u32, hi: u32): (r: u32)
    ensures lo <= hi ==> lo <= r <= hi
    ensures lo <= v <= hi ==> r == v
    ensures r == v || r == lo || r == hi
  {
    if v < lo then lo else if hi < v then hi else v
  }

  /** `chooseSwapExtent`: the surface's current extent when it has one;
      when its width is the special value 0xFFFFFFFF, the window's size
      clamped dimension by dimension into the extents the surface allows. */
  function ChooseSwapExtent(caps: SurfaceCapabilities, window: Extent): (r: Extent)
    ensures caps.currentExtent.width != U32Max ==> r == caps.currentExtent
    ensures caps.currentExtent.width == U32Max ==>
      && r.width == Clamp(window.width, caps.minImageExtent.width, caps.maxImageExtent.width)
      && r.height == Clamp(window.height, caps.minImageExtent.height, caps.maxImageExtent.height)
  {
    if caps.currentExtent.width != U32Max then caps.currentExtent
    else
      Extent(Clamp(window.width, caps.minImageExtent.width, caps.maxImageExtent.width),
             Clamp(window.height, caps.minImageExtent.height, caps.maxImageExtent.height))
  }

  /** When the swap chain picks the extent, the chosen extent lies within
      the surface's bounds, and a window that already fits keeps its size. */
  lemma ChosenExtentFits(caps: SurfaceCapabilities, window: Extent)
    requires caps.currentExtent.width == U32Max
    requires caps.minImageExtent.width <= caps.maxImageExtent.width
    requires caps.minImageExtent.height <= caps.maxImageExtent.height
    ensures var r := ChooseSwapExtent(caps, window);
      && caps.minImageExtent.width <= r.width <= caps.maxImageExtent.width
      && caps.minImageExtent.height <= r.height <= caps.maxImageExtent.height
      && ((caps.minImageExtent.width <= window.width <= caps.maxImageExtent.width
           && caps.minImageExtent.height <= window.height <= caps.maxImageExtent.height) ==> r == window)
  {
  }

  /** The image count `createSwapChain` asks for: one more than the
      minimum, in `uint32_t` arithmetic, lowered to the maximum when there is
      one (a maximum of 0 means none). */
  function ImageCount(caps: SurfaceCapabilities): (r: u32)
    ensures caps.maxImageCount > 0 ==> r <= caps.maxImageCount
    ensures caps.minImageCount < U32Max && (caps.maxImageCount == 0 || caps.minImageCount < caps.maxImageCount) ==>
      r == caps.minImageCount + 1
    ensures caps.minImageCount < U32Max && (caps.maxImageCount == 0 || caps.minImageCount <= caps.maxImageCount) ==>
      caps.minImageCount <= r
  {
    var count := AddU32(caps.minImageCount, 1);
    if caps.maxImageCount > 0 && count > caps.maxImageCount then caps.maxImageCount else count
  }

  /** How the swap-chain images are shared between queue families. */
  datatype SharingMode = Exclusive | Concurrent(queueFamilyIndices: seq<nat>)

  /** The sharing choice of `createSwapChain`: concurrent between the two
      families when graphics and presentation use different ones, exclusive
      otherwise. The family indices must both be known (the source reads
      them with `optional::value`). */
  function ChooseSharingMode(indices: QueueFamilyIndices): (r: SharingMode)
    requires indices.IsComplete()
    ensures r.Concurrent? <==> indices.graphicsFamily != indices.presentFamily
    ensures r.Concurrent? ==>
      && |r.queueFamilyIndices| == 2
      && r.queueFamilyIndices[0] == indices.graphicsFamily.value
      && r.queueFamilyIndices[1] == indices.presentFamily.value
      && r.queueFamilyIndices[0] != r.queueFamilyIndices[1]
  {
    if indices.graphicsFamily != indices.presentFamily then
      Concurrent([indices.graphicsFamily.value, indices.presentFamily.value])
    else Exclusive
  }

  /** A created swap chain as the renderer keeps it: the count it asked for,
      the count of images the driver actually made, and the chosen
      configuration. */
  datatype SwapChain = SwapChain(
    minImageCount: u32,
    imageCount: u32,
    imageFormat: Format,
    colorSpace: ColorSpace,
    extent: Extent,
    presentMode: PresentMode,
    sharing: SharingMode)

  /** `createSwapChain`, given what the surface reports, the queue families,
      the window size and the number of images the driver returns. The
      driver may make more images than asked for; everything sized per image
      later follows `imageCount`, not the requested count. */
  function CreateSwapChain(support: SwapChainSupportDetails, indices: QueueFamilyIndices, window: Extent, grantedImageCount: u32): (s: SwapChain)
    requires support.formats != []
    requires indices.IsComplete()
    ensures SurfaceFormat(s.imageFormat, s.colorSpace) in support.formats
    ensures SurfaceFormat(s.imageFormat, s.colorSpace) == ChooseSwapFormat(support.formats)
    ensures s.minImageCount == ImageCount(support.capabilities) && s.imageCount == grantedImageCount
    ensures s.presentMode == PresentModeMailbox <==> PresentModeMailbox in support.presentModes
    ensures s.presentMode == ChooseSwapPresentMode(support.presentModes)
    ensures s.extent == ChooseSwapExtent(support.capabilities, window)
    ensures s.sharing.Concurrent? <==> indices.graphicsFamily != indices.presentFamily
    ensures s.sharing == ChooseSharingMode(indices)
  {
    var format := ChooseSwapFormat(support.formats);
    SwapChain(
      ImageCount(support.capabilities),
      grantedImageCount,
      format.format,
      format.colorSpace,
      ChooseSwapExtent(support.capabilities, window),
      ChooseSwapPresentMode(support.presentModes),
      ChooseSharingMode(indices))
  }

  // ---------------------------------------------------------------------
  // Depth format
  // ---------------------------------------------------------------------

  /** `VkImageTiling` codes. */
  const ImageTilingOptimal: int := 0
  const ImageTilingLinear: int := 1

  /** `VK_FORMAT_FEATURE_DEPTH_STENCIL_ATTACHMENT_BIT`. */
  const FormatFeatureDepthStencilAttachment: bv32 := 0x200

  /** The two feature masks of `VkFormatProperties` the search reads. */
  datatype FormatProperties = FormatProperties(linearTilingFeatures: bv32, optimalTilingFeatures: bv32)

  /** A format qualifies when its features for the requested tiling include
      every requested feature bit. Any tiling other than linear and optimal
      qualifies no format. */
  predicate Qualifies(p: FormatProperties, tiling: int, features: bv32)
  {
    || (tiling == ImageTilingLinear && p.linearTilingFeatures & features == features)
    || (tiling == ImageTilingOptimal && p.optimalTilingFeatures & features == features)
  }

  /** `findSupportedFormat`: the first candidate that qualifies; when none
      does, the source asserts and returns `VK_FORMAT_MAX_ENUM`.
      `properties` stands for the driver's per-format answer. */
  function FindSupportedFormat(candidates: seq<Format>, tiling: int, features: bv32, properties: Format -> FormatProperties): (r: Format)
    ensures (forall i :: 0 <= i < |candidates| ==> !Qualifies(properties(candidates[i]), tiling, features)) ==>
      r == FormatMaxEnum
    ensures (exists i :: 0 <= i < |candidates| && Qualifies(properties(candidates[i]), tiling, features)) ==>
      exists i :: 0 <= i < |candidates| && candidates[i] == r && Qualifies(properties(r), tiling, features)
        && forall k :: 0 <= k < i ==> !Qualifies(properties(candidates[k]), tiling, features)
  {
    if candidates == [] then FormatMaxEnum
    else if Qualifies(properties(candidates[0]), tiling, features) then candidates[0]
    else
      var r := FindSupportedFormat(candidates[1..], tiling, features, properties);
      assert forall i :: 0 < i < |candidates| ==> candidates[i] == candidates[1..][i - 1];
      r
  }

  /** `findDepthFormat`: the depth formats in order of preference. */
  const DepthFormatCandidates: seq<Format> := [FormatD32Sfloat, FormatD32SfloatS8Uint, FormatD24UnormS8Uint]

  function FindDepthFormat(properties: Format -> FormatProperties): (r: Format)
    ensures r == FormatMaxEnum <==> forall i :: 0 <= i < |DepthFormatCandidates| ==>
      !Qualifies(properties(DepthFormatCandidates[i]), ImageTilingOptimal, FormatFeatureDepthStencilAttachment)
    ensures r != FormatMaxEnum ==> exists i :: (0 <= i < |DepthFormatCandidates| && DepthFormatCandidates[i] == r
      && Qualifies(properties(r), ImageTilingOptimal, FormatFeatureDepthStencilAttachment)
      && forall k :: 0 <= k < i ==> !Qualifies(properties(DepthFormatCandidates[k]), ImageTilingOptimal, FormatFeatureDepthStencilAttachment))
  {
    FindSupportedFormat(DepthFormatCandidates, ImageTilingOptimal, FormatFeatureDepthStencilAttachment, properties)
  }

  /** The depth format is one of the three candidates, the first that can be
      a depth attachment with optimal tiling, or the "no format" value. */
  lemma DepthFormatIsPreferredCandidate(properties: Format -> FormatProperties)
    ensures var r := FindDepthFormat(properties);
      && (r in DepthFormatCandidates || r == FormatMaxEnum)
      && (properties(FormatD32Sfloat).optimalTilingFeatures & FormatFeatureDepthStencilAttachment != 0 ==> r == FormatD32Sfloat)
  {
    var r := FindDepthFormat(properties);
    if properties(FormatD32Sfloat).optimalTilingFeatures & FormatFeatureDepthStencilAttachment != 0 {
      assert Qualifies(properties(DepthFormatCandidates[0]), ImageTilingOptimal, FormatFeatureDepthStencilAttachment);
    }
  }
}
