/** Instance and physical-device selection of the Vulkan context
    (src/Morrigu/Renderer/APIs/Vulkan/Context.cpp): the layer and extension
    checks, the queue-family search, the swap-chain support query, the
    suitability test, the device score and the choice of the best device.
    Every Vulkan query becomes data: a physical device is the record of what
    the driver reports about it for the window surface. */
module VulkanContext {
  import opened Wrappers
  import opened VulkanHelper

  /** The layers the debug build asks for (`validationLayers`). */
  const ValidationLayers: seq<string> := ["VK_LAYER_KHRONOS_validation"]

  /** The device extensions every candidate must offer (`deviceExtensions`). */
  const DeviceExtensions: seq<string> := ["VK_KHR_swapchain"]

  /** `VK_PHYSICAL_DEVICE_TYPE_DISCRETE_GPU`. */
  const DeviceTypeDiscreteGpu: int := 2

  /** What the driver reports about one physical device and its support for
      the window surface. */
  datatype PhysicalDevice = PhysicalDevice(
    vendorID: u32,
    deviceType: int,
    geometryShader: bool,
    maxFramebufferWidth: u32,
    maxFramebufferHeight: u32,
    queueFamilies: seq<QueueFamily>,
    extensions: seq<string>,
    capabilities: SurfaceCapabilities,
    surfaceFormats: seq<SurfaceFormat>,
    presentModes: seq<PresentMode>)

  /** The two ways device selection throws. */
  datatype ContextError = NoGpu | NoSuitableGpu

  // ---------------------------------------------------------------------
  // Layers and extensions
  // ---------------------------------------------------------------------

  /** `checkValidationLayerSupport`: for every layer of `ValidationLayers`,
      scan the available layers for one with the same name; give up at the
      first requested layer that is missing. `available` stands for what the
      instance enumerates. */
  method CheckValidationLayerSupport(available: seq<string>) returns (ok: bool)
    ensures ok <==> forall k :: 0 <= k < |ValidationLayers| ==> ValidationLayers[k] in available
  {
    var required := ValidationLayers;
    var i := 0;
    while i < |required|
      invariant 0 <= i <= |required|
      invariant forall k :: 0 <= k < i ==> required[k] in available
    {
      var layerFound := false;
      var j := 0;
      while j < |available|
        invariant 0 <= j <= |available|
        invariant !layerFound ==> forall k :: 0 <= k < j ==> available[k] != required[i]
        invariant layerFound ==> required[i] in available
      {
        if available[j] == required[i] {
          layerFound := true;
          break;
        }
        j := j + 1;
      }
      if !layerFound {
        assert required[i] !in available;
        return false;
      }
      i := i + 1;
    }
    return true;
  }

  /** `checkDeviceExtensionsSupport`: start from the set of required names and
      erase every name the device offers; the device qualifies when nothing is
      left. `missing` is the set the source logs when it fails. */
  method CheckDeviceExtensionsSupport(extensions: seq<string>) returns (ok: bool, missing: set<string>)
    ensures missing == (set x | x in DeviceExtensions) - (set x | x in extensions)
    ensures ok <==> missing == {}
    ensures ok <==> DeviceExtensionsSupported(extensions)
  {
    missing := set x | x in DeviceExtensions;
    ghost var required := missing;
    var i := 0;
    while i < |extensions|
      invariant 0 <= i <= |extensions|
      invariant missing == required - (set x | x in extensions[..i])
    {
      assert extensions[..i + 1] == extensions[..i] + [extensions[i]];
      missing := missing - {extensions[i]};
      i := i + 1;
    }
    assert extensions[..i] == extensions;
    ok := missing == {};
    if ok {
      forall x | x in DeviceExtensions
        ensures x in extensions
      {
        assert x in required && x !in missing;
      }
    } else {
      var name :| name in missing;
      assert name in DeviceExtensions && name !in extensions;
    }
  }

  /** Every required device extension is among those the device offers. */
  predicate DeviceExtensionsSupported(extensions: seq<string>)
  {
    forall x :: x in DeviceExtensions ==> x in extensions
  }

  /** The extension matching of `createInstance`, with the inner scan bounded
      by the current length of the supported list: every required extension
      erases the first supported entry of the same name, and a required
      extension with no match trips the assertion (reported here as
      `allSupported == false`; the scan then goes on, as in a release build). */
  method MatchInstanceExtensions(required: seq<string>, supported: seq<string>)
    returns (allSupported: bool, leftover: seq<string>)
    ensures allSupported <==> multiset(required) <= multiset(supported)
    ensures multiset(leftover) == multiset(supported) - multiset(required)
  {
    leftover := supported;
    allSupported := true;
    var i := 0;
    while i < |required|
      invariant 0 <= i <= |required|
      invariant multiset(leftover) == multiset(supported) - multiset(required[..i])
      invariant allSupported <==> multiset(required[..i]) <= multiset(supported)
    {
      var isSupported, j := FirstMatch(leftover, required[i]);
      MultisetStep(multiset(supported), multiset(required[..i]), required[i]);
      assert required[..i + 1] == required[..i] + [required[i]];
      if isSupported {
        EraseAt(leftover, j);
        leftover := leftover[..j] + leftover[j + 1..];
      } else {
        allSupported := false;
      }
      i := i + 1;
    }
    assert required[..i] == required;
  }

  /** The inner scan of the extension matching: the first position holding
      `name`, if any. */
  method FirstMatch(s: seq<string>, name: string) returns (found: bool, j: nat)
    ensures found <==> name in s
    ensures found ==> j < |s| && s[j] == name && name !in s[..j]
  {
    j := 0;
    while j < |s|
      invariant 0 <= j <= |s|
      invariant name !in s[..j]
    {
      if s[j] == name {
        return true, j;
      }
      assert s[..j + 1] == s[..j] + [s[j]];
      j := j + 1;
    }
    assert s[..j] == s;
    return false, j;
  }

  /** Erasing position `j` removes exactly one copy of the entry there. */
  lemma EraseAt(s: seq<string>, j: nat)
    requires j < |s|
    ensures multiset(s[..j] + s[j + 1..]) == multiset(s) - multiset{s[j]}
  {
    assert s == s[..j] + [s[j]] + s[j + 1..];
  }

  /** Subtracting one more required name from what is left. */
  lemma MultisetStep(sup: multiset<string>, req: multiset<string>, x: string)
    ensures sup - (req + multiset{x}) == (sup - req) - multiset{x}
    ensures req + multiset{x} <= sup <==> req <= sup && x in sup - req
  {
    assert forall y :: (sup - (req + multiset{x}))[y] == ((sup - req) - multiset{x})[y];
  }

  /** How one pass of the inner scan of `createInstance` ends, with the scan
      bounded by the count of supported extensions queried before the loop. */
  datatype Probe = Matched(at: nat) | Exhausted | ReadPastEnd(at: nat)

  /** The inner scan as written: `j` runs up to `count`, the number of
      supported extensions enumerated before any was erased, while the list
      it indexes shrinks with every match. */
  function ProbeAsWritten(current: seq<string>, name: string, j: nat, count: nat): (p: Probe)
    ensures p.Matched? ==> p.at < |current| && current[p.at] == name
    ensures p.ReadPastEnd? ==> |current| <= p.at < count
    ensures p.ReadPastEnd? ==> forall k :: j <= k < |current| ==> current[k] != name
    ensures p.Exhausted? ==> j < count ==> count <= |current|
    ensures p.Exhausted? ==> forall k :: j <= k < count ==> current[k] != name
    decreases count - j
  {
    if j >= count then Exhausted
    else if j >= |current| then ReadPastEnd(j)
    else if current[j] == name then Matched(j)
    else ProbeAsWritten(current, name, j + 1, count)
  }

  /** The outcome of the whole matching loop as written: either it indexes
      past the end of the shrunken list at some point, or it finishes with
      the assertion verdict and the leftover list. */
  datatype MatchOutcome = IndexedPastEnd | Finished(allSupported: bool, leftover: seq<string>)

  function MatchAsWritten(required: seq<string>, current: seq<string>, count: nat): (r: MatchOutcome)
    ensures r.Finished? ==> |r.leftover| <= |current|
    ensures r.Finished? && r.allSupported ==> |r.leftover| + |required| == |current|
    decreases |required|
  {
    if required == [] then Finished(true, current)
    else match ProbeAsWritten(current, required[0], 0, count)
      case ReadPastEnd(_) => IndexedPastEnd
      case Exhausted =>
        (match MatchAsWritten(required[1..], current, count)
         case IndexedPastEnd => IndexedPastEnd
         case Finished(_, rest) => Finished(false, rest))
      case Matched(j) => MatchAsWritten(required[1..], current[..j] + current[j + 1..], count)
  }

  /** The loop as written reads past the end of the supported list: with two
      required extensions of which only the first is supported, the first
      match empties the list, yet the scan for the second still reads index
      0, because its bound is the original count of 1. */
  lemma {:induction false} MatchAsWrittenReadsPastEnd()
    ensures MatchAsWritten(["VK_KHR_surface", "VK_EXT_debug_utils"], ["VK_KHR_surface"], 1) == IndexedPastEnd
  {
    var required := ["VK_KHR_surface", "VK_EXT_debug_utils"];
    var supported := ["VK_KHR_surface"];
    assert ProbeAsWritten(supported, required[0], 0, 1) == Matched(0);
    assert supported[..0] + supported[1..] == [];
    assert required[1..] == ["VK_EXT_debug_utils"];
    assert ProbeAsWritten([], required[1], 0, 1) == ReadPastEnd(0);
  }

  /** The out-of-range read only happens on the failure path: when the loop
      as written reads past the end, some required extension really is
      missing, so the bounded loop of `MatchInstanceExtensions` reports the
      same failure without the overrun. */
  lemma {:induction false} ReadPastEndOnlyWhenMissing(required: seq<string>, current: seq<string>, count: nat)
    requires |current| <= count
    ensures MatchAsWritten(required, current, count) == IndexedPastEnd ==>
      !(multiset(required) <= multiset(current))
    decreases |required|
  {
    if required != [] && MatchAsWritten(required, current, count) == IndexedPastEnd {
      var x := required[0];
      assert required == [x] + required[1..];
      assert multiset(required) == multiset{x} + multiset(required[1..]);
      match ProbeAsWritten(current, x, 0, count)
      case ReadPastEnd(_) =>
        assert x !in multiset(current);
      case Exhausted =>
        assert x !in multiset(current);
      case Matched(j) =>
        var rest := current[..j] + current[j + 1..];
        ReadPastEndOnlyWhenMissing(required[1..], rest, count);
        EraseAt(current, j);
        MultisetStep(multiset(current), multiset(required[1..]), x);
    }
  }

  /** Whenever the loop as written stays inside the list, it agrees with
      `MatchInstanceExtensions`: the verdict is multiset inclusion and the
      leftover list is what is supported minus what is required. */
  lemma {:induction false} MatchAsWrittenAgreesInBounds(required: seq<string>, current: seq<string>, count: nat)
    requires |current| <= count
    ensures match MatchAsWritten(required, current, count)
      case IndexedPastEnd => true
      case Finished(allSupported, leftover) =>
        && (allSupported <==> multiset(required) <= multiset(current))
        && multiset(leftover) == multiset(current) - multiset(required)
    decreases |required|
  {
    if required != [] {
      var x := required[0];
      var tail := required[1..];
      assert required == [x] + tail;
      assert multiset(required) == multiset{x} + multiset(tail);
      match ProbeAsWritten(current, x, 0, count)
      case ReadPastEnd(_) =>
      case Exhausted =>
        ExhaustedMeansAbsent(current, x, count);
        MatchAsWrittenAgreesInBounds(tail, current, count);
        SkipMissing(multiset(current), multiset(tail), x);
      case Matched(j) =>
        var rest := current[..j] + current[j + 1..];
        MatchAsWrittenAgreesInBounds(tail, rest, count);
        EraseAt(current, j);
        TakePresent(multiset(current), multiset(tail), x);
    }
  }

  /** Within bounds, a scan that runs out has looked at every entry. */
  lemma ExhaustedMeansAbsent(current: seq<string>, name: string, count: nat)
    requires |current| <= count && ProbeAsWritten(current, name, 0, count).Exhausted?
    ensures name !in multiset(current)
  {
    assert forall k :: 0 <= k < |current| ==> current[k] != name;
  }

  /** A required name that is not supported fails the inclusion and leaves
      the difference as it was. */
  lemma SkipMissing(sup: multiset<string>, req: multiset<string>, x: string)
    requires x !in sup
    ensures !(multiset{x} + req <= sup)
    ensures sup - (multiset{x} + req) == sup - req
  {
    assert forall y :: (sup - (multiset{x} + req))[y] == (sup - req)[y];
  }

  /** Erasing one copy of a supported name and then matching the rest is
      matching all of them at once. */
  lemma TakePresent(sup: multiset<string>, req: multiset<string>, x: string)
    requires x in sup
    ensures (sup - multiset{x}) - req == sup - (multiset{x} + req)
    ensures req <= sup - multiset{x} <==> multiset{x} + req <= sup
  {
    assert forall y :: ((sup - multiset{x}) - req)[y] == (sup - (multiset{x} + req))[y];
    if multiset{x} + req <= sup {
      assert forall y :: req[y] <= (sup - multiset{x})[y];
    }
  }

  // ---------------------------------------------------------------------
  // Queue families
  // ---------------------------------------------------------------------

  /** The indices the search of `findQueueFamilies` holds after looking at
      the families `fs` without stopping: the last family with the graphics
      bit and the last one with present support. */
  ghost function Recorded(fs: seq<QueueFamily>): QueueFamilyIndices
  {
    if fs == [] then QueueFamilyIndices(None, None)
    else
      var r := Recorded(fs[..|fs| - 1]);
      var i := |fs| - 1;
      QueueFamilyIndices(
        if HasGraphics(fs[i]) then Some(i) else r.graphicsFamily,
        if fs[i].presentSupport then Some(i) else r.presentFamily)
  }

  /** Some family of `fs` can draw and some family can present. */
  predicate QueueFamiliesComplete(fs: seq<QueueFamily>)
  {
    && (exists i :: 0 <= i < |fs| && HasGraphics(fs[i]))
    && (exists i :: 0 <= i < |fs| && fs[i].presentSupport)
  }

  /** A recorded index always names a family with the property it was
      recorded for, and one is recorded exactly when such a family exists. */
  lemma {:induction false} RecordedIsSound(fs: seq<QueueFamily>)
    ensures var r := Recorded(fs);
      && (r.graphicsFamily.Some? <==> exists i :: 0 <= i < |fs| && HasGraphics(fs[i]))
      && (r.presentFamily.Some? <==> exists i :: 0 <= i < |fs| && fs[i].presentSupport)
      && (r.graphicsFamily.Some? ==> r.graphicsFamily.value < |fs| && HasGraphics(fs[r.graphicsFamily.value]))
      && (r.presentFamily.Some? ==> r.presentFamily.value < |fs| && fs[r.presentFamily.value].presentSupport)
    ensures Recorded(fs).IsComplete() <==> QueueFamiliesComplete(fs)
  {
    if fs != [] {
      var init := fs[..|fs| - 1];
      RecordedIsSound(init);
      assert forall i :: 0 <= i < |init| ==> init[i] == fs[i];
    }
  }

  /** `findQueueFamilies`: walk the families in order, recording each one
      that has the graphics bit and each one the surface can present from,
      and stop as soon as both are recorded. */
  method FindQueueFamilies(families: seq<QueueFamily>) returns (indices: QueueFamilyIndices)
    ensures indices.graphicsFamily.Some? ==>
      indices.graphicsFamily.value < |families| && HasGraphics(families[indices.graphicsFamily.value])
    ensures indices.presentFamily.Some? ==>
      indices.presentFamily.value < |families| && families[indices.presentFamily.value].presentSupport
    ensures indices.IsComplete() <==> QueueFamiliesComplete(families)
    ensures exists n :: (0 <= n <= |families| && indices == Recorded(families[..n])
      && (n < |families| ==> indices.IsComplete())
      && (0 < n && indices.IsComplete() ==> !Recorded(families[..n - 1]).IsComplete()))
  {
    indices := QueueFamilyIndices(None, None);
    var i := 0;
    while i < |families|
      invariant 0 <= i <= |families|
      invariant indices == Recorded(families[..i])
      invariant !indices.IsComplete()
    {
      assert families[..i + 1][..i] == families[..i];
      if HasGraphics(families[i]) {
        indices := indices.(graphicsFamily := Some(i));
      }
      if families[i].presentSupport {
        indices := indices.(presentFamily := Some(i));
      }
      if indices.IsComplete() {
        StopsAtFirstComplete(families, i + 1);
        return;
      }
      i := i + 1;
    }
    assert families[..i] == families;
    RecordedIsSound(families);
  }

  /** What the search reports when it stops after `n` families. */
  lemma StopsAtFirstComplete(families: seq<QueueFamily>, n: nat)
    requires 0 < n <= |families|
    requires Recorded(families[..n]).IsComplete() && !Recorded(families[..n - 1]).IsComplete()
    ensures var indices := Recorded(families[..n]);
      && (indices.graphicsFamily.Some? ==>
        indices.graphicsFamily.value < |families| && HasGraphics(families[indices.graphicsFamily.value]))
      && (indices.presentFamily.Some? ==>
        indices.presentFamily.value < |families| && families[indices.presentFamily.value].presentSupport)
      && QueueFamiliesComplete(families)
  {
    var prefix := families[..n];
    RecordedIsSound(prefix);
    var r := Recorded(prefix);
    assert prefix[r.graphicsFamily.value] == families[r.graphicsFamily.value];
    assert prefix[r.presentFamily.value] == families[r.presentFamily.value];
  }

  /** The queue families `createDevice` asks one queue of: the distinct
      values of the graphics and present indices, in the ascending order a
      `std::set` iterates them. */
  function UniqueQueueFamilies(graphicsFamily: nat, presentFamily: nat): (r: seq<nat>)
    ensures forall f :: f in r <==> f == graphicsFamily || f == presentFamily
    ensures |r| == if graphicsFamily == presentFamily then 1 else 2
    ensures forall i, j :: 0 <= i < j < |r| ==> r[i] < r[j]
  {
    if graphicsFamily == presentFamily then [graphicsFamily]
    else if graphicsFamily < presentFamily then [graphicsFamily, presentFamily]
    else [presentFamily, graphicsFamily]
  }

  // ---------------------------------------------------------------------
  // Swap-chain support, suitability, score and choice
  // ---------------------------------------------------------------------

  /** `std::vector::resize`: keep the first `n` entries, or pad with
      value-initialised entries up to `n`. */
  function Resize(s: seq<SurfaceFormat>, n: nat): (r: seq<SurfaceFormat>)
    ensures |r| == n
    ensures forall i :: 0 <= i < n && i < |s| ==> r[i] == s[i]
    ensures forall i :: |s| <= i < n ==> r[i] == SurfaceFormat(0, 0)
  {
    if n <= |s| then s[..n] else s + seq(n - |s|, _ => SurfaceFormat(0, 0))
  }

  /** `querySwapChainSupport` as written: the present-mode count resizes the
      format list a second time, and the present modes are written into
      `presentModes.data()` of a vector that was never resized, so no mode is
      stored. */
  function QuerySwapChainSupportAsWritten(d: PhysicalDevice): (r: SwapChainSupportDetails)
    ensures r.presentModes == []
    ensures r.capabilities == d.capabilities
    ensures |r.formats| == if |d.presentModes| != 0 then |d.presentModes| else |d.surfaceFormats|
  {
    var formats := d.surfaceFormats;
    var formats := if |d.presentModes| != 0 then Resize(formats, |d.presentModes|) else formats;
    SwapChainSupportDetails(d.capabilities, formats, [])
  }

  /** `querySwapChainSupport` with the second resize applied to the present
      modes, as the symmetry of its two halves shows was meant. */
  function QuerySwapChainSupport(d: PhysicalDevice): (r: SwapChainSupportDetails)
    ensures r.capabilities == d.capabilities && r.formats == d.surfaceFormats && r.presentModes == d.presentModes
    ensures r == QuerySwapChainSupportAsWritten(d) <==> d.presentModes == []
  {
    SwapChainSupportDetails(d.capabilities, d.surfaceFormats, d.presentModes)
  }

  /** The four tests of `isDeviceSuitable`, against the swap-chain details
      the query returned. */
  function SuitableWith(d: PhysicalDevice, details: SwapChainSupportDetails): (ok: bool)
    ensures ok ==> details.formats != [] && details.presentModes != []
    ensures ok <==> (d.geometryShader && Recorded(d.queueFamilies).IsComplete()
      && DeviceExtensionsSupported(d.extensions) && details.formats != [] && details.presentModes != [])
  {
    RecordedIsSound(d.queueFamilies);
    && d.geometryShader
    && QueueFamiliesComplete(d.queueFamilies)
    && DeviceExtensionsSupported(d.extensions)
    && details.formats != [] && details.presentModes != []
  }

  /** `isDeviceSuitable` over the corrected query. */
  function IsDeviceSuitable(d: PhysicalDevice): (ok: bool)
    ensures ok <==> (d.geometryShader && QueueFamiliesComplete(d.queueFamilies)
      && DeviceExtensionsSupported(d.extensions) && d.surfaceFormats != [] && d.presentModes != [])
  {
    SuitableWith(d, QuerySwapChainSupport(d))
  }

  /** `evaluateDevice` over a given suitability verdict: 0 for an unsuitable
      device, otherwise a bonus of 10000 for a discrete GPU plus the largest
      framebuffer height and width. The score is a `size_t`, which the sum of
      two 32-bit limits and the bonus cannot overflow. */
  function Score(d: PhysicalDevice, suitable: bool): (r: nat)
    ensures !suitable ==> r == 0
    ensures suitable ==> r >= d.maxFramebufferWidth + d.maxFramebufferHeight
    ensures suitable && d.deviceType == DeviceTypeDiscreteGpu ==> r == 10000 + d.maxFramebufferWidth + d.maxFramebufferHeight
    ensures suitable && d.deviceType != DeviceTypeDiscreteGpu ==> r == d.maxFramebufferWidth + d.maxFramebufferHeight
    ensures r > 0 <==> suitable && (d.deviceType == DeviceTypeDiscreteGpu || d.maxFramebufferWidth + d.maxFramebufferHeight > 0)
    ensures r < 10000 + 2 * U32Limit
  {
    if !suitable then 0
    else (if d.deviceType == DeviceTypeDiscreteGpu then 10000 else 0) + d.maxFramebufferHeight + d.maxFramebufferWidth
  }

  /** `evaluateDevice` over the corrected query. */
  function EvaluateDevice(d: PhysicalDevice): (r: nat)
    ensures !IsDeviceSuitable(d) ==> r == 0
    ensures IsDeviceSuitable(d) ==>
      r == (if d.deviceType == DeviceTypeDiscreteGpu then 10000 else 0) + d.maxFramebufferWidth + d.maxFramebufferHeight
  {
    Score(d, IsDeviceSuitable(d))
  }

  /** `evaluateDevice` over the query as written: no device scores. */
  function EvaluateDeviceAsWritten(d: PhysicalDevice): (r: nat)
    ensures r == 0
  {
    Score(d, SuitableWith(d, QuerySwapChainSupportAsWritten(d)))
  }

  /** Finding, as written: since no present mode is ever stored, the test of
      line 311 fails for every device that gets that far, so every device
      scores 0 and device selection always throws "no suitable GPU found". */
  lemma AsWrittenRejectsEveryDevice(devices: seq<PhysicalDevice>)
    ensures forall d :: !SuitableWith(d, QuerySwapChainSupportAsWritten(d)) && EvaluateDeviceAsWritten(d) == 0
    ensures PickBest(devices, EvaluateDeviceAsWritten) == if devices == [] then Err(NoGpu) else Err(NoSuitableGpu)
  {
    PickBestFailsOnlyWhenAllZero(devices, EvaluateDeviceAsWritten);
  }

  /** Corrected: a device with a geometry shader, complete queue families,
      the swap-chain extension and at least one surface format and present
      mode is suitable, and a discrete one scores above any integrated one of
      no larger framebuffer. */
  lemma CapableDeviceIsSuitable(d: PhysicalDevice, e: PhysicalDevice)
    requires d.geometryShader && QueueFamiliesComplete(d.queueFamilies) && DeviceExtensionsSupported(d.extensions)
    requires d.surfaceFormats != [] && d.presentModes != []
    ensures IsDeviceSuitable(d) && (d.deviceType == DeviceTypeDiscreteGpu ==> EvaluateDevice(d) > 0)
    ensures d.deviceType == DeviceTypeDiscreteGpu && e.deviceType != DeviceTypeDiscreteGpu
      && e.maxFramebufferWidth <= d.maxFramebufferWidth && e.maxFramebufferHeight <= d.maxFramebufferHeight
      ==> EvaluateDevice(e) < EvaluateDevice(d)
  {
  }

  /** The device `pickPhysicalDevice` returns, by its position in the
      enumeration: every device is scored, the scores go into a multimap, and
      the last entry of the multimap wins unless its score is 0. Equal keys
      keep insertion order in a multimap, so among the best-scoring devices
      the last one enumerated is chosen. */
  function PickBest(devices: seq<PhysicalDevice>, score: PhysicalDevice -> nat): (r: Result<nat, ContextError>)
    ensures devices == [] <==> r == Err(NoGpu)
    ensures r.Ok? ==> r.value < |devices| && score(devices[r.value]) > 0
    ensures r.Ok? ==> forall i :: 0 <= i < |devices| ==> score(devices[i]) <= score(devices[r.value])
    ensures r.Ok? ==> forall i :: r.value < i < |devices| ==> score(devices[i]) < score(devices[r.value])
  {
    if devices == [] then Err(NoGpu)
    else
      var best := LastBest(devices, score, |devices|);
      if score(devices[best]) == 0 then Err(NoSuitableGpu) else Ok(best)
  }

  /** Index of the last maximal score among the first `n` devices. */
  function LastBest(devices: seq<PhysicalDevice>, score: PhysicalDevice -> nat, n: nat): (b: nat)
    requires 0 < n <= |devices|
    ensures b < n
    ensures forall i :: 0 <= i < n ==> score(devices[i]) <= score(devices[b])
    ensures forall i :: b < i < n ==> score(devices[i]) < score(devices[b])
  {
    if n == 1 then 0
    else
      var b := LastBest(devices, score, n - 1);
      if score(devices[n - 1]) >= score(devices[b]) then n - 1 else b
  }

  /** Selection fails for a non-empty list exactly when every device scores 0. */
  lemma PickBestFailsOnlyWhenAllZero(devices: seq<PhysicalDevice>, score: PhysicalDevice -> nat)
    ensures PickBest(devices, score) == Err(NoSuitableGpu) <==>
      devices != [] && forall i :: 0 <= i < |devices| ==> score(devices[i]) == 0
  {
    if devices != [] && PickBest(devices, score) != Err(NoSuitableGpu) {
      var r := PickBest(devices, score);
      assert score(devices[r.value]) > 0;
    }
  }

  /** The loop of `pickPhysicalDevice` that scores every device in
      enumeration order and keeps the last best one, as reading `rbegin` of
      the score multimap does. */
  method ScoreCandidates(devices: seq<PhysicalDevice>, score: PhysicalDevice -> nat) returns (best: nat, bestScore: nat)
    requires devices != []
    ensures best == LastBest(devices, score, |devices|) && bestScore == score(devices[best])
  {
    best := 0;
    bestScore := score(devices[0]);
    var i := 1;
    while i < |devices|
      invariant 1 <= i <= |devices|
      invariant best == LastBest(devices, score, i) && bestScore == score(devices[best])
    {
      var s := score(devices[i]);
      if s >= bestScore {
        best, bestScore := i, s;
      }
      i := i + 1;
    }
  }

  /** `pickPhysicalDevice`: score every device, then throw if there is none
      or if the best score is 0, and otherwise return the best one (the last
      among equals). */
  method PickPhysicalDevice(devices: seq<PhysicalDevice>) returns (r: Result<nat, ContextError>)
    ensures r == PickBest(devices, EvaluateDevice)
    ensures r == Err(NoSuitableGpu) <==> devices != [] && forall i :: 0 <= i < |devices| ==> !IsDeviceSuitable(devices[i]) || EvaluateDevice(devices[i]) == 0
  {
    PickBestFailsOnlyWhenAllZero(devices, EvaluateDevice);
    if |devices| == 0 {
      return Err(NoGpu);
    }
    var best, bestScore := ScoreCandidates(devices, EvaluateDevice);
    if bestScore == 0 {
      r := Err(NoSuitableGpu);
    } else {
      r := Ok(best);
    }
  }

  // ---------------------------------------------------------------------
  // Vendor names
  // ---------------------------------------------------------------------

  /** `vendorStringfromID`: the PCI vendor ids the engine knows by name. */
  function VendorString(vendorID: u32): (r: string)
    ensures r == "Unknown vendor" <==> vendorID !in {0x1002, 0x1010, 0x10DE, 0x13B5, 0x5143, 0x8086}
  {
    match vendorID
    case 0x1002 => "AMD"
    case 0x1010 => "ImgTec"
    case 0x10DE => "NVIDIA"
    case 0x13B5 => "ARM"
    case 0x5143 => "Qualcomm"
    case 0x8086 => "Intel"
    case _ => "Unknown vendor"
  }

  /** Distinct known vendors get distinct names. */
  lemma VendorStringsDistinct(a: u32, b: u32)
    requires a != b
    requires VendorString(a) != "Unknown vendor"
    ensures VendorString(a) != VendorString(b)
  {
  }
}
