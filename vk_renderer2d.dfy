/** The frame loop of the Vulkan 2D renderer
    (src/Morrigu/Renderer/APIs/Vulkan/Renderer2D.h and Renderer2D.cpp): the
    ring of frames in flight with one fence and one semaphore per slot, the
    table that records which ring fence last claimed each swap-chain image,
    the per-image command buffers, swap-chain recreation, the queued draw
    list and the draw statistics.

    A fence is named by its ring slot and carries only its signalled bit. A
    wait on a fence leaves it signalled (the GPU work it guards is over), a
    reset clears it, and waiting for the device to be idle signals them all.
    Acquire and present results, the window sizes polled while the window is
    minimised and the image count the driver grants come in as arguments. */
module VulkanRenderer2D {
  import opened Wrappers
  import opened VulkanHelper
  import opened VulkanSwapChain
  import R = Renderer2D

  /** Where and how big a quad is drawn. The transform matrix the source
      builds from these is not modelled. */
  datatype Placement = Placement(position: R.Vec3, size: R.Vec2, rotation: real)

  /** One entry of the queued draw list (`DrawCallType::Quad` or
      `DrawCallType::TexturedQuad`). */
  datatype DrawCall =
    | QuadCall(placement: Placement, color: R.Vec4)
    | TexturedQuadCall(placement: Placement, texture: nat, tilingFactor: real, color: R.Vec4)

  /** A command recorded into a command buffer: `vkCmdDrawIndexed` with its
      index count and instance count, and the queued entry it draws. */
  datatype Command = DrawIndexed(indexCount: nat, instanceCount: nat, call: DrawCall)

  /** The indices of the one quad in the index buffer built by `init`: two
      triangles over the four corners. */
  const QuadIndices: seq<nat> := [0, 1, 2, 2, 3, 0]

  /** `m_maxFramesInFlight`: the number of ring slots. */
  const MaxFramesInFlight: nat := 2

  /** The ring slot after `frame` (`(currentFrame + 1) % m_maxFramesInFlight`). */
  function NextFrame(frame: nat): (r: nat)
    requires frame < MaxFramesInFlight
    ensures r < MaxFramesInFlight && r != frame
    ensures r == 0 <==> frame == MaxFramesInFlight - 1
  {
    (frame + 1) % MaxFramesInFlight
  }

  /** The slot reached from `frame` after `k` frames. */
  function AdvanceFrames(frame: nat, k: nat): (r: nat)
    requires frame < MaxFramesInFlight
    ensures r < MaxFramesInFlight
  {
    if k == 0 then frame else NextFrame(AdvanceFrames(frame, k - 1))
  }

  /** After `k` frames the ring is at slot `(frame + k) % m_maxFramesInFlight`:
      it is back where it started exactly every `m_maxFramesInFlight` frames,
      and in between every slot, hence every fence, takes its turn. */
  lemma {:induction false} RingCycles(frame: nat, k: nat)
    requires frame < MaxFramesInFlight
    ensures AdvanceFrames(frame, k) == (frame + k) % MaxFramesInFlight
    ensures AdvanceFrames(frame, k) == frame <==> k % MaxFramesInFlight == 0
  {
    if k > 0 {
      RingCycles(frame, k - 1);
    }
  }

  /** What the surface and the driver report when the swap chain is
      (re)created: the support details, the queue families, and the number of
      images the driver makes. */
  datatype Presentation = Presentation(support: SwapChainSupportDetails, indices: QueueFamilyIndices, grantedImageCount: u32)
  {
    /** What `createSwapChain` needs: a format to choose from and both queue
        families. */
    predicate Usable() { support.formats != [] && indices.IsComplete() }
  }

  /** A window size with no zero dimension (the window is not minimised). */
  predicate Visible(e: Extent) { e.width != 0 && e.height != 0 }

  predicate SomeVisible(sizes: seq<Extent>) { exists k :: 0 <= k < |sizes| && Visible(sizes[k]) }

  /** The first visible size of `sizes`. */
  function FirstVisibleSize(sizes: seq<Extent>): (r: Extent)
    requires SomeVisible(sizes)
    ensures Visible(r) && r in sizes
    ensures Visible(sizes[0]) ==> r == sizes[0]
    ensures exists k :: 0 <= k < |sizes| && sizes[k] == r && forall m :: 0 <= m < k ==> !Visible(sizes[m])
  {
    if Visible(sizes[0]) then sizes[0]
    else
      var k :| 0 <= k < |sizes| && Visible(sizes[k]);
      assert Visible(sizes[1..][k - 1]);
      var r := FirstVisibleSize(sizes[1..]);
      var n :| 0 <= n < |sizes[1..]| && sizes[1..][n] == r && forall m :: 0 <= m < n ==> !Visible(sizes[1..][m]);
      assert sizes[n + 1] == r && forall m :: 0 <= m < n + 1 ==> !Visible(sizes[m]);
      r
  }

  /** `n` freshly allocated command buffers, with nothing recorded. */
  function EmptyBuffers(n: nat): (r: seq<seq<Command>>)
    ensures |r| == n && forall i :: 0 <= i < n ==> r[i] == []
  {
    seq(n, _ => [])
  }

  /** An image table for `n` images, none of them claimed by a fence. */
  function NoOwners(n: nat): (r: seq<Option<nat>>)
    ensures |r| == n && forall i :: 0 <= i < n ==> r[i].None?
  {
    seq(n, _ => None)
  }

  /** `n` fences, all signalled. */
  function AllSignalled(n: nat): (r: seq<bool>)
    ensures |r| == n && forall i :: 0 <= i < n ==> r[i]
  {
    seq(n, _ => true)
  }

  /** The polling loop of `recreateSwapChain`: starting from the window's
      size, read the next polled size for as long as one dimension is 0. */
  method PollVisibleSize(current: Extent, polled: seq<Extent>) returns (w: u32, h: u32)
    requires SomeVisible([current] + polled)
    ensures Extent(w, h) == FirstVisibleSize([current] + polled)
  {
    ghost var sizes := [current] + polled;
    w, h := current.width, current.height;
    var k := 0;
    while w == 0 || h == 0
      invariant 0 <= k <= |polled|
      invariant Extent(w, h) == sizes[k]
      invariant SomeVisible(sizes[k..]) && FirstVisibleSize(sizes) == FirstVisibleSize(sizes[k..])
      decreases |polled| - k
    {
      assert sizes[k..][1..] == sizes[k + 1..];
      assert !Visible(sizes[k..][0]);
      w, h := polled[k].width, polled[k].height;
      k := k + 1;
    }
    assert sizes[k..][0] == Extent(w, h);
  }

  /** `commands` draws the queued entries `calls`, one indexed draw of the
      whole quad per entry, in queue order. */
  predicate RecordsQueue(commands: seq<Command>, calls: seq<DrawCall>)
  {
    && |commands| == |calls|
    && forall i :: 0 <= i < |calls| ==> commands[i] == DrawIndexed(|QuadIndices|, 1, calls[i])
  }

  /** The recording loop of `endFrame`: one `vkCmdDrawIndexed` over the
      quad's indices, one instance, per queued entry in queue order, each
      adding one to the `uint32_t` draw-call counter. */
  method RecordDrawCalls(calls: seq<DrawCall>, drawCalls: u32) returns (commands: seq<Command>, total: u32)
    ensures RecordsQueue(commands, calls)
    ensures total == AddU32(drawCalls, |calls|)
  {
    commands := [];
    total := drawCalls;
    var i := 0;
    while i < |calls|
      invariant 0 <= i <= |calls|
      invariant |commands| == i
      invariant forall k :: 0 <= k < i ==> commands[k] == DrawIndexed(|QuadIndices|, 1, calls[k])
      invariant total == AddU32(drawCalls, i)
    {
      commands := commands + [DrawIndexed(|QuadIndices|, 1, calls[i])];
      AddU32Twice(drawCalls, i, 1);
      total := AddU32(total, 1);
      i := i + 1;
    }
  }

  /** `MRG::Framebuffer`, reduced to the clear colour the renderer forwards. */
  class Framebuffer {
    var clearColor: R.Vec4

    constructor (color: R.Vec4)
      ensures clearColor == color
    {
      clearColor := color;
    }

    method SetClearColor(color: R.Vec4)
      modifies this
      ensures clearColor == color
    {
      clearColor := color;
    }
  }

  class Renderer2D {
    /** `m_maxFramesInFlight`. */
    const maxFramesInFlight: nat := MaxFramesInFlight

    /** `m_data->currentFrame`: the ring slot of the frame being built. */
    var currentFrame: nat
    /** `m_imageIndex`: the swap-chain image acquired for this frame. */
    var imageIndex: u32
    /** `m_inFlightFences`, one signalled bit per ring slot. */
    var inFlightFences: seq<bool>
    /** `m_imageAvailableSemaphores`, one per ring slot; only their number matters here. */
    var imageAvailableSemaphores: nat
    /** `m_imagesInFlight`: per swap-chain image, the ring slot whose fence
        last claimed it, or none. */
    var imagesInFlight: seq<Option<nat>>
    /** `m_data->commandBuffers`: per swap-chain image, what was last recorded into it. */
    var commandBuffers: seq<seq<Command>>
    /** `m_data->swapChain.frameBuffers` and `m_allocators`, by number. */
    var frameBufferCount: nat
    var allocatorCount: nat
    /** `m_data->swapChain` and how many times it was rebuilt. */
    var swapChain: SwapChain
    var swapChainGeneration: nat
    /** `m_data->width`, `m_data->height`: the window size as last known. */
    var width: u32
    var height: u32

    /** `m_batchedDrawCalls`. */
    var batchedDrawCalls: seq<DrawCall>
    var shouldRecreateSwapChain: bool
    var sceneInProgress: bool
    var clearColor: R.Vec4
    var renderTarget: Framebuffer?
    var stats: R.RenderingStatistics

    /** The ring and the image table are consistent: the frame counter is a
        ring slot, there is one fence and one semaphore per slot, every
        recorded owner is a ring slot, there is one command buffer and one
        framebuffer per swap-chain image, and one descriptor allocator per
        entry of the image table (both sized by `init` and never resized). */
    predicate Valid()
      reads this
    {
      && currentFrame < maxFramesInFlight
      && |inFlightFences| == maxFramesInFlight
      && imageAvailableSemaphores == maxFramesInFlight
      && (forall i :: 0 <= i < |imagesInFlight| && imagesInFlight[i].Some? ==> imagesInFlight[i].value < maxFramesInFlight)
      && |commandBuffers| == frameBufferCount == swapChain.imageCount
      && |imagesInFlight| == allocatorCount
    }

    /** The default-constructed renderer, before `init`. */
    constructor ()
      ensures currentFrame == 0 && imageIndex == 0
      ensures inFlightFences == [] && imageAvailableSemaphores == 0 && imagesInFlight == []
      ensures commandBuffers == [] && frameBufferCount == 0 && allocatorCount == 0
      ensures batchedDrawCalls == [] && !shouldRecreateSwapChain && !sceneInProgress
      ensures clearColor == R.Vec4(0.0, 0.0, 0.0, 1.0) && renderTarget == null
      ensures stats == R.FreshStats()
    {
      currentFrame := 0;
      imageIndex := 0;
      inFlightFences := [];
      imageAvailableSemaphores := 0;
      imagesInFlight := [];
      commandBuffers := [];
      frameBufferCount := 0;
      allocatorCount := 0;
      swapChain := SwapChain(0, 0, 0, 0, Extent(0, 0), PresentModeFifo, Exclusive);
      swapChainGeneration := 0;
      width := 0;
      height := 0;
      batchedDrawCalls := [];
      shouldRecreateSwapChain := false;
      sceneInProgress := false;
      clearColor := R.Vec4(0.0, 0.0, 0.0, 1.0);
      renderTarget := null;
      stats := R.FreshStats();
    }

    /** `init`: create the swap chain for the window, one framebuffer,
        descriptor allocator and command buffer per swap-chain image, one
        semaphore and one fence per ring slot with every fence created
        signalled, and an image table with no owner for any image. */
    method Init(window: Extent, pres: Presentation)
      requires pres.Usable()
      requires currentFrame < maxFramesInFlight
      modifies this`width, this`height, this`swapChain, this`frameBufferCount, this`allocatorCount, this`commandBuffers
      modifies this`imageAvailableSemaphores, this`inFlightFences, this`imagesInFlight
      ensures Valid()
      ensures width == window.width && height == window.height
      ensures swapChain == CreateSwapChain(pres.support, pres.indices, window, pres.grantedImageCount)
      ensures frameBufferCount == allocatorCount == |commandBuffers| == swapChain.imageCount
      ensures forall i :: 0 <= i < |commandBuffers| ==> commandBuffers[i] == []
      ensures imageAvailableSemaphores == maxFramesInFlight
      ensures |inFlightFences| == maxFramesInFlight && forall s :: 0 <= s < maxFramesInFlight ==> inFlightFences[s]
      ensures |imagesInFlight| == swapChain.imageCount && forall i :: 0 <= i < |imagesInFlight| ==> imagesInFlight[i].None?
    {
      width, height := window.width, window.height;
      var created := CreateSwapChain(pres.support, pres.indices, window, pres.grantedImageCount);
      var n: nat := created.imageCount;
      swapChain := created;
      frameBufferCount := n;
      allocatorCount := n;
      commandBuffers := EmptyBuffers(n);
      imageAvailableSemaphores := MaxFramesInFlight;
      inFlightFences := AllSignalled(MaxFramesInFlight);
      imagesInFlight := NoOwners(n);
    }

    /** `onWindowResize`: only remembers that the swap chain must be rebuilt;
        the new size reaches the renderer through the window's data. */
    method OnWindowResize(newWidth: u32, newHeight: u32)
      modifies this`shouldRecreateSwapChain
      ensures shouldRecreateSwapChain
    {
      shouldRecreateSwapChain := true;
    }

    /** The state `recreateSwapChain` leaves behind, from the size the
        window had before: the first visible polled size, a swap chain
        created for it, one more generation, one framebuffer and one empty
        command buffer per new image, and every fence signalled by the
        device-idle wait. */
    twostate predicate Recreated(polled: seq<Extent>, pres: Presentation)
      reads this
    {
      var sizes := [Extent(old(width), old(height))] + polled;
      && SomeVisible(sizes) && pres.Usable()
      && Extent(width, height) == FirstVisibleSize(sizes)
      && swapChain == CreateSwapChain(pres.support, pres.indices, Extent(width, height), pres.grantedImageCount)
      && swapChainGeneration == old(swapChainGeneration) + 1
      && frameBufferCount == |commandBuffers| == swapChain.imageCount
      && (forall i :: 0 <= i < |commandBuffers| ==> commandBuffers[i] == [])
      && |inFlightFences| == |old(inFlightFences)|
      && (forall s :: 0 <= s < |inFlightFences| ==> inFlightFences[s])
    }

    /** `recreateSwapChain`: while the window has a zero dimension, poll its
        size (each element of `polled` is one poll); then wait for the device
        to be idle, which leaves every fence signalled, and rebuild the swap
        chain, its framebuffers and the command buffers for the new image
        count. The image table and the descriptor allocators keep their old
        size. If no poll ever reports a visible window the source waits
        forever; the model asks for one. */
    method RecreateSwapChain(polled: seq<Extent>, pres: Presentation)
      requires pres.Usable()
      requires SomeVisible([Extent(width, height)] + polled)
      modifies this`width, this`height, this`inFlightFences, this`swapChain, this`swapChainGeneration
      modifies this`frameBufferCount, this`commandBuffers
      ensures Recreated(polled, pres)
      ensures old(Valid()) ==> Valid()
    {
      var w, h := PollVisibleSize(Extent(width, height), polled);
      width, height := w, h;
      inFlightFences := AllSignalled(|inFlightFences|);
      var created := CreateSwapChain(pres.support, pres.indices, Extent(w, h), pres.grantedImageCount);
      var n: nat := created.imageCount;
      swapChain := created;
      swapChainGeneration := swapChainGeneration + 1;
      frameBufferCount := n;
      commandBuffers := EmptyBuffers(n);
    }

    /** `beginFrame`: wait for this ring slot's fence, clear the draw list
        and acquire an image. When acquisition reports the swap chain out of
        date, rebuild it and give up on the frame, leaving the image table
        alone. Otherwise, if an earlier frame's fence still owns the image,
        wait for that fence too, and make this slot's fence the image's
        owner. The image index must address the image table, which is sized
        by `init` and never resized. */
    method BeginFrame(acquireResult: int, acquiredImage: u32, polled: seq<Extent>, pres: Presentation) returns (ok: bool)
      requires Valid() && pres.Usable()
      requires acquireResult == VkErrorOutOfDate ==> SomeVisible([Extent(width, height)] + polled)
      requires acquireResult != VkErrorOutOfDate ==> acquiredImage < |imagesInFlight|
      modifies this`inFlightFences, this`batchedDrawCalls, this`imageIndex, this`imagesInFlight
      modifies this`width, this`height, this`swapChain, this`swapChainGeneration, this`frameBufferCount, this`commandBuffers
      ensures Valid()
      ensures ok <==> acquireResult != VkErrorOutOfDate
      ensures batchedDrawCalls == [] && inFlightFences[currentFrame]
      ensures !ok ==> Recreated(polled, pres)
      ensures !ok ==> unchanged(this`imagesInFlight, this`imageIndex)
      ensures ok ==> imageIndex == acquiredImage
      ensures ok ==> imagesInFlight == old(imagesInFlight)[acquiredImage := Some(currentFrame)]
      ensures ok ==> old(imagesInFlight)[acquiredImage].Some? ==> inFlightFences[old(imagesInFlight)[acquiredImage].value]
      ensures ok ==> forall s :: 0 <= s < |inFlightFences| ==>
        inFlightFences[s] == (old(inFlightFences)[s] || s == currentFrame || old(imagesInFlight)[acquiredImage] == Some(s))
      ensures ok ==> unchanged(this`swapChain, this`swapChainGeneration, this`commandBuffers, this`frameBufferCount)
      ensures ok ==> unchanged(this`width, this`height)
    {
      inFlightFences := inFlightFences[currentFrame := true];
      batchedDrawCalls := [];
      if acquireResult == VkErrorOutOfDate {
        RecreateSwapChain(polled, pres);
        return false;
      }
      imageIndex := acquiredImage;
      var owner := imagesInFlight[imageIndex];
      if owner.Some? {
        inFlightFences := inFlightFences[owner.value := true];
      }
      imagesInFlight := imagesInFlight[imageIndex := Some(currentFrame)];
      return true;
    }
    /** The part of `endFrame` before presentation: wait for this ring
        slot's fence and reset it, record one indexed draw per queued entry
        into the acquired image's command buffer, and submit it guarded by
        that fence, which stays unsignalled until the GPU is done. */
    method RecordAndSubmit()
      requires Valid() && imageIndex < |commandBuffers|
      modifies this`inFlightFences, this`commandBuffers, this`stats
      ensures Valid()
      ensures inFlightFences == old(inFlightFences)[currentFrame := false]
      ensures |commandBuffers| == |old(commandBuffers)| && RecordsQueue(commandBuffers[imageIndex], batchedDrawCalls)
      ensures forall j :: 0 <= j < |commandBuffers| && j != imageIndex ==> commandBuffers[j] == old(commandBuffers)[j]
      ensures stats == old(stats).(drawCalls := AddU32(old(stats).drawCalls, |batchedDrawCalls|))
    {
      inFlightFences := inFlightFences[currentFrame := false];
      var commands, total := RecordDrawCalls(batchedDrawCalls, stats.drawCalls);
      commandBuffers := commandBuffers[imageIndex := commands];
      stats := stats.(drawCalls := total);
    }

    /** `endFrame`: record and submit the frame, then present. When
        presentation reports the swap chain out of date or suboptimal, or a
        resize was noted, rebuild the swap chain (after a device-idle wait)
        and clear the resize flag. Then move to the next ring slot; the
        result is always true. */
    method EndFrame(presentResult: int, polled: seq<Extent>, pres: Presentation) returns (ok: bool)
      requires Valid() && pres.Usable()
      requires imageIndex < |commandBuffers|
      requires presentResult == VkErrorOutOfDate || presentResult == VkSuboptimal || shouldRecreateSwapChain ==>
        SomeVisible([Extent(width, height)] + polled)
      modifies this`inFlightFences, this`commandBuffers, this`stats, this`shouldRecreateSwapChain, this`currentFrame
      modifies this`width, this`height, this`swapChain, this`swapChainGeneration, this`frameBufferCount
      ensures Valid() && ok
      ensures currentFrame == NextFrame(old(currentFrame))
      ensures stats == old(stats).(drawCalls := AddU32(old(stats).drawCalls, |batchedDrawCalls|))
      ensures !shouldRecreateSwapChain
      ensures swapChainGeneration == old(swapChainGeneration) + 1 <==>
        presentResult == VkErrorOutOfDate || presentResult == VkSuboptimal || old(shouldRecreateSwapChain)
      ensures swapChainGeneration == old(swapChainGeneration) ==>
        unchanged(this`width, this`height, this`swapChain, this`frameBufferCount)
      ensures swapChainGeneration == old(swapChainGeneration) ==>
        && inFlightFences == old(inFlightFences)[old(currentFrame) := false]
        && |commandBuffers| == |old(commandBuffers)|
        && RecordsQueue(commandBuffers[imageIndex], batchedDrawCalls)
        && (forall j :: 0 <= j < |commandBuffers| && j != imageIndex ==> commandBuffers[j] == old(commandBuffers)[j])
      ensures swapChainGeneration != old(swapChainGeneration) ==> Recreated(polled, pres)
    {
      RecordAndSubmit();
      if presentResult == VkErrorOutOfDate || presentResult == VkSuboptimal || shouldRecreateSwapChain {
        RecreateSwapChain(polled, pres);
        shouldRecreateSwapChain := false;
      }
      currentFrame := NextFrame(currentFrame);
      return true;
    }

    /** Queue one entry and count one more quad, as every draw call does. */
    method QueueDrawCall(call: DrawCall)
      modifies this`stats, this`batchedDrawCalls
      ensures batchedDrawCalls == old(batchedDrawCalls) + [call]
      ensures stats == old(stats).(quadCount := AddU32(old(stats).quadCount, 1))
    {
      stats := stats.(quadCount := AddU32(stats.quadCount, 1));
      batchedDrawCalls := batchedDrawCalls + [call];
    }

    /** `drawQuad` with a flat colour: an unrotated, untextured quad. */
    method DrawQuad(position: R.Vec3, size: R.Vec2, color: R.Vec4)
      modifies this`stats, this`batchedDrawCalls
      ensures batchedDrawCalls == old(batchedDrawCalls) + [QuadCall(Placement(position, size, 0.0), color)]
      ensures stats == old(stats).(quadCount := AddU32(old(stats).quadCount, 1))
    {
      QueueDrawCall(QuadCall(Placement(position, size, 0.0), color));
    }

    /** `drawQuad` with a texture: an unrotated textured quad. */
    method DrawTexturedQuad(position: R.Vec3, size: R.Vec2, texture: nat, tilingFactor: real, color: R.Vec4)
      modifies this`stats, this`batchedDrawCalls
      ensures batchedDrawCalls == old(batchedDrawCalls) + [TexturedQuadCall(Placement(position, size, 0.0), texture, tilingFactor, color)]
      ensures stats == old(stats).(quadCount := AddU32(old(stats).quadCount, 1))
    {
      QueueDrawCall(TexturedQuadCall(Placement(position, size, 0.0), texture, tilingFactor, color));
    }

    /** `drawRotatedQuad` with a flat colour. */
    method DrawRotatedQuad(position: R.Vec3, size: R.Vec2, rotation: real, color: R.Vec4)
      modifies this`stats, this`batchedDrawCalls
      ensures batchedDrawCalls == old(batchedDrawCalls) + [QuadCall(Placement(position, size, rotation), color)]
      ensures stats == old(stats).(quadCount := AddU32(old(stats).quadCount, 1))
    {
      QueueDrawCall(QuadCall(Placement(position, size, rotation), color));
    }

    /** `drawRotatedQuad` with a texture. */
    method DrawRotatedTexturedQuad(position: R.Vec3, size: R.Vec2, rotation: real, texture: nat, tilingFactor: real, color: R.Vec4)
      modifies this`stats, this`batchedDrawCalls
      ensures batchedDrawCalls == old(batchedDrawCalls) + [TexturedQuadCall(Placement(position, size, rotation), texture, tilingFactor, color)]
      ensures stats == old(stats).(quadCount := AddU32(old(stats).quadCount, 1))
    {
      QueueDrawCall(TexturedQuadCall(Placement(position, size, rotation), texture, tilingFactor, color));
    }

    /** `setClearColor`: store the colour, and hand it on to the render
        target when there is one. */
    method SetClearColor(color: R.Vec4)
      modifies this`clearColor, renderTarget
      ensures clearColor == color
      ensures renderTarget != null ==> renderTarget.clearColor == color
    {
      clearColor := color;
      if renderTarget != null {
        renderTarget.SetClearColor(color);
      }
    }

    /** `resetStats`: both counters back to zero. */
    method ResetStats()
      modifies this`stats
      ensures stats == R.FreshStats()
    {
      stats := R.FreshStats();
    }

    /** `getStats`: the counters as they stand, nothing changed. */
    method GetStats() returns (s: R.RenderingStatistics)
      ensures s == stats
    {
      s := stats;
    }

    /** `getRenderTarget`: the stored target, nothing changed. */
    method GetRenderTarget() returns (t: Framebuffer?)
      ensures t == renderTarget
    {
      t := renderTarget;
    }

    /** `setViewport`: the Vulkan backend ignores it. */
    method SetViewport(x: u32, y: u32, w: u32, h: u32)
      ensures unchanged(this)
    {
    }
  }
}
