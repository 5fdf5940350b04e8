/**
 * vsg::Window: the per-window frame bookkeeping.  buildSwapchain() makes one
 * frame (image view, framebuffer, image-available semaphore) and one entry of
 * the frame-index history per swapchain image; acquireNextImage() swaps the
 * spare semaphore with the acquired frame's and records the acquired index.
 *
 * Driver calls (instance and device creation, swapchain creation, image and
 * memory creation, vkAcquireNextImageKHR, the layout-transition submission) are
 * oracles: their answers are parameters.
 */
module Window {
  import opened VkTypes

  /** A power of two: a single VkSampleCountFlagBits value. */
  predicate IsPowerOfTwo(x: nat)
  {
    x == 1 || (x > 1 && x % 2 == 0 && IsPowerOfTwo(x / 2))
  }

  /** The bitwise & of two masks. */
  function BitAnd(a: nat, b: nat): nat
  {
    if a == 0 || b == 0 then 0
    else 2 * BitAnd(a / 2, b / 2) + (if a % 2 == 1 && b % 2 == 1 then 1 else 0)
  }

  /** Mask x has the single bit p set. */
  predicate HasBit(x: nat, p: nat)
    requires p > 0
  {
    (x / p) % 2 == 1
  }

  /** A bit is set in a & b exactly when it is set in both. */
  lemma {:induction false} BitAndHasBit(a: nat, b: nat, p: nat)
    requires IsPowerOfTwo(p)
    ensures p > 0
    ensures HasBit(BitAnd(a, b), p) <==> HasBit(a, p) && HasBit(b, p)
  {
    if p == 1 {
    } else if a == 0 || b == 0 {
      assert BitAnd(a, b) == 0;
    } else {
      BitAndHasBit(a / 2, b / 2, p / 2);
      assert BitAnd(a, b) / 2 == BitAnd(a / 2, b / 2);
      HasBitHalve(BitAnd(a, b), p);
      HasBitHalve(a, p);
      HasBitHalve(b, p);
    }
  }

  /** Bit p of x is bit p / 2 of x / 2. */
  lemma HasBitHalve(x: nat, p: nat)
    requires p > 1 && p % 2 == 0
    ensures HasBit(x, p) <==> HasBit(x / 2, p / 2)
  {
    HalveDiv(x, p);
  }

  lemma HalveDiv(x: nat, p: nat)
    requires p > 1 && p % 2 == 0
    ensures x / p == (x / 2) / (p / 2)
  {
    var h := p / 2;
    var q := (x / 2) / h;
    var r := 2 * ((x / 2) % h) + x % 2;
    assert x == p * q + r;
    DivUnique(x, p, q, r);
  }

  lemma DivUnique(x: nat, d: nat, q: nat, r: nat)
    requires d > 0 && r < d && x == d * q + r
    ensures x / d == q
  {
    var k := x / d - q;
    assert d * k == r - x % d;
    MulBetween(d, k);
  }

  lemma MulBetween(d: int, k: int)
    requires d > 0 && -d < d * k < d
    ensures k == 0
  {
  }

  /** 1 << floor(log2(x)) for a positive x: its highest set bit. */
  function HighestPowerOfTwo(x: nat): (p: nat)
    requires x > 0
    ensures IsPowerOfTwo(p) && p <= x < 2 * p
  {
    if x == 1 then 1 else 2 * HighestPowerOfTwo(x / 2)
  }

  /** Only one power of two p has p <= x < 2p: the highest bit is determined. */
  lemma {:induction false} HighestPowerOfTwoUnique(p: nat, q: nat, x: nat)
    requires IsPowerOfTwo(p) && IsPowerOfTwo(q)
    requires p <= x < 2 * p && q <= x < 2 * q
    ensures p == q
  {
    if p != 1 && q != 1 {
      HighestPowerOfTwoUnique(p / 2, q / 2, x / 2);
    }
  }

  /**
   * The framebuffer sample count _initFormats chooses: one sample when one is
   * requested; otherwise the highest bit of (colour limits & depth limits &
   * request) -- a count all three allow -- or one sample when they share none.
   */
  function SelectFramebufferSamples(requested: SampleFlags, colorCounts: SampleFlags, depthCounts: SampleFlags): (r: SampleFlags)
    ensures IsPowerOfTwo(r) && r > 0
    ensures requested == VK_SAMPLE_COUNT_1_BIT ==> r == VK_SAMPLE_COUNT_1_BIT
    ensures var satisfied := BitAnd(BitAnd(colorCounts, depthCounts), requested);
      requested != VK_SAMPLE_COUNT_1_BIT ==>
        && (satisfied == 0 ==> r == VK_SAMPLE_COUNT_1_BIT)
        && (satisfied != 0 ==>
              && r <= satisfied < 2 * r
              && HasBit(requested, r) && HasBit(colorCounts, r) && HasBit(depthCounts, r))
  {
    if requested != VK_SAMPLE_COUNT_1_BIT then
      var satisfied := BitAnd(BitAnd(colorCounts, depthCounts), requested);
      if satisfied != 0 then
        var highest := HighestPowerOfTwo(satisfied);
        DivUnique(satisfied, highest, 1, satisfied - highest);
        BitAndHasBit(BitAnd(colorCounts, depthCounts), requested, highest);
        BitAndHasBit(colorCounts, depthCounts, highest);
        highest
      else
        VK_SAMPLE_COUNT_1_BIT
    else
      VK_SAMPLE_COUNT_1_BIT
  }

  datatype RenderPass = RenderPass(id: RenderPassId, samples: SampleFlags)

  datatype Framebuffer = Framebuffer(renderPass: Option<RenderPass>, attachments: seq<ImageViewId>,
                                     width: nat, height: nat, layers: nat)

  datatype Frame = Frame(imageView: ImageViewId, framebuffer: Framebuffer, imageAvailableSemaphore: Semaphore)

  /** The part of WindowTraits the core reads. */
  datatype WindowTraits = WindowTraits(device: Option<DeviceId>, samples: SampleFlags)

  /** What Swapchain::create answers: the handle, the extent it settled on, and its image views. */
  datatype SwapchainImages = SwapchainImages(handle: SwapchainId, extent: Extent2D, imageViews: seq<ImageViewId>)

  /** What instance->getPhysicalDeviceAndQueueFamily answers. */
  datatype PhysicalDeviceChoice = PhysicalDeviceChoice(physicalDevice: Option<PhysicalDeviceId>, queueFamily: int, presentFamily: int)

  /** The framebuffer sample-count limits of the physical device. */
  datatype SampleLimits = SampleLimits(colorSampleCounts: SampleFlags, depthSampleCounts: SampleFlags)

  /** Every driver answer the lazy set-up of the swapchain may ask for. */
  datatype SwapchainSetup = SwapchainSetup(
    choice: PhysicalDeviceChoice,
    traitsPhysicalDevice: PhysicalDeviceId,
    createdDevice: DeviceId,
    limits: SampleLimits,
    renderPassId: RenderPassId,
    created: SwapchainImages,
    multisampleView: ImageViewId,
    depthView: ImageViewId)

  /** _initDevice throws unless a physical device with both queue families was found. */
  predicate DeviceChoiceUsable(c: PhysicalDeviceChoice)
  {
    c.physicalDevice.Some? && c.queueFamily >= 0 && c.presentFamily >= 0
  }

  /** The framebuffer attachments of one swapchain image. */
  function Attachments(multisampling: bool, multisampleView: ImageViewId, imageView: ImageViewId, depthView: ImageViewId): (r: seq<ImageViewId>)
    ensures |r| == if multisampling then 3 else 2
    ensures r[|r| - 2] == imageView && r[|r| - 1] == depthView
    ensures multisampling ==> r[0] == multisampleView
  {
    (if multisampling then [multisampleView] else []) + [imageView, depthView]
  }

  /** The semaphores of the frames, in frame order. */
  function Semaphores(frames: seq<Frame>): (r: seq<Semaphore>)
    ensures |r| == |frames|
    ensures forall i :: 0 <= i < |frames| ==> r[i] == frames[i].imageAvailableSemaphore
  {
    if |frames| == 0 then [] else Semaphores(frames[..|frames| - 1]) + [frames[|frames| - 1].imageAvailableSemaphore]
  }

  /** Swapping the spare semaphore with frame k's keeps the multiset of semaphores. */
  lemma SwapKeepsSemaphores(frames: seq<Frame>, k: nat, spare: Semaphore)
    requires k < |frames|
    ensures var swapped := frames[k := frames[k].(imageAvailableSemaphore := spare)];
      multiset([frames[k].imageAvailableSemaphore]) + multiset(Semaphores(swapped))
        == multiset([spare]) + multiset(Semaphores(frames))
  {
    var swapped := frames[k := frames[k].(imageAvailableSemaphore := spare)];
    var s := Semaphores(frames);
    var t := Semaphores(swapped);
    assert t == s[k := spare];
    assert s == s[..k] + [s[k]] + s[k + 1..];
    assert t == s[..k] + [spare] + s[k + 1..];
  }

  /** The index history acquireNextImage leaves: the acquired index first, and,
      because the copy loop runs upward, the old head in every later slot. */
  function IndicesAfterAcquire(indices: seq<nat>, imageIndex: nat): (r: seq<nat>)
    requires |indices| > 0
    ensures |r| == |indices|
  {
    [imageIndex] + seq(|indices| - 1, _ => indices[0])
  }

  /** So the history is not shifted: from three entries on, older entries are lost. */
  lemma IndicesAfterAcquireIsNotAShift(a: nat, b: nat, c: nat, x: nat)
    ensures IndicesAfterAcquire([a, b, c], x) == [x, a, a]
    ensures b != a ==> IndicesAfterAcquire([a, b, c], x) != [x, a, b]
  {
  }

  /**
   * What one acquisition leaves, given the frames, index history and spare semaphore
   * before it and the swapchain's answer: on VK_SUCCESS the spare and the acquired
   * frame's semaphore swap, no other frame changes, the multiset of semaphores is
   * kept and the history becomes IndicesAfterAcquire; on any other result nothing
   * changes.
   */
  ghost predicate AcquireOutcome(result: VkResult, imageIndex: nat, frames0: seq<Frame>, indices0: seq<nat>, spare0: Semaphore,
                                 frames: seq<Frame>, indices: seq<nat>, spare: Semaphore?)
  {
    if result == VK_SUCCESS then
      && imageIndex < |frames0| && |indices0| > 0
      && spare == frames0[imageIndex].imageAvailableSemaphore
      && frames == frames0[imageIndex := frames0[imageIndex].(imageAvailableSemaphore := spare0)]
      && indices == IndicesAfterAcquire(indices0, imageIndex)
      && multiset([spare]) + multiset(Semaphores(frames)) == multiset([spare0]) + multiset(Semaphores(frames0))
    else
      frames == frames0 && indices == indices0 && spare == spare0
  }

  /** The frames buildSwapchain makes for the image views, in order: each frame's
      view is the multisample view when multisampling, else its own image view,
      and its framebuffer has the render pass, the attachments and the extent. */
  predicate FramesForImages(fs: seq<Frame>, imageViews: seq<ImageViewId>, multisampling: bool,
                            multisampleView: ImageViewId, depthView: ImageViewId,
                            renderPass: Option<RenderPass>, extent: Extent2D)
  {
    && |fs| == |imageViews|
    && forall k :: 0 <= k < |fs| ==>
         && fs[k].imageView == (if multisampling then multisampleView else imageViews[k])
         && fs[k].framebuffer == Framebuffer(renderPass,
              Attachments(multisampling, multisampleView, imageViews[k], depthView), extent.width, extent.height, 1)
  }

  /** n index entries, each holding n: one past the last image index. */
  function Sentinels(n: nat): (r: seq<nat>)
    ensures |r| == n && forall k :: 0 <= k < n ==> r[k] == n
  {
    seq(n, _ => n)
  }

  /**
   * The frame list and index history buildSwapchain leaves, given the lists it
   * started from: when a swapchain was being replaced both lists were dropped,
   * otherwise they are kept as a prefix; then one frame (FramesForImages) and one
   * index entry holding the image count are appended per image view.
   */
  predicate SwapchainLists(frames0: seq<Frame>, indices0: seq<nat>, replaced: bool,
                           frames: seq<Frame>, indices: seq<nat>, created: SwapchainImages,
                           multisampling: bool, multisampleView: ImageViewId, depthView: ImageViewId,
                           renderPass: Option<RenderPass>, extent: Extent2D)
  {
    var kept := if replaced then 0 else |frames0|;
    var n := |created.imageViews|;
    && kept <= |indices0|
    && |frames| == kept + n && |indices| == kept + n
    && frames[..kept] == frames0[..kept]
    && indices[..kept] == indices0[..kept]
    && indices[kept..] == Sentinels(n)
    && FramesForImages(frames[kept..], created.imageViews, multisampling, multisampleView, depthView, renderPass, extent)
    && DistinctSemaphores(frames[kept..])
  }

  /** Appending the new frames and sentinel indices to what buildSwapchain kept
      (nothing when it replaced a swapchain, everything otherwise) gives SwapchainLists. */
  lemma SwapchainListsAppend(frames0: seq<Frame>, indices0: seq<nat>, replaced: bool,
                             keptFrames: seq<Frame>, keptIndices: seq<nat>, newFrames: seq<Frame>,
                             created: SwapchainImages, multisampling: bool, multisampleView: ImageViewId,
                             depthView: ImageViewId, renderPass: Option<RenderPass>, extent: Extent2D)
    requires |frames0| == |indices0|
    requires replaced ==> keptFrames == [] && keptIndices == []
    requires !replaced ==> keptFrames == frames0 && keptIndices == indices0
    requires FramesForImages(newFrames, created.imageViews, multisampling, multisampleView, depthView, renderPass, extent)
    requires DistinctSemaphores(newFrames)
    ensures SwapchainLists(frames0, indices0, replaced, keptFrames + newFrames,
                           keptIndices + Sentinels(|created.imageViews|), created,
                           multisampling, multisampleView, depthView, renderPass, extent)
  {
    var frames := keptFrames + newFrames;
    var indices := keptIndices + Sentinels(|created.imageViews|);
    var kept := |keptFrames|;
    assert frames[..kept] == keptFrames && frames[kept..] == newFrames;
    assert indices[..kept] == keptIndices;
  }

  /** No two frames share an image-available semaphore. */
  predicate DistinctSemaphores(fs: seq<Frame>)
  {
    forall a, b :: 0 <= a < b < |fs| ==> fs[a].imageAvailableSemaphore != fs[b].imageAvailableSemaphore
  }

  /** The frame loop of buildSwapchain: one frame per image view, each with a new semaphore. */
  method CreateFrames(imageViews: seq<ImageViewId>, multisampling: bool, multisampleView: ImageViewId,
                      depthView: ImageViewId, renderPass: Option<RenderPass>, extent: Extent2D,
                      spare: Semaphore) returns (newFrames: seq<Frame>)
    ensures FramesForImages(newFrames, imageViews, multisampling, multisampleView, depthView, renderPass, extent)
    ensures DistinctSemaphores(newFrames)
    ensures forall f :: f in newFrames ==> fresh(f.imageAvailableSemaphore) && f.imageAvailableSemaphore != spare
  {
    newFrames := [];
    var i := 0;
    while i < |imageViews|
      invariant 0 <= i <= |imageViews|
      invariant FramesForImages(newFrames, imageViews[..i], multisampling, multisampleView, depthView, renderPass, extent)
      invariant DistinctSemaphores(newFrames)
      invariant forall f :: f in newFrames ==> fresh(f.imageAvailableSemaphore) && f.imageAvailableSemaphore != spare
    {
      var attachments: seq<ImageViewId> := [];
      if multisampling {
        attachments := attachments + [multisampleView];
      }
      attachments := attachments + [imageViews[i]];
      attachments := attachments + [depthView];
      assert attachments == Attachments(multisampling, multisampleView, imageViews[i], depthView);

      var fb := Framebuffer(renderPass, attachments, extent.width, extent.height, 1);

      var ias := new Semaphore();

      newFrames := newFrames + [Frame(if multisampling then multisampleView else imageViews[i], fb, ias)];
      i := i + 1;
    }
    assert imageViews[..i] == imageViews;
  }

  /** The index-history update of acquireNextImage: the copy loop runs upward
      from slot 1, then the acquired index is stored in slot 0. */
  method RecordAcquiredIndex(indices: seq<nat>, imageIndex: nat) returns (history: seq<nat>)
    requires |indices| > 0
    ensures history == IndicesAfterAcquire(indices, imageIndex)
  {
    history := indices;
    var i := 1;
    while i < |history|
      invariant 1 <= i <= |history|
      invariant |history| == |indices| && history[0] == indices[0]
      invariant forall k :: 1 <= k < i ==> history[k] == indices[0]
      invariant forall k :: i <= k < |history| ==> history[k] == indices[k]
    {
      history := history[i := history[i - 1]];
      i := i + 1;
    }

    history := history[0 := imageIndex];
  }

  class Window {
    const id: WindowId
    const traits: WindowTraits
    var extent: Extent2D
    var framebufferSamples: SampleFlags
    var device: Option<DeviceId>
    var physicalDevice: Option<PhysicalDeviceId>
    var renderPass: Option<RenderPass>
    var swapchain: Option<SwapchainId>
    var depthImageView: Option<ImageViewId>
    var multisampleImageView: Option<ImageViewId>
    var availableSemaphore: Semaphore?
    var frames: seq<Frame>
    var indices: seq<nat>

    /** Every frame has its entry in the index history. */
    ghost predicate Valid()
      reads this
    {
      |frames| == |indices|
    }

    predicate Multisampling()
      reads this
    {
      framebufferSamples != VK_SAMPLE_COUNT_1_BIT
    }

    /** Window(traits): no device, no swapchain, the extent at the uint32 sentinel, one sample. */
    constructor (windowId: WindowId, windowTraits: WindowTraits)
      ensures Valid()
      ensures id == windowId && traits == windowTraits
      ensures extent == Extent2D(UINT32_MAX, UINT32_MAX) && framebufferSamples == VK_SAMPLE_COUNT_1_BIT
      ensures device == None && physicalDevice == None && renderPass == None && swapchain == None
      ensures frames == [] && indices == [] && availableSemaphore == null
    {
      id, traits := windowId, windowTraits;
      extent := Extent2D(UINT32_MAX, UINT32_MAX);
      framebufferSamples := VK_SAMPLE_COUNT_1_BIT;
      device, physicalDevice, renderPass, swapchain := None, None, None, None;
      depthImageView, multisampleImageView := None, None;
      availableSemaphore := null;
      frames, indices := [], [];
    }

    /** The sample-count part of _initFormats. */
    method InitFormats(limits: SampleLimits)
      modifies this`framebufferSamples
      ensures framebufferSamples == SelectFramebufferSamples(traits.samples, limits.colorSampleCounts, limits.depthSampleCounts)
    {
      if traits.samples != VK_SAMPLE_COUNT_1_BIT {
        var satisfied := BitAnd(BitAnd(limits.colorSampleCounts, limits.depthSampleCounts), traits.samples);
        if satisfied != 0 {
          framebufferSamples := HighestPowerOfTwo(satisfied);
        } else {
          framebufferSamples := VK_SAMPLE_COUNT_1_BIT;
        }
      } else {
        framebufferSamples := VK_SAMPLE_COUNT_1_BIT;
      }
    }

    /**
     * _initDevice: adopts the traits' device, or creates one on the chosen
     * physical device; returns false where the source throws (no physical device,
     * or a negative queue family), and then changes nothing.
     */
    method InitDevice(choice: PhysicalDeviceChoice, traitsPhysicalDevice: PhysicalDeviceId, createdDevice: DeviceId,
                      limits: SampleLimits) returns (ok: bool)
      modifies this`device, this`physicalDevice, this`framebufferSamples
      ensures ok <==> traits.device.Some? || DeviceChoiceUsable(choice)
      ensures ok && traits.device.Some? ==> device == traits.device && physicalDevice == Some(traitsPhysicalDevice)
      ensures ok && traits.device.None? ==> device == Some(createdDevice) && physicalDevice == choice.physicalDevice
      ensures ok ==> framebufferSamples == SelectFramebufferSamples(traits.samples, limits.colorSampleCounts, limits.depthSampleCounts)
      ensures !ok ==> device == old(device) && physicalDevice == old(physicalDevice) && framebufferSamples == old(framebufferSamples)
    {
      if traits.device.Some? {
        device := traits.device;
        physicalDevice := Some(traitsPhysicalDevice);
      } else {
        if choice.physicalDevice.None? || choice.queueFamily < 0 || choice.presentFamily < 0 {
          return false;
        }
        device := Some(createdDevice);
        physicalDevice := choice.physicalDevice;
      }
      InitFormats(limits);
      ok := true;
    }

    /** The device, physical device and sample count _initDevice settles on when it succeeds. */
    ghost predicate DeviceChosen(setup: SwapchainSetup)
      reads this
    {
      && (traits.device.Some? ==> device == traits.device && physicalDevice == Some(setup.traitsPhysicalDevice))
      && (traits.device.None? ==> device == Some(setup.createdDevice) && physicalDevice == setup.choice.physicalDevice)
      && framebufferSamples == SelectFramebufferSamples(traits.samples, setup.limits.colorSampleCounts, setup.limits.depthSampleCounts)
    }

    /**
     * _initRenderPass: the device on demand, then a plain render pass for one sample
     * and a multisampled one otherwise.  Returns false where _initDevice throws, and
     * nothing changes then.
     */
    method InitRenderPass(setup: SwapchainSetup) returns (ok: bool)
      modifies this`device, this`physicalDevice, this`framebufferSamples, this`renderPass
      ensures ok <==> old(device).Some? || traits.device.Some? || DeviceChoiceUsable(setup.choice)
      ensures !ok ==> unchanged(this)
      ensures old(device).Some? ==>
        device == old(device) && physicalDevice == old(physicalDevice) && framebufferSamples == old(framebufferSamples)
      ensures ok && old(device).None? ==> DeviceChosen(setup)
      ensures ok ==> device.Some? && renderPass == Some(RenderPass(setup.renderPassId, framebufferSamples))
    {
      if device.None? {
        ok := InitDevice(setup.choice, setup.traitsPhysicalDevice, setup.createdDevice, setup.limits);
        if !ok {
          return;
        }
      }
      ok := true;
      renderPass := Some(RenderPass(setup.renderPassId, framebufferSamples));
    }

    /**
     * buildSwapchain(): releases the previous swapchain's frames and index history
     * (only when there was one), adopts the new swapchain's extent, and appends one
     * frame and one index entry per image view (FramesForImages).  Every new index
     * entry holds the image count, an out-of-range sentinel; every new frame has a
     * fresh semaphore of its own, and a fresh spare semaphore is made as well.
     */
    method BuildSwapchain(created: SwapchainImages, multisampleView: ImageViewId, depthView: ImageViewId)
      requires Valid()
      modifies this`swapchain, this`extent, this`frames, this`indices, this`depthImageView,
               this`multisampleImageView, this`availableSemaphore
      ensures Valid()
      ensures swapchain == Some(created.handle) && extent == created.extent
      ensures depthImageView == Some(depthView)
      ensures Multisampling() ==> multisampleImageView == Some(multisampleView)
      ensures !Multisampling() ==> multisampleImageView == if old(swapchain).Some? then None else old(multisampleImageView)
      ensures availableSemaphore != null && fresh(availableSemaphore)
      ensures SwapchainLists(old(frames), old(indices), old(swapchain).Some?, frames, indices, created,
                             Multisampling(), multisampleView, depthView, renderPass, extent)
      ensures forall f :: f in frames[(if old(swapchain).Some? then 0 else |old(frames)|)..] ==>
        fresh(f.imageAvailableSemaphore) && f.imageAvailableSemaphore != availableSemaphore
    {
      // the previous swapchain's frames, index history and views are released
      var keptFrames, keptIndices, keptMultisampleView := frames, indices, multisampleImageView;
      if swapchain.Some? {
        keptFrames, keptIndices, keptMultisampleView := [], [], None;
      }

      var newExtent := created.extent;

      var multisampling := framebufferSamples != VK_SAMPLE_COUNT_1_BIT;
      var newMultisampleView := if multisampling then Some(multisampleView) else keptMultisampleView;

      var spare := new Semaphore();

      var newFrames := CreateFrames(created.imageViews, multisampling, multisampleView, depthView,
                                    renderPass, newExtent, spare);
      var initialIndexValue := |created.imageViews|;

      swapchain, extent := Some(created.handle), newExtent;
      multisampleImageView, depthImageView := newMultisampleView, Some(depthView);
      availableSemaphore := spare;
      frames := keptFrames + newFrames;
      indices := keptIndices + Sentinels(initialIndexValue);

      SwapchainListsAppend(old(frames), old(indices), old(swapchain).Some?, keptFrames, keptIndices, newFrames, created,
                           Multisampling(), multisampleView, depthView, renderPass, extent);
      assert frames[|keptFrames|..] == newFrames;
    }

    /**
     * _initSwapchain: device and render pass on demand, then buildSwapchain().
     * Returns false where _initDevice throws, and nothing changes then.
     */
    method InitSwapchain(setup: SwapchainSetup) returns (ok: bool)
      requires Valid()
      modifies this`device, this`physicalDevice, this`framebufferSamples, this`renderPass, this`swapchain,
               this`extent, this`frames, this`indices, this`depthImageView, this`multisampleImageView,
               this`availableSemaphore
      ensures Valid()
      ensures ok <==> old(device).Some? || traits.device.Some? || DeviceChoiceUsable(setup.choice)
      ensures !ok ==> unchanged(this)
      ensures old(device).Some? ==>
        device == old(device) && physicalDevice == old(physicalDevice) && framebufferSamples == old(framebufferSamples)
      ensures ok && old(device).None? ==> DeviceChosen(setup)
      ensures ok ==> device.Some?
      ensures ok ==> renderPass == if old(renderPass).Some? then old(renderPass) else Some(RenderPass(setup.renderPassId, framebufferSamples))
      ensures ok ==> swapchain == Some(setup.created.handle) && extent == setup.created.extent
      ensures ok ==> depthImageView == Some(setup.depthView)
      ensures ok && Multisampling() ==> multisampleImageView == Some(setup.multisampleView)
      ensures ok ==> availableSemaphore != null && fresh(availableSemaphore)
      ensures ok ==> SwapchainLists(old(frames), old(indices), old(swapchain).Some?, frames, indices, setup.created,
                                    Multisampling(), setup.multisampleView, setup.depthView, renderPass, extent)
      ensures ok ==> forall f :: f in frames[(if old(swapchain).Some? then 0 else |old(frames)|)..] ==>
        fresh(f.imageAvailableSemaphore) && f.imageAvailableSemaphore != availableSemaphore
    {
      if device.None? {
        ok := InitDevice(setup.choice, setup.traitsPhysicalDevice, setup.createdDevice, setup.limits);
        if !ok {
          return;
        }
      }
      if renderPass.None? {
        ok := InitRenderPass(setup);
      }
      ok := true;
      BuildSwapchain(setup.created, setup.multisampleView, setup.depthView);
    }

    /**
     * acquireNextImage once the swapchain exists (the part after the lazy set-up).
     * `result` and `imageIndex` are the swapchain's answer; `signalled` names the
     * semaphore handed to the swapchain.  On VK_SUCCESS that semaphore moves into the
     * acquired frame, the frame's old semaphore becomes the spare, no other frame
     * changes, the acquired index heads the history and every later slot takes the
     * old head.  On any other result only a missing spare semaphore is created.
     */
    method AcquireFromSwapchain(result: VkResult, imageIndex: nat) returns (r: VkResult, ghost signalled: Semaphore)
      requires Valid() && swapchain.Some?
      requires result == VK_SUCCESS ==> imageIndex < |frames|
      modifies this`availableSemaphore, this`frames, this`indices
      ensures Valid() && r == result
      ensures old(availableSemaphore) != null ==> signalled == old(availableSemaphore)
      ensures old(availableSemaphore) == null ==> fresh(signalled)
      ensures AcquireOutcome(r, imageIndex, old(frames), old(indices), signalled, frames, indices, availableSemaphore)
    {
      if availableSemaphore == null {
        availableSemaphore := new Semaphore();
      }
      signalled := availableSemaphore;

      r := result;

      if r == VK_SUCCESS {
        ghost var framesBefore := frames;
        var acquired := frames[imageIndex].imageAvailableSemaphore;
        frames := frames[imageIndex := frames[imageIndex].(imageAvailableSemaphore := availableSemaphore)];
        availableSemaphore := acquired;
        SwapKeepsSemaphores(framesBefore, imageIndex, signalled);

        indices := RecordAcquiredIndex(indices, imageIndex);
      }
    }

    /**
     * acquireNextImage(timeout): builds the swapchain on first use (returning None
     * where that set-up throws, and changing nothing then), then acquires as
     * AcquireFromSwapchain does.  `framesBefore`, `indicesBefore` and `spare` are the
     * frames, the index history and the spare semaphore just before the swapchain is
     * asked for an image: the window's own on later calls, and on the first call
     * those buildSwapchain leaves (SwapchainLists, a fresh spare); `spare` is null
     * only when there was no acquisition.
     */
    method AcquireNextImage(setup: SwapchainSetup, result: VkResult, imageIndex: nat)
      returns (r: Option<VkResult>, ghost framesBefore: seq<Frame>, ghost indicesBefore: seq<nat>, ghost spare: Semaphore?)
      requires Valid()
      requires swapchain.Some? && result == VK_SUCCESS ==> imageIndex < |frames|
      requires swapchain.None? && result == VK_SUCCESS ==> imageIndex < |setup.created.imageViews|
      modifies this`device, this`physicalDevice, this`framebufferSamples, this`renderPass, this`swapchain,
               this`extent, this`frames, this`indices, this`depthImageView, this`multisampleImageView,
               this`availableSemaphore
      ensures Valid()
      ensures r.None? <==> old(swapchain).None? && !(old(device).Some? || traits.device.Some? || DeviceChoiceUsable(setup.choice))
      ensures r.None? ==> unchanged(this)
      ensures r.Some? ==> r == Some(result) && swapchain.Some? && spare != null
      ensures |framesBefore| == |indicesBefore|
      ensures old(swapchain).Some? ==>
        && framesBefore == old(frames) && indicesBefore == old(indices)
        && swapchain == old(swapchain) && extent == old(extent)
        && (old(availableSemaphore) != null ==> spare == old(availableSemaphore))
        && (old(availableSemaphore) == null ==> fresh(spare))
      ensures old(swapchain).None? && r.Some? ==>
        && swapchain == Some(setup.created.handle) && extent == setup.created.extent
        && SwapchainLists(old(frames), old(indices), false, framesBefore, indicesBefore, setup.created,
                          Multisampling(), setup.multisampleView, setup.depthView, renderPass, extent)
        && fresh(spare)
        && (forall f :: f in framesBefore[|old(frames)|..] ==>
              fresh(f.imageAvailableSemaphore) && f.imageAvailableSemaphore != spare)
      ensures r.Some? ==>
        AcquireOutcome(result, imageIndex, framesBefore, indicesBefore, spare, frames, indices, availableSemaphore)
    {
      framesBefore, indicesBefore := frames, indices;
      if swapchain.None? {
        var ok := InitSwapchain(setup);
        if !ok {
          return None, framesBefore, indicesBefore, null;
        }
        framesBefore, indicesBefore := frames, indices;
        var acquired;
        acquired, spare := AcquireFromSwapchain(result, imageIndex);
        r := Some(acquired);
      } else {
        var acquired;
        acquired, spare := AcquireFromSwapchain(result, imageIndex);
        r := Some(acquired);
      }
    }
  }
}
