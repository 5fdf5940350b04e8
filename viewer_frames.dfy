/**
 * The per-frame bookkeeping of vsg::Viewer: frame stamps, the swapchain-acquisition retry
 * loop, polled events and their dispatch to handlers, and the per-device frame cache.
 *
 * Windows are ids.  What a window answers when the viewer asks it something is an oracle
 * parameter: `acquire(w, k)` is the result of the k-th acquireNextImage() call on w within
 * one acquireNextFrame() (k counts from 0, and the window is resized between calls),
 * `poll(w)` is what w->pollEvents() reports, `swapchainOf(w)` is *(w->swapchain()).
 */
module ViewerFrames {
  import opened VkTypes

  // ----- frame stamps -----

  /** The stamp advance() and advanceToNextFrame() create from the previous one. */
  function NextFrameStamp(previous: Option<FrameStamp>, time: nat): (r: FrameStamp)
    ensures r.time == time
  {
    if previous.Some? then FrameStamp(time, previous.value.frameCount + 1) else FrameStamp(time, 0)
  }

  /** The stamps of consecutive frames started at the given times. */
  function StampsAfter(previous: Option<FrameStamp>, times: seq<nat>): (r: seq<FrameStamp>)
    ensures |r| == |times|
    decreases |times|
  {
    if |times| == 0 then []
    else
      var stamp := NextFrameStamp(previous, times[0]);
      [stamp] + StampsAfter(Some(stamp), times[1..])
  }

  function FirstCount(previous: Option<FrameStamp>): nat
  {
    if previous.Some? then previous.value.frameCount + 1 else 0
  }

  /** The frame counter counts frames: one more than the previous stamp's, 0 for the first
      stamp, and each stamp carries its own frame's time. */
  lemma {:induction false} FrameCountsAreConsecutive(previous: Option<FrameStamp>, times: seq<nat>)
    ensures forall i :: 0 <= i < |times| ==>
      StampsAfter(previous, times)[i] == FrameStamp(times[i], FirstCount(previous) + i)
    decreases |times|
  {
    if |times| > 0 {
      var stamp := NextFrameStamp(previous, times[0]);
      FrameCountsAreConsecutive(Some(stamp), times[1..]);
      forall i | 0 <= i < |times|
        ensures StampsAfter(previous, times)[i] == FrameStamp(times[i], FirstCount(previous) + i)
      {
        if i > 0 {
          assert StampsAfter(previous, times)[i] == StampsAfter(Some(stamp), times[1..])[i - 1];
        }
      }
    }
  }

  /** A viewer that has never started a frame numbers its frames 0, 1, 2, ... */
  lemma FirstFramesCountFromZero(times: seq<nat>)
    ensures forall i :: 0 <= i < |times| ==> StampsAfter(None, times)[i].frameCount == i
  {
    FrameCountsAreConsecutive(None, times);
  }

  // ----- acquireNextFrame: the bounded retry loop -----

  /** maximumTries in acquireNextFrame(). */
  const MAXIMUM_TRIES: nat := 10

  /** What acquireNextFrame() asks of the windows and devices, in order. */
  datatype DriverCall = AcquireNextImage(window: WindowId) | WaitIdlePresentQueues | Resize(window: WindowId)

  type AcquireOracle = (WindowId, nat) -> VkResult

  /** numTries when the retry loop for window w leaves, starting from try k: the first try
      that is not out of date, or MAXIMUM_TRIES. */
  function ResizesFrom(acquire: AcquireOracle, w: WindowId, k: nat): (n: nat)
    requires k <= MAXIMUM_TRIES
    ensures k <= n <= MAXIMUM_TRIES
    ensures acquire(w, n) != VK_ERROR_OUT_OF_DATE_KHR || n == MAXIMUM_TRIES
    ensures forall j :: k <= j < n ==> acquire(w, j) == VK_ERROR_OUT_OF_DATE_KHR
    decreases MAXIMUM_TRIES - k
  {
    if acquire(w, k) == VK_ERROR_OUT_OF_DATE_KHR && k < MAXIMUM_TRIES then ResizesFrom(acquire, w, k + 1) else k
  }

  /** The result the loop leaves for window w. */
  function FinalResult(acquire: AcquireOracle, w: WindowId): VkResult
  {
    acquire(w, ResizesFrom(acquire, w, 0))
  }

  /** The calls of k out-of-date rounds: acquire, wait for the present queues, resize. */
  function Rounds(w: WindowId, k: nat): seq<DriverCall>
  {
    if k == 0 then [] else Rounds(w, k - 1) + [AcquireNextImage(w), WaitIdlePresentQueues, Resize(w)]
  }

  /** The calls the retry loop makes for window w: a round for each try that is out of date
      before the loop leaves, then the last acquire. */
  function WindowCalls(acquire: AcquireOracle, w: WindowId): seq<DriverCall>
  {
    Rounds(w, ResizesFrom(acquire, w, 0)) + [AcquireNextImage(w)]
  }

  /** Each round asks for one image and resizes once. */
  lemma {:induction false} RoundsCounts(w: WindowId, m: nat)
    ensures multiset(Rounds(w, m))[AcquireNextImage(w)] == m
    ensures multiset(Rounds(w, m))[Resize(w)] == m
  {
    if m > 0 {
      RoundsCounts(w, m - 1);
      var round := [AcquireNextImage(w), WaitIdlePresentQueues, Resize(w)];
      assert multiset(Rounds(w, m)) == multiset(Rounds(w, m - 1)) + multiset(round);
    }
  }

  /** Acquire is called once more than the number of resizes, and the window is resized once
      per out-of-date result before the last try. */
  lemma WindowCallCounts(acquire: AcquireOracle, w: WindowId)
    ensures multiset(WindowCalls(acquire, w))[AcquireNextImage(w)] == ResizesFrom(acquire, w, 0) + 1
    ensures multiset(WindowCalls(acquire, w))[Resize(w)] == ResizesFrom(acquire, w, 0)
  {
    var n := ResizesFrom(acquire, w, 0);
    RoundsCounts(w, n);
    assert multiset(WindowCalls(acquire, w)) == multiset(Rounds(w, n)) + multiset{AcquireNextImage(w)};
  }

  /** Each window is asked for an image at most 11 times and resized at most 10 times, and
      resized at all exactly when its first try is out of date. */
  lemma RetriesAreBounded(acquire: AcquireOracle, w: WindowId)
    ensures multiset(WindowCalls(acquire, w))[AcquireNextImage(w)] <= MAXIMUM_TRIES + 1
    ensures multiset(WindowCalls(acquire, w))[Resize(w)] <= MAXIMUM_TRIES
    ensures multiset(WindowCalls(acquire, w))[Resize(w)] > 0 <==> acquire(w, 0) == VK_ERROR_OUT_OF_DATE_KHR
  {
    WindowCallCounts(acquire, w);
  }

  /** The calls of the loop body, a wait and a resize, then the next acquire, complete a round. */
  lemma RoundCalls(w: WindowId, m: nat)
    ensures Rounds(w, m) + [AcquireNextImage(w)] + [WaitIdlePresentQueues, Resize(w)] + [AcquireNextImage(w)]
      == Rounds(w, m + 1) + [AcquireNextImage(w)]
  {
    var round := [AcquireNextImage(w), WaitIdlePresentQueues, Resize(w)];
    assert [AcquireNextImage(w)] + [WaitIdlePresentQueues, Resize(w)] == round;
    AppendAssociative(Rounds(w, m), [AcquireNextImage(w)], [WaitIdlePresentQueues, Resize(w)]);
  }

  lemma AppendAssociative<T>(a: seq<T>, b: seq<T>, c: seq<T>)
    ensures a + (b + c) == (a + b) + c
  {
  }

  /** `while ((result = window->acquireNextImage()) == VK_ERROR_OUT_OF_DATE_KHR && numTries < maximumTries)`. */
  method AcquireWindow(acquire: AcquireOracle, w: WindowId) returns (result: VkResult, numTries: nat, calls: seq<DriverCall>)
    ensures numTries == ResizesFrom(acquire, w, 0)
    ensures result == FinalResult(acquire, w)
    ensures calls == WindowCalls(acquire, w)
  {
    numTries := 0;
    result := acquire(w, numTries);
    calls := [AcquireNextImage(w)];
    while result == VK_ERROR_OUT_OF_DATE_KHR && numTries < MAXIMUM_TRIES
      invariant numTries <= MAXIMUM_TRIES
      invariant result == acquire(w, numTries)
      invariant ResizesFrom(acquire, w, numTries) == ResizesFrom(acquire, w, 0)
      invariant calls == Rounds(w, numTries) + [AcquireNextImage(w)]
      decreases MAXIMUM_TRIES - numTries
    {
      RoundCalls(w, numTries);
      numTries := numTries + 1;
      calls := calls + [WaitIdlePresentQueues, Resize(w)];
      result := acquire(w, numTries);
      calls := calls + [AcquireNextImage(w)];
    }
  }

  /** What acquireNextFrame()'s loop over the windows leaves: the last result, whether any
      window was resized, and the calls made. */
  datatype Acquisition = Acquisition(result: VkResult, resized: bool, calls: seq<DriverCall>)

  function Then(a: Acquisition, b: Acquisition): Acquisition
  {
    Acquisition(b.result, a.resized || b.resized, a.calls + b.calls)
  }

  /** The loop over the windows: each window's retry loop, stopping after the first window
      whose final result is not VK_SUCCESS. */
  function AcquireAll(acquire: AcquireOracle, ws: seq<WindowId>): Acquisition
  {
    if |ws| == 0 then Acquisition(VK_SUCCESS, false, [])
    else
      var first := Acquisition(FinalResult(acquire, ws[0]), ResizesFrom(acquire, ws[0], 0) > 0, WindowCalls(acquire, ws[0]));
      if first.result != VK_SUCCESS then first else Then(first, AcquireAll(acquire, ws[1..]))
  }

  /** acquireNextFrame() succeeds iff every window's retry loop ends in VK_SUCCESS. */
  lemma {:induction false} AcquireAllSucceedsIff(acquire: AcquireOracle, ws: seq<WindowId>)
    ensures AcquireAll(acquire, ws).result == VK_SUCCESS <==>
      forall i :: 0 <= i < |ws| ==> FinalResult(acquire, ws[i]) == VK_SUCCESS
  {
    if |ws| > 0 {
      AcquireAllSucceedsIff(acquire, ws[1..]);
      assert forall i :: 1 <= i < |ws| ==> ws[1..][i - 1] == ws[i];
    }
  }

  /** A failing window stops the loop: the windows after the first failing one are never
      asked, and the result is the failing window's result. */
  lemma {:induction false} StopsAtFirstFailure(acquire: AcquireOracle, ws: seq<WindowId>, k: nat)
    requires k < |ws| && FinalResult(acquire, ws[k]) != VK_SUCCESS
    requires forall i :: 0 <= i < k ==> FinalResult(acquire, ws[i]) == VK_SUCCESS
    ensures AcquireAll(acquire, ws) == AcquireAll(acquire, ws[..k + 1])
    ensures AcquireAll(acquire, ws).result == FinalResult(acquire, ws[k])
  {
    if k > 0 {
      assert FinalResult(acquire, ws[0]) == VK_SUCCESS;
      assert forall i :: 0 <= i < k - 1 ==> ws[1..][i] == ws[i + 1];
      StopsAtFirstFailure(acquire, ws[1..], k - 1);
      assert ws[..k + 1][1..] == ws[1..][..k];
    }
  }

  /** Window i is reached by the loop (every window before it succeeded) and was resized. */
  predicate ResizedWhenReached(acquire: AcquireOracle, ws: seq<WindowId>, i: nat)
    requires i < |ws|
  {
    && ResizesFrom(acquire, ws[i], 0) > 0
    && forall j :: 0 <= j < i ==> FinalResult(acquire, ws[j]) == VK_SUCCESS
  }

  lemma ResizedWhenReachedShift(acquire: AcquireOracle, ws: seq<WindowId>, i: nat)
    requires 0 < i < |ws|
    ensures ResizedWhenReached(acquire, ws, i) <==>
      FinalResult(acquire, ws[0]) == VK_SUCCESS && ResizedWhenReached(acquire, ws[1..], i - 1)
  {
    assert ws[1..][i - 1] == ws[i];
    assert forall j :: 0 <= j < i - 1 ==> ws[1..][j] == ws[j + 1];
    if FinalResult(acquire, ws[0]) == VK_SUCCESS && ResizedWhenReached(acquire, ws[1..], i - 1) {
      forall j | 0 <= j < i ensures FinalResult(acquire, ws[j]) == VK_SUCCESS {
        if j > 0 {
          assert ws[j] == ws[1..][j - 1];
        }
      }
    }
  }

  /** The frame cache is reassigned iff some window the loop reached was resized. */
  lemma {:induction false} ResizedIffSomeReachedWindowResized(acquire: AcquireOracle, ws: seq<WindowId>)
    ensures AcquireAll(acquire, ws).resized <==> exists i :: 0 <= i < |ws| && ResizedWhenReached(acquire, ws, i)
  {
    if |ws| > 0 {
      ResizedIffSomeReachedWindowResized(acquire, ws[1..]);
      if exists i :: 0 <= i < |ws| && ResizedWhenReached(acquire, ws, i) {
        var i :| 0 <= i < |ws| && ResizedWhenReached(acquire, ws, i);
        if i > 0 {
          ResizedWhenReachedShift(acquire, ws, i);
        }
      }
      if ResizesFrom(acquire, ws[0], 0) > 0 {
        assert ResizedWhenReached(acquire, ws, 0);
      }
      if FinalResult(acquire, ws[0]) == VK_SUCCESS && AcquireAll(acquire, ws[1..]).resized {
        var i :| 0 <= i < |ws[1..]| && ResizedWhenReached(acquire, ws[1..], i);
        ResizedWhenReachedShift(acquire, ws, i + 1);
      }
    }
  }

  /** The windows from i on: window i's retry loop, then the rest unless it failed. */
  lemma AcquireAllStep(acquire: AcquireOracle, ws: seq<WindowId>, i: nat)
    requires i < |ws|
    ensures var first := Acquisition(FinalResult(acquire, ws[i]), ResizesFrom(acquire, ws[i], 0) > 0, WindowCalls(acquire, ws[i]));
      AcquireAll(acquire, ws[i..]) == if first.result != VK_SUCCESS then first else Then(first, AcquireAll(acquire, ws[i + 1..]))
  {
    assert ws[i..][0] == ws[i] && ws[i..][1..] == ws[i + 1..];
  }

  lemma ThenAssociative(a: Acquisition, b: Acquisition, c: Acquisition)
    ensures Then(Then(a, b), c) == Then(a, Then(b, c))
  {
    AppendAssociative(a.calls, b.calls, c.calls);
  }

  /** for (auto& window : _windows) { retry loop; if (result != VK_SUCCESS) break; } */
  method AcquireWindows(acquire: AcquireOracle, ws: seq<WindowId>) returns (result: VkResult, resized: bool, calls: seq<DriverCall>)
    ensures Acquisition(result, resized, calls) == AcquireAll(acquire, ws)
  {
    result := VK_SUCCESS;
    resized := false;
    calls := [];
    var i := 0;
    while i < |ws|
      invariant 0 <= i <= |ws|
      invariant result == VK_SUCCESS
      invariant AcquireAll(acquire, ws) == Then(Acquisition(VK_SUCCESS, resized, calls), AcquireAll(acquire, ws[i..]))
    {
      var r, numTries, windowCalls := AcquireWindow(acquire, ws[i]);
      AcquireAllStep(acquire, ws, i);
      ThenAssociative(Acquisition(VK_SUCCESS, resized, calls), Acquisition(r, numTries > 0, windowCalls), AcquireAll(acquire, ws[i + 1..]));
      if numTries > 0 {
        resized := true;
      }
      calls := calls + windowCalls;
      result := r;
      if result != VK_SUCCESS {
        break;
      }
      i := i + 1;
    }
    if result == VK_SUCCESS {
      assert ws[i..] == [];
      assert calls + [] == calls;
    }
  }

  // ----- events -----

  datatype Event = WindowEvent(window: WindowId, id: EventId) | FrameEvent(frameStamp: FrameStamp)

  /** What window->pollEvents(events) reports: whether it found events, and those it appends. */
  datatype PollResult = PollResult(polled: bool, events: seq<Event>)

  /** The events the windows append, in window order. */
  function PolledEvents(ws: seq<WindowId>, poll: WindowId -> PollResult): seq<Event>
  {
    if |ws| == 0 then [] else PolledEvents(ws[..|ws| - 1], poll) + poll(ws[|ws| - 1]).events
  }

  /** Polling windows one after the other appends their events one after the other. */
  lemma {:induction false} PolledEventsAppend(a: seq<WindowId>, b: seq<WindowId>, poll: WindowId -> PollResult)
    ensures PolledEvents(a + b, poll) == PolledEvents(a, poll) + PolledEvents(b, poll)
    decreases |b|
  {
    if |b| == 0 {
      assert a + b == a;
    } else {
      var n := |b| - 1;
      assert (a + b)[..|a + b| - 1] == a + b[..n];
      assert (a + b)[|a + b| - 1] == b[n];
      PolledEventsAppend(a, b[..n], poll);
    }
  }

  /** pollEvents(): the loop over the windows, with no break. */
  method PollWindows(ws: seq<WindowId>, poll: WindowId -> PollResult) returns (result: bool, events: seq<Event>)
    ensures events == PolledEvents(ws, poll)
    ensures result <==> exists i :: 0 <= i < |ws| && poll(ws[i]).polled
  {
    result := false;
    events := [];
    var i := 0;
    while i < |ws|
      invariant 0 <= i <= |ws|
      invariant events == PolledEvents(ws[..i], poll)
      invariant result <==> exists k :: 0 <= k < i && poll(ws[k]).polled
    {
      assert ws[..i + 1][..i] == ws[..i] && ws[..i + 1][i] == ws[i];
      var answer := poll(ws[i]);
      events := events + answer.events;
      if answer.polled {
        result := true;
      }
      i := i + 1;
    }
    assert ws[..i] == ws;
  }

  /** One handler visiting one event. */
  datatype Dispatch = Dispatch(event: Event, handler: HandlerId)

  /** handleEvents(): every event, in order, visited by every handler, in order. */
  function Dispatches(events: seq<Event>, handlers: seq<HandlerId>): (r: seq<Dispatch>)
    ensures |r| == |events| * |handlers|
  {
    if |events| == 0 then []
    else
      var n := |events| - 1;
      Dispatches(events[..n], handlers) + seq(|handlers|, j requires 0 <= j < |handlers| => Dispatch(events[n], handlers[j]))
  }

  lemma MulStep(i: nat, n: nat, h: nat, j: nat)
    requires i < n && j < h
    ensures i * h + j < n * h
  {
    assert i * h + j < (i + 1) * h;
    assert (i + 1) * h <= n * h;
  }

  /** The i-th event reaches the j-th handler at position i * |handlers| + j. */
  lemma {:induction false} DispatchAt(events: seq<Event>, handlers: seq<HandlerId>, i: nat, j: nat)
    requires i < |events| && j < |handlers|
    ensures i * |handlers| + j < |Dispatches(events, handlers)|
    ensures Dispatches(events, handlers)[i * |handlers| + j] == Dispatch(events[i], handlers[j])
  {
    var n := |events| - 1;
    MulStep(i, |events|, |handlers|, j);
    if i < n {
      MulStep(i, n, |handlers|, j);
      DispatchAt(events[..n], handlers, i, j);
    } else {
      assert |Dispatches(events[..n], handlers)| == n * |handlers|;
    }
  }

  // ----- the per-device frame cache -----

  /** Viewer::PerDeviceObjects. */
  datatype PerDeviceObjects = PerDeviceObjects(
    renderFinishedSemaphore: Semaphore,
    graphicsQueue: Queue,
    presentQueue: Queue,
    signalSemaphores: seq<Semaphore>,
    windows: seq<WindowId>,
    imageIndices: seq<nat>,
    commandBuffers: seq<nat>,
    swapchains: seq<SwapchainId>)

  /** The per-window lists of a device run in parallel. */
  predicate FrameCacheParallel(pdo: PerDeviceObjects)
  {
    |pdo.imageIndices| == |pdo.windows| && |pdo.commandBuffers| == |pdo.windows| && |pdo.swapchains| == |pdo.windows|
  }

  /** The entry addWindow() makes on first sight of a device: one signal semaphore, the
      render-finished one. */
  function NewDeviceObjects(semaphore: Semaphore, device: DeviceId, graphicsFamily: int, presentFamily: int): (r: PerDeviceObjects)
    ensures FrameCacheParallel(r) && r.windows == []
    ensures r.signalSemaphores == [r.renderFinishedSemaphore]
  {
    PerDeviceObjects(semaphore, Queue(device, graphicsFamily), Queue(device, presentFamily), [semaphore], [], [], [], [])
  }

  /** The per-window details addWindow() appends: placeholders 0 and the window's swapchain. */
  function WithWindow(pdo: PerDeviceObjects, w: WindowId, swapchain: SwapchainId): (r: PerDeviceObjects)
    ensures FrameCacheParallel(pdo) ==> FrameCacheParallel(r)
    ensures r.signalSemaphores == pdo.signalSemaphores && r.renderFinishedSemaphore == pdo.renderFinishedSemaphore
    ensures r.windows == pdo.windows + [w]
  {
    pdo.(windows := pdo.windows + [w], imageIndices := pdo.imageIndices + [0],
         commandBuffers := pdo.commandBuffers + [0], swapchains := pdo.swapchains + [swapchain])
  }

  /** The entry of a device after reassignFrameCache(). */
  function Reassigned(pdo: PerDeviceObjects, swapchainOf: WindowId -> SwapchainId): (r: PerDeviceObjects)
    ensures FrameCacheParallel(r)
    ensures r.windows == pdo.windows && r.signalSemaphores == pdo.signalSemaphores
    ensures r.renderFinishedSemaphore == pdo.renderFinishedSemaphore
    ensures forall i :: 0 <= i < |r.imageIndices| ==> r.imageIndices[i] == 0 && r.commandBuffers[i] == 0
  {
    pdo.(imageIndices := seq(|pdo.windows|, _ => 0), commandBuffers := seq(|pdo.windows|, _ => 0),
         swapchains := seq(|pdo.windows|, i requires 0 <= i < |pdo.windows| => swapchainOf(pdo.windows[i])))
  }

  /** Reassigning once more with the same swapchains changes nothing. */
  lemma ReassignedIdempotent(pdo: PerDeviceObjects, swapchainOf: WindowId -> SwapchainId)
    ensures Reassigned(Reassigned(pdo, swapchainOf), swapchainOf) == Reassigned(pdo, swapchainOf)
  {
  }

  /** After reassignment each window is paired with its current swapchain, in window order. */
  lemma ReassignedSwapchains(pdo: PerDeviceObjects, swapchainOf: WindowId -> SwapchainId, i: nat)
    requires i < |pdo.windows|
    ensures Reassigned(pdo, swapchainOf).swapchains[i] == swapchainOf(pdo.windows[i])
  {
  }

  function ReassignedMap(m: map<DeviceId, PerDeviceObjects>, swapchainOf: WindowId -> SwapchainId): (r: map<DeviceId, PerDeviceObjects>)
    ensures r.Keys == m.Keys
    ensures forall d :: d in r ==> r[d] == Reassigned(m[d], swapchainOf)
  {
    map d | d in m :: Reassigned(m[d], swapchainOf)
  }

  /** The inner loop of reassignFrameCache(): clear the device's lists and rebuild them
      from its windows. */
  method RebuildFrameCache(pdo: PerDeviceObjects, swapchainOf: WindowId -> SwapchainId) returns (rebuilt: PerDeviceObjects)
    ensures rebuilt == Reassigned(pdo, swapchainOf)
  {
    var windows := pdo.windows;
    var imageIndices, commandBuffers, swapchains := [], [], [];
    var i := 0;
    while i < |windows|
      invariant 0 <= i <= |windows|
      invariant |imageIndices| == i && |commandBuffers| == i && |swapchains| == i
      invariant forall k :: 0 <= k < i ==> imageIndices[k] == 0 && commandBuffers[k] == 0
      invariant forall k :: 0 <= k < i ==> swapchains[k] == swapchainOf(windows[k])
    {
      imageIndices := imageIndices + [0];
      commandBuffers := commandBuffers + [0];
      swapchains := swapchains + [swapchainOf(windows[i])];
      i := i + 1;
    }
    rebuilt := pdo.(imageIndices := imageIndices, commandBuffers := commandBuffers, swapchains := swapchains);
    assert rebuilt.swapchains == Reassigned(pdo, swapchainOf).swapchains;
    assert rebuilt.imageIndices == Reassigned(pdo, swapchainOf).imageIndices;
    assert rebuilt.commandBuffers == Reassigned(pdo, swapchainOf).commandBuffers;
  }

  /** Every device of m not in `remaining` already has its frame cache rebuilt; the others
      are as in m. */
  ghost predicate RebuiltExcept(rebuilt: map<DeviceId, PerDeviceObjects>, m: map<DeviceId, PerDeviceObjects>,
                          remaining: set<DeviceId>, swapchainOf: WindowId -> SwapchainId)
  {
    && remaining <= m.Keys
    && (forall d :: d in rebuilt <==> d in m)
    && (forall d :: d in rebuilt ==> rebuilt[d] == if d in remaining then m[d] else Reassigned(m[d], swapchainOf))
  }

  lemma RebuiltStep(rebuilt: map<DeviceId, PerDeviceObjects>, m: map<DeviceId, PerDeviceObjects>,
                    remaining: set<DeviceId>, swapchainOf: WindowId -> SwapchainId, d: DeviceId)
    requires RebuiltExcept(rebuilt, m, remaining, swapchainOf) && d in remaining
    ensures RebuiltExcept(rebuilt[d := Reassigned(m[d], swapchainOf)], m, remaining - {d}, swapchainOf)
    ensures |remaining - {d}| < |remaining|
  {
    assert remaining == (remaining - {d}) + {d};
  }

  lemma RebuiltAll(rebuilt: map<DeviceId, PerDeviceObjects>, m: map<DeviceId, PerDeviceObjects>,
                   swapchainOf: WindowId -> SwapchainId)
    requires RebuiltExcept(rebuilt, m, {}, swapchainOf)
    ensures rebuilt == ReassignedMap(m, swapchainOf)
  {
    assert rebuilt.Keys == ReassignedMap(m, swapchainOf).Keys;
  }

  /** The loop of reassignFrameCache() over the device map: every device's frame cache rebuilt. */
  method RebuildFrameCaches(m: map<DeviceId, PerDeviceObjects>, swapchainOf: WindowId -> SwapchainId)
    returns (rebuilt: map<DeviceId, PerDeviceObjects>)
    ensures rebuilt == ReassignedMap(m, swapchainOf)
  {
    rebuilt := m;
    var remaining := m.Keys;
    while remaining != {}
      invariant RebuiltExcept(rebuilt, m, remaining, swapchainOf)
      decreases |remaining|
    {
      var d :| d in remaining;
      var pdo := RebuildFrameCache(m[d], swapchainOf);
      RebuiltStep(rebuilt, m, remaining, swapchainOf, d);
      rebuilt := rebuilt[d := pdo];
      remaining := remaining - {d};
    }
    RebuiltAll(rebuilt, m, swapchainOf);
  }
}
