/**
 * vsg::Viewer: the windows, the per-device frame cache, the events of the current frame
 * and the record-and-submit tasks and presentations of the scene.
 *
 * Windows and devices are ids.  What the windows, the devices and the clock answer is
 * passed in: `valid(w)` is w->valid(), `poll`, `acquire` and `swapchainOf` are as in
 * ViewerFrames, `time` is clock::now(), and `maxSlotOf(d)` is the maxSlot the descriptor
 * statistics of device d report.  Calls into the driver, the pagers and the tasks are
 * returned as logs.
 */
module Viewer {
  import opened VkTypes
  import CG = CommandGraph
  import VT = ViewerTasks
  import VF = ViewerFrames
  import VC = ViewerCompile

  /** What update(), recordAndSubmit() and present() call, in order. */
  datatype FrameCall =
    | UpdateSceneGraph(pager: PagerId, frameStamp: Option<FrameStamp>)
    | Submit(task: VT.RecordAndSubmitTask, frameStamp: Option<FrameStamp>)
    | PresentFrame(presentation: VT.Presentation)

  /** The pager calls update() makes: one per task with a pager, in task order. */
  function UpdateCalls(tasks: seq<VT.RecordAndSubmitTask>, frameStamp: Option<FrameStamp>): seq<FrameCall>
  {
    if |tasks| == 0 then []
    else
      var t := tasks[|tasks| - 1];
      UpdateCalls(tasks[..|tasks| - 1], frameStamp)
        + (if t.databasePager.Some? then [UpdateSceneGraph(t.databasePager.value, frameStamp)] else [])
  }

  /** Each pager call of update() is for the pager of one of the tasks. */
  lemma {:induction false} UpdateCallIsForPagedTask(tasks: seq<VT.RecordAndSubmitTask>, frameStamp: Option<FrameStamp>, c: FrameCall)
    requires c in UpdateCalls(tasks, frameStamp)
    ensures exists i :: 0 <= i < |tasks| && tasks[i].databasePager.Some? && c == UpdateSceneGraph(tasks[i].databasePager.value, frameStamp)
  {
    var n := |tasks| - 1;
    if c in UpdateCalls(tasks[..n], frameStamp) {
      UpdateCallIsForPagedTask(tasks[..n], frameStamp, c);
      var i :| 0 <= i < n && tasks[..n][i].databasePager.Some? && c == UpdateSceneGraph(tasks[..n][i].databasePager.value, frameStamp);
      assert tasks[i] == tasks[..n][i];
    } else {
      assert tasks[n].databasePager.Some? && c == UpdateSceneGraph(tasks[n].databasePager.value, frameStamp);
    }
  }

  /** update() tells the pager of every task that has one about the current frame stamp,
      and makes no other call. */
  lemma {:induction false} UpdateCallsArePagedTasks(tasks: seq<VT.RecordAndSubmitTask>, frameStamp: Option<FrameStamp>)
    ensures |UpdateCalls(tasks, frameStamp)| <= |tasks|
    ensures forall i :: 0 <= i < |tasks| && tasks[i].databasePager.Some? ==>
      UpdateSceneGraph(tasks[i].databasePager.value, frameStamp) in UpdateCalls(tasks, frameStamp)
    ensures forall c :: c in UpdateCalls(tasks, frameStamp) ==>
      exists i :: 0 <= i < |tasks| && tasks[i].databasePager.Some? && c == UpdateSceneGraph(tasks[i].databasePager.value, frameStamp)
  {
    forall c | c in UpdateCalls(tasks, frameStamp)
      ensures exists i :: 0 <= i < |tasks| && tasks[i].databasePager.Some? && c == UpdateSceneGraph(tasks[i].databasePager.value, frameStamp)
    {
      UpdateCallIsForPagedTask(tasks, frameStamp, c);
    }
    if |tasks| > 0 {
      var n := |tasks| - 1;
      UpdateCallsArePagedTasks(tasks[..n], frameStamp);
      forall i | 0 <= i < |tasks| && tasks[i].databasePager.Some?
        ensures UpdateSceneGraph(tasks[i].databasePager.value, frameStamp) in UpdateCalls(tasks, frameStamp)
      {
        if i < n {
          assert tasks[..n][i] == tasks[i];
        }
      }
    }
  }

  /** The loop of active() over the windows: it ends up true iff every window is valid. */
  method AllWindowsValid(windows: seq<WindowId>, valid: WindowId -> bool) returns (allValid: bool)
    ensures allValid <==> forall k :: 0 <= k < |windows| ==> valid(windows[k])
  {
    allValid := true;
    var i := 0;
    while i < |windows|
      invariant 0 <= i <= |windows|
      invariant allValid <==> forall k :: 0 <= k < i ==> valid(windows[k])
    {
      if !valid(windows[i]) {
        allValid := false;
      }
      i := i + 1;
    }
  }

  /** The loop of active() over the device map: every device is waited for once. */
  method WaitForDevices(devices: set<DeviceId>) returns (waited: set<DeviceId>)
    ensures waited == devices
  {
    waited := {};
    var remaining := devices;
    while remaining != {}
      invariant waited + remaining == devices && waited !! remaining
      decreases |remaining|
    {
      var d :| d in remaining;
      waited := waited + {d};
      remaining := remaining - {d};
    }
  }

  class Viewer {
    var close: bool
    var windows: seq<WindowId>
    var deviceMap: map<DeviceId, VF.PerDeviceObjects>
    var frameStamp: Option<FrameStamp>
    var events: seq<VF.Event>
    var eventHandlers: seq<HandlerId>
    var recordAndSubmitTasks: seq<VT.RecordAndSubmitTask>
    var presentations: seq<VT.Presentation>

    /** Every device's per-window lists run in parallel, and it signals its render-finished
        semaphore. */
    ghost predicate Valid()
      reads this
    {
      forall d :: d in deviceMap ==>
        VF.FrameCacheParallel(deviceMap[d]) && deviceMap[d].signalSemaphores == [deviceMap[d].renderFinishedSemaphore]
    }

    /** The viewer is active: not closed, and every window valid. */
    predicate ActiveWith(valid: WindowId -> bool)
      reads this
    {
      !close && forall i :: 0 <= i < |windows| ==> valid(windows[i])
    }

    constructor ()
      ensures !close && windows == [] && deviceMap == map[] && frameStamp == None
      ensures events == [] && eventHandlers == [] && recordAndSubmitTasks == [] && presentations == []
      ensures Valid()
    {
      close, windows, deviceMap, frameStamp := false, [], map[], None;
      events, eventHandlers, recordAndSubmitTasks, presentations := [], [], [], [];
    }

    /**
     * addWindow(window): `device` is window->device(), the families are what the physical
     * device reports for the window's surface, `swapchain` is *(window->swapchain()).  A
     * device seen for the first time gets a fresh render-finished semaphore, which is also
     * its one signal semaphore, and its graphics and present queues; the window is then
     * appended to its device's entry with placeholder image index and command buffer.
     */
    method AddWindow(window: WindowId, device: DeviceId, graphicsFamily: int, presentFamily: int, swapchain: SwapchainId)
      requires Valid()
      modifies this`windows, this`deviceMap
      ensures Valid()
      ensures windows == old(windows) + [window]
      ensures deviceMap.Keys == old(deviceMap).Keys + {device}
      ensures forall d :: d in old(deviceMap) && d != device ==> deviceMap[d] == old(deviceMap)[d]
      ensures device in old(deviceMap) ==> deviceMap[device] == VF.WithWindow(old(deviceMap)[device], window, swapchain)
      ensures device !in old(deviceMap) ==>
        && fresh(deviceMap[device].renderFinishedSemaphore)
        && deviceMap[device] == VF.WithWindow(VF.NewDeviceObjects(deviceMap[device].renderFinishedSemaphore, device, graphicsFamily, presentFamily), window, swapchain)
    {
      windows := windows + [window];
      if device !in deviceMap {
        var semaphore := new Semaphore();
        deviceMap := deviceMap[device := VF.NewDeviceObjects(semaphore, device, graphicsFamily, presentFamily)];
      }
      deviceMap := deviceMap[device := VF.WithWindow(deviceMap[device], window, swapchain)];
    }

    /**
     * active(): true exactly when the viewer is not closed and every window is valid.
     * When it is not active it waits for every device to go idle; `waited` is the set of
     * devices it waited for.
     */
    method Active(valid: WindowId -> bool) returns (active: bool, waited: set<DeviceId>)
      ensures active <==> ActiveWith(valid)
      ensures !active ==> waited == deviceMap.Keys
      ensures active ==> waited == {}
    {
      var viewerIsActive := !close;
      if viewerIsActive {
        viewerIsActive := AllWindowsValid(windows, valid);
      }
      if !viewerIsActive {
        waited := WaitForDevices(deviceMap.Keys);
        active := false;
      } else {
        waited := {};
        active := true;
      }
    }

    /**
     * pollEvents(discardPreviousEvents): every window appends what it polls, in window
     * order, after the previous events or after nothing; the result says whether any
     * window reported events.
     */
    method PollEvents(discardPreviousEvents: bool, poll: WindowId -> VF.PollResult) returns (result: bool)
      modifies this`events
      ensures events == (if discardPreviousEvents then [] else old(events)) + VF.PolledEvents(windows, poll)
      ensures result <==> exists i :: 0 <= i < |windows| && poll(windows[i]).polled
    {
      if discardPreviousEvents {
        events := [];
      }
      var polled;
      result, polled := VF.PollWindows(windows, poll);
      events := events + polled;
    }

    /** reassignFrameCache(): every device's lists are rebuilt from its windows' current
        swapchains. */
    method ReassignFrameCache(swapchainOf: WindowId -> SwapchainId)
      requires Valid()
      modifies this`deviceMap
      ensures Valid()
      ensures deviceMap == VF.ReassignedMap(old(deviceMap), swapchainOf)
    {
      var m := VF.RebuildFrameCaches(deviceMap, swapchainOf);
      deviceMap := m;
    }

    /** advance(): poll with the previous events discarded, stamp the new frame, and append
        its frame event. */
    method Advance(poll: WindowId -> VF.PollResult, time: nat)
      modifies this`events, this`frameStamp
      ensures frameStamp == Some(VF.NextFrameStamp(old(frameStamp), time))
      ensures events == VF.PolledEvents(windows, poll) + [VF.FrameEvent(frameStamp.value)]
    {
      var _ := PollEvents(true, poll);
      frameStamp := Some(VF.NextFrameStamp(frameStamp, time));
      events := events + [VF.FrameEvent(frameStamp.value)];
    }

    /**
     * acquireNextFrame(): nothing when closed; otherwise the retry loop of every window in
     * turn, stopping after the first window that fails, and one reassignment of the frame
     * cache if any window was resized.  The result says whether every window acquired an
     * image.
     */
    method AcquireNextFrame(acquire: VF.AcquireOracle, swapchainOf: WindowId -> SwapchainId)
      returns (ok: bool, calls: seq<VF.DriverCall>)
      requires Valid()
      modifies this`deviceMap
      ensures Valid()
      ensures close ==> !ok && calls == [] && deviceMap == old(deviceMap)
      ensures !close ==>
        var a := VF.AcquireAll(acquire, windows);
        && (ok <==> a.result == VK_SUCCESS)
        && calls == a.calls
        && deviceMap == (if a.resized then VF.ReassignedMap(old(deviceMap), swapchainOf) else old(deviceMap))
    {
      if close {
        return false, [];
      }
      var result, resized;
      result, resized, calls := VF.AcquireWindows(acquire, windows);
      if resized {
        ReassignFrameCache(swapchainOf);
      }
      ok := result == VK_SUCCESS;
    }

    /**
     * advanceToNextFrame(): false, with nothing changed, when the viewer is not active.
     * Otherwise the events are re-polled and the next frame acquired; only when that
     * succeeds is the next frame stamped and its frame event appended.
     */
    method AdvanceToNextFrame(valid: WindowId -> bool, poll: WindowId -> VF.PollResult, acquire: VF.AcquireOracle,
                              swapchainOf: WindowId -> SwapchainId, time: nat)
      returns (ok: bool, calls: seq<VF.DriverCall>)
      requires Valid()
      modifies this`events, this`frameStamp, this`deviceMap
      ensures Valid()
      ensures !old(ActiveWith(valid)) ==>
        !ok && calls == [] && events == old(events) && frameStamp == old(frameStamp) && deviceMap == old(deviceMap)
      ensures old(ActiveWith(valid)) ==>
        var a := VF.AcquireAll(acquire, windows);
        && (ok <==> a.result == VK_SUCCESS)
        && calls == a.calls
        && deviceMap == (if a.resized then VF.ReassignedMap(old(deviceMap), swapchainOf) else old(deviceMap))
        && (ok ==> frameStamp == Some(VF.NextFrameStamp(old(frameStamp), time))
                   && events == VF.PolledEvents(windows, poll) + [VF.FrameEvent(frameStamp.value)])
        && (!ok ==> frameStamp == old(frameStamp) && events == VF.PolledEvents(windows, poll))
    {
      var active, _ := Active(valid);
      if !active {
        return false, [];
      }
      var _ := PollEvents(true, poll);
      var acquired;
      acquired, calls := AcquireNextFrame(acquire, swapchainOf);
      if !acquired {
        return false, calls;
      }
      frameStamp := Some(VF.NextFrameStamp(frameStamp, time));
      events := events + [VF.FrameEvent(frameStamp.value)];
      ok := true;
    }

    /** handleEvents(): every handler visits every event, event by event. */
    method HandleEvents() returns (dispatched: seq<VF.Dispatch>)
      ensures dispatched == VF.Dispatches(events, eventHandlers)
    {
      var evs, hs := events, eventHandlers;
      dispatched := [];
      var i := 0;
      while i < |evs|
        invariant 0 <= i <= |evs|
        invariant dispatched == VF.Dispatches(evs[..i], hs)
      {
        assert evs[..i + 1][..i] == evs[..i] && evs[..i + 1][i] == evs[i];
        ghost var before := dispatched;
        var j := 0;
        while j < |hs|
          invariant 0 <= j <= |hs|
          invariant |dispatched| == |before| + j && dispatched[..|before|] == before
          invariant forall k :: 0 <= k < j ==> dispatched[|before| + k] == VF.Dispatch(evs[i], hs[k])
        {
          dispatched := dispatched + [VF.Dispatch(evs[i], hs[j])];
          j := j + 1;
        }
        assert dispatched == before + seq(|hs|, k requires 0 <= k < |hs| => VF.Dispatch(evs[i], hs[k]));
        i := i + 1;
      }
      assert evs[..i] == evs;
    }

    /** compile(): the phases of ViewerCompile.CompileTasks over the viewer's tasks. */
    method Compile(maxSlotOf: DeviceId -> nat) returns (log: seq<VC.CompileEvent>)
      modifies VT.GraphSet(VC.AllGraphs(recordAndSubmitTasks))`maxSlot
      ensures log == VC.CompileLog(recordAndSubmitTasks)
      ensures forall g :: g in VC.AllGraphs(recordAndSubmitTasks) ==> g.maxSlot == maxSlotOf(g.device)
    {
      log := VC.CompileTasks(recordAndSubmitTasks, maxSlotOf);
    }

    /**
     * assignRecordAndSubmitTaskAndPresentation(commandGraphs, databasePager): one task per
     * (device, queue family, present family) key of the graphs, in ascending key order,
     * appended after the existing tasks, and a presentation for each key with a present
     * family, appended after the existing presentations.  Each task is TaskFor its key and
     * group apart from the semaphore it signals: one fresh semaphore for a presenting task,
     * none otherwise.  The secondaries of the presenting groups point at their last primary.
     */
    method AssignRecordAndSubmitTaskAndPresentation(commandGraphs: seq<CG.CommandGraph>, databasePager: Option<PagerId>)
      modifies this`recordAndSubmitTasks, this`presentations, VT.AllSecondaries(VT.PresentingGraphs(VT.GroupKeys(commandGraphs), commandGraphs))`primary
      ensures var keys := old(VT.GroupKeys(commandGraphs));
        var n := |old(recordAndSubmitTasks)|;
        && |recordAndSubmitTasks| == n + |keys|
        && recordAndSubmitTasks[..n] == old(recordAndSubmitTasks)
        && var added := recordAndSubmitTasks[n..];
        && (forall j :: 0 <= j < |keys| ==>
              added[j].(signalSemaphores := []) == old(VT.TaskFor(keys[j], VT.Group(commandGraphs, keys[j]), databasePager)))
        && (forall j :: 0 <= j < |keys| && keys[j].presentFamily >= 0 ==>
              |added[j].signalSemaphores| == 1 && fresh(added[j].signalSemaphores[0]))
        && (forall j :: 0 <= j < |keys| && keys[j].presentFamily < 0 ==> added[j].signalSemaphores == [])
        && presentations == old(presentations) + VT.PresentationsFor(keys, added)
      ensures var ps := old(VT.PresentingGraphs(VT.GroupKeys(commandGraphs), commandGraphs));
        var secs := old(VT.SecondariesList(VT.PresentingGraphs(VT.GroupKeys(commandGraphs), commandGraphs)));
        |secs| == |ps| && VT.PrimariesAssigned(ps, secs)
    {
      var tasks, newPresentations := VT.AssignTasks(commandGraphs, databasePager);
      recordAndSubmitTasks := recordAndSubmitTasks + tasks;
      presentations := presentations + newPresentations;
      assert recordAndSubmitTasks[..|old(recordAndSubmitTasks)|] == old(recordAndSubmitTasks);
      assert recordAndSubmitTasks[|old(recordAndSubmitTasks)|..] == tasks;
    }

    /** update(): each task's pager, in task order, told the current frame stamp. */
    method Update() returns (calls: seq<FrameCall>)
      ensures calls == UpdateCalls(recordAndSubmitTasks, frameStamp)
    {
      var tasks := recordAndSubmitTasks;
      calls := [];
      var i := 0;
      while i < |tasks|
        invariant 0 <= i <= |tasks|
        invariant calls == UpdateCalls(tasks[..i], frameStamp)
      {
        assert tasks[..i + 1][..i] == tasks[..i] && tasks[..i + 1][i] == tasks[i];
        if tasks[i].databasePager.Some? {
          calls := calls + [UpdateSceneGraph(tasks[i].databasePager.value, frameStamp)];
        }
        i := i + 1;
      }
      assert tasks[..i] == tasks;
    }

    /** recordAndSubmit(): every task submitted once with the current frame stamp, in order. */
    method RecordAndSubmit() returns (calls: seq<FrameCall>)
      ensures |calls| == |recordAndSubmitTasks|
      ensures forall i :: 0 <= i < |calls| ==> calls[i] == Submit(recordAndSubmitTasks[i], frameStamp)
    {
      var tasks := recordAndSubmitTasks;
      calls := [];
      var i := 0;
      while i < |tasks|
        invariant 0 <= i <= |tasks| && |calls| == i
        invariant forall k :: 0 <= k < i ==> calls[k] == Submit(tasks[k], frameStamp)
      {
        calls := calls + [Submit(tasks[i], frameStamp)];
        i := i + 1;
      }
    }

    /** present(): every presentation presented once, in order. */
    method Present() returns (calls: seq<FrameCall>)
      ensures |calls| == |presentations|
      ensures forall i :: 0 <= i < |calls| ==> calls[i] == PresentFrame(presentations[i])
    {
      var all := presentations;
      calls := [];
      var i := 0;
      while i < |all|
        invariant 0 <= i <= |all| && |calls| == i
        invariant forall k :: 0 <= k < i ==> calls[k] == PresentFrame(all[k])
      {
        calls := calls + [PresentFrame(all[i])];
        i := i + 1;
      }
    }
  }
}
