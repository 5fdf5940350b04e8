/**
 * The phases of vsg::Viewer::compile().
 *
 * compile() does nothing without tasks.  Otherwise it collects the descriptor statistics of
 * every command graph of every task, sets up one compile traversal per device (ascending,
 * as std::map visits them), compiles every graph after setting its maxSlot to the one its
 * device's statistics report, hands each task's pager the compile traversal of its first
 * graph's device, dispatches the transfer commands of every device, waits for all of them,
 * and finally starts the pagers.  The statistics themselves and the compile traversal are
 * not modelled; the event log records which object each phase works on.
 */
module ViewerCompile {
  import opened VkTypes
  import Ordering
  import CG = CommandGraph
  import VT = ViewerTasks

  datatype CompileEvent =
    | CollectStats(graph: CG.CommandGraph)
    | CreateCompileTraversal(device: DeviceId)
    | CompileGraph(graph: CG.CommandGraph)
    | AssignPagerCompile(pager: PagerId, device: DeviceId)
    | DispatchTransfers(device: DeviceId)
    | WaitForCompletion(device: DeviceId)
    | StartPager(pager: PagerId)

  /** The phase an event belongs to, in the order compile() runs the phases. */
  function Phase(e: CompileEvent): nat
  {
    match e
    case CollectStats(_) => 0
    case CreateCompileTraversal(_) => 1
    case CompileGraph(_) => 2
    case AssignPagerCompile(_, _) => 2
    case DispatchTransfers(_) => 3
    case WaitForCompletion(_) => 4
    case StartPager(_) => 5
  }

  /** Every command graph of every task, in task order. */
  function AllGraphs(tasks: seq<VT.RecordAndSubmitTask>): seq<CG.CommandGraph>
  {
    if |tasks| == 0 then [] else AllGraphs(tasks[..|tasks| - 1]) + tasks[|tasks| - 1].commandGraphs
  }

  function DeviceList(gs: seq<CG.CommandGraph>): (r: seq<DeviceId>)
    reads VT.GraphSet(gs)`device
    ensures |r| == |gs|
  {
    if |gs| == 0 then []
    else
      assert forall g :: g in gs[..|gs| - 1] ==> g in gs;
      DeviceList(gs[..|gs| - 1]) + [gs[|gs| - 1].device]
  }

  /** The keys of deviceResourceMap, in the order the map visits them. */
  function Devices(tasks: seq<VT.RecordAndSubmitTask>): seq<DeviceId>
    reads VT.GraphSet(AllGraphs(tasks))`device
  {
    Ordering.SortedKeys(DeviceList(AllGraphs(tasks)), Ordering.NatLess)
  }

  function CollectPhase(gs: seq<CG.CommandGraph>): (r: seq<CompileEvent>)
    ensures |r| == |gs|
  {
    if |gs| == 0 then [] else CollectPhase(gs[..|gs| - 1]) + [CollectStats(gs[|gs| - 1])]
  }

  /** The three loops over deviceResourceMap. */
  datatype DevicePhase = Setup | Dispatch | Wait

  function DeviceEvent(phase: DevicePhase, d: DeviceId): CompileEvent
  {
    match phase
    case Setup => CreateCompileTraversal(d)
    case Dispatch => DispatchTransfers(d)
    case Wait => WaitForCompletion(d)
  }

  function DevicePhaseEvents(phase: DevicePhase, devices: seq<DeviceId>): seq<CompileEvent>
  {
    seq(|devices|, i requires 0 <= i < |devices| => DeviceEvent(phase, devices[i]))
  }

  function CompileGraphEvents(gs: seq<CG.CommandGraph>): (r: seq<CompileEvent>)
    ensures |r| == |gs| && forall i :: 0 <= i < |gs| ==> r[i] == CompileGraph(gs[i])
  {
    if |gs| == 0 then [] else CompileGraphEvents(gs[..|gs| - 1]) + [CompileGraph(gs[|gs| - 1])]
  }

  /** What the compile loop issues for one task. */
  function TaskCompileEvents(task: VT.RecordAndSubmitTask): seq<CompileEvent>
    reads VT.GraphSet(task.commandGraphs)`device
  {
    var gs := task.commandGraphs;
    CompileGraphEvents(gs)
      + (if task.databasePager.Some? && |gs| > 0 then [AssignPagerCompile(task.databasePager.value, gs[0].device)] else [])
  }

  function CompilePhase(tasks: seq<VT.RecordAndSubmitTask>): seq<CompileEvent>
    reads VT.GraphSet(AllGraphs(tasks))`device
  {
    if |tasks| == 0 then []
    else
      AllGraphsPrefix(tasks);
      CompilePhase(tasks[..|tasks| - 1]) + TaskCompileEvents(tasks[|tasks| - 1])
  }

  lemma AllGraphsPrefix(tasks: seq<VT.RecordAndSubmitTask>)
    requires |tasks| > 0
    ensures VT.GraphSet(AllGraphs(tasks[..|tasks| - 1])) <= VT.GraphSet(AllGraphs(tasks))
    ensures VT.GraphSet(tasks[|tasks| - 1].commandGraphs) <= VT.GraphSet(AllGraphs(tasks))
  {
  }

  lemma {:induction false} AllGraphsAppend(a: seq<VT.RecordAndSubmitTask>, b: seq<VT.RecordAndSubmitTask>)
    ensures AllGraphs(a + b) == AllGraphs(a) + AllGraphs(b)
    decreases |b|
  {
    if |b| == 0 {
      assert a + b == a;
    } else {
      var n := |b| - 1;
      var ab := a + b;
      assert ab[..|ab| - 1] == a + b[..n];
      assert ab[|ab| - 1] == b[n];
      assert AllGraphs(ab) == AllGraphs(a + b[..n]) + b[n].commandGraphs;
      AllGraphsAppend(a, b[..n]);
      assert AllGraphs(b) == AllGraphs(b[..n]) + b[n].commandGraphs;
    }
  }

  function StartPhase(tasks: seq<VT.RecordAndSubmitTask>): seq<CompileEvent>
  {
    if |tasks| == 0 then []
    else
      var t := tasks[|tasks| - 1];
      StartPhase(tasks[..|tasks| - 1]) + (if t.databasePager.Some? then [StartPager(t.databasePager.value)] else [])
  }

  /** Everything compile() does, in order. */
  function CompileLog(tasks: seq<VT.RecordAndSubmitTask>): seq<CompileEvent>
    reads VT.GraphSet(AllGraphs(tasks))`device
  {
    if |tasks| == 0 then []
    else
      var devices := Devices(tasks);
      CollectPhase(AllGraphs(tasks)) + DevicePhaseEvents(Setup, devices) + CompilePhase(tasks)
        + DevicePhaseEvents(Dispatch, devices) + DevicePhaseEvents(Wait, devices) + StartPhase(tasks)
  }

  // ----- the phase order -----

  predicate PhaseOrdered(log: seq<CompileEvent>)
  {
    forall i, j :: 0 <= i < j < |log| ==> Phase(log[i]) <= Phase(log[j])
  }

  predicate PhasesBetween(log: seq<CompileEvent>, lo: nat, hi: nat)
  {
    forall i :: 0 <= i < |log| ==> lo <= Phase(log[i]) <= hi
  }

  lemma PhaseOrderedConcat(a: seq<CompileEvent>, b: seq<CompileEvent>, lo: nat, k: nat, hi: nat)
    requires PhaseOrdered(a) && PhaseOrdered(b)
    requires lo <= k <= hi && PhasesBetween(a, lo, k) && PhasesBetween(b, k, hi)
    ensures PhaseOrdered(a + b) && PhasesBetween(a + b, lo, hi)
  {
    forall i, j | 0 <= i < j < |a + b| ensures Phase((a + b)[i]) <= Phase((a + b)[j]) {
      if j < |a| {
        assert (a + b)[i] == a[i] && (a + b)[j] == a[j];
      } else if i >= |a| {
        assert (a + b)[i] == b[i - |a|] && (a + b)[j] == b[j - |a|];
      } else {
        assert (a + b)[i] == a[i] && (a + b)[j] == b[j - |a|];
      }
    }
    forall i | 0 <= i < |a + b| ensures lo <= Phase((a + b)[i]) <= hi {
      if i < |a| {
        assert (a + b)[i] == a[i];
      } else {
        assert (a + b)[i] == b[i - |a|];
      }
    }
  }

  lemma {:induction false} CollectPhaseIsPhase0(gs: seq<CG.CommandGraph>)
    ensures PhasesBetween(CollectPhase(gs), 0, 0)
  {
    if |gs| > 0 {
      CollectPhaseIsPhase0(gs[..|gs| - 1]);
    }
  }

  lemma {:induction false} CompilePhaseIsPhase2(tasks: seq<VT.RecordAndSubmitTask>)
    ensures PhasesBetween(CompilePhase(tasks), 2, 2)
  {
    if |tasks| > 0 {
      CompilePhaseIsPhase2(tasks[..|tasks| - 1]);
    }
  }

  lemma {:induction false} StartPhaseIsPhase5(tasks: seq<VT.RecordAndSubmitTask>)
    ensures PhasesBetween(StartPhase(tasks), 5, 5)
  {
    if |tasks| > 0 {
      StartPhaseIsPhase5(tasks[..|tasks| - 1]);
    }
  }

  /** A log whose events all belong to one phase is phase-ordered. */
  lemma SinglePhaseOrdered(log: seq<CompileEvent>, k: nat)
    requires PhasesBetween(log, k, k)
    ensures PhaseOrdered(log)
  {
    forall i, j | 0 <= i < j < |log| ensures Phase(log[i]) <= Phase(log[j]) {
      assert Phase(log[i]) == k && Phase(log[j]) == k;
    }
  }

  lemma DevicePhaseEventsBetween(phase: DevicePhase, devices: seq<DeviceId>, k: nat)
    requires k == match phase case Setup => 1 case Dispatch => 3 case Wait => 4
    ensures PhasesBetween(DevicePhaseEvents(phase, devices), k, k)
  {
  }

  /** Six blocks of phases 0, 1, 2, 3, 4 and 5 form a phase-ordered log, in that order. */
  lemma SixPhasesOrdered(b0: seq<CompileEvent>, b1: seq<CompileEvent>, b2: seq<CompileEvent>,
                         b3: seq<CompileEvent>, b4: seq<CompileEvent>, b5: seq<CompileEvent>)
    requires PhasesBetween(b0, 0, 0) && PhasesBetween(b1, 1, 1) && PhasesBetween(b2, 2, 2)
    requires PhasesBetween(b3, 3, 3) && PhasesBetween(b4, 4, 4) && PhasesBetween(b5, 5, 5)
    ensures PhaseOrdered(b0 + b1 + b2 + b3 + b4 + b5)
  {
    SinglePhaseOrdered(b0, 0);
    SinglePhaseOrdered(b1, 1);
    SinglePhaseOrdered(b2, 2);
    SinglePhaseOrdered(b3, 3);
    SinglePhaseOrdered(b4, 4);
    SinglePhaseOrdered(b5, 5);
    PhaseOrderedConcat(b0, b1, 0, 0, 1);
    PhaseOrderedConcat(b0 + b1, b2, 0, 1, 2);
    PhaseOrderedConcat(b0 + b1 + b2, b3, 0, 2, 3);
    PhaseOrderedConcat(b0 + b1 + b2 + b3, b4, 0, 3, 4);
    PhaseOrderedConcat(b0 + b1 + b2 + b3 + b4, b5, 0, 4, 5);
  }

  /** The phases of compile() never interleave: all statistics are collected before any
      compile traversal is set up, every graph is compiled after that, every dispatch comes
      after all the compiling, every wait after all the dispatches, and the pagers start last. */
  lemma CompilePhasesInOrder(tasks: seq<VT.RecordAndSubmitTask>)
    ensures PhaseOrdered(CompileLog(tasks))
  {
    if |tasks| > 0 {
      var devices := Devices(tasks);
      CollectPhaseIsPhase0(AllGraphs(tasks));
      DevicePhaseEventsBetween(Setup, devices, 1);
      CompilePhaseIsPhase2(tasks);
      DevicePhaseEventsBetween(Dispatch, devices, 3);
      DevicePhaseEventsBetween(Wait, devices, 4);
      StartPhaseIsPhase5(tasks);
      SixPhasesOrdered(CollectPhase(AllGraphs(tasks)), DevicePhaseEvents(Setup, devices), CompilePhase(tasks),
                       DevicePhaseEvents(Dispatch, devices), DevicePhaseEvents(Wait, devices), StartPhase(tasks));
    }
  }

  /** compile() is a no-op without tasks. */
  lemma NoTasksNoCompile()
    ensures CompileLog([]) == []
  {
  }

  /** Every device of a graph gets exactly one compile traversal, one dispatch and one wait. */
  lemma OneTraversalPerDevice(tasks: seq<VT.RecordAndSubmitTask>)
    ensures forall d :: d in Devices(tasks) <==> d in DeviceList(AllGraphs(tasks))
    ensures forall i, j :: 0 <= i < j < |Devices(tasks)| ==> Devices(tasks)[i] < Devices(tasks)[j]
  {
    Ordering.NatLessIsStrictTotalOrder();
    Ordering.SortedKeysCorrect(DeviceList(AllGraphs(tasks)), Ordering.NatLess);
    assert forall d :: d in Devices(tasks) <==> d in Ordering.Elems(Devices(tasks));
    assert forall d :: d in DeviceList(AllGraphs(tasks)) <==> d in Ordering.Elems(DeviceList(AllGraphs(tasks)));
  }

  // ----- the loops of compile() -----

  /** One step of the inner loop of CollectAll: both its log and its key list grow by graph gs[i]. */
  lemma CollectStep(done: seq<CG.CommandGraph>, gs: seq<CG.CommandGraph>, i: nat)
    requires i < |gs|
    ensures CollectPhase(done + gs[..i + 1]) == CollectPhase(done + gs[..i]) + [CollectStats(gs[i])]
    ensures Ordering.SortedKeys(DeviceList(done + gs[..i + 1]), Ordering.NatLess)
         == Ordering.Insert(gs[i].device, Ordering.SortedKeys(DeviceList(done + gs[..i]), Ordering.NatLess), Ordering.NatLess)
  {
    var xs := done + gs[..i + 1];
    assert xs[..|xs| - 1] == done + gs[..i] && xs[|xs| - 1] == gs[i];
    assert DeviceList(xs)[..|xs| - 1] == DeviceList(done + gs[..i]);
  }

  /**
   * The first loop: commandGraph->accept(deviceResourceMap[commandGraph->_device].collectStats)
   * for every graph of every task.  `devices` is the key list of deviceResourceMap afterwards.
   */
  method CollectAll(tasks: seq<VT.RecordAndSubmitTask>) returns (log: seq<CompileEvent>, devices: seq<DeviceId>)
    ensures log == CollectPhase(AllGraphs(tasks))
    ensures devices == Devices(tasks)
  {
    log := [];
    devices := [];
    var t := 0;
    while t < |tasks|
      invariant 0 <= t <= |tasks|
      invariant log == CollectPhase(AllGraphs(tasks[..t]))
      invariant devices == Ordering.SortedKeys(DeviceList(AllGraphs(tasks[..t])), Ordering.NatLess)
    {
      assert tasks[..t + 1][..t] == tasks[..t] && tasks[..t + 1][t] == tasks[t];
      ghost var done := AllGraphs(tasks[..t]);
      var gs := tasks[t].commandGraphs;
      assert done + gs[..0] == done;
      var i := 0;
      while i < |gs|
        invariant 0 <= i <= |gs|
        invariant log == CollectPhase(done + gs[..i])
        invariant devices == Ordering.SortedKeys(DeviceList(done + gs[..i]), Ordering.NatLess)
      {
        CollectStep(done, gs, i);
        log := log + [CollectStats(gs[i])];
        devices := Ordering.Insert(gs[i].device, devices, Ordering.NatLess);
        i := i + 1;
      }
      assert gs[..i] == gs;
      t := t + 1;
    }
    assert tasks[..t] == tasks;
  }

  /** One of the loops over deviceResourceMap. */
  method ForEachDevice(phase: DevicePhase, devices: seq<DeviceId>) returns (log: seq<CompileEvent>)
    ensures log == DevicePhaseEvents(phase, devices)
  {
    log := [];
    var i := 0;
    while i < |devices|
      invariant 0 <= i <= |devices|
      invariant log == DevicePhaseEvents(phase, devices[..i])
    {
      log := log + [DeviceEvent(phase, devices[i])];
      i := i + 1;
    }
    assert devices[..i] == devices;
  }

  lemma {:induction false} TaskGraphsInAll(tasks: seq<VT.RecordAndSubmitTask>, t: nat)
    requires t < |tasks|
    ensures forall g :: g in tasks[t].commandGraphs ==> g in AllGraphs(tasks)
    decreases |tasks|
  {
    var n := |tasks| - 1;
    if t < n {
      assert tasks[..n][t] == tasks[t];
      TaskGraphsInAll(tasks[..n], t);
    }
  }

  /** A graph of AllGraphs(tasks) is a graph of one of the tasks. */
  lemma {:induction false} AllGraphsMember(tasks: seq<VT.RecordAndSubmitTask>, g: CG.CommandGraph)
    requires g in AllGraphs(tasks)
    ensures exists k, j :: 0 <= k < |tasks| && 0 <= j < |tasks[k].commandGraphs| && tasks[k].commandGraphs[j] == g
  {
    var n := |tasks| - 1;
    if g in tasks[n].commandGraphs {
      var j :| 0 <= j < |tasks[n].commandGraphs| && tasks[n].commandGraphs[j] == g;
    } else {
      AllGraphsMember(tasks[..n], g);
      var k, j :| 0 <= k < n && 0 <= j < |tasks[..n][k].commandGraphs| && tasks[..n][k].commandGraphs[j] == g;
      assert tasks[k] == tasks[..n][k];
    }
  }

  /** The compile loop for one task's graphs: _maxSlot := the maxSlot of the graph's
      device's statistics (`maxSlotOf`), then the compile traversal. */
  method CompileGraphs(gs: seq<CG.CommandGraph>, maxSlotOf: DeviceId -> nat) returns (log: seq<CompileEvent>)
    modifies VT.GraphSet(gs)`maxSlot
    ensures log == CompileGraphEvents(gs)
    ensures forall g :: g in gs ==> g.maxSlot == maxSlotOf(g.device)
  {
    log := [];
    var i := 0;
    while i < |gs|
      invariant 0 <= i <= |gs|
      invariant log == CompileGraphEvents(gs[..i])
      invariant forall k :: 0 <= k < i ==> gs[k].maxSlot == maxSlotOf(gs[k].device)
    {
      assert gs[..i + 1][..i] == gs[..i];
      gs[i].maxSlot := maxSlotOf(gs[i].device);
      log := log + [CompileGraph(gs[i])];
      i := i + 1;
    }
    assert gs[..i] == gs;
  }

  /**
   * The compile loop over the tasks: every graph is compiled with its device's maxSlot;
   * then the pager of the task gets the compile traversal of its first graph's device.
   */
  method CompileAll(tasks: seq<VT.RecordAndSubmitTask>, maxSlotOf: DeviceId -> nat) returns (log: seq<CompileEvent>)
    modifies VT.GraphSet(AllGraphs(tasks))`maxSlot
    ensures log == CompilePhase(tasks)
    ensures forall g :: g in AllGraphs(tasks) ==> g.maxSlot == maxSlotOf(g.device)
  {
    forall g | g in AllGraphs(tasks) ensures allocated(g) {
      AllGraphsMember(tasks, g);
    }
    log := [];
    var t := 0;
    while t < |tasks|
      invariant 0 <= t <= |tasks|
      invariant log == old(CompilePhase(tasks[..t]))
      invariant forall k, j :: 0 <= k < t && 0 <= j < |tasks[k].commandGraphs| ==>
                  tasks[k].commandGraphs[j].maxSlot == maxSlotOf(tasks[k].commandGraphs[j].device)
    {
      var task := tasks[t];
      var gs := task.commandGraphs;
      TaskGraphsInAll(tasks, t);
      label BeforeTask:
      var compiled := CompileGraphs(gs, maxSlotOf);
      forall k, j | 0 <= k <= t && 0 <= j < |tasks[k].commandGraphs|
        ensures tasks[k].commandGraphs[j].maxSlot == maxSlotOf(tasks[k].commandGraphs[j].device)
      {
        var g := tasks[k].commandGraphs[j];
        if g !in gs {
          assert g !in VT.GraphSet(gs);
          assert g.maxSlot == old@BeforeTask(g.maxSlot);
        }
      }
      log := log + compiled;
      if task.databasePager.Some? && |gs| > 0 {
        log := log + [AssignPagerCompile(task.databasePager.value, gs[0].device)];
      }
      assert tasks[..t + 1][..t] == tasks[..t] && tasks[..t + 1][t] == tasks[t];
      assert log == old(CompilePhase(tasks[..t]) + TaskCompileEvents(task));
      t := t + 1;
    }
    assert tasks[..t] == tasks;
    forall g | g in AllGraphs(tasks) ensures g.maxSlot == maxSlotOf(g.device) {
      AllGraphsMember(tasks, g);
    }
    assert log == CompilePhase(tasks);
  }

  /**
   * compile(): nothing without tasks.  Otherwise the statistics of every graph, one compile
   * traversal per device, the compile loop (each graph's maxSlot set to what its device's
   * statistics report), the dispatches, the waits and the pager starts, in that order.
   */
  method CompileTasks(tasks: seq<VT.RecordAndSubmitTask>, maxSlotOf: DeviceId -> nat) returns (log: seq<CompileEvent>)
    modifies VT.GraphSet(AllGraphs(tasks))`maxSlot
    ensures log == CompileLog(tasks)
    ensures forall g :: g in AllGraphs(tasks) ==> g.maxSlot == maxSlotOf(g.device)
  {
    if |tasks| == 0 {
      return [];
    }
    forall g | g in AllGraphs(tasks) ensures allocated(g) {
      AllGraphsMember(tasks, g);
    }
    var collected, devices := CollectAll(tasks);
    var setup := ForEachDevice(Setup, devices);
    var compiled := CompileAll(tasks, maxSlotOf);
    var dispatched, waited, started := FinishAll(tasks, devices);
    assert devices == Devices(tasks) && compiled == CompilePhase(tasks);
    log := collected + setup + compiled + dispatched + waited + started;
  }

  /** What follows the compile loop: the dispatches, the waits and the pager starts. */
  method FinishAll(tasks: seq<VT.RecordAndSubmitTask>, devices: seq<DeviceId>)
    returns (dispatched: seq<CompileEvent>, waited: seq<CompileEvent>, started: seq<CompileEvent>)
    ensures dispatched == DevicePhaseEvents(Dispatch, devices) && waited == DevicePhaseEvents(Wait, devices)
    ensures started == StartPhase(tasks)
  {
    dispatched := ForEachDevice(Dispatch, devices);
    waited := ForEachDevice(Wait, devices);
    started := StartAll(tasks);
  }

  /** The last loop: start the pager of every task that has one. */
  method StartAll(tasks: seq<VT.RecordAndSubmitTask>) returns (log: seq<CompileEvent>)
    ensures log == StartPhase(tasks)
  {
    log := [];
    var t := 0;
    while t < |tasks|
      invariant 0 <= t <= |tasks|
      invariant log == StartPhase(tasks[..t])
    {
      assert tasks[..t + 1][..t] == tasks[..t] && tasks[..t + 1][t] == tasks[t];
      if tasks[t].databasePager.Some? {
        log := log + [StartPager(tasks[t].databasePager.value)];
      }
      t := t + 1;
    }
    assert tasks[..t] == tasks;
  }
}
