/**
 * The submission plan vsg::Viewer::assignRecordAndSubmitTaskAndPresentation builds.
 *
 * Command graphs are grouped by their (device, queue family, present family) key;
 * the groups are visited in the ascending order of that key, as std::map visits
 * them.  A group with a present family gets one RecordAndSubmitTask and one
 * Presentation that share a fresh semaphore: the task signals it and the
 * presentation waits on it.  Its task records, for each primary graph in turn,
 * the secondary graphs the primary executes and then the primary itself, and it
 * presents to the windows of the group, ascending and without repetition.
 * A group without a present family gets a task holding just its graphs.
 */
module ViewerTasks {
  import opened VkTypes
  import opened Scene
  import Ordering
  import CG = CommandGraph
  import RG = RenderGraph

  /** The grouping key of a command graph. */
  datatype DeviceQueueFamily = DeviceQueueFamily(device: DeviceId, queueFamily: int, presentFamily: int)

  datatype RecordAndSubmitTask = RecordAndSubmitTask(
    commandGraphs: seq<CG.CommandGraph>,
    signalSemaphores: seq<Semaphore>,
    databasePager: Option<PagerId>,
    windows: seq<WindowId>,
    queue: Queue)

  datatype Presentation = Presentation(waitSemaphores: seq<Semaphore>, windows: seq<WindowId>, queue: Queue)

  /** DeviceQueueFamily::operator<: device first, then queue family, then present family. */
  function KeyLess(a: DeviceQueueFamily, b: DeviceQueueFamily): bool
  {
    if a.device < b.device then true
    else if a.device > b.device then false
    else if a.queueFamily < b.queueFamily then true
    else if a.queueFamily > b.queueFamily then false
    else a.presentFamily < b.presentFamily
  }

  /** The key order is a strict total order, so std::map keeps one entry per distinct key. */
  lemma KeyLessIsStrictTotalOrder()
    ensures Ordering.IsStrictTotalOrder(KeyLess)
  {
  }

  function GraphSet(gs: seq<CG.CommandGraph>): set<CG.CommandGraph>
  {
    set g | g in gs
  }

  function KeyOf(g: CG.CommandGraph): DeviceQueueFamily
    reads g`device, g`queueFamily, g`presentFamily
  {
    DeviceQueueFamily(g.device, g.queueFamily, g.presentFamily)
  }

  /** The key of every graph, in input order. */
  function KeyList(gs: seq<CG.CommandGraph>): (r: seq<DeviceQueueFamily>)
    reads GraphSet(gs)`device, GraphSet(gs)`queueFamily, GraphSet(gs)`presentFamily
    ensures |r| == |gs|
  {
    if |gs| == 0 then [] else KeyList(gs[..|gs| - 1]) + [KeyOf(gs[|gs| - 1])]
  }

  lemma {:induction false} KeyListAt(gs: seq<CG.CommandGraph>, i: nat)
    requires i < |gs|
    ensures KeyList(gs)[i] == KeyOf(gs[i])
  {
    if i < |gs| - 1 {
      KeyListAt(gs[..|gs| - 1], i);
    }
  }

  /** The list deviceCommandGraphsMap[k] ends with: the graphs with key k, in input order. */
  function Group(gs: seq<CG.CommandGraph>, k: DeviceQueueFamily): seq<CG.CommandGraph>
    reads GraphSet(gs)`device, GraphSet(gs)`queueFamily, GraphSet(gs)`presentFamily
  {
    if |gs| == 0 then []
    else Group(gs[..|gs| - 1], k) + (if KeyOf(gs[|gs| - 1]) == k then [gs[|gs| - 1]] else [])
  }

  /** A group holds exactly the input graphs with its key. */
  lemma {:induction false} GroupMembers(gs: seq<CG.CommandGraph>, k: DeviceQueueFamily, g: CG.CommandGraph)
    ensures g in Group(gs, k) <==> g in gs && KeyOf(g) == k
  {
    if |gs| > 0 {
      GroupMembers(gs[..|gs| - 1], k, g);
      assert gs == gs[..|gs| - 1] + [gs[|gs| - 1]];
    }
  }

  /** The map entries after one more graph: only the entry of its key grows, by that graph. */
  lemma GroupSnoc(gs: seq<CG.CommandGraph>, i: nat)
    requires i < |gs|
    ensures KeyList(gs[..i + 1]) == KeyList(gs[..i]) + [KeyOf(gs[i])]
    ensures forall k :: Group(gs[..i + 1], k) == Group(gs[..i], k) + (if KeyOf(gs[i]) == k then [gs[i]] else [])
  {
    assert gs[..i + 1][..i] == gs[..i] && gs[..i + 1][i] == gs[i];
  }

  /** The keys of the groups, in the order the map visits them. */
  function GroupKeys(gs: seq<CG.CommandGraph>): seq<DeviceQueueFamily>
    reads GraphSet(gs)`device, GraphSet(gs)`queueFamily, GraphSet(gs)`presentFamily
  {
    Ordering.SortedKeys(KeyList(gs), KeyLess)
  }

  lemma GroupKeysAreTheKeyList(gs: seq<CG.CommandGraph>)
    ensures forall k :: k in GroupKeys(gs) <==> k in KeyList(gs)
  {
    KeyLessIsStrictTotalOrder();
    Ordering.SortedKeysCorrect(KeyList(gs), KeyLess);
    assert forall k :: k in GroupKeys(gs) <==> k in Ordering.Elems(GroupKeys(gs));
    assert forall k :: k in KeyList(gs) <==> k in Ordering.Elems(KeyList(gs));
  }

  /** One task per distinct key, in ascending key order: the keys are strictly ascending and are
      exactly the keys of the input graphs. */
  lemma GroupKeysAreTheDistinctKeysAscending(gs: seq<CG.CommandGraph>)
    ensures Ordering.StrictlySorted(GroupKeys(gs), KeyLess)
    ensures forall k :: k in GroupKeys(gs) <==> exists g :: g in gs && KeyOf(g) == k
    ensures forall i, j :: 0 <= i < |GroupKeys(gs)| && 0 <= j < |GroupKeys(gs)| && i != j ==> GroupKeys(gs)[i] != GroupKeys(gs)[j]
  {
    KeyLessIsStrictTotalOrder();
    Ordering.SortedKeysCorrect(KeyList(gs), KeyLess);
    var keys := GroupKeys(gs);
    forall k ensures k in keys <==> exists g :: g in gs && KeyOf(g) == k {
      assert k in keys <==> k in Ordering.Elems(keys);
      if k in keys {
        assert k in Ordering.Elems(KeyList(gs));
        var i :| 0 <= i < |gs| && KeyList(gs)[i] == k;
        KeyListAt(gs, i);
        assert gs[i] in gs && KeyOf(gs[i]) == k;
      }
      if exists g :: g in gs && KeyOf(g) == k {
        var g :| g in gs && KeyOf(g) == k;
        var i :| 0 <= i < |gs| && gs[i] == g;
        KeyListAt(gs, i);
        assert KeyList(gs)[i] == k;
        assert k in Ordering.Elems(KeyList(gs));
      }
    }
    forall i, j | 0 <= i < |keys| && 0 <= j < |keys| && i != j ensures keys[i] != keys[j] {
      Ordering.StrictlySortedDistinct(keys, KeyLess, i, j);
    }
  }

  // ----- CollectSecondaryCommandGraph -----

  /** What the collector gathers under a scene node: a Group or StateGroup is traversed through
      its children only, an ExecuteCommands contributes its command graphs, other nodes nothing. */
  function NodeSecondaries(n: Node<CG.CommandGraph>): seq<CG.CommandGraph>
    decreases n
  {
    match n
    case Group(children) => NodesSecondaries(children)
    case StateGroup(_, children) => NodesSecondaries(children)
    case ExecuteCommands(commandGraphs) => commandGraphs
    case BindGraphicsPipeline(_) => []
    case OtherCommand(_) => []
    case Leaf(_) => []
  }

  function NodesSecondaries(ns: seq<Node<CG.CommandGraph>>): seq<CG.CommandGraph>
    decreases ns
  {
    if |ns| == 0 then [] else NodeSecondaries(ns[0]) + NodesSecondaries(ns[1..])
  }

  /** Collection over a list of nodes is collection over its parts, in order. */
  lemma {:induction false} NodesSecondariesAppend(a: seq<Node<CG.CommandGraph>>, b: seq<Node<CG.CommandGraph>>)
    ensures NodesSecondaries(a + b) == NodesSecondaries(a) + NodesSecondaries(b)
    decreases |a|
  {
    if |a| > 0 {
      assert (a + b)[0] == a[0];
      assert (a + b)[1..] == a[1..] + b;
      NodesSecondariesAppend(a[1..], b);
    } else {
      assert a + b == b;
    }
  }

  predicate HasExecuteCommands(n: Node<CG.CommandGraph>)
    decreases n
  {
    match n
    case Group(children) => exists i :: 0 <= i < |children| && HasExecuteCommands(children[i])
    case StateGroup(_, children) => exists i :: 0 <= i < |children| && HasExecuteCommands(children[i])
    case ExecuteCommands(_) => true
    case BindGraphicsPipeline(_) => false
    case OtherCommand(_) => false
    case Leaf(_) => false
  }

  /** A tree with no ExecuteCommands among the nodes the collector visits yields no secondaries. */
  lemma {:induction false} NoExecuteCommandsNoSecondaries(n: Node<CG.CommandGraph>)
    requires !HasExecuteCommands(n)
    ensures NodeSecondaries(n) == []
    decreases n, 1
  {
    match n
    case Group(children) => NoExecuteCommandsInList(children);
    case StateGroup(_, children) => NoExecuteCommandsInList(children);
    case BindGraphicsPipeline(_) =>
    case OtherCommand(_) =>
    case Leaf(_) =>
  }

  lemma {:induction false} NoExecuteCommandsInList(ns: seq<Node<CG.CommandGraph>>)
    requires forall i :: 0 <= i < |ns| ==> !HasExecuteCommands(ns[i])
    ensures NodesSecondaries(ns) == []
    decreases ns, 0
  {
    if |ns| > 0 {
      NoExecuteCommandsNoSecondaries(ns[0]);
      assert forall i :: 0 <= i < |ns[1..]| ==> ns[1..][i] == ns[i + 1];
      NoExecuteCommandsInList(ns[1..]);
    }
  }

  function RenderGraphs(cs: seq<CG.Child>): set<RG.RenderGraph<CG.CommandGraph>>
  {
    set c | c in cs && c.RenderGraphChild? :: c.renderGraph
  }

  /** What the collector gathers under one child of a command graph; a RenderGraph is a group. */
  function ChildSecondaries(c: CG.Child): seq<CG.CommandGraph>
    reads if c.RenderGraphChild? then {c.renderGraph} else {}
  {
    match c
    case SceneNode(n) => NodeSecondaries(n)
    case RenderGraphChild(rg) => NodesSecondaries(rg.children)
  }

  function ChildrenSecondaries(cs: seq<CG.Child>): seq<CG.CommandGraph>
    reads RenderGraphs(cs)
  {
    if |cs| == 0 then []
    else
      assert cs[0] in cs;
      assert forall c :: c in cs[1..] ==> c in cs;
      ChildSecondaries(cs[0]) + ChildrenSecondaries(cs[1..])
  }

  /** The objects the collector reads when it visits the graphs gs. */
  function CollectorFrame(gs: seq<CG.CommandGraph>): set<object>
    reads GraphSet(gs)`children
  {
    set g, c | g in gs && c in g.children && c.RenderGraphChild? :: c.renderGraph
  }

  /** collector._secondaries after primary->accept(collector). */
  function Secondaries(p: CG.CommandGraph): seq<CG.CommandGraph>
    reads p`children, RenderGraphs(p.children)
  {
    ChildrenSecondaries(p.children)
  }

  /** What the collector hands back for each primary of ps, in order. */
  function SecondariesList(ps: seq<CG.CommandGraph>): (r: seq<seq<CG.CommandGraph>>)
    reads GraphSet(ps)`children, CollectorFrame(ps)
    ensures |r| == |ps|
  {
    if |ps| == 0 then []
    else
      assert ps[|ps| - 1] in ps;
      assert forall g :: g in ps[..|ps| - 1] ==> g in ps;
      SecondariesList(ps[..|ps| - 1]) + [Secondaries(ps[|ps| - 1])]
  }

  lemma {:induction false} SecondariesListAt(ps: seq<CG.CommandGraph>, k: nat)
    requires k < |ps|
    ensures SecondariesList(ps)[k] == Secondaries(ps[k])
  {
    if k < |ps| - 1 {
      SecondariesListAt(ps[..|ps| - 1], k);
    }
  }

  /** effectiveCommandGraphs, given what the collector hands back for each primary: each
      primary preceded by the secondaries it executes. */
  function EffectiveOf(ps: seq<CG.CommandGraph>, secs: seq<seq<CG.CommandGraph>>): seq<CG.CommandGraph>
    requires |ps| == |secs|
  {
    if |ps| == 0 then []
    else EffectiveOf(ps[..|ps| - 1], secs[..|ps| - 1]) + secs[|ps| - 1] + [ps[|ps| - 1]]
  }

  function Effective(ps: seq<CG.CommandGraph>): seq<CG.CommandGraph>
    reads GraphSet(ps)`children, CollectorFrame(ps)
  {
    EffectiveOf(ps, SecondariesList(ps))
  }

  lemma {:induction false} EffectiveOfAppend(a: seq<CG.CommandGraph>, b: seq<CG.CommandGraph>,
                                             sa: seq<seq<CG.CommandGraph>>, sb: seq<seq<CG.CommandGraph>>)
    requires |a| == |sa| && |b| == |sb|
    ensures EffectiveOf(a + b, sa + sb) == EffectiveOf(a, sa) + EffectiveOf(b, sb)
    decreases |b|
  {
    if |b| == 0 {
      assert a + b == a && sa + sb == sa;
    } else {
      var n := |b| - 1;
      assert (a + b)[..|a + b| - 1] == a + b[..n];
      assert (sa + sb)[..|a + b| - 1] == sa + sb[..n];
      assert (a + b)[|a + b| - 1] == b[n] && (sa + sb)[|a + b| - 1] == sb[n];
      EffectiveOfAppend(a, b[..n], sa, sb[..n]);
    }
  }

  /** In the task list every primary comes right after the secondaries it executes, with the
      entries for the earlier primaries before them and those for the later ones after. */
  lemma SecondariesImmediatelyBeforePrimary(ps: seq<CG.CommandGraph>, secs: seq<seq<CG.CommandGraph>>, j: nat)
    requires |ps| == |secs| && j < |ps|
    ensures EffectiveOf(ps, secs) == EffectiveOf(ps[..j], secs[..j]) + secs[j] + [ps[j]] + EffectiveOf(ps[j + 1..], secs[j + 1..])
  {
    var upTo, rest := ps[..j + 1], ps[j + 1..];
    assert ps == upTo + rest && secs == secs[..j + 1] + secs[j + 1..];
    EffectiveOfAppend(upTo, rest, secs[..j + 1], secs[j + 1..]);
    assert upTo[..j] == ps[..j] && secs[..j + 1][..j] == secs[..j];
  }

  /** Which primary a secondary ends up pointing at: the last primary, in processing order,
      that executes it; null when none does. */
  function LastPrimaryOf(ps: seq<CG.CommandGraph>, secs: seq<seq<CG.CommandGraph>>, s: CG.CommandGraph): (r: CG.CommandGraph?)
    requires |ps| == |secs|
    ensures r != null ==> exists k :: 0 <= k < |ps| && r == ps[k] && s in secs[k]
    ensures r == null ==> forall k :: 0 <= k < |ps| ==> s !in secs[k]
  {
    if |ps| == 0 then null
    else if s in secs[|ps| - 1] then ps[|ps| - 1]
    else LastPrimaryOf(ps[..|ps| - 1], secs[..|ps| - 1], s)
  }

  /** Processing more primaries afterwards overrides the earlier assignment only for the
      secondaries the later primaries execute. */
  lemma {:induction false} LastPrimaryOfAppend(a: seq<CG.CommandGraph>, b: seq<CG.CommandGraph>,
                                               sa: seq<seq<CG.CommandGraph>>, sb: seq<seq<CG.CommandGraph>>, s: CG.CommandGraph)
    requires |a| == |sa| && |b| == |sb|
    ensures LastPrimaryOf(a + b, sa + sb, s) ==
      (if LastPrimaryOf(b, sb, s) != null then LastPrimaryOf(b, sb, s) else LastPrimaryOf(a, sa, s))
    decreases |b|
  {
    if |b| == 0 {
      assert a + b == a && sa + sb == sa;
    } else {
      var n := |b| - 1;
      assert (a + b)[..|a + b| - 1] == a + b[..n];
      assert (sa + sb)[..|a + b| - 1] == sa + sb[..n];
      assert (a + b)[|a + b| - 1] == b[n] && (sa + sb)[|a + b| - 1] == sb[n];
      LastPrimaryOfAppend(a, b[..n], sa, sb[..n], s);
    }
  }

  /** Every graph the collector hands back for some primary. */
  function AllOf(secs: seq<seq<CG.CommandGraph>>): set<CG.CommandGraph>
  {
    set k, s | 0 <= k < |secs| && s in secs[k] :: s
  }

  function AllSecondaries(ps: seq<CG.CommandGraph>): set<CG.CommandGraph>
    reads GraphSet(ps)`children, CollectorFrame(ps)
  {
    AllOf(SecondariesList(ps))
  }

  // ----- the windows of a presenting group -----

  /** Every window of every graph, in order, with repetitions. */
  function AllWindows(gs: seq<CG.CommandGraph>): seq<WindowId>
    reads GraphSet(gs)`windows
  {
    if |gs| == 0 then []
    else
      assert forall g :: g in gs[..|gs| - 1] ==> g in gs;
      AllWindows(gs[..|gs| - 1]) + gs[|gs| - 1].windows
  }

  /** Windows(uniqueWindows.begin(), uniqueWindows.end()). */
  function UniqueWindows(gs: seq<CG.CommandGraph>): seq<WindowId>
    reads GraphSet(gs)`windows
  {
    Ordering.SortedKeys(AllWindows(gs), Ordering.NatLess)
  }

  /** A task presents to every window of its graphs, once each, in ascending order, and to no
      other window. */
  lemma UniqueWindowsAreTheUnionDeduplicated(gs: seq<CG.CommandGraph>)
    ensures Ordering.StrictlySorted(UniqueWindows(gs), Ordering.NatLess)
    ensures forall w :: w in UniqueWindows(gs) <==> exists g :: g in gs && w in g.windows
  {
    Ordering.NatLessIsStrictTotalOrder();
    Ordering.SortedKeysCorrect(AllWindows(gs), Ordering.NatLess);
    forall w ensures w in UniqueWindows(gs) <==> exists g :: g in gs && w in g.windows {
      assert w in UniqueWindows(gs) <==> w in Ordering.Elems(AllWindows(gs));
      AllWindowsMembers(gs, w);
    }
  }

  lemma {:induction false} AllWindowsMembers(gs: seq<CG.CommandGraph>, w: WindowId)
    ensures w in AllWindows(gs) <==> exists g :: g in gs && w in g.windows
  {
    if |gs| > 0 {
      var init := gs[..|gs| - 1];
      var last := gs[|gs| - 1];
      AllWindowsMembers(init, w);
      assert gs == init + [last];
      if exists g :: g in gs && w in g.windows {
        var g :| g in gs && w in g.windows;
        if g != last {
          assert g in init;
        }
      }
    }
  }

  // ----- the tasks and presentations -----

  /** The task for the group of key k, given the group's windows and what the collector hands
      back for each of its primaries, before a presenting task is given the semaphore it signals. */
  function TaskOf(k: DeviceQueueFamily, group: seq<CG.CommandGraph>, windows: seq<WindowId>,
                  secs: seq<seq<CG.CommandGraph>>, databasePager: Option<PagerId>): RecordAndSubmitTask
    requires k.presentFamily >= 0 ==> |secs| == |group|
  {
    if k.presentFamily >= 0 then
      RecordAndSubmitTask(EffectiveOf(group, secs), [], databasePager, windows, Queue(k.device, k.queueFamily))
    else
      RecordAndSubmitTask(group, [], databasePager, [], Queue(k.device, k.queueFamily))
  }

  /** The task created for the group of key k: a presenting group records its effective list
      and presents to its unique windows, any other group records just its graphs. */
  function TaskFor(k: DeviceQueueFamily, group: seq<CG.CommandGraph>, databasePager: Option<PagerId>): (r: RecordAndSubmitTask)
    reads GraphSet(group)`children, CollectorFrame(group), GraphSet(group)`windows
    ensures r.queue == Queue(k.device, k.queueFamily) && r.databasePager == databasePager && r.signalSemaphores == []
    ensures k.presentFamily >= 0 ==> r.commandGraphs == Effective(group) && r.windows == UniqueWindows(group)
    ensures k.presentFamily < 0 ==> r.commandGraphs == group && r.windows == []
  {
    TaskOf(k, group, UniqueWindows(group), SecondariesList(group), databasePager)
  }

  /** The presentations created alongside the tasks for the first keys, the task of key j
      being tasks[j]: one per key with a present family, on that family's queue, waiting on what
      its task signals, for its task's windows. */
  function PresentationsFor(keys: seq<DeviceQueueFamily>, tasks: seq<RecordAndSubmitTask>): seq<Presentation>
    requires |tasks| <= |keys|
  {
    if |tasks| == 0 then []
    else
      var n := |tasks| - 1;
      PresentationsFor(keys, tasks[..n])
        + (if keys[n].presentFamily >= 0
           then [Presentation(tasks[n].signalSemaphores, tasks[n].windows, Queue(keys[n].device, keys[n].presentFamily))]
           else [])
  }

  /** Presentation p is the one made for the task t of key k. */
  predicate PresentsFor(p: Presentation, k: DeviceQueueFamily, t: RecordAndSubmitTask)
  {
    k.presentFamily >= 0 && p == Presentation(t.signalSemaphores, t.windows, Queue(k.device, k.presentFamily))
  }

  /** A presentation exists exactly for each presenting key, waits on the semaphores its task
      signals and presents its task's windows on the present queue; keys without a present
      family get none. */
  lemma {:induction false} PresentationsMatchTasks(keys: seq<DeviceQueueFamily>, tasks: seq<RecordAndSubmitTask>)
    requires |tasks| <= |keys|
    ensures forall p :: p in PresentationsFor(keys, tasks) ==> exists j :: 0 <= j < |tasks| && PresentsFor(p, keys[j], tasks[j])
    ensures forall j :: 0 <= j < |tasks| && keys[j].presentFamily >= 0 ==>
      Presentation(tasks[j].signalSemaphores, tasks[j].windows, Queue(keys[j].device, keys[j].presentFamily)) in PresentationsFor(keys, tasks)
    ensures (forall j :: 0 <= j < |tasks| ==> keys[j].presentFamily < 0) ==> PresentationsFor(keys, tasks) == []
  {
    if |tasks| > 0 {
      var n := |tasks| - 1;
      PresentationsMatchTasks(keys, tasks[..n]);
      forall p | p in PresentationsFor(keys, tasks)
        ensures exists j :: 0 <= j < |tasks| && PresentsFor(p, keys[j], tasks[j])
      {
        if p in PresentationsFor(keys, tasks[..n]) {
          var j :| 0 <= j < n && PresentsFor(p, keys[j], tasks[..n][j]);
          assert tasks[..n][j] == tasks[j];
        } else {
          assert PresentsFor(p, keys[n], tasks[n]);
        }
      }
      forall j | 0 <= j < |tasks| && keys[j].presentFamily >= 0
        ensures Presentation(tasks[j].signalSemaphores, tasks[j].windows, Queue(keys[j].device, keys[j].presentFamily))
          in PresentationsFor(keys, tasks)
      {
        if j < n {
          assert tasks[..n][j] == tasks[j];
        }
      }
    }
  }


  // ----- the loops of assignRecordAndSubmitTaskAndPresentation -----

  /** for (auto sec : collector._secondaries) sec->_primary = primary; */
  method PointAt(secondaries: seq<CG.CommandGraph>, primary: CG.CommandGraph)
    modifies GraphSet(secondaries)`primary
    ensures forall s :: s in secondaries ==> s.primary == primary
  {
    var j := 0;
    while j < |secondaries|
      invariant 0 <= j <= |secondaries|
      invariant forall s :: s in secondaries[..j] ==> s.primary == primary
    {
      secondaries[j].primary := primary;
      assert secondaries[..j + 1] == secondaries[..j] + [secondaries[j]];
      j := j + 1;
    }
    assert secondaries[..j] == secondaries;
  }

  /**
   * The secondaries loop of a presenting group: for each primary ps[i], point each graph the
   * collector hands back for it (secs[i]) at it, and append those graphs and then the primary
   * to the effective list.  A graph that several primaries execute ends up pointing at the
   * last of them.
   */
  method CollectEffective(ps: seq<CG.CommandGraph>, secs: seq<seq<CG.CommandGraph>>) returns (effective: seq<CG.CommandGraph>)
    requires |secs| == |ps|
    modifies AllOf(secs)`primary
    ensures effective == EffectiveOf(ps, secs)
    ensures forall s :: s in AllOf(secs) ==> s.primary == LastPrimaryOf(ps, secs, s)
  {
    effective := [];
    var i := 0;
    while i < |ps|
      invariant 0 <= i <= |ps|
      invariant effective == EffectiveOf(ps[..i], secs[..i])
      invariant forall s :: s in AllOf(secs) && LastPrimaryOf(ps[..i], secs[..i], s) != null ==>
        s.primary == LastPrimaryOf(ps[..i], secs[..i], s)
    {
      var primary := ps[i];
      var secondaries := secs[i];
      assert GraphSet(secondaries) <= AllOf(secs);
      PointAt(secondaries, primary);
      assert ps[..i + 1][..i] == ps[..i] && secs[..i + 1][..i] == secs[..i];
      effective := effective + secondaries + [primary];
      i := i + 1;
    }
    assert ps[..i] == ps && secs[..i] == secs;
    forall s | s in AllOf(secs) ensures LastPrimaryOf(ps, secs, s) != null {
      var k :| 0 <= k < |secs| && s in secs[k];
    }
  }

  /** The graphs a subset of the primaries executes are among those all of them execute. */
  lemma AllSecondariesOfSubset(sub: seq<CG.CommandGraph>, gs: seq<CG.CommandGraph>)
    requires forall g :: g in sub ==> g in gs
    ensures AllSecondaries(sub) <= AllSecondaries(gs)
  {
    forall s | s in AllSecondaries(sub) ensures s in AllSecondaries(gs) {
      var k :| 0 <= k < |SecondariesList(sub)| && s in SecondariesList(sub)[k];
      SecondariesListAt(sub, k);
      assert sub[k] in sub;
      var m :| 0 <= m < |gs| && gs[m] == sub[k];
      SecondariesListAt(gs, m);
      assert s in SecondariesList(gs)[m];
    }
  }

  /** The graphs of a group, the graphs the collector visits under them and what they execute
      are among those of all the graphs. */
  lemma GroupFrames(gs: seq<CG.CommandGraph>, k: DeviceQueueFamily)
    ensures GraphSet(Group(gs, k)) <= GraphSet(gs)
    ensures CollectorFrame(Group(gs, k)) <= CollectorFrame(gs)
    ensures AllSecondaries(Group(gs, k)) <= AllSecondaries(gs)
  {
    forall g | g in Group(gs, k) ensures g in gs {
      GroupMembers(gs, k, g);
    }
    AllSecondariesOfSubset(Group(gs, k), gs);
  }

  /** The collector's lists of two runs of primaries, one after the other. */
  lemma {:induction false} SecondariesListAppend(a: seq<CG.CommandGraph>, b: seq<CG.CommandGraph>)
    ensures SecondariesList(a + b) == SecondariesList(a) + SecondariesList(b)
    decreases |b|
  {
    if |b| == 0 {
      assert a + b == a;
    } else {
      var n := |b| - 1;
      assert (a + b)[..|a + b| - 1] == a + b[..n];
      assert (a + b)[|a + b| - 1] == b[n];
      SecondariesListAppend(a, b[..n]);
    }
  }

  lemma AllOfAppend(a: seq<seq<CG.CommandGraph>>, b: seq<seq<CG.CommandGraph>>)
    ensures AllOf(a + b) == AllOf(a) + AllOf(b)
  {
    forall s | s in AllOf(a + b) ensures s in AllOf(a) + AllOf(b) {
      var k :| 0 <= k < |a + b| && s in (a + b)[k];
      if k < |a| {
        assert (a + b)[k] == a[k];
      } else {
        assert (a + b)[k] == b[k - |a|];
      }
    }
    forall s | s in AllOf(a) ensures s in AllOf(a + b) {
      var k :| 0 <= k < |a| && s in a[k];
      assert (a + b)[k] == a[k];
    }
    forall s | s in AllOf(b) ensures s in AllOf(a + b) {
      var k :| 0 <= k < |b| && s in b[k];
      assert (a + b)[k + |a|] == b[k];
    }
  }

  // ----- the presenting groups together -----

  /** The primaries of the presenting groups, group after group in key order: the order in which
      assignRecordAndSubmitTaskAndPresentation points secondaries at their primaries. */
  function PresentingGraphs(keys: seq<DeviceQueueFamily>, gs: seq<CG.CommandGraph>): seq<CG.CommandGraph>
    reads GraphSet(gs)`device, GraphSet(gs)`queueFamily, GraphSet(gs)`presentFamily
  {
    if |keys| == 0 then []
    else
      var n := |keys| - 1;
      PresentingGraphs(keys[..n], gs) + (if keys[n].presentFamily >= 0 then Group(gs, keys[n]) else [])
  }

  /** PresentingGraphs over the grouped map. */
  function PresentingOf(keys: seq<DeviceQueueFamily>, groups: map<DeviceQueueFamily, seq<CG.CommandGraph>>): seq<CG.CommandGraph>
    requires forall k :: k in keys ==> k in groups
  {
    if |keys| == 0 then []
    else
      var n := |keys| - 1;
      PresentingOf(keys[..n], groups) + (if keys[n].presentFamily >= 0 then groups[keys[n]] else [])
  }

  /** The collector's lists of the presenting groups, given those of every group. */
  function PresentingSecs(keys: seq<DeviceQueueFamily>, secsOf: seq<seq<seq<CG.CommandGraph>>>): seq<seq<CG.CommandGraph>>
    requires |keys| == |secsOf|
  {
    if |keys| == 0 then []
    else
      var n := |keys| - 1;
      PresentingSecs(keys[..n], secsOf[..n]) + (if keys[n].presentFamily >= 0 then secsOf[n] else [])
  }

  lemma {:induction false} PresentingOfIsPresentingGraphs(keys: seq<DeviceQueueFamily>,
                                                          groups: map<DeviceQueueFamily, seq<CG.CommandGraph>>,
                                                          gs: seq<CG.CommandGraph>)
    requires forall k :: k in keys ==> k in groups && groups[k] == Group(gs, k)
    ensures PresentingOf(keys, groups) == PresentingGraphs(keys, gs)
  {
    if |keys| > 0 {
      PresentingOfIsPresentingGraphs(keys[..|keys| - 1], groups, gs);
    }
  }

  lemma {:induction false} PresentingSecsIsSecondariesList(keys: seq<DeviceQueueFamily>,
                                                           groups: map<DeviceQueueFamily, seq<CG.CommandGraph>>,
                                                           secsOf: seq<seq<seq<CG.CommandGraph>>>)
    requires |keys| == |secsOf| && forall k :: k in keys ==> k in groups
    requires forall j :: 0 <= j < |keys| && keys[j].presentFamily >= 0 ==> secsOf[j] == SecondariesList(groups[keys[j]])
    ensures PresentingSecs(keys, secsOf) == SecondariesList(PresentingOf(keys, groups))
  {
    if |keys| > 0 {
      var n := |keys| - 1;
      PresentingSecsIsSecondariesList(keys[..n], groups, secsOf[..n]);
      SecondariesListAppend(PresentingOf(keys[..n], groups), if keys[n].presentFamily >= 0 then groups[keys[n]] else []);
    }
  }

  /** Every primary in the lists gathered for the groups is in the lists of the presenting groups,
      when the groups that do not present have none. */
  lemma {:induction false} TouchedArePresenting(keys: seq<DeviceQueueFamily>, secsOf: seq<seq<seq<CG.CommandGraph>>>)
    requires |keys| == |secsOf|
    requires forall j :: 0 <= j < |keys| && keys[j].presentFamily < 0 ==> secsOf[j] == []
    ensures Touched(secsOf) <= AllOf(PresentingSecs(keys, secsOf))
  {
    if |keys| > 0 {
      var n := |keys| - 1;
      TouchedArePresenting(keys[..n], secsOf[..n]);
      var last := if keys[n].presentFamily >= 0 then secsOf[n] else [];
      AllOfAppend(PresentingSecs(keys[..n], secsOf[..n]), last);
      forall s | s in Touched(secsOf) ensures s in AllOf(PresentingSecs(keys, secsOf)) {
        var j :| 0 <= j < |secsOf| && s in AllOf(secsOf[j]);
        if j < n {
          assert secsOf[..n][j] == secsOf[j];
          assert s in Touched(secsOf[..n]);
        } else {
          assert s in AllOf(last);
        }
      }
    }
  }

  /** One more task: its presentation, if its key has a present family, comes after the others. */
  lemma PresentationsForSnoc(keys: seq<DeviceQueueFamily>, tasks: seq<RecordAndSubmitTask>, t: RecordAndSubmitTask)
    requires |tasks| < |keys|
    ensures var k := keys[|tasks|];
      PresentationsFor(keys, tasks + [t]) == PresentationsFor(keys, tasks)
        + (if k.presentFamily >= 0 then [Presentation(t.signalSemaphores, t.windows, Queue(k.device, k.presentFamily))] else [])
  {
    assert (tasks + [t])[..|tasks|] == tasks;
  }


  // ----- the loops of the body -----

  /** The primaries of all the groups that PlanGroups collected for. */
  function Touched(secsOf: seq<seq<seq<CG.CommandGraph>>>): set<CG.CommandGraph>
  {
    set j, s | 0 <= j < |secsOf| && s in AllOf(secsOf[j]) :: s
  }

  /**
   * The first loop of assignRecordAndSubmitTaskAndPresentation,
   * deviceCommandGraphsMap[key].emplace_back(commandGraph) for every input graph, with `order`
   * the map's key order; then the reads of the second loop, done for every key before any
   * _primary is assigned: for each presenting group its windows
   * (uniqueWindows.insert(commandGraph->windows) for each of its graphs) and what the collector
   * hands back for each of its primaries, nothing for the other groups.  Nothing is changed.
   */
  method GroupAndCollect(gs: seq<CG.CommandGraph>, databasePager: Option<PagerId>)
    returns (groups: map<DeviceQueueFamily, seq<CG.CommandGraph>>, order: seq<DeviceQueueFamily>,
             windowsOf: seq<seq<WindowId>>, secondariesOf: seq<seq<seq<CG.CommandGraph>>>)
    ensures order == old(GroupKeys(gs))
    ensures forall k :: k in groups <==> k in order
    ensures forall k :: k in groups ==> groups[k] == old(Group(gs, k))
    ensures |windowsOf| == |order| && |secondariesOf| == |order|
    ensures forall j :: 0 <= j < |order| && order[j].presentFamily >= 0 ==> |secondariesOf[j]| == |groups[order[j]]|
    ensures forall j :: 0 <= j < |order| ==>
      TaskOf(order[j], groups[order[j]], windowsOf[j], secondariesOf[j], databasePager)
        == old(TaskFor(order[j], Group(gs, order[j]), databasePager))
    ensures Touched(secondariesOf) <= old(AllSecondaries(gs))
    ensures Touched(secondariesOf) <= old(AllSecondaries(PresentingGraphs(GroupKeys(gs), gs)))
    ensures PresentingOf(order, groups) == old(PresentingGraphs(GroupKeys(gs), gs))
    ensures PresentingSecs(order, secondariesOf) == old(SecondariesList(PresentingGraphs(GroupKeys(gs), gs)))
  {
    groups := map[];
    order := [];
    var i := 0;
    while i < |gs|
      invariant 0 <= i <= |gs|
      invariant order == Ordering.SortedKeys(KeyList(gs[..i]), KeyLess)
      invariant forall k :: k in groups <==> k in KeyList(gs[..i])
      invariant forall k :: k in groups ==> groups[k] == Group(gs[..i], k)
      invariant forall k :: k !in groups ==> Group(gs[..i], k) == []
    {
      var g := gs[i];
      var key := DeviceQueueFamily(g.device, g.queueFamily, g.presentFamily);
      assert gs[..i + 1][..i] == gs[..i] && gs[..i + 1][i] == gs[i];
      assert KeyList(gs[..i + 1])[..i] == KeyList(gs[..i]);
      var list := if key in groups then groups[key] else [];
      groups := groups[key := list + [g]];
      order := Ordering.Insert(key, order, KeyLess);
      i := i + 1;
    }
    assert gs[..i] == gs;
    GroupKeysAreTheKeyList(gs);
    windowsOf, secondariesOf := PlanGroups(gs, order, groups, databasePager);
  }

  /** The collector's lists gathered for every key: those of each group lie among the input's
      secondaries, and those of the presenting groups, in key order, are the lists of the
      presenting graphs of the input. */
  lemma SecondariesPlanned(gs: seq<CG.CommandGraph>, order: seq<DeviceQueueFamily>,
                           groups: map<DeviceQueueFamily, seq<CG.CommandGraph>>, secondariesOf: seq<seq<seq<CG.CommandGraph>>>)
    requires forall k :: k in order ==> k in groups && groups[k] == Group(gs, k)
    requires |secondariesOf| == |order|
    requires forall j :: 0 <= j < |order| ==>
      secondariesOf[j] == if order[j].presentFamily >= 0 then SecondariesList(groups[order[j]]) else []
    ensures Touched(secondariesOf) <= AllSecondaries(gs)
    ensures Touched(secondariesOf) <= AllSecondaries(PresentingGraphs(order, gs))
    ensures PresentingOf(order, groups) == PresentingGraphs(order, gs)
    ensures PresentingSecs(order, secondariesOf) == SecondariesList(PresentingGraphs(order, gs))
  {
    forall j | 0 <= j < |order| ensures AllOf(secondariesOf[j]) <= AllSecondaries(gs) {
      GroupFrames(gs, order[j]);
    }
    PresentingOfIsPresentingGraphs(order, groups, gs);
    PresentingSecsIsSecondariesList(order, groups, secondariesOf);
    TouchedArePresenting(order, secondariesOf);
  }

  /**
   * The reads of the second loop of assignRecordAndSubmitTaskAndPresentation, done for every
   * key before any _primary is assigned: for each presenting group what the collector hands
   * back for each of its primaries, and its windows; nothing for the other groups.  Nothing is
   * changed.
   */
  method PlanGroups(gs: seq<CG.CommandGraph>, order: seq<DeviceQueueFamily>,
                    groups: map<DeviceQueueFamily, seq<CG.CommandGraph>>, databasePager: Option<PagerId>)
    returns (windowsOf: seq<seq<WindowId>>, secondariesOf: seq<seq<seq<CG.CommandGraph>>>)
    requires forall k :: k in order ==> k in groups && groups[k] == Group(gs, k)
    ensures |windowsOf| == |order| && |secondariesOf| == |order|
    ensures forall j :: 0 <= j < |order| && order[j].presentFamily >= 0 ==> |secondariesOf[j]| == |groups[order[j]]|
    ensures forall j :: 0 <= j < |order| ==>
      TaskOf(order[j], groups[order[j]], windowsOf[j], secondariesOf[j], databasePager)
        == old(TaskFor(order[j], Group(gs, order[j]), databasePager))
    ensures Touched(secondariesOf) <= old(AllSecondaries(gs))
    ensures Touched(secondariesOf) <= old(AllSecondaries(PresentingGraphs(order, gs)))
    ensures PresentingOf(order, groups) == old(PresentingGraphs(order, gs))
    ensures PresentingSecs(order, secondariesOf) == old(SecondariesList(PresentingGraphs(order, gs)))
  {
    secondariesOf := [];
    var i := 0;
    while i < |order|
      invariant 0 <= i <= |order| && |secondariesOf| == i
      invariant forall j :: 0 <= j < i ==>
        secondariesOf[j] == if order[j].presentFamily >= 0 then SecondariesList(groups[order[j]]) else []
    {
      var secondaries := if order[i].presentFamily >= 0 then SecondariesList(groups[order[i]]) else [];
      secondariesOf := secondariesOf + [secondaries];
      i := i + 1;
    }

    SecondariesPlanned(gs, order, groups, secondariesOf);
    windowsOf := CollectAllWindows(order, groups);
  }

  /** uniqueWindows.insert(commandGraph->windows) for each graph of each presenting group; no
      windows for the other groups.  Nothing is changed. */
  method CollectAllWindows(order: seq<DeviceQueueFamily>, groups: map<DeviceQueueFamily, seq<CG.CommandGraph>>)
    returns (windowsOf: seq<seq<WindowId>>)
    requires forall k :: k in order ==> k in groups
    ensures |windowsOf| == |order|
    ensures forall j :: 0 <= j < |order| ==>
      windowsOf[j] == if order[j].presentFamily >= 0 then old(UniqueWindows(groups[order[j]])) else []
  {
    windowsOf := [];
    var i := 0;
    while i < |order|
      invariant 0 <= i <= |order| && |windowsOf| == i
      invariant forall j :: 0 <= j < i ==>
        windowsOf[j] == if order[j].presentFamily >= 0 then old(UniqueWindows(groups[order[j]])) else []
    {
      var windows: seq<WindowId> := [];
      if order[i].presentFamily >= 0 {
        assert forall g :: g in GraphSet(groups[order[i]]) ==> old(allocated(g)) && g.windows == old(g.windows);
        assert UniqueWindows(groups[order[i]]) == old(UniqueWindows(groups[order[i]]));
        windows := CollectWindows(groups[order[i]]);
      }
      windowsOf := windowsOf + [windows];
      i := i + 1;
    }
  }

  /** The uniqueWindows set of one presenting group, filled graph by graph. */
  method CollectWindows(group: seq<CG.CommandGraph>) returns (windows: seq<WindowId>)
    ensures windows == old(UniqueWindows(group))
  {
    windows := [];
    var m := 0;
    while m < |group|
      invariant 0 <= m <= |group|
      invariant windows == Ordering.SortedKeys(AllWindows(group[..m]), Ordering.NatLess)
    {
      var ws := group[m].windows;
      assert group[..m + 1][..m] == group[..m] && group[..m + 1][m] == group[m];
      assert AllWindows(group[..m + 1]) == AllWindows(group[..m]) + ws;
      assert AllWindows(group[..m]) + ws[..0] == AllWindows(group[..m]);
      var n := 0;
      while n < |ws|
        invariant 0 <= n <= |ws|
        invariant windows == Ordering.SortedKeys(AllWindows(group[..m]) + ws[..n], Ordering.NatLess)
      {
        var xs := AllWindows(group[..m]) + ws[..n + 1];
        assert xs[..|xs| - 1] == AllWindows(group[..m]) + ws[..n];
        windows := Ordering.Insert(ws[n], windows, Ordering.NatLess);
        n := n + 1;
      }
      assert ws[..n] == ws;
      m := m + 1;
    }
    assert group[..m] == group;
  }


  /**
   * The loop body over deviceCommandGraphsMap for a group of key k with a present family, given
   * its windows and what the collector hands back for each primary: a fresh render-finished
   * semaphore, the secondaries pointed at their primaries, a task signalling the semaphore and
   * recording the effective list, and a presentation waiting on the semaphore for the windows.
   */
  method PresentingTask(k: DeviceQueueFamily, group: seq<CG.CommandGraph>, windows: seq<WindowId>,
                        secs: seq<seq<CG.CommandGraph>>, databasePager: Option<PagerId>)
    returns (task: RecordAndSubmitTask, presentation: Presentation)
    requires k.presentFamily >= 0 && |secs| == |group|
    modifies AllOf(secs)`primary
    ensures task.(signalSemaphores := []) == TaskOf(k, group, windows, secs, databasePager)
    ensures |task.signalSemaphores| == 1 && fresh(task.signalSemaphores[0])
    ensures presentation == Presentation(task.signalSemaphores, windows, Queue(k.device, k.presentFamily))
    ensures forall s :: s in AllOf(secs) ==> s.primary == LastPrimaryOf(group, secs, s)
  {
    var renderFinishedSemaphore := new Semaphore();
    var effective := CollectEffective(group, secs);
    task := RecordAndSubmitTask(effective, [renderFinishedSemaphore], databasePager, windows, Queue(k.device, k.queueFamily));
    presentation := Presentation([renderFinishedSemaphore], windows, Queue(k.device, k.presentFamily));
  }

  /** The primaries the presenting groups execute, in key order, point at their last primary. */
  predicate PrimariesAssigned(ps: seq<CG.CommandGraph>, secs: seq<seq<CG.CommandGraph>>)
    requires |ps| == |secs|
    reads AllOf(secs)`primary
  {
    forall s :: s in AllOf(secs) ==> s.primary == LastPrimaryOf(ps, secs, s)
  }

  /**
   * The loop body over deviceCommandGraphsMap for the group of key k: PresentingTask with a
   * present family, which points the group's secondaries at their primaries after those of the
   * groups before it (doneP, doneS); without one, a task holding just the group and no
   * presentation, and no pointer changes.
   */
  method TaskAndPresentation(k: DeviceQueueFamily, group: seq<CG.CommandGraph>, windows: seq<WindowId>,
                             secs: seq<seq<CG.CommandGraph>>, databasePager: Option<PagerId>,
                             ghost doneP: seq<CG.CommandGraph>, ghost doneS: seq<seq<CG.CommandGraph>>)
    returns (task: RecordAndSubmitTask, presentation: Option<Presentation>)
    requires k.presentFamily >= 0 ==> |secs| == |group|
    requires |doneP| == |doneS| && PrimariesAssigned(doneP, doneS)
    modifies AllOf(secs)`primary
    ensures task.(signalSemaphores := []) == TaskOf(k, group, windows, secs, databasePager)
    ensures SignalsAsPlanned(k, task)
    ensures k.presentFamily >= 0 ==> fresh(task.signalSemaphores[0])
    ensures presentation == if k.presentFamily >= 0
      then Some(Presentation(task.signalSemaphores, task.windows, Queue(k.device, k.presentFamily)))
      else None
    ensures k.presentFamily >= 0 ==> PrimariesAssigned(doneP + group, doneS + secs)
    ensures k.presentFamily < 0 ==> PrimariesAssigned(doneP, doneS)
  {
    if k.presentFamily >= 0 {
      var p;
      task, p := PresentingTask(k, group, windows, secs, databasePager);
      presentation := Some(p);
      AllOfAppend(doneS, secs);
      forall s | s in AllOf(doneS + secs)
        ensures s.primary == LastPrimaryOf(doneP + group, doneS + secs, s)
      {
        LastPrimaryOfAppend(doneP, group, doneS, secs, s);
      }
    } else {
      task := RecordAndSubmitTask(group, [], databasePager, [], Queue(k.device, k.queueFamily));
      presentation := None;
    }
  }

  /** A presenting task signals one semaphore, any other task none. */
  predicate SignalsAsPlanned(k: DeviceQueueFamily, t: RecordAndSubmitTask)
  {
    if k.presentFamily >= 0 then |t.signalSemaphores| == 1 else t.signalSemaphores == []
  }

  /** A plan for the keys in order: a group, windows and the collector's lists for each key, one
      list per primary of a presenting group. */
  predicate WellFormedPlan(order: seq<DeviceQueueFamily>, groups: map<DeviceQueueFamily, seq<CG.CommandGraph>>,
                           windowsOf: seq<seq<WindowId>>, secondariesOf: seq<seq<seq<CG.CommandGraph>>>)
  {
    && (forall k :: k in order ==> k in groups)
    && |windowsOf| == |order| && |secondariesOf| == |order|
    && forall j :: 0 <= j < |order| && order[j].presentFamily >= 0 ==> |secondariesOf[j]| == |groups[order[j]]|
  }

  /** The tasks made so far are those planned for the first keys, in order. */
  predicate TasksAsPlanned(order: seq<DeviceQueueFamily>, groups: map<DeviceQueueFamily, seq<CG.CommandGraph>>,
                           windowsOf: seq<seq<WindowId>>, secondariesOf: seq<seq<seq<CG.CommandGraph>>>,
                           databasePager: Option<PagerId>, tasks: seq<RecordAndSubmitTask>)
    requires WellFormedPlan(order, groups, windowsOf, secondariesOf) && |tasks| <= |order|
  {
    forall j :: 0 <= j < |tasks| ==>
      && tasks[j].(signalSemaphores := []) == TaskOf(order[j], groups[order[j]], windowsOf[j], secondariesOf[j], databasePager)
      && SignalsAsPlanned(order[j], tasks[j])
  }

  lemma TasksAsPlannedSnoc(order: seq<DeviceQueueFamily>, groups: map<DeviceQueueFamily, seq<CG.CommandGraph>>,
                           windowsOf: seq<seq<WindowId>>, secondariesOf: seq<seq<seq<CG.CommandGraph>>>,
                           databasePager: Option<PagerId>, tasks: seq<RecordAndSubmitTask>, task: RecordAndSubmitTask)
    requires WellFormedPlan(order, groups, windowsOf, secondariesOf) && |tasks| < |order|
    requires TasksAsPlanned(order, groups, windowsOf, secondariesOf, databasePager, tasks)
    requires var n := |tasks|;
      task.(signalSemaphores := []) == TaskOf(order[n], groups[order[n]], windowsOf[n], secondariesOf[n], databasePager)
    requires SignalsAsPlanned(order[|tasks|], task)
    ensures TasksAsPlanned(order, groups, windowsOf, secondariesOf, databasePager, tasks + [task])
  {
  }

  /** Every semaphore the tasks signal is in sems. */
  ghost predicate SignalledIn(tasks: seq<RecordAndSubmitTask>, sems: set<Semaphore>)
  {
    forall j, s :: 0 <= j < |tasks| && s in tasks[j].signalSemaphores ==> s in sems
  }

  /** All that the loop of CreateTasks has built after the first |tasks| keys: their tasks as
      planned, their presentations, the presenting groups and collector lists handled so far,
      and `sems` holding every semaphore the tasks signal. */
  ghost predicate Built(order: seq<DeviceQueueFamily>, groups: map<DeviceQueueFamily, seq<CG.CommandGraph>>,
                        windowsOf: seq<seq<WindowId>>, secondariesOf: seq<seq<seq<CG.CommandGraph>>>,
                        databasePager: Option<PagerId>, tasks: seq<RecordAndSubmitTask>, presentations: seq<Presentation>,
                        doneP: seq<CG.CommandGraph>, doneS: seq<seq<CG.CommandGraph>>, sems: set<Semaphore>)
  {
    && WellFormedPlan(order, groups, windowsOf, secondariesOf) && |tasks| <= |order|
    && TasksAsPlanned(order, groups, windowsOf, secondariesOf, databasePager, tasks)
    && presentations == PresentationsFor(order, tasks)
    && doneP == PresentingOf(order[..|tasks|], groups)
    && doneS == PresentingSecs(order[..|tasks|], secondariesOf[..|tasks|])
    && |doneP| == |doneS|
    && SignalledIn(tasks, sems)
  }


  lemma PresentingOfPrefixSnoc(order: seq<DeviceQueueFamily>, groups: map<DeviceQueueFamily, seq<CG.CommandGraph>>, n: nat)
    requires n < |order| && forall k :: k in order ==> k in groups
    ensures PresentingOf(order[..n + 1], groups)
      == PresentingOf(order[..n], groups) + (if order[n].presentFamily >= 0 then groups[order[n]] else [])
  {
    assert order[..n + 1][..n] == order[..n] && order[..n + 1][n] == order[n];
  }

  lemma PresentingSecsPrefixSnoc(order: seq<DeviceQueueFamily>, secondariesOf: seq<seq<seq<CG.CommandGraph>>>, n: nat)
    requires n < |order| == |secondariesOf|
    ensures PresentingSecs(order[..n + 1], secondariesOf[..n + 1])
      == PresentingSecs(order[..n], secondariesOf[..n]) + (if order[n].presentFamily >= 0 then secondariesOf[n] else [])
  {
    assert order[..n + 1][..n] == order[..n] && order[..n + 1][n] == order[n];
    assert secondariesOf[..n + 1][..n] == secondariesOf[..n] && secondariesOf[..n + 1][n] == secondariesOf[n];
  }

  /** One more key with a present family: Built extends by its task, its presentation, its
      group, its collector lists and the semaphore its task signals. */
  lemma BuiltSnocPresenting(order: seq<DeviceQueueFamily>, groups: map<DeviceQueueFamily, seq<CG.CommandGraph>>,
                    windowsOf: seq<seq<WindowId>>, secondariesOf: seq<seq<seq<CG.CommandGraph>>>,
                    databasePager: Option<PagerId>, tasks: seq<RecordAndSubmitTask>, presentations: seq<Presentation>,
                    doneP: seq<CG.CommandGraph>, doneS: seq<seq<CG.CommandGraph>>, sems: set<Semaphore>,
                    task: RecordAndSubmitTask)
    requires Built(order, groups, windowsOf, secondariesOf, databasePager, tasks, presentations, doneP, doneS, sems)
    requires |tasks| < |order|
    requires var n := |tasks|;
      task.(signalSemaphores := []) == TaskOf(order[n], groups[order[n]], windowsOf[n], secondariesOf[n], databasePager)
    requires SignalsAsPlanned(order[|tasks|], task)
    requires order[|tasks|].presentFamily >= 0
    ensures var n, k := |tasks|, order[|tasks|];
      Built(order, groups, windowsOf, secondariesOf, databasePager, tasks + [task],
            presentations + [Presentation(task.signalSemaphores, task.windows, Queue(k.device, k.presentFamily))],
            doneP + groups[k], doneS + secondariesOf[n], sems + {task.signalSemaphores[0]})
  {
    var n := |tasks|;
    PresentationsForSnoc(order, tasks, task);
    PresentingOfPrefixSnoc(order, groups, n);
    PresentingSecsPrefixSnoc(order, secondariesOf, n);
    TasksAsPlannedSnoc(order, groups, windowsOf, secondariesOf, databasePager, tasks, task);
  }

  /** One more key without a present family: Built extends by its task only. */
  lemma BuiltSnocOther(order: seq<DeviceQueueFamily>, groups: map<DeviceQueueFamily, seq<CG.CommandGraph>>,
                    windowsOf: seq<seq<WindowId>>, secondariesOf: seq<seq<seq<CG.CommandGraph>>>,
                    databasePager: Option<PagerId>, tasks: seq<RecordAndSubmitTask>, presentations: seq<Presentation>,
                    doneP: seq<CG.CommandGraph>, doneS: seq<seq<CG.CommandGraph>>, sems: set<Semaphore>,
                    task: RecordAndSubmitTask)
    requires Built(order, groups, windowsOf, secondariesOf, databasePager, tasks, presentations, doneP, doneS, sems)
    requires |tasks| < |order|
    requires var n := |tasks|;
      task.(signalSemaphores := []) == TaskOf(order[n], groups[order[n]], windowsOf[n], secondariesOf[n], databasePager)
    requires SignalsAsPlanned(order[|tasks|], task)
    requires order[|tasks|].presentFamily < 0
    ensures Built(order, groups, windowsOf, secondariesOf, databasePager, tasks + [task], presentations, doneP, doneS, sems)
  {
    var n := |tasks|;
    PresentationsForSnoc(order, tasks, task);
    PresentingOfPrefixSnoc(order, groups, n);
    PresentingSecsPrefixSnoc(order, secondariesOf, n);
    TasksAsPlannedSnoc(order, groups, windowsOf, secondariesOf, databasePager, tasks, task);
  }

  /** Nothing is built before the first key. */
  lemma BuiltNil(order: seq<DeviceQueueFamily>, groups: map<DeviceQueueFamily, seq<CG.CommandGraph>>,
                 windowsOf: seq<seq<WindowId>>, secondariesOf: seq<seq<seq<CG.CommandGraph>>>, databasePager: Option<PagerId>)
    requires WellFormedPlan(order, groups, windowsOf, secondariesOf)
    ensures Built(order, groups, windowsOf, secondariesOf, databasePager, [], [], [], [], {})
  {
    assert order[..0] == [] && secondariesOf[..0] == [];
  }

  /** What is built once every key is handled. */
  lemma BuiltAll(order: seq<DeviceQueueFamily>, groups: map<DeviceQueueFamily, seq<CG.CommandGraph>>,
                 windowsOf: seq<seq<WindowId>>, secondariesOf: seq<seq<seq<CG.CommandGraph>>>,
                 databasePager: Option<PagerId>, tasks: seq<RecordAndSubmitTask>, presentations: seq<Presentation>,
                 doneP: seq<CG.CommandGraph>, doneS: seq<seq<CG.CommandGraph>>, sems: set<Semaphore>)
    requires Built(order, groups, windowsOf, secondariesOf, databasePager, tasks, presentations, doneP, doneS, sems)
    requires |tasks| == |order|
    ensures forall j :: 0 <= j < |order| ==>
      tasks[j].(signalSemaphores := []) == TaskOf(order[j], groups[order[j]], windowsOf[j], secondariesOf[j], databasePager)
    ensures forall j :: 0 <= j < |order| && order[j].presentFamily >= 0 ==>
      |tasks[j].signalSemaphores| == 1 && tasks[j].signalSemaphores[0] in sems
    ensures forall j :: 0 <= j < |order| && order[j].presentFamily < 0 ==> tasks[j].signalSemaphores == []
    ensures presentations == PresentationsFor(order, tasks)
    ensures doneP == PresentingOf(order, groups) && doneS == PresentingSecs(order, secondariesOf)
  {
    assert order[..|tasks|] == order && secondariesOf[..|tasks|] == secondariesOf;
    forall j | 0 <= j < |order| && order[j].presentFamily >= 0
      ensures |tasks[j].signalSemaphores| == 1 && tasks[j].signalSemaphores[0] in sems
    {
      assert SignalsAsPlanned(order[j], tasks[j]);
      assert tasks[j].signalSemaphores[0] in tasks[j].signalSemaphores;
    }
  }

  /**
   * The second loop of assignRecordAndSubmitTaskAndPresentation over the collected plan: for
   * each key in ascending order its task and, with a present family, its presentation, the
   * primaries of the presenting groups assigned as it goes.
   */
  method CreateTasks(order: seq<DeviceQueueFamily>, groups: map<DeviceQueueFamily, seq<CG.CommandGraph>>,
                     windowsOf: seq<seq<WindowId>>, secondariesOf: seq<seq<seq<CG.CommandGraph>>>,
                     databasePager: Option<PagerId>)
    returns (tasks: seq<RecordAndSubmitTask>, presentations: seq<Presentation>)
    requires WellFormedPlan(order, groups, windowsOf, secondariesOf)
    modifies Touched(secondariesOf)`primary
    ensures |tasks| == |order|
    ensures forall j :: 0 <= j < |order| ==>
      tasks[j].(signalSemaphores := []) == TaskOf(order[j], groups[order[j]], windowsOf[j], secondariesOf[j], databasePager)
    ensures forall j :: 0 <= j < |order| && order[j].presentFamily >= 0 ==>
      |tasks[j].signalSemaphores| == 1 && fresh(tasks[j].signalSemaphores[0])
    ensures forall j :: 0 <= j < |order| && order[j].presentFamily < 0 ==> tasks[j].signalSemaphores == []
    ensures presentations == PresentationsFor(order, tasks)
    ensures |PresentingOf(order, groups)| == |PresentingSecs(order, secondariesOf)|
    ensures PrimariesAssigned(PresentingOf(order, groups), PresentingSecs(order, secondariesOf))
  {
    tasks, presentations := [], [];
    ghost var doneP: seq<CG.CommandGraph> := [];
    ghost var doneS: seq<seq<CG.CommandGraph>> := [];
    ghost var sems: set<Semaphore> := {};
    BuiltNil(order, groups, windowsOf, secondariesOf, databasePager);
    var i := 0;
    while i < |order|
      invariant i == |tasks|
      invariant Built(order, groups, windowsOf, secondariesOf, databasePager, tasks, presentations, doneP, doneS, sems)
      invariant fresh(sems)
      invariant |doneP| == |doneS| && PrimariesAssigned(doneP, doneS)
    {
      var key := order[i];
      assert AllOf(secondariesOf[i]) <= Touched(secondariesOf);
      var task, presentation := TaskAndPresentation(key, groups[key], windowsOf[i], secondariesOf[i], databasePager, doneP, doneS);
      if presentation.Some? {
        BuiltSnocPresenting(order, groups, windowsOf, secondariesOf, databasePager, tasks, presentations, doneP, doneS, sems, task);
        presentations := presentations + [presentation.value];
        doneP, doneS := doneP + groups[key], doneS + secondariesOf[i];
        sems := sems + {task.signalSemaphores[0]};
      } else {
        BuiltSnocOther(order, groups, windowsOf, secondariesOf, databasePager, tasks, presentations, doneP, doneS, sems, task);
      }
      tasks := tasks + [task];
      i := i + 1;
    }
    BuiltAll(order, groups, windowsOf, secondariesOf, databasePager, tasks, presentations, doneP, doneS, sems);
  }


  /**
   * The body of assignRecordAndSubmitTaskAndPresentation: the graphs grouped by key and, for
   * each key in ascending order, its task and, with a present family, its presentation.  Each
   * task is TaskFor its key and group in the state the body starts from, a presenting one
   * signalling one fresh semaphore and a non-presenting one none.  Afterwards every graph a
   * presenting primary executes points at the last such primary, taking the presenting groups
   * in key order.
   */
  method AssignTasks(gs: seq<CG.CommandGraph>, databasePager: Option<PagerId>)
    returns (tasks: seq<RecordAndSubmitTask>, presentations: seq<Presentation>)
    modifies AllSecondaries(PresentingGraphs(GroupKeys(gs), gs))`primary
    ensures var keys := old(GroupKeys(gs));
      && |tasks| == |keys|
      && (forall j :: 0 <= j < |keys| ==>
            tasks[j].(signalSemaphores := []) == old(TaskFor(keys[j], Group(gs, keys[j]), databasePager)))
      && (forall j :: 0 <= j < |keys| && keys[j].presentFamily >= 0 ==>
            |tasks[j].signalSemaphores| == 1 && fresh(tasks[j].signalSemaphores[0]))
      && (forall j :: 0 <= j < |keys| && keys[j].presentFamily < 0 ==> tasks[j].signalSemaphores == [])
      && presentations == PresentationsFor(keys, tasks)
    ensures var ps := old(PresentingGraphs(GroupKeys(gs), gs));
      var secs := old(SecondariesList(PresentingGraphs(GroupKeys(gs), gs)));
      |secs| == |ps| && PrimariesAssigned(ps, secs)
  {
    var groups, order, windowsOf, secondariesOf := GroupAndCollect(gs, databasePager);
    tasks, presentations := CreateTasks(order, groups, windowsOf, secondariesOf, databasePager);
  }
}
