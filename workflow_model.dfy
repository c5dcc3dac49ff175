/**
 * The values the workflow manager stores and hands around: place configs,
 * global actions, workflow configs, markings, and the abstract interface of
 * the workflow engine it delegates to.
 */
module WorkflowModel {
  import opened Wrappers
  import opened OrderedMaps
  import opened Sequences

  /** Configuration options whose meaning lies outside the manager (labels, colours, permissions, ...). */
  type Settings = map<string, string>

  /** The side-channel data handed to the notes subscriber around a transition. */
  type AdditionalData = map<string, string>

  /** The active places of a subject, each with its token count. */
  type Marking = map<string, nat>

  /** Display and behaviour settings of one place of one workflow. */
  datatype PlaceConfig = PlaceConfig(place: string, workflowName: string, settings: Settings)

  /** The configuration of a global action: the places it moves a subject to, and the rest. */
  datatype ActionConfig = ActionConfig(tos: seq<string>, settings: Settings)

  /** An action of a workflow that moves a subject to fixed places without a transition. */
  datatype GlobalAction = GlobalAction(action: string, workflowName: string, config: ActionConfig) {
    function Tos(): seq<string> { config.tos }
  }

  /** The options a workflow is registered with. */
  datatype WorkflowOptions = WorkflowOptions(workflowType: string, priority: int)

  /** A registered workflow: its name and options. */
  datatype WorkflowConfig = WorkflowConfig(name: string, options: WorkflowOptions) {
    function Priority(): int { options.priority }
  }

  datatype Transition = Transition(name: string, froms: seq<string>, tos: seq<string>)

  /**
   * How a definition offers its initial places: a list (Symfony 4.3 and
   * later, `getInitialPlaces`), a single place (earlier versions,
   * `getInitialPlace`), or neither method.
   */
  datatype InitialPlacesApi =
    | InitialPlacesList(places: seq<string>)
    | SingleInitialPlace(place: string)
    | NoInitialPlacesApi

  /** The parts of a workflow definition the manager reads. */
  datatype Definition = Definition(transitions: seq<Transition>, initialPlaces: InitialPlacesApi)

  /** The state-table marking store persists the subject itself; every other store does not. */
  datatype MarkingStoreKind = StateTableStore | OtherStore

  /** A live workflow handle as the engine returns it. */
  datatype Workflow = Workflow(name: string, markingStore: Option<MarkingStoreKind>, definition: Definition)

  /** The exceptions on the manager's paths, as values. */
  datatype Error =
    | WorkflowNotFound(workflowName: string)
    | GlobalActionNotFound(action: string)
    | ServiceNotFound(serviceId: string)
    | TransitionNotApplied(transition: string)
    | NullMarkingStore
    | InvalidArgument(message: string)

  /** The workflow registry's lookup by subject class and workflow name. */
  type Registry = (string, string) -> Result<Workflow, Error>

  /**
   * The engine the manager delegates to, as opaque functions:
   * `registry(kind, name)` is the workflow registry's lookup for a subject
   * of class `kind` (an `InvalidArgument` error when no such workflow
   * applies to it),
   * `container(id)` the service container, and `apply(w, m, t)` fires
   * transition `t` of `w` from marking `m` (a `TransitionNotApplied` error
   * when the transition is not enabled or fails validation).
   */
  datatype Engine = Engine(
    registry: Registry,
    container: string -> Option<Workflow>,
    apply: (Workflow, Marking, string) -> Result<Marking, Error>)

  function PlaceKey(c: PlaceConfig): (string, string) { (c.workflowName, c.place) }

  function ActionKey(a: GlobalAction): (string, string) { (a.workflowName, a.action) }

  /** The service id of a workflow in the container: "<type>.<name>". */
  function ServiceId(c: WorkflowConfig): string { c.options.workflowType + "." + c.name }

  // ---------------------------------------------------------------------
  // Workflow configs ordered by priority

  type WorkflowTable = OMap<string, WorkflowConfig>

  /** Priorities never increase along the table. */
  predicate SortedByPriority(ws: WorkflowTable) {
    forall i, j :: 0 <= i < j < |ws| ==> ws[i].1.Priority() >= ws[j].1.Priority()
  }

  /** Names are unique, each config is stored under its own name, and the table is sorted. */
  ghost predicate WorkflowTableValid(ws: WorkflowTable) {
    && DistinctKeys(ws)
    && SortedByPriority(ws)
    && forall e :: e in ws ==> e.1.name == e.0
  }

  /** Inserts an entry before the first entry of no higher priority. */
  function InsertByPriority(e: (string, WorkflowConfig), ws: WorkflowTable): (r: WorkflowTable)
    ensures multiset(r) == multiset(ws) + multiset{e}
  {
    if ws == [] then [e]
    else if e.1.Priority() >= ws[0].1.Priority() then [e] + ws
    else
      assert ws == [ws[0]] + ws[1..];
      [ws[0]] + InsertByPriority(e, ws[1..])
  }

  /** Inserting into a sorted table keeps it sorted. */
  lemma {:induction false} InsertByPriorityKeepsOrder(e: (string, WorkflowConfig), ws: WorkflowTable)
    requires SortedByPriority(ws)
    ensures SortedByPriority(InsertByPriority(e, ws))
  {
    if ws != [] && e.1.Priority() < ws[0].1.Priority() {
      var tail := ws[1..];
      var rest := InsertByPriority(e, tail);
      InsertByPriorityKeepsOrder(e, tail);
      // the new second entry is either e or the old second entry
      assert rest[0].1.Priority() <= ws[0].1.Priority() by {
        if tail != [] && e.1.Priority() < tail[0].1.Priority() {
          assert rest[0] == tail[0] == ws[1];
        }
      }
      var r := [ws[0]] + rest;
      forall i, j | 0 <= i < j < |r| ensures r[i].1.Priority() >= r[j].1.Priority() {
        if i == 0 {
          assert r[j] == rest[j - 1];
          assert rest[0].1.Priority() >= rest[j - 1].1.Priority();
        } else {
          assert r[i] == rest[i - 1] && r[j] == rest[j - 1];
        }
      }
    }
  }

  /** The table re-sorted by descending priority (the manager's `uasort`). */
  function SortByPriority(ws: WorkflowTable): (r: WorkflowTable)
    ensures multiset(r) == multiset(ws)
    ensures SortedByPriority(r)
  {
    if ws == [] then []
    else
      assert ws == [ws[0]] + ws[1..];
      var rest := SortByPriority(ws[1..]);
      InsertByPriorityKeepsOrder(ws[0], rest);
      InsertByPriority(ws[0], rest)
  }

  /** Inserting a new name keeps names unique and adds exactly that name. */
  lemma {:induction false} InsertByPriorityKeys(e: (string, WorkflowConfig), ws: WorkflowTable)
    requires DistinctKeys(ws) && e.0 !in Keys(ws)
    ensures var r := InsertByPriority(e, ws);
      && DistinctKeys(r)
      && (forall k :: k in Keys(r) <==> k in Keys(ws) || k == e.0)
  {
    var r := InsertByPriority(e, ws);
    if ws == [] {
      assert Keys(r) == [e.0];
    } else if e.1.Priority() >= ws[0].1.Priority() {
      KeysCons(e, ws);
      DistinctCons(e.0, Keys(ws));
    } else {
      var tail := ws[1..];
      assert ws == [ws[0]] + tail;
      KeysCons(ws[0], tail);
      DistinctCons(ws[0].0, Keys(tail));
      InsertByPriorityKeys(e, tail);
      var rest := InsertByPriority(e, tail);
      KeysCons(ws[0], rest);
      DistinctCons(ws[0].0, Keys(rest));
    }
  }

  /** Inserting a name not yet present makes it map to the inserted config and changes no other lookup. */
  lemma {:induction false} InsertByPriorityGet(e: (string, WorkflowConfig), ws: WorkflowTable)
    requires e.0 !in Keys(ws)
    ensures forall k :: Get(InsertByPriority(e, ws), k) == if k == e.0 then Some(e.1) else Get(ws, k)
  {
    if ws != [] && e.1.Priority() < ws[0].1.Priority() {
      var tail := ws[1..];
      assert Keys(ws) == [ws[0].0] + Keys(tail);
      InsertByPriorityGet(e, tail);
      var r := InsertByPriority(e, ws);
      assert r[1..] == InsertByPriority(e, tail);
    }
  }

  /** Sorting keeps names unique, keeps the set of names and changes no lookup. */
  lemma {:induction false} SortByPriorityKeys(ws: WorkflowTable)
    requires DistinctKeys(ws)
    ensures var r := SortByPriority(ws);
      && DistinctKeys(r)
      && (forall k :: k in Keys(r) <==> k in Keys(ws))
      && (forall k :: Get(r, k) == Get(ws, k))
  {
    if ws != [] {
      var tail := ws[1..];
      assert Keys(ws) == [ws[0].0] + Keys(tail);
      DistinctCons(ws[0].0, Keys(tail));
      SortByPriorityKeys(tail);
      InsertByPriorityKeys(ws[0], SortByPriority(tail));
      InsertByPriorityGet(ws[0], SortByPriority(tail));
    }
  }

  lemma DistinctCons<T>(x: T, s: seq<T>)
    ensures Distinct([x] + s) <==> x !in s && Distinct(s)
  {
    var t := [x] + s;
    if x !in s && Distinct(s) {
      forall i, j | 0 <= i < j < |t| ensures t[i] != t[j] {
        if i == 0 {
          assert t[j] == s[j - 1];
        } else {
          assert t[i] == s[i - 1] && t[j] == s[j - 1];
        }
      }
    }
    if Distinct(t) {
      forall i, j | 0 <= i < j < |s| ensures s[i] != s[j] {
        assert t[i + 1] == s[i] && t[j + 1] == s[j];
      }
      forall k | 0 <= k < |s| ensures s[k] != x {
        assert t[0] == x && t[k + 1] == s[k];
      }
    }
  }

  /** A subsequence of a table sorted by priority is sorted by priority. */
  lemma {:induction false} SubsequenceKeepsPriorityOrder(a: WorkflowTable, b: WorkflowTable)
    requires IsSubsequence(a, b) && SortedByPriority(b)
    ensures SortedByPriority(a)
    decreases |b|
  {
    if a != [] {
      var initA, initB := a[..|a| - 1], b[..|b| - 1];
      assert SortedByPriority(initB);
      if a[|a| - 1] == b[|b| - 1] && IsSubsequence(initA, initB) {
        SubsequenceKeepsPriorityOrder(initA, initB);
        SubsequenceMembers(initA, initB);
        forall i, j | 0 <= i < j < |a| ensures a[i].1.Priority() >= a[j].1.Priority() {
          if j == |a| - 1 {
            assert a[i] in initA;
            var k :| 0 <= k < |initB| && initB[k] == a[i];
            assert b[k] == a[i];
          } else {
            assert initA[i] == a[i] && initA[j] == a[j];
          }
        }
      } else {
        SubsequenceKeepsPriorityOrder(a, initB);
      }
    }
  }

  /** The entries whose workflow applies to a subject of class `kind`, in table order. */
  function ApplicableEntries(ws: WorkflowTable, kind: string, registry: Registry): WorkflowTable {
    Filter(ws, Applies(kind, registry))
  }

  /** Whether the registry finds the entry's workflow for a subject of class `kind`. */
  function Applies(kind: string, registry: Registry): ((string, WorkflowConfig)) -> bool {
    (e: (string, WorkflowConfig)) => registry(kind, e.0).Ok?
  }

  /** The workflows the registry yields for the table's names, skipping those that do not apply. */
  function WorkflowsFor(ws: WorkflowTable, kind: string, registry: Registry): seq<Workflow> {
    if ws == [] then []
    else
      WorkflowsFor(ws[..|ws| - 1], kind, registry) +
      match registry(kind, ws[|ws| - 1].0)
      case Ok(w) => [w]
      case Err(_) => []
  }

  /** The i-th workflow found is the registry's answer for the i-th applicable entry. */
  lemma {:induction false} WorkflowsForAreApplicable(ws: WorkflowTable, kind: string, registry: Registry)
    ensures var a, r := ApplicableEntries(ws, kind, registry), WorkflowsFor(ws, kind, registry);
      && |r| == |a|
      && forall i :: 0 <= i < |a| ==> registry(kind, a[i].0) == Ok(r[i])
  {
    if ws != [] {
      WorkflowsForAreApplicable(ws[..|ws| - 1], kind, registry);
    }
  }

  /** The applicable entries keep the table's order, hence its priority order. */
  lemma ApplicableEntriesInPriorityOrder(ws: WorkflowTable, kind: string, registry: Registry)
    requires SortedByPriority(ws)
    ensures IsSubsequence(ApplicableEntries(ws, kind, registry), ws)
    ensures SortedByPriority(ApplicableEntries(ws, kind, registry))
  {
    FilterIsSubsequence(ws, Applies(kind, registry));
    SubsequenceKeepsPriorityOrder(ApplicableEntries(ws, kind, registry), ws);
  }

  // ---------------------------------------------------------------------
  // Place configs selected by a marking

  /** The place configs whose place is active in `marking`, in configuration order. */
  function ActivePlaceConfigs(configs: seq<PlaceConfig>, marking: Marking): seq<PlaceConfig> {
    Filter(configs, IsActive(marking))
  }

  /** Whether a config's place is a key of `marking`. */
  function IsActive(marking: Marking): PlaceConfig -> bool {
    (c: PlaceConfig) => c.place in marking
  }

  /** Exactly the configs of active places are kept, in configuration order. */
  lemma ActivePlaceConfigsSpec(configs: seq<PlaceConfig>, marking: Marking)
    ensures IsSubsequence(ActivePlaceConfigs(configs, marking), configs)
    ensures forall c :: c in ActivePlaceConfigs(configs, marking) <==> c in configs && c.place in marking
  {
    FilterIsSubsequence(configs, IsActive(marking));
  }

  // ---------------------------------------------------------------------
  // Markings

  /** Marks each of `places` in turn, one token each, as `Marking::mark` does. */
  function MarkAll(m: Marking, places: seq<string>): (r: Marking)
    ensures r.Keys == m.Keys + set p | p in places
    ensures forall p :: p in r ==> r[p] == if p in places then 1 else m[p]
  {
    if places == [] then m
    else
      var last := places[|places| - 1];
      assert places == places[..|places| - 1] + [last];
      MarkAll(m, places[..|places| - 1])[last := 1]
  }

  /** The marking a never-initialised subject gets: the sentinel place "" removed, the initial places marked. */
  function InitialMarking(m: Marking, initialPlaces: seq<string>): Marking {
    MarkAll(m - {""}, initialPlaces)
  }

  /** Unless "" is itself an initial place, the initial marking no longer holds the sentinel. */
  lemma InitialMarkingClearsSentinel(m: Marking, initialPlaces: seq<string>)
    requires "" !in initialPlaces
    ensures "" !in InitialMarking(m, initialPlaces)
    ensures forall p :: p in initialPlaces ==> p in InitialMarking(m, initialPlaces) && InitialMarking(m, initialPlaces)[p] == 1
    ensures forall p :: p in m && p != "" && p !in initialPlaces ==> p in InitialMarking(m, initialPlaces) && InitialMarking(m, initialPlaces)[p] == m[p]
  {
  }

  // ---------------------------------------------------------------------
  // Transitions

  /** `found` is the first transition of `ts` named `name`, or None when there is none. */
  predicate IsFirstNamed(ts: seq<Transition>, name: string, found: Option<Transition>) {
    match found
    case None => forall t :: t in ts ==> t.name != name
    case Some(t) =>
      exists i :: 0 <= i < |ts| && ts[i] == t && t.name == name && forall j :: 0 <= j < i ==> ts[j].name != name
  }
}
