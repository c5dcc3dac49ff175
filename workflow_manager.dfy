/**
 * The workflow manager: three configuration tables updated in place, the
 * lookups on them, and the operations that move a subject's marking.
 */
module WorkflowManager {
  import opened Wrappers
  import opened OrderedMaps
  import opened Sequences
  import opened WorkflowModel

  /** An element under workflow (asset, data object or document). */
  class Subject {
    /** The class of the subject; the registry decides by it which workflows apply. */
    const kind: string
    /** Whether the subject is an element that can be saved on request. */
    const isElement: bool
    /** The marking its marking store holds for it. */
    var marking: Marking
    var omitMandatoryCheck: bool
    /** One entry per save, recording whether the mandatory-field check was off for it. */
    var saves: seq<bool>

    constructor (kind: string, isElement: bool, marking: Marking)
      ensures this.kind == kind && this.isElement == isElement && this.marking == marking
      ensures !omitMandatoryCheck && saves == []
    {
      this.kind := kind;
      this.isElement := isElement;
      this.marking := marking;
      omitMandatoryCheck := false;
      saves := [];
    }

    method Save()
      modifies this`saves
      ensures saves == old(saves) + [omitMandatoryCheck]
    {
      saves := saves + [omitMandatoryCheck];
    }
  }

  /** The listener that attaches additional data to the note it writes for a transition. */
  class NotesSubscriber {
    var additionalData: AdditionalData

    constructor ()
      ensures additionalData == map[]
    {
      additionalData := map[];
    }

    method SetAdditionalData(data: AdditionalData)
      modifies this
      ensures additionalData == data
    {
      additionalData := data;
    }
  }

  datatype EventName = PreGlobalAction | PostGlobalAction

  datatype GlobalActionEvent = GlobalActionEvent(workflow: Workflow, subject: Subject, action: GlobalAction, additionalData: AdditionalData)

  datatype Dispatched = Dispatched(event: GlobalActionEvent, name: EventName)

  /** The event dispatcher, seen as the trace of what was dispatched. */
  class EventDispatcher {
    var dispatched: seq<Dispatched>

    constructor ()
      ensures dispatched == []
    {
      dispatched := [];
    }

    method Dispatch(event: GlobalActionEvent, name: EventName)
      modifies this
      ensures dispatched == old(dispatched) + [Dispatched(event, name)]
    {
      dispatched := dispatched + [Dispatched(event, name)];
    }
  }

  class Manager {
    const engine: Engine
    const notes: NotesSubscriber
    const dispatcher: EventDispatcher

    /** Place configs by workflow name, then by place, in configuration order. */
    var placeConfigs: OMap<string, OMap<string, PlaceConfig>>
    /** Global actions by workflow name, then by action name. */
    var globalActions: OMap<string, OMap<string, GlobalAction>>
    /** Workflow configs by name, highest priority first. */
    var workflows: WorkflowTable

    /** The invariant of the three tables, one predicate per table so that a method updating one table keeps the other two for free. */
    ghost predicate Valid()
      reads this
    {
      PlaceConfigsValid() && GlobalActionsValid() && WorkflowsValid()
    }

    ghost predicate PlaceConfigsValid()
      reads this`placeConfigs
    {
      TableValid(placeConfigs, PlaceKey)
    }

    ghost predicate GlobalActionsValid()
      reads this`globalActions
    {
      TableValid(globalActions, ActionKey)
    }

    ghost predicate WorkflowsValid()
      reads this`workflows
    {
      WorkflowTableValid(workflows)
    }

    constructor (engine: Engine, notes: NotesSubscriber, dispatcher: EventDispatcher)
      ensures Valid()
      ensures this.engine == engine && this.notes == notes && this.dispatcher == dispatcher
      ensures placeConfigs == [] && globalActions == [] && workflows == []
    {
      this.engine := engine;
      this.notes := notes;
      this.dispatcher := dispatcher;
      placeConfigs := [];
      globalActions := [];
      workflows := [];
    }

    // -------------------------------------------------------------------
    // Place configs and global actions

    /** Stores a place config under its workflow and place names; every other entry is kept, see Put2. */
    method AddPlaceConfig(workflowName: string, place: string, settings: Settings)
      requires Valid()
      modifies this`placeConfigs
      ensures Valid()
      ensures placeConfigs == Put2(old(placeConfigs), workflowName, place, PlaceConfig(place, workflowName, settings))
      ensures GetPlaceConfig(workflowName, place) == Some(PlaceConfig(place, workflowName, settings))
    {
      var config := PlaceConfig(place, workflowName, settings);
      ghost var before := placeConfigs;
      placeConfigs := Put2(placeConfigs, workflowName, place, config);
      assert PlaceConfigsValid() by {
        TablePutKeepsValid(before, PlaceKey, workflowName, place, config);
      }
    }

    /** Stores a global action under its workflow and action names; every other entry is kept, see Put2. */
    method AddGlobalAction(workflowName: string, action: string, config: ActionConfig)
      requires Valid()
      modifies this`globalActions
      ensures Valid()
      ensures globalActions == Put2(old(globalActions), workflowName, action, GlobalAction(action, workflowName, config))
      ensures GetGlobalAction(workflowName, action) == Some(GlobalAction(action, workflowName, config))
    {
      var globalAction := GlobalAction(action, workflowName, config);
      ghost var before := globalActions;
      globalActions := Put2(globalActions, workflowName, action, globalAction);
      assert GlobalActionsValid() by {
        TablePutKeepsValid(before, ActionKey, workflowName, action, globalAction);
      }
    }

    /** The global actions of a workflow; none for an unknown workflow. */
    function GetGlobalActions(workflowName: string): (r: OMap<string, GlobalAction>)
      reads this
      requires Valid()
      ensures workflowName !in Keys(globalActions) ==> r == []
      ensures DistinctKeys(r)
      ensures forall a :: Get(r, a) == GetGlobalAction(workflowName, a)
    {
      var r := Get(globalActions, workflowName).GetOr([]);
      assert Get(globalActions, workflowName).Some? ==> (workflowName, r) in globalActions;
      r
    }

    /** The named global action of a workflow, if configured; in a valid manager it carries the names it is stored under. */
    function GetGlobalAction(workflowName: string, action: string): (r: Option<GlobalAction>)
      reads this
      ensures r.Some? <==> workflowName in Keys(globalActions) && action in Keys(Get(globalActions, workflowName).value)
      ensures Valid() && r.Some? ==> r.value.workflowName == workflowName && r.value.action == action
    {
      var r := Get2(globalActions, workflowName, action);
      assert r.Some? ==> (workflowName, Get(globalActions, workflowName).value) in globalActions;
      r
    }

    /** The config of a place of a workflow, if configured; in a valid manager it carries the names it is stored under. */
    function GetPlaceConfig(workflowName: string, place: string): (r: Option<PlaceConfig>)
      reads this
      ensures r.Some? <==> workflowName in Keys(placeConfigs) && place in Keys(Get(placeConfigs, workflowName).value)
      ensures Valid() && r.Some? ==> r.value.workflowName == workflowName && r.value.place == place
    {
      var r := Get2(placeConfigs, workflowName, place);
      assert r.Some? ==> (workflowName, Get(placeConfigs, workflowName).value) in placeConfigs;
      r
    }

    /** The place configs of a workflow in configuration order; none for an unknown workflow. */
    function GetPlaceConfigsByWorkflowName(workflowName: string): (r: OMap<string, PlaceConfig>)
      reads this
      requires Valid()
      ensures workflowName !in Keys(placeConfigs) ==> r == []
      ensures DistinctKeys(r)
      ensures forall p :: Get(r, p) == GetPlaceConfig(workflowName, p)
    {
      var r := Get(placeConfigs, workflowName).GetOr([]);
      assert Get(placeConfigs, workflowName).Some? ==> (workflowName, r) in placeConfigs;
      r
    }

    /**
     * Without a marking, all place configs of the workflow; with one, those
     * whose place is active in it, in configuration order either way.
     */
    method GetOrderedPlaceConfigs(workflow: Workflow, marking: Option<Marking>) returns (r: seq<PlaceConfig>)
      requires Valid()
      ensures marking.None? ==> r == Values(GetPlaceConfigsByWorkflowName(workflow.name))
      ensures marking.Some? ==> r == ActivePlaceConfigs(Values(GetPlaceConfigsByWorkflowName(workflow.name)), marking.value)
      ensures IsSubsequence(r, Values(GetPlaceConfigsByWorkflowName(workflow.name)))
      ensures marking.Some? ==> forall c :: c in r <==> c in Values(GetPlaceConfigsByWorkflowName(workflow.name)) && c.place in marking.value
    {
      var configs := Values(GetPlaceConfigsByWorkflowName(workflow.name));
      if marking.None? {
        r := configs;
        FilterIsSubsequence(configs, (c: PlaceConfig) => true);
        assert Filter(configs, (c: PlaceConfig) => true) == configs by {
          FilterAll(configs);
        }
        return;
      }
      var placeNames := marking.value;
      r := [];
      var i := 0;
      while i < |configs|
        invariant 0 <= i <= |configs|
        invariant r == ActivePlaceConfigs(configs[..i], placeNames)
      {
        assert configs[..i + 1][..i] == configs[..i];
        if configs[i].place in placeNames {
          r := r + [configs[i]];
        }
        i := i + 1;
      }
      assert configs[..i] == configs;
      ActivePlaceConfigsSpec(configs, placeNames);
    }

    // -------------------------------------------------------------------
    // Workflow configs

    /**
     * Stores a workflow config under its name and re-sorts the table by
     * descending priority; how equal priorities end up ordered is left open.
     */
    method RegisterWorkflow(workflowName: string, options: WorkflowOptions)
      requires Valid()
      modifies this`workflows
      ensures Valid()
      ensures SortedByPriority(workflows)
      ensures multiset(workflows) == multiset(Put(old(workflows), workflowName, WorkflowConfig(workflowName, options)))
      ensures forall n :: n in Keys(workflows) <==> n in old(Keys(workflows)) || n == workflowName
      ensures GetWorkflowConfig(workflowName) == Ok(WorkflowConfig(workflowName, options))
      ensures forall n :: n != workflowName ==> GetWorkflowConfig(n) == old(GetWorkflowConfig(n))
    {
      var config := WorkflowConfig(workflowName, options);
      var updated := Put(workflows, workflowName, config);
      PutKeepsDistinct(workflows, workflowName, config);
      PutEntries(workflows, workflowName, config);
      SortByPriorityKeys(updated);
      var sorted := SortByPriority(updated);
      forall e | e in sorted ensures e.1.name == e.0 {
        assert e in multiset(updated);
      }
      workflows := sorted;
    }

    /** The registered names: each once, exactly the registered ones, highest priority first. */
    function GetAllWorkflows(): (r: seq<string>)
      reads this
      requires Valid()
      ensures Distinct(r)
      ensures forall n :: n in r <==> GetWorkflowConfig(n).Ok?
      ensures forall i, j :: 0 <= i < j < |r| ==>
        && GetWorkflowConfig(r[i]).Ok? && GetWorkflowConfig(r[j]).Ok?
        && GetWorkflowConfig(r[i]).value.Priority() >= GetWorkflowConfig(r[j]).value.Priority()
    {
      var r := Keys(workflows);
      assert forall i :: 0 <= i < |r| ==> Get(workflows, r[i]) == Some(workflows[i].1) by {
        forall i | 0 <= i < |r| ensures Get(workflows, r[i]) == Some(workflows[i].1) {
          GetAt(workflows, i);
        }
      }
      r
    }

    /** The config registered last under a name; fails exactly when the name is not registered. */
    function GetWorkflowConfig(workflowName: string): (r: Result<WorkflowConfig, Error>)
      reads this
      requires Valid()
      ensures r.Err? <==> workflowName !in Keys(workflows)
      ensures r.Err? ==> r.error == WorkflowNotFound(workflowName)
      ensures r.Ok? ==> r.value.name == workflowName
    {
      match Get(workflows, workflowName)
      case None => Err(WorkflowNotFound(workflowName))
      case Some(config) => Ok(config)
    }

    /** The registry's workflow of that name for the subject; a registry failure means it does not apply and gives None. */
    function GetWorkflowIfExists(subject: Subject, workflowName: string): (r: Option<Workflow>)
      ensures r.Some? <==> engine.registry(subject.kind, workflowName).Ok?
      ensures r.Some? ==> engine.registry(subject.kind, workflowName) == Ok(r.value)
    {
      match engine.registry(subject.kind, workflowName)
      case Ok(workflow) => Some(workflow)
      case Err(_) => None
    }

    /**
     * The workflows that apply to the subject, in priority order: the
     * registry's answers for the applicable registered names.
     */
    method GetAllWorkflowsForSubject(subject: Subject) returns (r: seq<Workflow>)
      requires Valid()
      ensures r == WorkflowsFor(workflows, subject.kind, engine.registry)
      ensures var a := ApplicableEntries(workflows, subject.kind, engine.registry);
        && |r| == |a|
        && (forall i :: 0 <= i < |a| ==> GetWorkflowIfExists(subject, a[i].0) == Some(r[i]))
        && IsSubsequence(a, workflows)
        && SortedByPriority(a)
    {
      var names := GetAllWorkflows();
      r := [];
      var i := 0;
      while i < |names|
        invariant 0 <= i <= |names|
        invariant r == WorkflowsFor(workflows[..i], subject.kind, engine.registry)
      {
        assert workflows[..i + 1][..i] == workflows[..i];
        var workflow := GetWorkflowIfExists(subject, names[i]);
        if workflow.Some? {
          r := r + [workflow.value];
        }
        i := i + 1;
      }
      assert workflows[..i] == workflows;
      WorkflowsForAreApplicable(workflows, subject.kind, engine.registry);
      ApplicableEntriesInPriorityOrder(workflows, subject.kind, engine.registry);
    }

    /** The container's service "<type>.<name>"; fails when the name is not registered or the service is missing. */
    function GetWorkflowByName(workflowName: string): (r: Result<Workflow, Error>)
      reads this
      requires Valid()
      ensures workflowName !in Keys(workflows) ==> r == Err(WorkflowNotFound(workflowName))
      ensures workflowName in Keys(workflows) ==>
        var config := GetWorkflowConfig(workflowName).value;
        r == match engine.container(ServiceId(config))
             case Some(w) => Ok(w)
             case None => Err(ServiceNotFound(ServiceId(config)))
    {
      match GetWorkflowConfig(workflowName)
      case Err(e) => Err(e)
      case Ok(config) =>
        match engine.container(ServiceId(config))
        case Some(w) => Ok(w)
        case None => Err(ServiceNotFound(ServiceId(config)))
    }

    /** The first transition of the workflow with that name, if any; fails when the workflow cannot be resolved. */
    method GetTransitionByName(workflowName: string, transitionName: string) returns (r: Result<Option<Transition>, Error>)
      requires Valid()
      ensures GetWorkflowByName(workflowName).Err? ==> r == Err(GetWorkflowByName(workflowName).error)
      ensures GetWorkflowByName(workflowName).Ok? ==>
        r.Ok? && IsFirstNamed(GetWorkflowByName(workflowName).value.definition.transitions, transitionName, r.value)
    {
      var found := GetWorkflowByName(workflowName);
      if found.Err? {
        return Err(found.error);
      }
      var transitions := found.value.definition.transitions;
      var i := 0;
      while i < |transitions|
        invariant 0 <= i <= |transitions|
        invariant forall j :: 0 <= j < i ==> transitions[j].name != transitionName
      {
        if transitions[i].name == transitionName {
          return Ok(Some(transitions[i]));
        }
        i := i + 1;
      }
      return Ok(None);
    }

    // -------------------------------------------------------------------
    // Moving markings

    /**
     * Fires a transition with additional data staged for the notes
     * subscriber; the slot is cleared only when the engine succeeds.
     */
    method ApplyWithAdditionalData(workflow: Workflow, subject: Subject, transition: string, data: AdditionalData)
      returns (r: Result<Marking, Error>)
      modifies notes, subject`marking
      ensures r == engine.apply(workflow, old(subject.marking), transition)
      ensures r.Ok? ==> subject.marking == r.value && notes.additionalData == map[]
      ensures r.Err? ==> subject.marking == old(subject.marking) && notes.additionalData == data
    {
      notes.SetAdditionalData(data);
      r := engine.apply(workflow, subject.marking, transition);
      if r.Err? {
        return;
      }
      subject.marking := r.value;
      notes.SetAdditionalData(map[]);
    }

    /**
     * Runs a global action: the subject's marking becomes exactly the
     * action's target places with one token each (unchanged when there are
     * none), between a pre and a post event, with the additional data staged
     * meanwhile.
     */
    method ApplyGlobalAction(workflow: Workflow, subject: Subject, action: string, data: AdditionalData, saveSubject: bool)
      returns (r: Result<Marking, Error>)
      modifies notes, dispatcher, subject`marking, subject`saves
      ensures GetGlobalAction(workflow.name, action).None? ==>
        && r == Err(GlobalActionNotFound(action))
        && unchanged(notes, dispatcher, subject)
      ensures GetGlobalAction(workflow.name, action).Some? ==>
        var globalAction := GetGlobalAction(workflow.name, action).value;
        var event := GlobalActionEvent(workflow, subject, globalAction, data);
        if workflow.markingStore.None? && globalAction.Tos() != [] then
          // the marking store is null when the marking is to be written
          && r == Err(NullMarkingStore)
          && dispatcher.dispatched == old(dispatcher.dispatched) + [Dispatched(event, PreGlobalAction)]
          && notes.additionalData == data
          && unchanged(subject)
        else
          && dispatcher.dispatched == old(dispatcher.dispatched) + [Dispatched(event, PreGlobalAction), Dispatched(event, PostGlobalAction)]
          && notes.additionalData == map[]
          && subject.marking == (if globalAction.Tos() == [] then old(subject.marking) else MarkAll(map[], globalAction.Tos()))
          && subject.saves == old(subject.saves) + (if saveSubject && subject.isElement then [subject.omitMandatoryCheck] else [])
          && r == (if workflow.markingStore.None? then Err(NullMarkingStore) else Ok(subject.marking))
    {
      var found := GetGlobalAction(workflow.name, action);
      if found.None? {
        return Err(GlobalActionNotFound(action));
      }
      var globalAction := found.value;
      notes.SetAdditionalData(data);
      var event := GlobalActionEvent(workflow, subject, globalAction, data);
      dispatcher.Dispatch(event, PreGlobalAction);
      var markingStore := workflow.markingStore;
      var tos := globalAction.Tos();
      if tos != [] {
        if markingStore.None? {
          return Err(NullMarkingStore);
        }
        var places := TargetPlaces(tos);
        subject.marking := places;
      }
      dispatcher.Dispatch(event, PostGlobalAction);
      notes.SetAdditionalData(map[]);
      if saveSubject && subject.isElement {
        subject.Save();
      }
      if markingStore.None? {
        return Err(NullMarkingStore);
      }
      r := Ok(subject.marking);
    }

    /** The marking of a global action's target places, one token each. */
    static method TargetPlaces(tos: seq<string>) returns (places: Marking)
      ensures places == MarkAll(map[], tos)
      ensures places.Keys == set t | t in tos
      ensures forall t :: t in places ==> places[t] == 1
    {
      places := map[];
      var i := 0;
      while i < |tos|
        invariant 0 <= i <= |tos|
        invariant places == MarkAll(map[], tos[..i])
      {
        assert tos[..i + 1][..i] == tos[..i];
        places := places[tos[i] := 1];
        i := i + 1;
      }
      assert tos[..i] == tos;
    }

    // -------------------------------------------------------------------
    // Initial places

    /**
     * The initial places of the workflow's definition, through whichever
     * method the definition offers; none when it offers neither.
     */
    function GetInitialPlacesForWorkflow(workflow: Workflow): (r: seq<string>)
      ensures workflow.definition.initialPlaces.InitialPlacesList? ==> r == workflow.definition.initialPlaces.places
      ensures workflow.definition.initialPlaces.SingleInitialPlace? ==> r == [workflow.definition.initialPlaces.place]
      ensures workflow.definition.initialPlaces.NoInitialPlacesApi? ==> r == []
    {
      match workflow.definition.initialPlaces
      case InitialPlacesList(places) => places
      case SingleInitialPlace(place) => [place]
      case NoInitialPlacesApi => []
    }

    /**
     * Gives a subject whose marking holds the sentinel place "" the
     * workflow's initial places instead, saving it with the mandatory-field
     * check off unless the state-table store persists it. True exactly when
     * it did so.
     */
    method EnsureInitialPlace(workflowName: string, subject: Subject) returns (initialized: bool)
      modifies subject
      ensures var found := GetWorkflowIfExists(subject, workflowName);
        initialized <==> found.Some? && found.value.markingStore.Some? && "" in old(subject.marking)
      ensures initialized ==>
        var workflow := GetWorkflowIfExists(subject, workflowName).value;
        && subject.marking == InitialMarking(old(subject.marking), GetInitialPlacesForWorkflow(workflow))
        && subject.saves == old(subject.saves) + (if workflow.markingStore == Some(StateTableStore) then [] else [true])
      ensures !initialized ==> subject.marking == old(subject.marking) && subject.saves == old(subject.saves)
      ensures subject.omitMandatoryCheck == old(subject.omitMandatoryCheck)
    {
      var found := GetWorkflowIfExists(subject, workflowName);
      if found.None? {
        return false;
      }
      var workflow := found.value;
      if workflow.markingStore.None? {
        return false;
      }
      var initialPlaces := GetInitialPlacesForWorkflow(workflow);
      var marking := subject.marking;
      var unvisited := marking.Keys;
      while unvisited != {}
        invariant unvisited <= marking.Keys
        invariant "" in marking ==> "" in unvisited
        invariant marking == subject.marking == old(subject.marking)
        invariant subject.saves == old(subject.saves)
        invariant subject.omitMandatoryCheck == old(subject.omitMandatoryCheck)
        decreases unvisited
      {
        var placeName :| placeName in unvisited;
        if placeName != "" {
          unvisited := unvisited - {placeName};
          continue;
        }
        marking := marking - {placeName};
        var i := 0;
        while i < |initialPlaces|
          invariant 0 <= i <= |initialPlaces|
          invariant marking == MarkAll(old(subject.marking) - {""}, initialPlaces[..i])
          invariant subject.marking == old(subject.marking)
        {
          assert initialPlaces[..i + 1][..i] == initialPlaces[..i];
          marking := marking[initialPlaces[i] := 1];
          i := i + 1;
        }
        assert initialPlaces[..i] == initialPlaces;
        subject.marking := marking;
        if workflow.markingStore.value != StateTableStore {
          var wasOmitMandatoryCheck := subject.omitMandatoryCheck;
          subject.omitMandatoryCheck := true;
          subject.Save();
          subject.omitMandatoryCheck := wasOmitMandatoryCheck;
        }
        return true;
      }
      return false;
    }
  }

  /** After storing a place config it is found under its names, and every other lookup answers as before. */
  method AddPlaceConfigThenGet(manager: Manager, workflowName: string, place: string, settings: Settings)
    requires manager.Valid()
    modifies manager`placeConfigs
    ensures manager.Valid()
    ensures manager.GetPlaceConfig(workflowName, place) == Some(PlaceConfig(place, workflowName, settings))
    ensures forall w, p :: (w, p) != (workflowName, place) ==> manager.GetPlaceConfig(w, p) == old(manager.GetPlaceConfig(w, p))
  {
    manager.AddPlaceConfig(workflowName, place, settings);
  }

  /** After storing a global action it is found under its names, and every other lookup answers as before. */
  method AddGlobalActionThenGet(manager: Manager, workflowName: string, action: string, config: ActionConfig)
    requires manager.Valid()
    modifies manager`globalActions
    ensures manager.Valid()
    ensures manager.GetGlobalAction(workflowName, action) == Some(GlobalAction(action, workflowName, config))
    ensures forall w, a :: (w, a) != (workflowName, action) ==> manager.GetGlobalAction(w, a) == old(manager.GetGlobalAction(w, a))
  {
    manager.AddGlobalAction(workflowName, action, config);
  }

  /**
   * After registering a workflow the listed names are the earlier ones plus
   * the new one, each once, in non-increasing priority.
   */
  method RegisterWorkflowThenList(manager: Manager, workflowName: string, options: WorkflowOptions) returns (names: seq<string>)
    requires manager.Valid()
    modifies manager`workflows
    ensures manager.Valid()
    ensures Distinct(names)
    ensures forall n :: n in names <==> n in old(manager.GetAllWorkflows()) || n == workflowName
    ensures forall i, j :: 0 <= i < j < |names| ==>
      && manager.GetWorkflowConfig(names[i]).Ok? && manager.GetWorkflowConfig(names[j]).Ok?
      && manager.GetWorkflowConfig(names[i]).value.Priority() >= manager.GetWorkflowConfig(names[j]).value.Priority()
  {
    manager.RegisterWorkflow(workflowName, options);
    names := manager.GetAllWorkflows();
  }

  /**
   * Bootstrapping is idempotent: when no initial place is the sentinel, a
   * second call finds nothing to repair and changes nothing.
   */
  method EnsureInitialPlaceTwice(manager: Manager, workflowName: string, subject: Subject) returns (first: bool, second: bool)
    requires forall w :: manager.GetWorkflowIfExists(subject, workflowName) == Some(w) ==> "" !in manager.GetInitialPlacesForWorkflow(w)
    modifies subject
    ensures !second
    ensures first <==>
      && "" in old(subject.marking)
      && manager.GetWorkflowIfExists(subject, workflowName).Some?
      && manager.GetWorkflowIfExists(subject, workflowName).value.markingStore.Some?
    ensures first ==>
      && manager.GetWorkflowIfExists(subject, workflowName).Some?
      && subject.marking == InitialMarking(old(subject.marking), manager.GetInitialPlacesForWorkflow(manager.GetWorkflowIfExists(subject, workflowName).value))
    ensures first ==>
      && manager.GetWorkflowIfExists(subject, workflowName).Some?
      && subject.saves == old(subject.saves) +
           (if manager.GetWorkflowIfExists(subject, workflowName).value.markingStore == Some(StateTableStore) then [] else [true])
    ensures !first ==> subject.marking == old(subject.marking) && subject.saves == old(subject.saves)
    ensures subject.omitMandatoryCheck == old(subject.omitMandatoryCheck)
  {
    first := manager.EnsureInitialPlace(workflowName, subject);
    if first {
      var workflow := manager.GetWorkflowIfExists(subject, workflowName).value;
      InitialMarkingClearsSentinel(old(subject.marking), manager.GetInitialPlacesForWorkflow(workflow));
    }
    second := manager.EnsureInitialPlace(workflowName, subject);
  }
}
