# Pimcore workflow manager, modelled in Dafny

This project models `Pimcore\Workflow\Manager` (`lib/Workflow/Manager.php`),
the facade that Pimcore puts in front of the Symfony workflow component. The
manager keeps three configuration tables, updated in place:

- place configs by workflow name, then by place;
- global actions by workflow name, then by action;
- workflow configs by name, kept sorted by descending priority.

Around those tables it offers lookups and two order-preserving filters. It
also has three operations that move a subject's marking:

- firing a transition with additional data staged for the notes subscriber;
- running a global action, which overwrites the marking with the action's
  target places;
- repairing a never-initialised marking, which replaces the sentinel place
  `""` with the workflow's initial places.

Layout:

- `wrappers.dfy`: `Option` and `Result`.
- `ordered_maps.dfy`: PHP ordered arrays as sequences of key/value pairs.
  `Get` is `$m[$k] ?? null`. `Put` is `$m[$k] = $v`: a reassigned key keeps
  its position and a new key is appended. `Get2` and `Put2` work on nested
  arrays. `TableValid` is the invariant of a two-level table.
- `sequences.dfy`: order-preserving filtering and subsequences.
- `workflow_model.dfy`: the manager's value types. It also holds the engine
  interface (registry, service container, `apply`), the priority sort, the
  two filters and the marking arithmetic.
- `workflow_manager.dfy`: the classes. `Manager` holds the three tables as
  fields. `Subject` holds its marking, its omit-mandatory-check flag and a
  trace of its saves. `NotesSubscriber` holds the additional-data slot.
  `EventDispatcher` holds a trace of dispatched events. The file ends with
  caller-side methods that state the add-then-look-up, register-then-list
  and repair-twice properties.

A marking is a map from place to token count. `Marking::mark` puts one token
on a place and `Marking::unmark` removes the place. The manager's class
invariant `Valid()` has one conjunct per table:

- keys are unique at every level;
- every stored value carries the names it is stored under;
- the workflow table is sorted by non-increasing priority.

The constructor establishes `Valid()` and every method that changes a table
preserves it.

## Model

| member | source | states |
|---|---|---|
| OrderedMaps.Get | lib/Workflow/Manager.php:117-125 | a lookup finds a value exactly when the key is present, and the value found is stored under that key |
| OrderedMaps.Put | lib/Workflow/Manager.php:86-92 | assignment appends a new key and leaves an existing key in its place; the key then maps to the new value and every other key keeps its value |
| OrderedMaps.PutEntries | lib/Workflow/Manager.php:86-92 | assignment adds no entry except the assigned pair |
| OrderedMaps.PutKeepsDistinct | lib/Workflow/Manager.php:88-89 | assignment keeps keys unique |
| OrderedMaps.GetAt | lib/Workflow/Manager.php:170-181 | in a table with unique keys, looking up the key of the i-th entry gives that entry's value |
| OrderedMaps.Put2 | lib/Workflow/Manager.php:88-89 | the two-level assignment creates the inner table when it is missing; the pair then maps to the new value and every other pair keeps its value; at both levels a present key keeps its position and a new key is appended |
| OrderedMaps.TablePutKeepsValid | lib/Workflow/Manager.php:86-107 | storing a value under its own workflow and item names keeps a two-level table valid |
| Sequences.Filter | lib/Workflow/Manager.php:144-148 | the filtered sequence is no longer than the input, and an element is in it exactly when it is in the input and passes the test |
| Sequences.FilterIsSubsequence | lib/Workflow/Manager.php:144-148 | filtering keeps the input's order (the result is a subsequence) |
| WorkflowModel.InsertByPriority | lib/Workflow/Manager.php:162-164 | inserting adds exactly the one entry (as a multiset) |
| WorkflowModel.InsertByPriorityKeepsOrder | lib/Workflow/Manager.php:162-164 | inserting into a table sorted by non-increasing priority keeps it sorted |
| WorkflowModel.SortByPriority | lib/Workflow/Manager.php:162-164 | the sort is a permutation, and priorities never increase along its result |
| WorkflowModel.InsertByPriorityKeys | lib/Workflow/Manager.php:160-164 | inserting a new name keeps names unique and adds exactly that name |
| WorkflowModel.InsertByPriorityGet | lib/Workflow/Manager.php:160-164 | after inserting a new name, that name finds the new config and every other name finds what it found before |
| WorkflowModel.SortByPriorityKeys | lib/Workflow/Manager.php:160-164 | sorting keeps names unique, keeps the set of names and changes no lookup |
| WorkflowModel.SubsequenceKeepsPriorityOrder | lib/Workflow/Manager.php:193-203 | any subsequence of a priority-sorted table is priority-sorted |
| WorkflowModel.WorkflowsForAreApplicable | lib/Workflow/Manager.php:189-216 | the workflows found line up one-to-one with the applicable entries, and the i-th is the registry's answer for the i-th applicable name |
| WorkflowModel.ApplicableEntriesInPriorityOrder | lib/Workflow/Manager.php:189-204 | the applicable entries are a subsequence of the sorted table and are themselves in priority order |
| WorkflowModel.ActivePlaceConfigsSpec | lib/Workflow/Manager.php:141-150 | the configs kept for a marking are a subsequence of the configs, and a config is kept exactly when its place is a key of the marking |
| WorkflowModel.MarkAll | lib/Workflow/Manager.php:284-287 | marking a list of places adds exactly those places with one token each and leaves every other place's tokens as they were |
| WorkflowModel.InitialMarkingClearsSentinel | lib/Workflow/Manager.php:356-360 | unless "" is itself an initial place, the repaired marking has no "", has one token on every initial place, and keeps every other place |
| WorkflowManager.Subject.Save | lib/Workflow/Manager.php:366-369 | a save is recorded with the omit-mandatory-check flag in force at that moment |
| WorkflowManager.Manager.constructor | lib/Workflow/Manager.php:72-78 | the engine (registry, container, `apply`), the notes subscriber and the dispatcher are the ones passed in; the three tables start empty and the invariant holds |
| WorkflowManager.Manager.AddPlaceConfig | lib/Workflow/Manager.php:86-92 | the table becomes the two-level assignment of the new config under (workflow, place); the invariant is kept; the new config is then found under its names |
| WorkflowManager.Manager.AddGlobalAction | lib/Workflow/Manager.php:101-107 | the table becomes the two-level assignment of the new action under (workflow, action); the invariant is kept; the new action is then found under its names |
| WorkflowManager.AddPlaceConfigThenGet | lib/Workflow/Manager.php:86-92 | after storing a place config, it is found under its names and every other (workflow, place) lookup answers as before |
| WorkflowManager.AddGlobalActionThenGet | lib/Workflow/Manager.php:101-107 | after storing a global action, it is found under its names and every other (workflow, action) lookup answers as before |
| WorkflowManager.Manager.GetGlobalActions | lib/Workflow/Manager.php:112-115 | an unknown workflow gives the empty table; otherwise the result has unique names and agrees with the single-action lookup on every name |
| WorkflowManager.Manager.GetGlobalAction | lib/Workflow/Manager.php:117-120 | the lookup never fails; it finds an action exactly when both names are present, and in a valid manager the action found carries those names |
| WorkflowManager.Manager.GetPlaceConfig | lib/Workflow/Manager.php:122-125 | the lookup never fails; it finds a config exactly when both names are present, and in a valid manager the config found carries those names |
| WorkflowManager.Manager.GetPlaceConfigsByWorkflowName | lib/Workflow/Manager.php:153-156 | an unknown workflow gives the empty table; otherwise the result has unique places and agrees with the single-config lookup on every place |
| WorkflowManager.Manager.GetOrderedPlaceConfigs | lib/Workflow/Manager.php:135-151 | without a marking, all configs of the workflow in configuration order; with one, exactly those whose place is a key of the marking, as a subsequence in configuration order |
| WorkflowManager.Manager.RegisterWorkflow | lib/Workflow/Manager.php:158-165 | the new table is a permutation of the assignment of the new config under its name, sorted by non-increasing priority; the names are the old ones plus the new one; the new name finds the new config and every other name finds what it found before; the invariant is kept |
| WorkflowManager.RegisterWorkflowThenList | lib/Workflow/Manager.php:158-173 | after registering, the listed names are the earlier ones plus the new one, each once, in non-increasing priority |
| WorkflowManager.Manager.GetAllWorkflows | lib/Workflow/Manager.php:170-173 | every name is listed once; a name is listed exactly when its config can be fetched; the listed configs are in non-increasing priority |
| WorkflowManager.Manager.GetWorkflowConfig | lib/Workflow/Manager.php:175-182 | fails with "workflow not found" exactly when the name is not registered; otherwise returns the config stored under that name |
| WorkflowManager.Manager.GetWorkflowIfExists | lib/Workflow/Manager.php:206-216 | a workflow is found exactly when the registry finds it for the subject, and it is the registry's answer; a registry failure (the workflow does not apply) gives none, not an error |
| WorkflowManager.Manager.GetAllWorkflowsForSubject | lib/Workflow/Manager.php:189-204 | one workflow per registered name that the registry finds for the subject, being the registry's answer, in the table's priority order; names that do not apply are skipped |
| WorkflowManager.Manager.GetWorkflowByName | lib/Workflow/Manager.php:225-230 | an unregistered name fails as in the config lookup; otherwise the result is the container's service "type.name", or a missing-service error |
| WorkflowManager.Manager.GetTransitionByName | lib/Workflow/Manager.php:310-323 | a failure to resolve the workflow is passed on; otherwise the result is the first transition with that name, or none when no transition has it |
| WorkflowManager.Manager.ApplyWithAdditionalData | lib/Workflow/Manager.php:243-252 | the result is the engine's answer for the current marking; on success the marking becomes the new one and the data slot is cleared; on failure the marking is unchanged and the slot still holds the data |
| WorkflowManager.Manager.ApplyGlobalAction | lib/Workflow/Manager.php:266-300 | an unknown action fails and nothing changes. Otherwise a pre event is dispatched. A null marking store that must be written to fails after that event, with the data still staged. In every other case: the marking becomes exactly the target places with one token each (unchanged when there are none), the post event follows, the slot is cleared, an element is saved on request, and the result is the new marking (an error for a null store) |
| WorkflowManager.Manager.TargetPlaces | lib/Workflow/Manager.php:283-287 | the marking built from the target places has exactly those places, each with one token |
| WorkflowManager.Manager.EnsureInitialPlace | lib/Workflow/Manager.php:338-376 | true exactly when the workflow applies, has a marking store and the marking holds ""; then the marking becomes the repaired one and, unless the store is the state-table store, the subject is saved once with the mandatory check off; otherwise nothing changes; the flag ends as it began |
| WorkflowManager.Manager.GetInitialPlacesForWorkflow | lib/Workflow/Manager.php:378-392 | the list of a definition that offers one; a one-place list for a definition with a single initial place; nothing for a definition that offers neither |
| WorkflowManager.EnsureInitialPlaceTwice | lib/Workflow/Manager.php:338-376 | when "" is not an initial place, the first repair reports true exactly under the conditions above and then leaves the repaired marking and one save with the mandatory check off (none for the state-table store), or otherwise changes neither marking nor saves; the second repair reports false, so marking and saves after both calls are those after the first; the flag ends as it began |

## Left out

- `pimcore/models/Translation/Admin.php` is not part of this model. It is language resolution and database lookups, with no logic of its own.
- Symfony's `Registry::get`, `Workflow::apply` (guards, transition validation, its own events) and `Definition` are opaque functions of the `Engine` value. The registry decides by the subject's class name. Every registry failure stands for the `InvalidArgumentException` that `getWorkflowIfExists` catches.
- `Marking::mark` puts one token on a place, as in Symfony 4.4.
- GetInitialPlacesForWorkflow: `getInitialPlace` before Symfony 4.3 may return null. The model's single initial place is always a name.
- The service container behind `\Pimcore::getContainer()` is the `Engine.container` function.
- Event listeners are not run. Dispatch is recorded as a trace of (event, name) pairs.
- The note written by `NotesSubscriber` is not modelled; only the staged data slot is.
- `$subject->save()` is recorded as a trace entry and never fails. When it throws in the source, the omit-mandatory-check flag is not restored; the model has no such path.
- The internals of `StateTableMarkingStore` are not modelled. A store is `StateTableStore`, another store, or null, and it reads and writes the subject's `marking` field.
- `PlaceConfig` and `GlobalAction` are built without `ExpressionService`. Their settings are opaque maps, and a global action's target places are a plain sequence.
- `in_array` in `getOrderedPlaceConfigs` compares loosely in PHP. The model compares place names strictly, which agrees for non-numeric place names.
- The fluent `return $this` of `addPlaceConfig` and `addGlobalAction` is dropped.
- The exceptions the manager throws become `Err` values of `Error`.
- In `getTransitionByName`, the check that the workflow is not null can never fire, because `getWorkflowByName` throws instead. It is not modelled separately.
- WorkflowManager.Manager.GetOrderedPlaceConfigs: without a marking the source returns the keyed array, and the model returns its values in the same order. The keys are the place names each value carries.
- WorkflowManager.Manager.RegisterWorkflow: the order of equal-priority workflows after `uasort` with a boolean comparator is not pinned down. The contract states only the permutation, the sortedness and the lookups. The model's own sort is one fixed choice.
- WorkflowManager.Manager.RegisterWorkflow: the default `$options = []` has no counterpart. A `WorkflowOptions` always carries a type and a priority.
- WorkflowManager.Manager.ApplyWithAdditionalData: when the engine fails, the data slot is left holding the data, because the source clears it only after a successful `apply`.
- WorkflowManager.EnsureInitialPlaceTwice: idempotence is stated only when "" is not an initial place. Otherwise the repair marks "" again and a second call repairs once more.
