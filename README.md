# Field-usage analysis engine, modelled in Dafny

This project models the engine that finds out which fields of a CRM's
modules are used by its automation. Four components make up the model.

- **Field-identity resolver, the "Rosetta Stone"** (`rosetta.dfy`). It indexes every field of every module four ways: by API name, column name, label and id. It also keeps one global id table and the `Potentials`/`Potential` → `Deals` module aliases. `resolve` then looks up a field by whichever key it is given, in a fixed order of precedence.
- **Usage tracker** (`usage.dfy`). It keeps one profile per `(module, api_name)` pair, and each profile holds three lists: reads, writes and entries. It also provides the report queries: used and unused fields, module profiles, the usage summary string and the statistics.
- **Three analyzers** that feed the tracker:
  - **Blueprint analyzer** (`blueprint.dfy`): works on transition documents. It reports an ENTRY per DURING field, a WRITE per AFTER field update and a READ for criteria that are not blank. Fields it cannot resolve go to an audit log.
  - **Workflow analyzer** (`workflow.dfy`): reports a READ per criteria leaf that names a field, and a WRITE per field-update action, which can be redirected to a related module.
  - **Deluge analyzer** (`deluge.dfy` and `patterns.dfy`): first builds the record-variable environment and the update-map environment of a script. It then turns `x.get("F")` and `m.put("F", …)` into READs and WRITEs, with noise filtering, line numbers and `unresolved` flags.

Helper modules:

- `text.dfy` holds the string operations the source borrows from Python: `strip`, `split`, `lower`, `count`, line numbers and sorting of strings.
- `json.dfy` holds decoded JSON values and Python truthiness.
- `wrappers.dfy` holds `Option` and `dict.get`.

How the Python code is represented:

- **Stateful objects become classes.** The stone, the tracker and the three analyzers are Dafny classes whose fields are the Python objects' dictionaries and counters. Their methods loop as the source does, and each method is proved against a pure function of the inputs and the old state.
- **Those pure functions carry the proofs.** Lemmas about them establish counting, round-trip, precedence, last-writer-wins and partition properties.
- **JSON arrives already decoded.** Decoded documents are typed records, and an absent key becomes the default value the source supplies for it.
- **Regular expressions use a small scanner.** `patterns.dfy` proves a greedy scanner complete for the regular expressions the Deluge analyzer searches, and models `finditer` on top of it.

The tracker does not normalize module names. Only the analyzers do, and the
workflow analyzer not at all. The model keeps that difference.

## Model

| member | source | states |
|---|---|---|
| Rosetta.Entries | src/analyzers/rosetta.py:105-116 | `modules[M]` gets one entry per field definition, in input order, duplicates included, each carrying the module name and its raw definition |
| Rosetta.IndexAppend | src/analyzers/rosetta.py:118-125 | indexing one more entry is `if key: table[key] = entry` on the table so far |
| Rosetta.IndexPrefixSound | src/analyzers/rosetta.py:118-126 | a lookup table holds only non-empty keys, each stored under itself, and only entries that were indexed |
| Rosetta.IndexPrefixComplete | src/analyzers/rosetta.py:118-126 | every indexed entry with a non-empty key is reachable under that key |
| Rosetta.IndexPrefixLastWriter | src/analyzers/rosetta.py:118-126 | under a shared key the table holds the last entry registered with it |
| Rosetta.IndexSound | src/analyzers/rosetta.py:118-126 | every table entry is one of the module's entries, stored under its own non-empty key |
| Rosetta.WithAliasesKeepsValid | src/analyzers/rosetta.py:131-137 | building aliases adds only `Potentials`/`Potential` → `Deals`, and only when `Deals` is registered |
| Rosetta.AliasesOfFreshTable | src/analyzers/rosetta.py:128-137 | on a fresh stone both internal names become aliases of `Deals` exactly when `Deals` is registered, else there are none |
| Rosetta.RegisterKeepsTablesOk | src/analyzers/rosetta.py:97-126 | re-registering a module keeps every module's tables equal to the index of its field list |
| Rosetta.RegisterKeepsGlobal | src/analyzers/rosetta.py:124-126 | the global id table holds each id under itself and covers every id of every registered module |
| Rosetta.Resolver.Resolve | src/analyzers/rosetta.py:143-169 | a query with no key supplied finds nothing |
| Rosetta.RosettaStone.constructor | src/analyzers/rosetta.py:53-64 | a new stone has no modules, tables, ids or aliases |
| Rosetta.RosettaStone.RegisterModule | src/analyzers/rosetta.py:97-126 | the module's field list and four tables are rebuilt from its definitions, its ids are added to the global table, and the tables stay consistent |
| Rosetta.RosettaStone.IndexFields | src/analyzers/rosetta.py:105-125 | the loop builds the entry list and the four tables that index it |
| Rosetta.RosettaStone.BuildAliases | src/analyzers/rosetta.py:128-137 | each alias whose target is registered is added, in the order of the alias table |
| Rosetta.RosettaStone.Resolve | src/analyzers/rosetta.py:143-169 | `resolve` with no key supplied returns None |
| Rosetta.RosettaStone.GetAllModules | src/analyzers/rosetta.py:180-182 | the registered module names, strictly sorted, each exactly once |
| Rosetta.LookupSound | src/analyzers/rosetta.py:155-167 | a table lookup finds only a field of that module that has the key looked up |
| Rosetta.ResolveMatchesWinningKey | src/analyzers/rosetta.py:151-167 | id wins over API name, over column name, over label: a query resolves exactly as its winning key alone, the result carries that key, and a by-name result belongs to the normalized module |
| Rosetta.ResolveFindsLastRegistered | src/analyzers/rosetta.py:118-167 | a registered non-empty key resolves, in its module, to the last field registered with it |
| Rosetta.RegisteredIdFoundUnderAnyModule | src/analyzers/rosetta.py:153-173 | a registered id is found by `resolve` under any module name and by `resolve_by_id` |
| Rosetta.ResolveByIdSound | src/analyzers/rosetta.py:153-173 | `resolve_by_id` never finds the empty id, finds only that id, and is what `resolve` falls back to when the module's id table misses |
| Rosetta.NormalizeModuleAfterBuild | src/analyzers/rosetta.py:128-141 | `Potentials`/`Potential` normalize to `Deals` iff `Deals` is registered; every other name is unchanged |
| Rosetta.NormalizeModuleIdempotent | src/analyzers/rosetta.py:139-141 | normalizing twice is normalizing once |
| Rosetta.ModuleFieldsBelongToModule | src/analyzers/rosetta.py:175-178 | `get_module_fields` returns only the normalized module's fields, and nothing for an unknown module |
| Text.SortedSet | src/analyzers/rosetta.py:182 | `sorted` of a set of strings: strictly increasing, each element once |
| Usage.TotalUsages | src/analyzers/usage.py:63-69 | the total is zero exactly when the profile is not used, and covers each list |
| Usage.AddToProfile | src/analyzers/usage.py:85-91 | the usage is appended to the list of its kind only; metadata and the other lists are unchanged |
| Usage.Part | src/analyzers/usage.py:77-82 | a summary part starts with its letter |
| Usage.SummaryParts | src/analyzers/usage.py:76-82 | there are parts exactly when the profile is used |
| Usage.UsageSummary | src/analyzers/usage.py:71-83 | the summary is "unused" iff the profile is not used |
| Usage.ParsePartOf | src/analyzers/usage.py:77-82 | one part `"X:n"` reads back as `(X, n)` and holds no space |
| Usage.PartsCounts | src/analyzers/usage.py:76-83 | the non-zero parts R, W, E in that order read back to the three counts |
| Usage.SummaryPartsCounts | src/analyzers/usage.py:76-83 | a profile's parts read back to its three list lengths |
| Usage.SummaryPartsSpaceFree | src/analyzers/usage.py:76-83 | no part contains the joining space |
| Usage.SummaryRoundTrip | src/analyzers/usage.py:71-83 | reading a summary back gives the three list lengths: the summary loses no count |
| Usage.Orphan | src/analyzers/usage.py:121-130 | an orphan profile has label = api_name, empty column and id, type "unknown", and no usages |
| Usage.Put | src/analyzers/usage.py:107-109 | dict assignment: a new key goes at the end of the insertion order, an existing key keeps its place |
| Usage.PutKeepsWf | src/analyzers/usage.py:102-131 | storing a profile under its own key keeps the store well formed |
| Usage.Register | src/analyzers/usage.py:104-116 | an existing key leaves the store unchanged (the first registration wins); a new key gets an unused profile; other profiles are unchanged |
| Usage.RegisterKeepsWf | src/analyzers/usage.py:104-116 | registering keeps the store well formed |
| Usage.Record | src/analyzers/usage.py:118-131 | the usage's profile, created first as an orphan when unknown, gets it appended; every other profile and the key order are unchanged |
| Usage.RecordKeepsWf | src/analyzers/usage.py:118-131 | recording keeps the store well formed |
| Usage.RecordAll | src/analyzers/usage.py:118-131 | recording a batch only adds keys |
| Usage.RecordAllKeepsWf | src/analyzers/usage.py:118-131 | recording a batch keeps the store well formed |
| Usage.RecordAllAppend | src/analyzers/usage.py:118-131 | recording two runs of usages is recording the first, then the second |
| Usage.UsageTracker.constructor | src/analyzers/usage.py:101-102 | a new tracker has no profiles |
| Usage.UsageTracker.RegisterField | src/analyzers/usage.py:104-116 | the new store is `Register` of the old one, and well-formedness is kept |
| Usage.UsageTracker.AddUsage | src/analyzers/usage.py:118-131 | the new store is `Record` of the old one, and well-formedness is kept |
| Usage.ValuesOf | src/analyzers/usage.py:148 | one profile per stored key, in insertion order: the `i`-th value is the profile stored under the `i`-th key |
| Usage.GetProfile | src/analyzers/usage.py:133-134 | a profile is returned iff the key is stored, and it has that module and API name |
| Usage.OfModule | src/analyzers/usage.py:139 | exactly the profiles of the module |
| Usage.WithUsed | src/analyzers/usage.py:152 | exactly the profiles whose `is_used` is the one asked for |
| Usage.WithUsedSplits | src/analyzers/usage.py:146-164 | the used and unused filters split a list into two parts, as multisets |
| Usage.SortProfiles | src/analyzers/usage.py:151-154 | the result is sorted by (module, lower-cased label) and is a permutation of the input |
| Usage.GetModuleProfiles | src/analyzers/usage.py:136-141 | exactly the module's profiles, each as often as stored, sorted by lower-cased label |
| Usage.GetAllModules | src/analyzers/usage.py:143-144 | every module with a profile, once each, strictly sorted |
| Usage.GetUsedFields | src/analyzers/usage.py:146-154 | exactly the used profiles in scope, sorted by (module, lower-cased label) |
| Usage.GetUnusedFields | src/analyzers/usage.py:156-164 | exactly the unused profiles in scope, sorted by (module, lower-cased label) |
| Usage.UsedUnusedPartition | src/analyzers/usage.py:146-164 | used and unused fields together are the profiles in scope, each exactly once |
| Usage.InScopeOfModule | src/analyzers/usage.py:149-150 | a non-empty module filter keeps exactly that module's profiles |
| Usage.UsedFlagCounts | src/analyzers/usage.py:168 | counting used profiles counts the used filter; used plus unused is all |
| Usage.Tally | src/analyzers/usage.py:166-176 | used + unused = total over any list of profiles |
| Usage.StatsOf | src/analyzers/usage.py:166-176 | in `stats()`, used_fields + unused_fields = total_fields |
| Usage.StatsMatchLists | src/analyzers/usage.py:146-172 | used_fields and unused_fields are the lengths of the unfiltered used and unused lists |
| Usage.StatsAfterPut | src/analyzers/usage.py:166-176 | storing a profile replaces the old profile's share of every statistic with the new one's |
| Usage.StatsAfterRecord | src/analyzers/usage.py:118-176 | one usage adds one to its kind's total, a field iff the key was new, a used field iff it was new or unused |
| Usage.StatsAfterRegister | src/analyzers/usage.py:104-176 | registering a new field adds one unused field and changes no other statistic |
| Usage.CountOfType | src/analyzers/usage.py:173-175 | a kind's count never exceeds the number of usages |
| Usage.StatsAfterRecordAll | src/analyzers/usage.py:118-176 | after a batch, each kind's total grows by that kind's usages, and no field is lost |
| Text.Lower | src/analyzers/usage.py:140 | `lower()` keeps the length and lower-cases each character |
| Text.NatToString | src/analyzers/usage.py:78 | `str(n)` is a non-empty run of digits |
| Blueprint.MapModule | src/analyzers/blueprint_analyzer.py:24-32 | `MODULE_MAP.get(raw, raw)`: `Potentials` becomes `Deals`, every other name passes through |
| Blueprint.BlueprintIdOf | src/analyzers/blueprint_analyzer.py:100-101 | the blueprint id is a prefix of the stem without `_` |
| Blueprint.BlueprintIdOfFileName | src/analyzers/blueprint_analyzer.py:99-101 | a stem `{id}_{rest}` (id without `_`) names blueprint `id`; a stem without `_` names itself |
| Blueprint.StemNameAndIdOf | src/analyzers/blueprint_analyzer.py:85-88 | `Name_123` names blueprint 123 as `Name`, even if `Name` contains `_` |
| Blueprint.AddProcesses | src/analyzers/blueprint_analyzer.py:74-80 | the processes loop adds only non-empty process ids |
| Blueprint.IndexBlueprintFile | src/analyzers/blueprint_analyzer.py:64-88 | one blueprint file only adds names, never under the empty id |
| Blueprint.BlueprintNames | src/analyzers/blueprint_analyzer.py:60-91 | the blueprint-name map never holds the empty id |
| Blueprint.IndexBlueprintFileMentions | src/analyzers/blueprint_analyzer.py:60-88 | a name one blueprint file adds is its metadata id, one of its process ids, or the id ending its file name |
| Blueprint.BlueprintNamesFromFiles | src/analyzers/blueprint_analyzer.py:60-88 | every named blueprint comes from some blueprint file other than the index file |
| Blueprint.TransitionContext | src/analyzers/blueprint_analyzer.py:99-107 | the source id is the file stem and the module is `MODULE_MAP` of the raw module |
| Blueprint.MetaTarget | src/analyzers/blueprint_analyzer.py:160-173 | an unresolved entry with an id never maps to the empty string |
| Blueprint.AddMetasKeys | src/analyzers/blueprint_analyzer.py:149-173 | the field map's keys are exactly the non-empty ids of the entries |
| Blueprint.AddMetasLastWins | src/analyzers/blueprint_analyzer.py:152-173 | an id maps to the target of its last entry |
| Blueprint.FieldsMetaMapContents | src/analyzers/blueprint_analyzer.py:139-175 | over all list-valued `FieldsMeta` groups: keys are the non-empty ids; each maps to its last entry's target |
| Blueprint.FieldsMetaMapUsesKnownId | src/analyzers/blueprint_analyzer.py:160-170 | an id known globally maps to that field's API name, whatever its column or label say |
| Blueprint.Mandatory | src/analyzers/blueprint_analyzer.py:214 | mandatory iff `IsNonMandatory` is present and falsy; a missing one gives false |
| Blueprint.EntryStep | src/analyzers/blueprint_analyzer.py:187-228 | one ENTRY iff the entry is a `Field` with an id; one log iff neither the local map nor the global id table names it |
| Blueprint.CountEntryFields | src/analyzers/blueprint_analyzer.py:188-195 | at most one field per entry |
| Blueprint.CountUnresolvedEntries | src/analyzers/blueprint_analyzer.py:197-207 | only fields can be unresolved |
| Blueprint.EntryStepsCount | src/analyzers/blueprint_analyzer.py:187-228 | one ENTRY per field entry; one log per unresolved field |
| Blueprint.EntryStepsKind | src/analyzers/blueprint_analyzer.py:216-227 | every DURING usage is an ENTRY in the transition's context |
| Blueprint.EntryStepMandatory | src/analyzers/blueprint_analyzer.py:214-226 | the ENTRY's `mandatory` detail is `not IsNonMandatory` with default True |
| Blueprint.UpdateStep | src/analyzers/blueprint_analyzer.py:237-272 | exactly one WRITE per field update, carrying its label; one log iff map, label and id all fail |
| Blueprint.CountUnresolvedUpdates | src/analyzers/blueprint_analyzer.py:244-256 | at most one unresolved record per update |
| Blueprint.UpdateStepsCount | src/analyzers/blueprint_analyzer.py:237-272 | one WRITE per field update, resolved or not; one log per unresolved update |
| Blueprint.UpdateStepsKind | src/analyzers/blueprint_analyzer.py:258-271 | every AFTER usage is a WRITE in the transition's context |
| Blueprint.UpdateStepPrefersLocalMap | src/analyzers/blueprint_analyzer.py:244-245 | a name from the local map is used as is and logs nothing |
| Blueprint.CriteriaEvents | src/analyzers/blueprint_analyzer.py:278-297 | one READ iff the criteria string is not blank after strip, none otherwise |
| Blueprint.TransitionWithParts | src/analyzers/blueprint_analyzer.py:123-137 | a transition reports DURING usages, then AFTER usages, then the criteria READ, and logs in that order |
| Blueprint.TransitionWithRecorded | src/analyzers/blueprint_analyzer.py:123-137 | recording the three passes one after the other records exactly the transition's usages and logs |
| Blueprint.TransitionCounts | src/analyzers/blueprint_analyzer.py:123-297 | a transition yields ENTRY×fields, then WRITE×updates, then at most one READ, all in its context |
| Blueprint.FunctionRefs | src/analyzers/blueprint_analyzer.py:327-337 | one reference per `Deluge` action |
| Blueprint.AllFunctionRefsShape | src/analyzers/blueprint_analyzer.py:310-341 | one reference per `Deluge` action across files, each naming its own file |
| Blueprint.AllEmittedCount | src/analyzers/blueprint_analyzer.py:94-114 | the usages of all transition files are their fields, updates and non-blank criteria |
| Blueprint.BlueprintAnalyzer.constructor | src/analyzers/blueprint_analyzer.py:38-49 | all counters zero, no unresolved records, the stone's view and the tracker kept |
| Blueprint.BlueprintAnalyzer.LogUnresolved | src/analyzers/blueprint_analyzer.py:299-308 | appends one record and adds one to the counter, so the counter equals the number of records |
| Blueprint.BlueprintAnalyzer.BuildFieldsMetaMap | src/analyzers/blueprint_analyzer.py:139-175 | the loops build `FieldsMetaMap` |
| Blueprint.BlueprintAnalyzer.ProcessDuringField | src/analyzers/blueprint_analyzer.py:188-228 | one DURING entry: tracker, log and counters move by `EntryStep` |
| Blueprint.BlueprintAnalyzer.ProcessDuringFields | src/analyzers/blueprint_analyzer.py:177-228 | tracker and log move by the DURING usages; `entry_fields_found` grows by the field count |
| Blueprint.BlueprintAnalyzer.ProcessFieldUpdate | src/analyzers/blueprint_analyzer.py:237-272 | one update: tracker and log move by `UpdateStep`; `field_updates_found` grows by one |
| Blueprint.BlueprintAnalyzer.ProcessFieldUpdates | src/analyzers/blueprint_analyzer.py:230-272 | tracker and log move by the AFTER usages; `field_updates_found` grows by the update count |
| Blueprint.BlueprintAnalyzer.ProcessCriteria | src/analyzers/blueprint_analyzer.py:274-297 | the tracker records the criteria READ; nothing is counted |
| Blueprint.BlueprintAnalyzer.ProcessFieldPasses | src/analyzers/blueprint_analyzer.py:130-134 | the DURING pass and then the AFTER pass: tracker and log move by both, in that order |
| Blueprint.BlueprintAnalyzer.AnalyzeWith | src/analyzers/blueprint_analyzer.py:130-137 | the three passes over a given field map, with their counters |
| Blueprint.BlueprintAnalyzer.AnalyzeTransition | src/analyzers/blueprint_analyzer.py:123-137 | tracker and log move by `TransitionEmitted`; the counter invariant is kept |
| Blueprint.BlueprintAnalyzer.AnalyzeTransitionFile | src/analyzers/blueprint_analyzer.py:95-110 | one transition file, in its context, plus one processed transition |
| Blueprint.BlueprintAnalyzer.AnalyzeTransitions | src/analyzers/blueprint_analyzer.py:94-113 | all transition files in order; counters grow by the totals |
| Blueprint.BlueprintAnalyzer.AnalyzeAll | src/analyzers/blueprint_analyzer.py:51-115 | without a transitions directory nothing changes; otherwise the transitions are analyzed and `blueprints_processed` = number of names |
| Blueprint.BlueprintAnalyzer.GetFunctionReferences | src/analyzers/blueprint_analyzer.py:310-341 | the references of every transition file, none without a directory |
| Workflow.LeafField | src/analyzers/workflow_analyzer.py:112-118 | a leaf names a field only by a non-empty `api_name` |
| Workflow.CriteriaReads | src/analyzers/workflow_analyzer.py:102-103 | empty or non-dict criteria yield no READ |
| Workflow.CriteriaReadsShape | src/analyzers/workflow_analyzer.py:102-135 | one READ per non-group node whose `field` is a dict with a non-empty `api_name`, each in the condition's context and module |
| Workflow.GroupReadsShape | src/analyzers/workflow_analyzer.py:106-109 | a group's READs are one per qualifying leaf of its sub-criteria |
| Workflow.GroupWinsOverField | src/analyzers/workflow_analyzer.py:106-109 | a node with a `group` key is a group: its `field` adds nothing |
| Workflow.TargetModule | src/analyzers/workflow_analyzer.py:155-162 | related module when `related_details` is a dict (defaulting to the action's module), else a non-empty action module, else the workflow module |
| Workflow.FieldUpdateWrites | src/analyzers/workflow_analyzer.py:148-181 | one WRITE iff `field_api_name` is non-empty, in the target module, with value, update_type and action_name |
| Workflow.ActionsTally | src/analyzers/workflow_analyzer.py:137-146 | actions never count criteria reads |
| Workflow.WorkflowTally | src/analyzers/workflow_analyzer.py:56-65 | a workflow without a module reports and counts nothing |
| Workflow.ActionsHonest | src/analyzers/workflow_analyzer.py:137-181 | `field_writes` counts the WRITEs of a run of actions, which report nothing else |
| Workflow.ConditionHonest | src/analyzers/workflow_analyzer.py:70-91 | one condition's counters count exactly its READs and WRITEs |
| Workflow.ConditionsHonest | src/analyzers/workflow_analyzer.py:70-91 | the conditions' counters count exactly their READs and WRITEs |
| Workflow.WorkflowHonest | src/analyzers/workflow_analyzer.py:56-91 | `criteria_reads` and `field_writes` count exactly the READs and WRITEs a workflow reports, and nothing else is reported |
| Workflow.ActionRefsCount | src/analyzers/workflow_analyzer.py:199-210 | references of a group of actions = `functions` actions counted by `_process_action` |
| Workflow.ConditionsRefsCount | src/analyzers/workflow_analyzer.py:198-210 | references across conditions = `function_refs` counted for them |
| Workflow.WorkflowRefsAgree | src/analyzers/workflow_analyzer.py:195-210 | for a workflow with a module, references listed = `function_refs` counted |
| Workflow.WorkflowAnalyzer.constructor | src/analyzers/workflow_analyzer.py:24-32 | all counters zero, the tracker kept |
| Workflow.WorkflowAnalyzer.ExtractCriteriaReads | src/analyzers/workflow_analyzer.py:93-135 | the tracker records `CriteriaReads`; `criteria_reads` grows by their number |
| Workflow.WorkflowAnalyzer.ExtractGroupReads | src/analyzers/workflow_analyzer.py:106-109 | the group loop records the sub-criteria's READs in order |
| Workflow.WorkflowAnalyzer.ProcessFieldUpdateAction | src/analyzers/workflow_analyzer.py:148-181 | the tracker records `FieldUpdateWrites`; `field_writes` grows by their number |
| Workflow.WorkflowAnalyzer.ProcessAction | src/analyzers/workflow_analyzer.py:137-146 | field updates write, `functions` only adds to `function_refs`, other types do nothing |
| Workflow.WorkflowAnalyzer.ProcessActions | src/analyzers/workflow_analyzer.py:82-91 | a group of actions, in order |
| Workflow.WorkflowAnalyzer.AnalyzeCondition | src/analyzers/workflow_analyzer.py:70-91 | one condition: criteria, instant actions, then scheduled actions only when a dict |
| Workflow.WorkflowAnalyzer.AnalyzeConditionAt | src/analyzers/workflow_analyzer.py:70-91 | the loop body extends the tally of the conditions so far by one condition |
| Workflow.WorkflowAnalyzer.AnalyzeWorkflow | src/analyzers/workflow_analyzer.py:56-91 | tracker and counters move by `WorkflowTally` |
| Workflow.WorkflowAnalyzer.AnalyzeAll | src/analyzers/workflow_analyzer.py:34-54 | all files but the index, in order; `workflows_processed` counts them |
| Workflow.WorkflowAnalyzer.AppendActionRefs | src/analyzers/workflow_analyzer.py:203-210 | appends one reference per `functions` action |
| Workflow.WorkflowAnalyzer.AppendWorkflowRefs | src/analyzers/workflow_analyzer.py:195-210 | appends one workflow file's references |
| Workflow.WorkflowAnalyzer.GetFunctionReferences | src/analyzers/workflow_analyzer.py:183-214 | the references of every workflow file, in order |
| Patterns.Captures | src/analyzers/deluge_analyzer.py:24-50 | one non-empty word-character group per `(\w+)` of the pattern |
| Patterns.Step | src/analyzers/deluge_analyzer.py:24-50 | a greedy element run that succeeds fits the element |
| Patterns.Greedy | src/analyzers/deluge_analyzer.py:24-50 | a greedy match is a match of the pattern |
| Patterns.GreedyComplete | src/analyzers/deluge_analyzer.py:24-50 | on these patterns the greedy scan matches wherever any match exists, with the same runs except the longest last one |
| Patterns.ElemsWellFormed | src/analyzers/deluge_analyzer.py:24-50 | every pattern searched, each with its closing quotes, has forced runs, so greediness loses no match |
| Patterns.ModuleNameQuoted | src/analyzers/deluge_analyzer.py:24-29 | a `getRecordById` or `searchRecords` match has a `"` right after its module name (`(\w+)"`), as in `RE_GET_RECORD` and `RE_SEARCH_RECORDS` |
| Patterns.FindAll | src/analyzers/deluge_analyzer.py:135 | `finditer`: every match lies inside the text after the search start and is non-empty |
| Patterns.Find | src/analyzers/deluge_analyzer.py:230 | every match starts inside the text |
| Patterns.FindAllShape | src/analyzers/deluge_analyzer.py:135-137 | every match is a match of the pattern carrying its groups, and matches do not overlap and are in text order |
| Patterns.FindAllComplete | src/analyzers/deluge_analyzer.py:135 | every position where the pattern matches lies inside a found match |
| Deluge.LoweredNoiseVarNamesCorrect | src/analyzers/deluge_analyzer.py:180 | the lower-cased noise set is `{v.lower() for v in NOISE_VAR_NAMES}` |
| Deluge.NormalizeModule | src/analyzers/deluge_analyzer.py:298-306 | `Potentials` → `Deals`, `Salesorders` → `Sales_Orders`, everything else unchanged; no result is renamed again, so it is idempotent |
| Deluge.ExtractFunctionName | src/analyzers/deluge_analyzer.py:109-114 | with no header among the first five lines, the name is the file stem |
| Deluge.AfterTag | src/analyzers/deluge_analyzer.py:113 | `split(':', 1)[1]` of a header is the text after the tag |
| Deluge.ExtractFromHeader | src/analyzers/deluge_analyzer.py:109-114 | a first-line header names the function by its stripped rest |
| Deluge.BindLastWins | src/analyzers/deluge_analyzer.py:229-240 | bound variables are the old ones plus those assigned; each takes its last assignment; others keep theirs |
| Deluge.BindValues | src/analyzers/deluge_analyzer.py:229-240 | every bound module is an old one or an assigned one |
| Deluge.PropagateInventsNothing | src/analyzers/deluge_analyzer.py:250-255 | the `for each` pass loses no variable, binds only loop variables, and only to modules already bound |
| Deluge.RecordVariableModules | src/analyzers/deluge_analyzer.py:221-257 | every record variable holds the normalized module of some `getRecordById` or `searchRecords` call |
| Deluge.UpdateMapsFrom | src/analyzers/deluge_analyzer.py:259-296 | update maps are exactly the 3rd `updateRecord` and 2nd `createRecord` arguments; the last `createRecord` binding wins over any `updateRecord` |
| Deluge.Truncate | src/analyzers/deluge_analyzer.py:201 | `s[:n]`: a prefix of at most n characters, all of `s` when it is short enough |
| Deluge.FlaggedCounted | src/analyzers/deluge_analyzer.py:147-171 | one usage, counted as resolved or unresolved by its flag |
| Deluge.FlaggedFromScan | src/analyzers/deluge_analyzer.py:147-171 | the usage is flagged `unresolved` iff `resolve` fails |
| Deluge.ReadStepCounted | src/analyzers/deluge_analyzer.py:135-171 | one `.get` yields one READ iff the field is not noise and the variable is a record variable |
| Deluge.ReadStepFromScan | src/analyzers/deluge_analyzer.py:135-171 | that READ is this function's, in its variable's module, flagged iff unresolved |
| Deluge.ReadsCounted | src/analyzers/deluge_analyzer.py:135-171 | `field_reads` + `unresolved_reads` = READs, and `unresolved_reads` = flagged READs |
| Deluge.ReadsCount | src/analyzers/deluge_analyzer.py:135-171 | one READ per qualifying `.get`; noise variable names are not consulted |
| Deluge.ReadsFromScan | src/analyzers/deluge_analyzer.py:135-171 | every READ is this function's, of a non-noise field, in a record variable's module, flagged iff unresolved |
| Deluge.WriteStepCounted | src/analyzers/deluge_analyzer.py:174-219 | one `.put` yields one WRITE iff field and variable are not noise and the variable is an update map |
| Deluge.WriteStepFromScan | src/analyzers/deluge_analyzer.py:174-219 | that WRITE is this function's, in its map's module, flagged iff unresolved |
| Deluge.WritesCounted | src/analyzers/deluge_analyzer.py:174-219 | `field_writes` + `unresolved_writes` = WRITEs, and `unresolved_writes` = flagged WRITEs |
| Deluge.WritesCount | src/analyzers/deluge_analyzer.py:174-219 | one WRITE per qualifying `.put` |
| Deluge.WritesFromScan | src/analyzers/deluge_analyzer.py:174-219 | every WRITE is this function's, of a non-noise field, in an update map's module, flagged iff unresolved |
| Deluge.WriteContext | src/analyzers/deluge_analyzer.py:185-201 | a WRITE's line is 1 + the newlines before the match; its context is that line, stripped and cut to 200 characters |
| Deluge.AllStatsCounted | src/analyzers/deluge_analyzer.py:90-107 | the four usage counters add up to the usages recorded, and one function is counted per file |
| Deluge.DelugeAnalyzer.constructor | src/analyzers/deluge_analyzer.py:79-88 | all counters zero, the stone's view and the tracker kept |
| Deluge.DelugeAnalyzer.BindMatches | src/analyzers/deluge_analyzer.py:230-233 | the loop assigns each match's variable its normalized module, in order |
| Deluge.DelugeAnalyzer.PropagateMatches | src/analyzers/deluge_analyzer.py:250-255 | the `for each` loop, in text order |
| Deluge.DelugeAnalyzer.FindRecordVariables | src/analyzers/deluge_analyzer.py:221-257 | computes `RecordVariables` |
| Deluge.DelugeAnalyzer.FindUpdateMaps | src/analyzers/deluge_analyzer.py:259-296 | computes `UpdateMaps`; the `Map()` fallback adds nothing |
| Deluge.DelugeAnalyzer.ScanRead | src/analyzers/deluge_analyzer.py:135-171 | one `.get`: tracker and read counters move by `ReadStep` |
| Deluge.DelugeAnalyzer.ScanWrite | src/analyzers/deluge_analyzer.py:174-219 | one `.put`: tracker and write counters move by `WriteStep` |
| Deluge.DelugeAnalyzer.ScanReads | src/analyzers/deluge_analyzer.py:135-171 | all `.get` matches in order |
| Deluge.DelugeAnalyzer.ScanWrites | src/analyzers/deluge_analyzer.py:174-219 | all `.put` matches in order |
| Deluge.DelugeAnalyzer.AnalyzeFunction | src/analyzers/deluge_analyzer.py:116-219 | READs of the script, then its WRITEs, with the four counters |
| Deluge.DelugeAnalyzer.AnalyzeFile | src/analyzers/deluge_analyzer.py:97-99 | one script under its extracted name, plus one processed function |
| Deluge.DelugeAnalyzer.AnalyzeAll | src/analyzers/deluge_analyzer.py:90-107 | every script in order; tracker and counters move by `AllStats` |
| Text.Strip | src/analyzers/deluge_analyzer.py:113 | `strip()`: empty iff all whitespace (every character `str.isspace` accepts), otherwise no whitespace at either end |
| Text.StripIsSlice | src/analyzers/deluge_analyzer.py:201 | what `strip` keeps is a contiguous stretch of the text |
| Text.Split | src/analyzers/deluge_analyzer.py:111 | `split` gives at least one piece |
| Text.SplitLength | src/analyzers/deluge_analyzer.py:126 | one more piece than separators |
| Text.JoinSplit | src/analyzers/deluge_analyzer.py:126 | joining the pieces again gives the text back |
| Text.LineNumber | src/analyzers/deluge_analyzer.py:144 | `content[:p].count('\n') + 1` names one of the lines of `split('\n')` |
| Text.LineAt | src/analyzers/deluge_analyzer.py:185-188 | the numbered line is the one from the newline before `p` to the newline after it |
| Text.AfterFirst | src/analyzers/deluge_analyzer.py:113 | `split(sep, 1)[1]`: the text after the first separator |
| Text.LastIndexOf | src/analyzers/blueprint_analyzer.py:86 | where `rsplit('_', 1)` cuts: the last `_`, or none |

## Left out

- File I/O and JSON decoding are left out: directory globbing, opening files, `json.load`, the per-file `try/except` that skips a failing file, and `from_raw_modules`. Each analyzer's `analyze_all` takes the decoded documents as a list, in the order the source sorts them (the blueprint index files in directory order).
- Logging calls are left out.
- `RosettaStone.to_dict` and `FieldEntry.__repr__` are left out. They are rendering, not resolution.
- The state of `RosettaStone` is stored transposed. The four `_by_*` dictionaries are one dictionary from module to a record of four tables. `_register_module` always writes all four together, so this changes no lookup.
- The analyzers hold the stone's contents as a value (`View()`), taken when they are built. The source holds the object itself. The analyzers never modify the stone, so every lookup sees the same tables.
- Usage.AddToProfile: a profile is a value stored in the tracker's dictionary, not a shared object. Aliasing of a `FieldProfile` returned by `get_profile` and mutated afterwards is not modelled.
- Usage.SortProfiles: the contract states sortedness and permutation but not stability. The body is a stable insertion sort, like Python's `sorted`, so profiles with equal keys keep insertion order, but no lemma states it.
- Text.Lower: only ASCII letters are lower-cased. Unicode case mapping is not modelled.
- Patterns.GreedyComplete: `\w` is ASCII letters, digits and `_`, and `re.IGNORECASE` folds ASCII letters only. Unicode letters and digits in `\w` and Unicode case folding are not modelled. `\s` is the full `str.isspace` set.
- Text.IsDigits: only ASCII `0`-`9` are digits, so a file stem ending in Unicode digits (`Name_²`) is not read as naming a blueprint, although `str.isdigit()` accepts it. Unicode digit properties are not modelled.
- `RE_GET_RELATED`, `RE_MAP_INIT`, `RE_FUNCTION_HEADER` and `UPDATE_MAP_PATTERNS` are never used to produce a result. The first and the third are never searched. The `Map()` fallback of `_find_update_maps` matches but adds nothing, so its scan is left out and the function returns the same map.
- The `else ''` branch of `line_text` cannot be taken: a line number is never larger than the number of lines. The model always takes the line.
- The `details` dictionaries are maps, so the key order of the Python dicts is not modelled.
- Numbers in decoded JSON are integers. Floating point is not modelled.
- `str(...)` of a non-string id is modelled by decoding ids as strings. The blueprint `Id` values are given already converted.
- Decoded documents are assumed well typed wherever the source does not test the type: a list where it iterates, a dict where it calls `.get`. The tested cases are modelled: `FieldsMeta` groups that are not lists, a single `Processes` object, a `module` or `related_details` that is not a dict, and `scheduled_actions` that is not a dict.
- A truthy `instant_actions` value that is not a dict makes the source raise and abandon the rest of that workflow file. The model treats it as a group without actions.
- The blueprint analyzer's `criteria_fields_found` counter is never incremented by the source; the model keeps it at zero.
- The workflow analyzer keeps the stone but never queries it, so the model leaves it out.
- Several loops are written as a loop method plus a helper method for the body. This keeps each proof small and changes no order of effects:
  - blueprint: `ProcessDuringField`, `ProcessFieldUpdate`, `ProcessFieldPasses`, `AnalyzeWith`, `AnalyzeTransitionFile`
  - workflow: `ExtractGroupReads`, `AnalyzeConditionAt`, `AppendActionRefs`, `AppendWorkflowRefs`
  - deluge: `BindMatches`, `PropagateMatches`, `ScanRead`, `ScanWrite`, `ScanReads`, `ScanWrites`, `AnalyzeFile`
- Three behaviours of the code worth knowing, which the model keeps:
  - The tracker does not normalize module names: it keys profiles by the module name it is given.
  - `.get` reads ignore `NOISE_VAR_NAMES`; only `.put` writes are filtered by it.
  - A WRITE's context is the stripped line cut to 200 characters.
