/**
 * The workflow-rule analyzer: a workflow's conditions are walked in order;
 * every criteria leaf that names a field is a READ, every field-update action
 * that names a field is a WRITE, and function actions are only counted.
 */
module Workflow {
  import opened Wrappers
  import Json
  import Text
  import Usage

  // ---------------------------------------------------------------------
  // A decoded workflow
  // ---------------------------------------------------------------------

  /**
   * `related_details` of a field update: `NoRelated` when it is absent, empty
   * or not a dict; otherwise `module.api_name` inside it, if present.
   */
  datatype Related = NoRelated | RelatedDetails(moduleApiName: Option<string>)

  /**
   * One action: `type`, `field_api_name`, `field_value`, `update_type`,
   * `name`, `id` (through `str`) and `module` (absent is `None`); absent
   * strings are empty and absent values are the empty string.
   */
  datatype Action = Action(
    actionType: string,
    fieldApiName: string,
    fieldValue: Json.Value,
    updateType: Json.Value,
    name: string,
    id: string,
    moduleName: Option<string>,
    related: Related)

  /** `instant_actions` / `scheduled_actions`: a dict (its `actions`, empty when absent) or some other value. */
  datatype ActionGroup = ActionDict(actions: seq<Action>) | NotADict

  /** One condition: `sequence_number` (0 when absent), `criteria_details.criteria` (`Null` when absent) and its two action groups. */
  datatype Condition = Condition(sequenceNumber: int, criteria: Json.Value, instant: ActionGroup, scheduled: ActionGroup)

  /** `module`: a dict (its `api_name`, empty when absent) or some other value. */
  datatype ModuleInfo = ModuleDict(apiName: string) | ModuleNotDict

  /** A workflow file: `name`, `id` (through `str`), `module` and `conditions`. */
  datatype WorkflowDoc = WorkflowDoc(name: Option<string>, id: string, moduleInfo: ModuleInfo, conditions: seq<Condition>)

  /** The module, source label and source id every usage of one condition carries. */
  datatype Context = Context(moduleName: string, sourceLabel: string, sourceId: string)

  predicate FromContext(u: Usage.FieldUsage, c: Context) {
    u.sourceType == Usage.Workflow && u.sourceName == c.sourceLabel && u.sourceId == c.sourceId
  }

  /** `d.get(key, default)` on a decoded dict. */
  function Lookup(fields: map<string, Json.Value>, key: string, default: Json.Value): Json.Value {
    if key in fields then fields[key] else default
  }

  // ---------------------------------------------------------------------
  // `_extract_criteria_reads`
  // ---------------------------------------------------------------------

  /**
   * The field a criteria leaf names: its `field` must be a non-empty dict
   * whose `api_name` is a non-empty string.
   */
  function LeafField(fields: map<string, Json.Value>): (r: Option<string>)
    ensures r.Some? ==> r.value != ""
  {
    var info := Lookup(fields, "field", Json.Obj(map[]));
    if info.Obj? && info.fields != map[] then
      var api := Lookup(info.fields, "api_name", Json.Str(""));
      if api.Str? && api.s != "" then Some(api.s) else None
    else None
  }

  function LeafRead(c: Context, apiName: string, fields: map<string, Json.Value>): Usage.FieldUsage {
    Usage.FieldUsage(Usage.Read, Usage.Workflow, c.sourceLabel, c.sourceId, c.moduleName, apiName,
      map["comparator" := Lookup(fields, "comparator", Json.Str("")), "value" := Lookup(fields, "value", Json.Str(""))])
  }

  /**
   * The READs of a criteria tree, leaves in order. Anything but a non-empty
   * dict reports nothing; a dict with a `group` key is a group, whatever
   * else it holds, and only a list of sub-criteria under it is walked.
   */
  function CriteriaReads(v: Json.Value, c: Context): (us: seq<Usage.FieldUsage>)
    ensures !v.Obj? || v.fields == map[] ==> us == []
    decreases v
  {
    match v
    case Obj(fields) =>
      if fields == map[] then []
      else if "group" in fields then
        (match fields["group"]
         case Arr(items) => GroupReads(items, c)
         case _ => [])
      else
        (match LeafField(fields)
         case Some(api) => [LeafRead(c, api, fields)]
         case None => [])
    case _ => []
  }

  function GroupReads(items: seq<Json.Value>, c: Context): seq<Usage.FieldUsage>
    decreases items
  {
    if items == [] then [] else GroupReads(items[..|items| - 1], c) + CriteriaReads(items[|items| - 1], c)
  }

  /** The leaves of a criteria tree that name a field, counted node by node. */
  function FieldLeaves(v: Json.Value): nat
    decreases v
  {
    match v
    case Obj(fields) =>
      if fields == map[] then 0
      else if "group" in fields then
        (match fields["group"]
         case Arr(items) => GroupFieldLeaves(items)
         case _ => 0)
      else if LeafField(fields).Some? then 1 else 0
    case _ => 0
  }

  function GroupFieldLeaves(items: seq<Json.Value>): nat
    decreases items
  {
    if items == [] then 0 else GroupFieldLeaves(items[..|items| - 1]) + FieldLeaves(items[|items| - 1])
  }

  /**
   * One READ per leaf that names a field, each of that field, in the
   * condition's context and module.
   */
  lemma {:induction false} CriteriaReadsShape(v: Json.Value, c: Context)
    ensures |CriteriaReads(v, c)| == FieldLeaves(v)
    ensures forall u :: u in CriteriaReads(v, c) ==>
              u.usageType == Usage.Read && FromContext(u, c) && u.moduleName == c.moduleName && u.fieldApiName != ""
    decreases v
  {
    match v
    case Obj(fields) =>
      if fields != map[] && "group" in fields {
        match fields["group"]
        case Arr(items) => GroupReadsShape(items, c);
        case _ =>
      }
    case _ =>
  }

  lemma {:induction false} GroupReadsShape(items: seq<Json.Value>, c: Context)
    ensures |GroupReads(items, c)| == GroupFieldLeaves(items)
    ensures forall u :: u in GroupReads(items, c) ==>
              u.usageType == Usage.Read && FromContext(u, c) && u.moduleName == c.moduleName && u.fieldApiName != ""
    decreases items
  {
    if items != [] {
      GroupReadsShape(items[..|items| - 1], c);
      CriteriaReadsShape(items[|items| - 1], c);
    }
  }

  /** A node with a `group` key is a group: its `field`, whatever it is, reports nothing. */
  lemma GroupWinsOverField(fields: map<string, Json.Value>, field: Json.Value, c: Context)
    requires "group" in fields
    ensures CriteriaReads(Json.Obj(fields["field" := field]), c) == CriteriaReads(Json.Obj(fields), c)
  {
    assert fields["field" := field]["group"] == fields["group"];
  }

  // ---------------------------------------------------------------------
  // `_process_action` and `_process_field_update_action`
  // ---------------------------------------------------------------------

  /**
   * The module a field update writes to: the related module when there are
   * related details (the action's module when they name none), else the
   * action's module when it is non-empty, else the workflow's.
   */
  function TargetModule(a: Action, workflowModule: string): (m: string)
    ensures a.related.RelatedDetails? && a.related.moduleApiName.Some? ==> m == a.related.moduleApiName.value
    ensures a.related.RelatedDetails? && a.related.moduleApiName.None? ==> m == a.moduleName.GetOr(workflowModule)
    ensures a.related.NoRelated? ==> m == (if a.moduleName.GetOr("") != "" then a.moduleName.value else workflowModule)
    ensures a.related.NoRelated? && workflowModule != "" ==> m != ""
  {
    var actionModule := a.moduleName.GetOr(workflowModule);
    match a.related
    case RelatedDetails(r) => r.GetOr(actionModule)
    case NoRelated => if actionModule != "" then actionModule else workflowModule
  }

  /** The WRITE of a field-update action; none when it names no field. */
  function FieldUpdateWrites(a: Action, c: Context): (us: seq<Usage.FieldUsage>)
    ensures |us| == (if a.fieldApiName != "" then 1 else 0)
    ensures forall u :: u in us ==>
              u.usageType == Usage.Write && FromContext(u, c) && u.fieldApiName == a.fieldApiName &&
              u.moduleName == TargetModule(a, c.moduleName) &&
              u.details.Keys == {"value", "update_type", "action_name"} && u.details["value"] == a.fieldValue
  {
    if a.fieldApiName == "" then []
    else
      [Usage.FieldUsage(Usage.Write, Usage.Workflow, c.sourceLabel, c.sourceId, TargetModule(a, c.moduleName), a.fieldApiName,
         map["value" := a.fieldValue, "update_type" := a.updateType, "action_name" := Json.Str(a.name)])]
  }

  /** What the analysis of part of a workflow adds: its usages and its three counters. */
  datatype Tally = Tally(events: seq<Usage.FieldUsage>, readCount: nat, writeCount: nat, functionCount: nat)

  function Plus(a: Tally, b: Tally): Tally {
    Tally(a.events + b.events, a.readCount + b.readCount, a.writeCount + b.writeCount, a.functionCount + b.functionCount)
  }

  const Zero := Tally([], 0, 0, 0)

  /** A field update writes, a function call is counted, every other action type is ignored. */
  function ActionTally(a: Action, c: Context): Tally {
    if a.actionType == "field_updates" then
      var us := FieldUpdateWrites(a, c);
      Tally(us, 0, |us|, 0)
    else if a.actionType == "functions" then Tally([], 0, 0, 1)
    else Zero
  }

  /** Actions never count as criteria reads. */
  function ActionsTally(actions: seq<Action>, c: Context): (t: Tally)
    ensures t.readCount == 0
  {
    if actions == [] then Zero else Plus(ActionsTally(actions[..|actions| - 1], c), ActionTally(actions[|actions| - 1], c))
  }

  lemma ActionsTallySnoc(actions: seq<Action>, c: Context, i: nat)
    requires i < |actions|
    ensures ActionsTally(actions[..i + 1], c) == Plus(ActionsTally(actions[..i], c), ActionTally(actions[i], c))
  {
    assert actions[..i + 1][..i] == actions[..i];
  }

  // ---------------------------------------------------------------------
  // `_analyze_workflow`
  // ---------------------------------------------------------------------

  /** The actions of a group; a group that is not a dict is skipped. */
  function GroupActions(g: ActionGroup): seq<Action> {
    match g
    case ActionDict(actions) => actions
    case NotADict => []
  }

  function ConditionLabel(sourceLabel: string, sequenceNumber: int): string {
    sourceLabel + " (cond " + Text.IntToString(sequenceNumber) + ")"
  }

  /** One condition: its criteria, then its instant actions, then its scheduled ones. */
  function ConditionTally(cond: Condition, moduleName: string, sourceLabel: string, sourceId: string): Tally {
    var c := Context(moduleName, ConditionLabel(sourceLabel, cond.sequenceNumber), sourceId);
    var leafReads := CriteriaReads(cond.criteria, c);
    Plus(Plus(Tally(leafReads, |leafReads|, 0, 0), ActionsTally(GroupActions(cond.instant), c)),
         ActionsTally(GroupActions(cond.scheduled), c))
  }

  function ConditionsTally(conds: seq<Condition>, moduleName: string, sourceLabel: string, sourceId: string): Tally {
    if conds == [] then Zero
    else Plus(ConditionsTally(conds[..|conds| - 1], moduleName, sourceLabel, sourceId),
              ConditionTally(conds[|conds| - 1], moduleName, sourceLabel, sourceId))
  }

  lemma ConditionsTallySnoc(conds: seq<Condition>, moduleName: string, sourceLabel: string, sourceId: string, i: nat)
    requires i < |conds|
    ensures ConditionsTally(conds[..i + 1], moduleName, sourceLabel, sourceId) ==
            Plus(ConditionsTally(conds[..i], moduleName, sourceLabel, sourceId), ConditionTally(conds[i], moduleName, sourceLabel, sourceId))
  {
    assert conds[..i + 1][..i] == conds[..i];
  }

  /** The module of a workflow; one whose `module` is not a dict has none. */
  function WorkflowModule(wf: WorkflowDoc): string {
    match wf.moduleInfo
    case ModuleDict(apiName) => apiName
    case ModuleNotDict => ""
  }

  /** A workflow without a module reports nothing; otherwise its conditions in order. */
  function WorkflowTally(wf: WorkflowDoc, stem: string): (t: Tally)
    ensures WorkflowModule(wf) == "" ==> t == Zero
  {
    var moduleName := WorkflowModule(wf);
    if moduleName == "" then Zero
    else ConditionsTally(wf.conditions, moduleName, "Workflow: " + wf.name.GetOr(stem), wf.id)
  }

  // ---------------------------------------------------------------------
  // The counters agree with the usages
  // ---------------------------------------------------------------------

  function CountKind(us: seq<Usage.FieldUsage>, k: Usage.UsageType): nat {
    if us == [] then 0 else CountKind(us[..|us| - 1], k) + (if us[|us| - 1].usageType == k then 1 else 0)
  }

  lemma {:induction false} CountKindAppend(a: seq<Usage.FieldUsage>, b: seq<Usage.FieldUsage>, k: Usage.UsageType)
    ensures CountKind(a + b, k) == CountKind(a, k) + CountKind(b, k)
    decreases |b|
  {
    if b != [] {
      var init := b[..|b| - 1];
      assert (a + b)[..|a + b| - 1] == a + init;
      CountKindAppend(a, init, k);
    } else {
      assert a + b == a;
    }
  }

  lemma {:induction false} CountKindAll(us: seq<Usage.FieldUsage>, k: Usage.UsageType)
    requires forall u :: u in us ==> u.usageType == k
    ensures CountKind(us, k) == |us|
  {
    if us != [] {
      assert forall u :: u in us[..|us| - 1] ==> u in us;
      CountKindAll(us[..|us| - 1], k);
    }
  }

  lemma {:induction false} CountKindNone(us: seq<Usage.FieldUsage>, k: Usage.UsageType)
    requires forall u :: u in us ==> u.usageType != k
    ensures CountKind(us, k) == 0
  {
    if us != [] {
      assert forall u :: u in us[..|us| - 1] ==> u in us;
      CountKindNone(us[..|us| - 1], k);
    }
  }

  /** A tally is honest when `criteria_reads` counts its READs, `field_writes` its WRITEs, and nothing else is reported. */
  predicate Honest(t: Tally) {
    t.readCount == CountKind(t.events, Usage.Read) && t.writeCount == CountKind(t.events, Usage.Write) &&
    |t.events| == t.readCount + t.writeCount
  }

  lemma PlusHonest(a: Tally, b: Tally)
    requires Honest(a) && Honest(b)
    ensures Honest(Plus(a, b))
  {
    CountKindAppend(a.events, b.events, Usage.Read);
    CountKindAppend(a.events, b.events, Usage.Write);
  }

  lemma ReadsHonest(us: seq<Usage.FieldUsage>)
    requires forall u :: u in us ==> u.usageType == Usage.Read
    ensures Honest(Tally(us, |us|, 0, 0))
  {
    CountKindAll(us, Usage.Read);
    CountKindNone(us, Usage.Write);
  }

  lemma {:induction false} ActionsHonest(actions: seq<Action>, c: Context)
    ensures Honest(ActionsTally(actions, c))
  {
    if actions != [] {
      ActionsHonest(actions[..|actions| - 1], c);
      var a := actions[|actions| - 1];
      var us := FieldUpdateWrites(a, c);
      CountKindAll(us, Usage.Write);
      CountKindNone(us, Usage.Read);
      PlusHonest(ActionsTally(actions[..|actions| - 1], c), ActionTally(a, c));
    }
  }

  lemma ConditionHonest(cond: Condition, moduleName: string, sourceLabel: string, sourceId: string)
    ensures Honest(ConditionTally(cond, moduleName, sourceLabel, sourceId))
  {
    var c := Context(moduleName, ConditionLabel(sourceLabel, cond.sequenceNumber), sourceId);
    var leafReads := CriteriaReads(cond.criteria, c);
    CriteriaReadsShape(cond.criteria, c);
    ReadsHonest(leafReads);
    ActionsHonest(GroupActions(cond.instant), c);
    ActionsHonest(GroupActions(cond.scheduled), c);
    PlusHonest(Tally(leafReads, |leafReads|, 0, 0), ActionsTally(GroupActions(cond.instant), c));
    PlusHonest(Plus(Tally(leafReads, |leafReads|, 0, 0), ActionsTally(GroupActions(cond.instant), c)), ActionsTally(GroupActions(cond.scheduled), c));
  }

  /**
   * `criteria_reads` and `field_writes` count exactly the READs and WRITEs a
   * workflow reports, and it reports nothing else.
   */
  lemma {:induction false} WorkflowHonest(wf: WorkflowDoc, stem: string)
    ensures Honest(WorkflowTally(wf, stem))
  {
    var moduleName := WorkflowModule(wf);
    if moduleName != "" {
      ConditionsHonest(wf.conditions, moduleName, "Workflow: " + wf.name.GetOr(stem), wf.id);
    }
  }

  lemma {:induction false} ConditionsHonest(conds: seq<Condition>, moduleName: string, sourceLabel: string, sourceId: string)
    ensures Honest(ConditionsTally(conds, moduleName, sourceLabel, sourceId))
  {
    if conds != [] {
      ConditionsHonest(conds[..|conds| - 1], moduleName, sourceLabel, sourceId);
      ConditionHonest(conds[|conds| - 1], moduleName, sourceLabel, sourceId);
      PlusHonest(ConditionsTally(conds[..|conds| - 1], moduleName, sourceLabel, sourceId),
                 ConditionTally(conds[|conds| - 1], moduleName, sourceLabel, sourceId));
    }
  }

  // ---------------------------------------------------------------------
  // `analyze_all`
  // ---------------------------------------------------------------------

  const IndexStem := "workflows_index"

  /** What the workflow files report, in file-name order, the index file skipped. */
  function AllTally(files: seq<(string, WorkflowDoc)>): Tally {
    if files == [] then Zero
    else
      var f := files[|files| - 1];
      Plus(AllTally(files[..|files| - 1]), if f.0 == IndexStem then Zero else WorkflowTally(f.1, f.0))
  }

  /** How many files `analyze_all` counts as processed: all but the index file. */
  function CountWorkflowFiles(files: seq<(string, WorkflowDoc)>): nat {
    if files == [] then 0
    else CountWorkflowFiles(files[..|files| - 1]) + (if files[|files| - 1].0 == IndexStem then 0 else 1)
  }

  // ---------------------------------------------------------------------
  // `get_function_references`
  // ---------------------------------------------------------------------

  datatype WorkflowRef = WorkflowRef(functionName: string, functionId: string, workflow: string, moduleName: string)

  function ActionRefs(actions: seq<Action>, workflowName: string, moduleName: string): seq<WorkflowRef> {
    if actions == [] then []
    else
      var a := actions[|actions| - 1];
      ActionRefs(actions[..|actions| - 1], workflowName, moduleName) +
      (if a.actionType == "functions" then [WorkflowRef(a.name, a.id, workflowName, moduleName)] else [])
  }

  function ConditionRefs(cond: Condition, workflowName: string, moduleName: string): seq<WorkflowRef> {
    ActionRefs(GroupActions(cond.instant), workflowName, moduleName) + ActionRefs(GroupActions(cond.scheduled), workflowName, moduleName)
  }

  function ConditionsRefs(conds: seq<Condition>, workflowName: string, moduleName: string): seq<WorkflowRef> {
    if conds == [] then []
    else ConditionsRefs(conds[..|conds| - 1], workflowName, moduleName) + ConditionRefs(conds[|conds| - 1], workflowName, moduleName)
  }

  /**
   * The references of one workflow file, named after `name` (empty when
   * absent). A `module` that is not a dict makes the file fail as a whole.
   */
  function WorkflowRefs(wf: WorkflowDoc): seq<WorkflowRef> {
    match wf.moduleInfo
    case ModuleNotDict => []
    case ModuleDict(apiName) => ConditionsRefs(wf.conditions, wf.name.GetOr(""), apiName)
  }

  function AllWorkflowRefs(files: seq<(string, WorkflowDoc)>): seq<WorkflowRef> {
    if files == [] then []
    else
      var f := files[|files| - 1];
      AllWorkflowRefs(files[..|files| - 1]) + (if f.0 == IndexStem then [] else WorkflowRefs(f.1))
  }

  lemma {:induction false} ActionRefsCount(actions: seq<Action>, workflowName: string, moduleName: string, c: Context)
    ensures |ActionRefs(actions, workflowName, moduleName)| == ActionsTally(actions, c).functionCount
  {
    if actions != [] {
      ActionRefsCount(actions[..|actions| - 1], workflowName, moduleName, c);
    }
  }

  lemma {:induction false} ConditionsRefsCount(conds: seq<Condition>, workflowName: string, moduleName: string, sourceLabel: string, sourceId: string)
    ensures |ConditionsRefs(conds, workflowName, moduleName)| == ConditionsTally(conds, moduleName, sourceLabel, sourceId).functionCount
  {
    if conds != [] {
      var cond := conds[|conds| - 1];
      var c := Context(moduleName, ConditionLabel(sourceLabel, cond.sequenceNumber), sourceId);
      ConditionsRefsCount(conds[..|conds| - 1], workflowName, moduleName, sourceLabel, sourceId);
      ActionRefsCount(GroupActions(cond.instant), workflowName, moduleName, c);
      ActionRefsCount(GroupActions(cond.scheduled), workflowName, moduleName, c);
    }
  }

  /**
   * For a workflow with a module, `get_function_references` lists exactly as
   * many references as `analyze_all` counts in `function_refs`.
   */
  lemma WorkflowRefsAgree(wf: WorkflowDoc, stem: string)
    requires WorkflowModule(wf) != ""
    ensures |WorkflowRefs(wf)| == WorkflowTally(wf, stem).functionCount
  {
    ConditionsRefsCount(wf.conditions, wf.name.GetOr(""), WorkflowModule(wf), "Workflow: " + wf.name.GetOr(stem), wf.id);
  }

  // ---------------------------------------------------------------------
  // The analyzer object
  // ---------------------------------------------------------------------

  /**
   * `WorkflowAnalyzer`: the shared tracker and the counters of `stats`. The
   * source also keeps the Rosetta stone, which it never queries.
   */
  class WorkflowAnalyzer {
    const tracker: Usage.UsageTracker
    var workflowsProcessed: nat
    var criteriaReads: nat
    var fieldWrites: nat
    var functionRefs: nat

    constructor(tracker: Usage.UsageTracker)
      ensures this.tracker == tracker
      ensures workflowsProcessed == criteriaReads == fieldWrites == functionRefs == 0
    {
      this.tracker := tracker;
      workflowsProcessed, criteriaReads, fieldWrites, functionRefs := 0, 0, 0, 0;
    }

    /** `_extract_criteria_reads` */
    method ExtractCriteriaReads(criteria: Json.Value, c: Context)
      modifies this`criteriaReads, tracker
      ensures tracker.profiles == Usage.RecordAll(old(tracker.profiles), CriteriaReads(criteria, c))
      ensures criteriaReads == old(criteriaReads) + |CriteriaReads(criteria, c)|
      decreases criteria
    {
      if !criteria.Obj? || criteria.fields == map[] {
        return;
      }
      var fields := criteria.fields;
      if "group" in fields {
        if !fields["group"].Arr? {
          assert CriteriaReads(criteria, c) == [];
          return;
        }
        var items := fields["group"].items;
        assert CriteriaReads(criteria, c) == GroupReads(items, c);
        ExtractGroupReads(items, c);
        return;
      }
      var api := LeafField(fields);
      if api.None? {
        assert CriteriaReads(criteria, c) == [];
        return;
      }
      var u := LeafRead(c, api.value, fields);
      assert CriteriaReads(criteria, c) == [u];
      tracker.AddUsage(u);
      Usage.RecordAllOne(old(tracker.profiles), u);
      criteriaReads := criteriaReads + 1;
    }

    /** The loop over the sub-criteria of a group in `_extract_criteria_reads`. */
    method ExtractGroupReads(items: seq<Json.Value>, c: Context)
      modifies this`criteriaReads, tracker
      ensures tracker.profiles == Usage.RecordAll(old(tracker.profiles), GroupReads(items, c))
      ensures criteriaReads == old(criteriaReads) + |GroupReads(items, c)|
      decreases items
    {
      for i := 0 to |items|
        invariant tracker.profiles == Usage.RecordAll(old(tracker.profiles), GroupReads(items[..i], c))
        invariant criteriaReads == old(criteriaReads) + |GroupReads(items[..i], c)|
      {
        assert items[..i + 1][..i] == items[..i];
        ghost var before := GroupReads(items[..i], c);
        ghost var step := CriteriaReads(items[i], c);
        assert GroupReads(items[..i + 1], c) == before + step;
        ExtractCriteriaReads(items[i], c);
        Usage.RecordAllAppend(old(tracker.profiles), before, step);
      }
      assert items[..|items|] == items;
    }

    /** `_process_field_update_action` */
    method ProcessFieldUpdateAction(a: Action, c: Context)
      modifies this`fieldWrites, tracker
      ensures tracker.profiles == Usage.RecordAll(old(tracker.profiles), FieldUpdateWrites(a, c))
      ensures fieldWrites == old(fieldWrites) + |FieldUpdateWrites(a, c)|
    {
      var actionModule := a.moduleName.GetOr(c.moduleName);
      var targetModule;
      if a.related.RelatedDetails? {
        targetModule := a.related.moduleApiName.GetOr(actionModule);
      } else {
        targetModule := if actionModule != "" then actionModule else c.moduleName;
      }
      if a.fieldApiName == "" {
        return;
      }
      var u := Usage.FieldUsage(Usage.Write, Usage.Workflow, c.sourceLabel, c.sourceId, targetModule, a.fieldApiName,
         map["value" := a.fieldValue, "update_type" := a.updateType, "action_name" := Json.Str(a.name)]);
      tracker.AddUsage(u);
      Usage.RecordAllOne(old(tracker.profiles), u);
      fieldWrites := fieldWrites + 1;
    }

    /** `_process_action` */
    method ProcessAction(a: Action, c: Context)
      modifies this`fieldWrites, this`functionRefs, tracker
      ensures tracker.profiles == Usage.RecordAll(old(tracker.profiles), ActionTally(a, c).events)
      ensures fieldWrites == old(fieldWrites) + ActionTally(a, c).writeCount
      ensures functionRefs == old(functionRefs) + ActionTally(a, c).functionCount
    {
      if a.actionType == "field_updates" {
        ProcessFieldUpdateAction(a, c);
      } else if a.actionType == "functions" {
        functionRefs := functionRefs + 1;
      }
    }

    /** The loops of `_analyze_workflow` over one group of actions. */
    method ProcessActions(actions: seq<Action>, c: Context)
      modifies this`fieldWrites, this`functionRefs, tracker
      ensures tracker.profiles == Usage.RecordAll(old(tracker.profiles), ActionsTally(actions, c).events)
      ensures fieldWrites == old(fieldWrites) + ActionsTally(actions, c).writeCount
      ensures functionRefs == old(functionRefs) + ActionsTally(actions, c).functionCount
    {
      for i := 0 to |actions|
        invariant tracker.profiles == Usage.RecordAll(old(tracker.profiles), ActionsTally(actions[..i], c).events)
        invariant fieldWrites == old(fieldWrites) + ActionsTally(actions[..i], c).writeCount
        invariant functionRefs == old(functionRefs) + ActionsTally(actions[..i], c).functionCount
      {
        ActionsTallySnoc(actions, c, i);
        ghost var before := ActionsTally(actions[..i], c);
        ProcessAction(actions[i], c);
        Usage.RecordAllAppend(old(tracker.profiles), before.events, ActionTally(actions[i], c).events);
      }
      assert actions[..|actions|] == actions;
    }

    /** The body of `_analyze_workflow`'s loop: one condition. */
    method AnalyzeCondition(cond: Condition, moduleName: string, sourceLabel: string, sourceId: string)
      modifies this`criteriaReads, this`fieldWrites, this`functionRefs, tracker
      ensures tracker.profiles == Usage.RecordAll(old(tracker.profiles), ConditionTally(cond, moduleName, sourceLabel, sourceId).events)
      ensures criteriaReads == old(criteriaReads) + ConditionTally(cond, moduleName, sourceLabel, sourceId).readCount
      ensures fieldWrites == old(fieldWrites) + ConditionTally(cond, moduleName, sourceLabel, sourceId).writeCount
      ensures functionRefs == old(functionRefs) + ConditionTally(cond, moduleName, sourceLabel, sourceId).functionCount
    {
      var c := Context(moduleName, ConditionLabel(sourceLabel, cond.sequenceNumber), sourceId);
      ghost var s0 := tracker.profiles;
      ghost var leafReads := CriteriaReads(cond.criteria, c);
      ghost var instant := ActionsTally(GroupActions(cond.instant), c);
      ghost var scheduled := ActionsTally(GroupActions(cond.scheduled), c);
      // The source's `if criteria:` guard repeats the first test of
      // `_extract_criteria_reads`, and a group that is skipped has no actions.
      ExtractCriteriaReads(cond.criteria, c);
      ghost var cr1 := criteriaReads;
      ProcessActions(GroupActions(cond.instant), c);
      ProcessActions(GroupActions(cond.scheduled), c);
      assert criteriaReads == cr1;
      Usage.RecordAllAppend(s0, leafReads, instant.events);
      Usage.RecordAllAppend(s0, leafReads + instant.events, scheduled.events);
    }

    /** One turn of `_analyze_workflow`'s loop, stated over the conditions so far. */
    method AnalyzeConditionAt(conds: seq<Condition>, i: nat, moduleName: string, sourceLabel: string, sourceId: string,
                              ghost s0: Usage.Profiles, ghost r0: nat, ghost w0: nat, ghost f0: nat)
      requires i < |conds|
      requires tracker.profiles == Usage.RecordAll(s0, ConditionsTally(conds[..i], moduleName, sourceLabel, sourceId).events)
      requires criteriaReads == r0 + ConditionsTally(conds[..i], moduleName, sourceLabel, sourceId).readCount
      requires fieldWrites == w0 + ConditionsTally(conds[..i], moduleName, sourceLabel, sourceId).writeCount
      requires functionRefs == f0 + ConditionsTally(conds[..i], moduleName, sourceLabel, sourceId).functionCount
      modifies this`criteriaReads, this`fieldWrites, this`functionRefs, tracker
      ensures tracker.profiles == Usage.RecordAll(s0, ConditionsTally(conds[..i + 1], moduleName, sourceLabel, sourceId).events)
      ensures criteriaReads == r0 + ConditionsTally(conds[..i + 1], moduleName, sourceLabel, sourceId).readCount
      ensures fieldWrites == w0 + ConditionsTally(conds[..i + 1], moduleName, sourceLabel, sourceId).writeCount
      ensures functionRefs == f0 + ConditionsTally(conds[..i + 1], moduleName, sourceLabel, sourceId).functionCount
    {
      ConditionsTallySnoc(conds, moduleName, sourceLabel, sourceId, i);
      ghost var before := ConditionsTally(conds[..i], moduleName, sourceLabel, sourceId);
      AnalyzeCondition(conds[i], moduleName, sourceLabel, sourceId);
      Usage.RecordAllAppend(s0, before.events, ConditionTally(conds[i], moduleName, sourceLabel, sourceId).events);
    }

    /** `_analyze_workflow` */
    method AnalyzeWorkflow(wf: WorkflowDoc, stem: string)
      modifies this`criteriaReads, this`fieldWrites, this`functionRefs, tracker
      ensures tracker.profiles == Usage.RecordAll(old(tracker.profiles), WorkflowTally(wf, stem).events)
      ensures criteriaReads == old(criteriaReads) + WorkflowTally(wf, stem).readCount
      ensures fieldWrites == old(fieldWrites) + WorkflowTally(wf, stem).writeCount
      ensures functionRefs == old(functionRefs) + WorkflowTally(wf, stem).functionCount
    {
      var moduleName := if wf.moduleInfo.ModuleDict? then wf.moduleInfo.apiName else "";
      if moduleName == "" {
        return;
      }
      var sourceLabel := "Workflow: " + wf.name.GetOr(stem);
      var conds := wf.conditions;
      for i := 0 to |conds|
        invariant tracker.profiles == Usage.RecordAll(old(tracker.profiles), ConditionsTally(conds[..i], moduleName, sourceLabel, wf.id).events)
        invariant criteriaReads == old(criteriaReads) + ConditionsTally(conds[..i], moduleName, sourceLabel, wf.id).readCount
        invariant fieldWrites == old(fieldWrites) + ConditionsTally(conds[..i], moduleName, sourceLabel, wf.id).writeCount
        invariant functionRefs == old(functionRefs) + ConditionsTally(conds[..i], moduleName, sourceLabel, wf.id).functionCount
      {
        AnalyzeConditionAt(conds, i, moduleName, sourceLabel, wf.id, old(tracker.profiles), old(criteriaReads), old(fieldWrites), old(functionRefs));
      }
      assert conds[..|conds|] == conds;
    }

    /** `analyze_all`, over the workflow files in file-name order. */
    method AnalyzeAll(files: seq<(string, WorkflowDoc)>)
      modifies this`workflowsProcessed, this`criteriaReads, this`fieldWrites, this`functionRefs, tracker
      ensures tracker.profiles == Usage.RecordAll(old(tracker.profiles), AllTally(files).events)
      ensures criteriaReads == old(criteriaReads) + AllTally(files).readCount
      ensures fieldWrites == old(fieldWrites) + AllTally(files).writeCount
      ensures functionRefs == old(functionRefs) + AllTally(files).functionCount
      ensures workflowsProcessed == old(workflowsProcessed) + CountWorkflowFiles(files)
    {
      for i := 0 to |files|
        invariant tracker.profiles == Usage.RecordAll(old(tracker.profiles), AllTally(files[..i]).events)
        invariant criteriaReads == old(criteriaReads) + AllTally(files[..i]).readCount
        invariant fieldWrites == old(fieldWrites) + AllTally(files[..i]).writeCount
        invariant functionRefs == old(functionRefs) + AllTally(files[..i]).functionCount
        invariant workflowsProcessed == old(workflowsProcessed) + CountWorkflowFiles(files[..i])
      {
        assert files[..i + 1][..i] == files[..i];
        var (stem, wf) := files[i];
        ghost var before := AllTally(files[..i]);
        if stem == IndexStem {
          assert AllTally(files[..i + 1]) == Plus(before, Zero);
          assert before.events + [] == before.events;
          continue;
        }
        AnalyzeWorkflow(wf, stem);
        workflowsProcessed := workflowsProcessed + 1;
        Usage.RecordAllAppend(old(tracker.profiles), before.events, WorkflowTally(wf, stem).events);
      }
      assert files[..|files|] == files;
    }

    /** The loop over one action group in `get_function_references`. */
    static method AppendActionRefs(refs: seq<WorkflowRef>, actions: seq<Action>, workflowName: string, moduleName: string)
      returns (r: seq<WorkflowRef>)
      ensures r == refs + ActionRefs(actions, workflowName, moduleName)
    {
      r := refs;
      for i := 0 to |actions|
        invariant r == refs + ActionRefs(actions[..i], workflowName, moduleName)
      {
        assert actions[..i + 1][..i] == actions[..i];
        var a := actions[i];
        if a.actionType == "functions" {
          r := r + [WorkflowRef(a.name, a.id, workflowName, moduleName)];
        }
      }
      assert actions[..|actions|] == actions;
    }

    /** The conditions of one workflow file in `get_function_references`. */
    static method AppendWorkflowRefs(refs: seq<WorkflowRef>, wf: WorkflowDoc) returns (r: seq<WorkflowRef>)
      ensures r == refs + WorkflowRefs(wf)
    {
      if wf.moduleInfo.ModuleNotDict? {
        return refs;
      }
      var workflowName := wf.name.GetOr("");
      var moduleName := wf.moduleInfo.apiName;
      var conds := wf.conditions;
      r := refs;
      for j := 0 to |conds|
        invariant r == refs + ConditionsRefs(conds[..j], workflowName, moduleName)
      {
        assert conds[..j + 1][..j] == conds[..j];
        ghost var prev := ConditionsRefs(conds[..j], workflowName, moduleName);
        ghost var instant := ActionRefs(GroupActions(conds[j].instant), workflowName, moduleName);
        ghost var scheduled := ActionRefs(GroupActions(conds[j].scheduled), workflowName, moduleName);
        r := AppendActionRefs(r, GroupActions(conds[j].instant), workflowName, moduleName);
        r := AppendActionRefs(r, GroupActions(conds[j].scheduled), workflowName, moduleName);
        Text.AppendAssoc(refs, prev, instant);
        Text.AppendAssoc(refs, prev + instant, scheduled);
        Text.AppendAssoc(prev, instant, scheduled);
      }
      assert conds[..|conds|] == conds;
    }

    /** `get_function_references`, over the workflow files in file-name order. */
    static method GetFunctionReferences(files: seq<(string, WorkflowDoc)>) returns (refs: seq<WorkflowRef>)
      ensures refs == AllWorkflowRefs(files)
    {
      refs := [];
      for i := 0 to |files|
        invariant refs == AllWorkflowRefs(files[..i])
      {
        assert files[..i + 1][..i] == files[..i];
        var (stem, wf) := files[i];
        if stem == IndexStem {
          assert refs + [] == refs;
          continue;
        }
        refs := AppendWorkflowRefs(refs, wf);
      }
      assert files[..|files|] == files;
    }
  }
}
