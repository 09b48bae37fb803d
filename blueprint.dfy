/**
 * The blueprint analyzer. A blueprint is a state machine over the records of
 * one CRM module; each of its transitions may ask the user to fill in fields
 * (an ENTRY usage), update fields automatically (a WRITE usage) and carry a
 * textual criteria (one READ usage on a placeholder field). The analyzer walks
 * the transitions, resolves each field to its API name and reports the usages
 * into the shared usage tracker; a field it cannot resolve is logged.
 *
 * A transition document arrives here already decoded: the keys the analyzer
 * reads become record fields, and an absent key becomes the default value the
 * analyzer supplies for it.
 */
module Blueprint {
  import opened Wrappers
  import Json
  import Text
  import Rosetta
  import Usage

  // ---------------------------------------------------------------------
  // Module names and file names
  // ---------------------------------------------------------------------

  /** `MODULE_MAP`: the blueprint's internal module name to the API name. */
  const ModuleMap: map<string, string> := map[
    "Potentials" := "Deals",
    "Leads" := "Leads",
    "Accounts" := "Accounts",
    "Contacts" := "Contacts",
    "Events" := "Events",
    "Tasks" := "Tasks",
    "Cases" := "Cases"]

  /** `MODULE_MAP.get(raw, raw)` */
  function MapModule(raw: string): (m: string)
    ensures m == (if raw == "Potentials" then "Deals" else raw)
  {
    Get(ModuleMap, raw).GetOr(raw)
  }

  /** The blueprint id in a transition file name: the stem up to its first `_`. */
  function BlueprintIdOf(stem: string): (id: string)
    ensures Text.StartsWith(stem, id)
    ensures '_' !in id
  {
    Text.BeforeFirst(stem, '_')
  }

  /** A file named `{blueprint_id}_{rest}` belongs to blueprint `blueprint_id`. */
  lemma BlueprintIdOfFileName(bpId: string, rest: string)
    requires '_' !in bpId
    ensures BlueprintIdOf(bpId + "_" + rest) == bpId
    ensures BlueprintIdOf(bpId) == bpId
  {
    var s := bpId + "_" + rest;
    assert s[..|bpId|] == bpId && s[|bpId|] == '_';
    Text.BeforeFirstUnique(s, '_', bpId);
    Text.BeforeFirstUnique(bpId, '_', bpId);
  }

  /**
   * The blueprint named by an index file whose stem is `{Name}_{Id}`: the cut
   * is at the last `_` and the id must be all digits.
   */
  function StemNameAndId(stem: string): Option<(string, string)> {
    var i := Text.LastIndexOf(stem, '_');
    if i >= 0 && Text.IsDigits(stem[i + 1..]) then Some((stem[i + 1..], stem[..i])) else None
  }

  /** `Name_123` names blueprint `123` as `Name`, even when `Name` holds `_` itself. */
  lemma StemNameAndIdOf(name: string, id: string)
    requires Text.IsDigits(id)
    ensures StemNameAndId(name + "_" + id) == Some((id, name))
  {
    var s := name + "_" + id;
    var i := Text.LastIndexOf(s, '_');
    assert s[|name|] == '_';
    forall k | |name| < k < |s|
      ensures s[k] != '_'
    {
      assert s[k] == id[k - |name| - 1];
    }
    assert i == |name|;
    assert s[i + 1..] == id;
    assert s[..i] == name;
  }

  /** A process entry of a blueprint file: its `Id` (through `str`) and `Name`. */
  datatype ProcessInfo = ProcessInfo(id: string, name: string)

  /**
   * A blueprint file: `metadata.Id` (through `str`), `metadata.Name`, and its
   * `Processes` (a single object stands for a one-element list).
   */
  datatype BlueprintDoc = BlueprintDoc(metaId: string, metaName: string, processes: seq<ProcessInfo>)

  /** The processes loop: each process with an id names a blueprint, after its file if it has no name. */
  function AddProcesses(names: map<string, string>, ps: seq<ProcessInfo>, stem: string): (rv: map<string, string>)
    ensures names.Keys <= rv.Keys
    ensures forall k :: k in rv && k !in names ==> k != "" && exists i :: 0 <= i < |ps| && ps[i].id == k
  {
    if ps == [] then names
    else
      var p := ps[|ps| - 1];
      var before := AddProcesses(names, ps[..|ps| - 1], stem);
      if p.id != "" then before[p.id := if p.name != "" then p.name else stem] else before
  }

  /** What one blueprint file adds to `blueprint_names`. */
  function IndexBlueprintFile(names: map<string, string>, stem: string, doc: BlueprintDoc): (rv: map<string, string>)
    ensures names.Keys <= rv.Keys
    ensures "" in rv ==> "" in names
  {
    var named :=
      if doc.metaId == "" || doc.metaName == "" then AddProcesses(names, doc.processes, stem)
      else names[doc.metaId := doc.metaName];
    if doc.metaId != "" then named
    else
      match StemNameAndId(stem)
      case Some(p) =>
        assert p.0 != "";
        named[p.0 := p.1]
      case None => named
  }

  /** `blueprint_names` after every blueprint file, in order, except the index file itself. */
  function BlueprintNames(files: seq<(string, BlueprintDoc)>): (names: map<string, string>)
    ensures "" !in names
  {
    if files == [] then map[]
    else
      var before := BlueprintNames(files[..|files| - 1]);
      var f := files[|files| - 1];
      if f.0 == "blueprints_index" then before else IndexBlueprintFile(before, f.0, f.1)
  }

  /** The ids a blueprint file can name: its metadata id, a process id, or the digits ending its stem. */
  predicate MentionsId(stem: string, doc: BlueprintDoc, id: string) {
    id == doc.metaId
    || (exists i :: 0 <= i < |doc.processes| && doc.processes[i].id == id)
    || (StemNameAndId(stem).Some? && StemNameAndId(stem).value.0 == id)
  }

  /** A name one blueprint file adds is one of the ids that file mentions. */
  lemma IndexBlueprintFileMentions(names: map<string, string>, stem: string, doc: BlueprintDoc, id: string)
    requires id in IndexBlueprintFile(names, stem, doc) && id !in names
    ensures MentionsId(stem, doc, id)
  {
    if doc.metaId == "" || doc.metaName == "" {
      if id in AddProcesses(names, doc.processes, stem) {
        var i :| 0 <= i < |doc.processes| && doc.processes[i].id == id;
      }
    }
  }

  /** Every blueprint named comes from some blueprint file other than the index file. */
  lemma {:induction false} BlueprintNamesFromFiles(files: seq<(string, BlueprintDoc)>, id: string)
    requires id in BlueprintNames(files)
    ensures exists k :: 0 <= k < |files| && files[k].0 != "blueprints_index" && MentionsId(files[k].0, files[k].1, id)
  {
    var init := files[..|files| - 1];
    var f := files[|files| - 1];
    if id in BlueprintNames(init) {
      BlueprintNamesFromFiles(init, id);
      var k :| 0 <= k < |init| && init[k].0 != "blueprints_index" && MentionsId(init[k].0, init[k].1, id);
      assert files[k] == init[k];
    } else {
      IndexBlueprintFileMentions(BlueprintNames(init), f.0, f.1, id);
    }
  }

  // ---------------------------------------------------------------------
  // A decoded transition
  // ---------------------------------------------------------------------

  /** An entry of one `FieldsMeta` list: `Id` (through `str`), `Name` (column name), `Label`. */
  datatype FieldMeta = FieldMeta(id: string, name: string, labelText: string)

  /** A value of the `FieldsMeta` object: a list of entries, or anything else (skipped). */
  datatype MetaGroup = MetaList(entries: seq<FieldMeta>) | NotAList

  /** An entry of `Fields` (the DURING tab): `Type`, `Id` (through `str`), `IsNonMandatory` if present. */
  datatype EntryField = EntryField(fieldType: string, id: string, isNonMandatory: Option<Json.Value>)

  /** An entry of `Actions.Fieldupdate` (the AFTER tab). */
  datatype FieldUpdate = FieldUpdate(
    fieldId: string,
    fieldLabel: string,
    fieldValue: Json.Value,
    actualValue: Json.Value,
    updateName: Json.Value)

  /** An entry of `Actions.Deluge`: a custom function the transition calls. */
  datatype DelugeAction = DelugeAction(name: string, id: string)

  /**
   * A transition document: `Name` if present, `Module`, `FieldsMeta`,
   * `Fields`, `Actions.Fieldupdate`, `CriteriaString` and `Actions.Deluge`.
   */
  datatype Transition = Transition(
    name: Option<string>,
    moduleRaw: string,
    fieldsMeta: seq<MetaGroup>,
    fields: seq<EntryField>,
    fieldUpdates: seq<FieldUpdate>,
    criteria: string,
    deluge: seq<DelugeAction>)

  /** Where the usages of one transition come from: its module, `"{blueprint} > {transition}"` and the file stem. */
  datatype Context = Context(moduleName: string, sourceLabel: string, sourceId: string)

  /** The context `analyze_all` builds for one transition file. */
  function TransitionContext(names: map<string, string>, stem: string, trans: Transition): (c: Context)
    ensures c.sourceId == stem
    ensures c.moduleName == MapModule(trans.moduleRaw)
  {
    var bpId := BlueprintIdOf(stem);
    var bpName := Get(names, bpId).GetOr(bpId);
    var transName := trans.name.GetOr(stem);
    Context(MapModule(trans.moduleRaw), bpName + " > " + transName, stem)
  }

  /** A field that resolution could not find, as `_log_unresolved` records it. */
  datatype Unresolved = Unresolved(moduleName: string, fieldLabel: string, fieldId: string, source: string, context: string)

  /** What a stretch of a transition contributes: usages for the tracker and unresolved-field records. */
  datatype Emitted = Emitted(events: seq<Usage.FieldUsage>, logs: seq<Unresolved>)

  function Then(a: Emitted, b: Emitted): Emitted {
    Emitted(a.events + b.events, a.logs + b.logs)
  }

  lemma ThenNothing(e: Emitted)
    ensures Then(e, Emitted([], [])) == e
  {
    assert e.events + [] == e.events;
    assert e.logs + [] == e.logs;
  }

  // ---------------------------------------------------------------------
  // `_build_fieldsmeta_map`: field id to API name
  // ---------------------------------------------------------------------

  /** Resolution of a `FieldsMeta` entry: by id globally, then by column name, then by label, in the module. */
  function MetaResolved(rv: Rosetta.Resolver, moduleName: string, fm: FieldMeta): Option<Rosetta.FieldEntry>
  {
    var byId := rv.ResolveById(fm.id);
    if byId.Some? then byId
    else
      var byColumn := if fm.name != "" then rv.Resolve(moduleName, Rosetta.QueryBy(Rosetta.ColumnName, fm.name)) else None;
      if byColumn.Some? then byColumn
      else if fm.labelText != "" then rv.Resolve(moduleName, Rosetta.QueryBy(Rosetta.Label, fm.labelText))
      else None
  }

  /** The API name an entry maps to; unresolved, its column name, else its label, else its id. */
  function MetaTarget(rv: Rosetta.Resolver, moduleName: string, fm: FieldMeta): (api: string)
    ensures MetaResolved(rv, moduleName, fm) == None && fm.id != "" ==> api != ""
  {
    match MetaResolved(rv, moduleName, fm)
    case Some(e) => e.apiName
    case None => if fm.name != "" then fm.name else if fm.labelText != "" then fm.labelText else fm.id
  }

  /** `field_map[fid] = ...` for one entry; an entry without an id is skipped. */
  function AddMeta(rv: Rosetta.Resolver, moduleName: string, m: map<string, string>, fm: FieldMeta): map<string, string>
  {
    if fm.id == "" then m else m[fm.id := MetaTarget(rv, moduleName, fm)]
  }

  function AddMetas(rv: Rosetta.Resolver, moduleName: string, m: map<string, string>, fms: seq<FieldMeta>): map<string, string>
  {
    if fms == [] then m
    else AddMeta(rv, moduleName, AddMetas(rv, moduleName, m, fms[..|fms| - 1]), fms[|fms| - 1])
  }

  lemma AddMetasSnoc(rv: Rosetta.Resolver, moduleName: string, m: map<string, string>, fms: seq<FieldMeta>, fm: FieldMeta)
    ensures AddMetas(rv, moduleName, m, fms + [fm]) == AddMeta(rv, moduleName, AddMetas(rv, moduleName, m, fms), fm)
  {
    assert (fms + [fm])[..|fms|] == fms;
  }

  lemma SnocSlice<T>(a: seq<T>, b: seq<T>, i: nat)
    requires i < |b|
    ensures a + b[..i + 1] == (a + b[..i]) + [b[i]]
  {
    assert b[..i + 1] == b[..i] + [b[i]];
  }

  function GroupEntries(g: MetaGroup): seq<FieldMeta> {
    match g
    case MetaList(es) => es
    case NotAList => []
  }

  /** The entries of every list in `FieldsMeta`, in order. */
  function MetaEntries(groups: seq<MetaGroup>): seq<FieldMeta> {
    if groups == [] then []
    else MetaEntries(groups[..|groups| - 1]) + GroupEntries(groups[|groups| - 1])
  }

  /** The map `_build_fieldsmeta_map` returns. */
  function FieldsMetaMap(rv: Rosetta.Resolver, moduleName: string, groups: seq<MetaGroup>): map<string, string>
  {
    AddMetas(rv, moduleName, map[], MetaEntries(groups))
  }

  /** The map holds exactly the non-empty ids of the entries (and what it started with). */
  lemma {:induction false} AddMetasKeys(rv: Rosetta.Resolver, moduleName: string, m: map<string, string>, fms: seq<FieldMeta>, k: string)
    ensures k in AddMetas(rv, moduleName, m, fms) <==> k in m || (k != "" && exists i :: 0 <= i < |fms| && fms[i].id == k)
  {
    if fms != [] {
      var init := fms[..|fms| - 1];
      AddMetasKeys(rv, moduleName, m, init, k);
      if k != "" && (exists i :: 0 <= i < |init| && init[i].id == k) {
        var i :| 0 <= i < |init| && init[i].id == k;
        assert fms[i].id == k;
      }
      if k != "" && (exists i :: 0 <= i < |fms| && fms[i].id == k) {
        var i :| 0 <= i < |fms| && fms[i].id == k;
        if i < |init| {
          assert init[i].id == k;
        }
      }
    }
  }

  /** The id of an entry no later entry shares maps to that entry's target. */
  lemma {:induction false} AddMetasLastWins(rv: Rosetta.Resolver, moduleName: string, m: map<string, string>, fms: seq<FieldMeta>, i: nat)
    requires i < |fms| && fms[i].id != ""
    requires forall j :: i < j < |fms| ==> fms[j].id != fms[i].id
    ensures fms[i].id in AddMetas(rv, moduleName, m, fms)
    ensures AddMetas(rv, moduleName, m, fms)[fms[i].id] == MetaTarget(rv, moduleName, fms[i])
  {
    if i < |fms| - 1 {
      var init := fms[..|fms| - 1];
      AddMetasLastWins(rv, moduleName, m, init, i);
    }
  }

  /**
   * The map's keys are the non-empty ids among all `FieldsMeta` entries; each
   * maps to the target of the last entry with that id.
   */
  lemma FieldsMetaMapContents(rv: Rosetta.Resolver, moduleName: string, groups: seq<MetaGroup>, k: string)
    ensures k in FieldsMetaMap(rv, moduleName, groups) <==>
            k != "" && exists i :: 0 <= i < |MetaEntries(groups)| && MetaEntries(groups)[i].id == k
    ensures forall i :: 0 <= i < |MetaEntries(groups)| && MetaEntries(groups)[i].id == k != "" &&
                        (forall j :: i < j < |MetaEntries(groups)| ==> MetaEntries(groups)[j].id != k) ==>
              k in FieldsMetaMap(rv, moduleName, groups) &&
              FieldsMetaMap(rv, moduleName, groups)[k] == MetaTarget(rv, moduleName, MetaEntries(groups)[i])
  {
    var es := MetaEntries(groups);
    AddMetasKeys(rv, moduleName, map[], es, k);
    forall i | 0 <= i < |es| && es[i].id == k != "" && (forall j :: i < j < |es| ==> es[j].id != k)
      ensures k in FieldsMetaMap(rv, moduleName, groups) && FieldsMetaMap(rv, moduleName, groups)[k] == MetaTarget(rv, moduleName, es[i])
    {
      AddMetasLastWins(rv, moduleName, map[], es, i);
    }
  }

  /** An id the resolver knows globally maps to that field's API name, whatever its column name or label say. */
  lemma FieldsMetaMapUsesKnownId(rv: Rosetta.Resolver, moduleName: string, groups: seq<MetaGroup>, i: nat)
    requires i < |MetaEntries(groups)|
    requires MetaEntries(groups)[i].id in rv.globalById
    requires forall j :: i < j < |MetaEntries(groups)| ==> MetaEntries(groups)[j].id != MetaEntries(groups)[i].id
    ensures MetaEntries(groups)[i].id != "" ==>
              MetaEntries(groups)[i].id in FieldsMetaMap(rv, moduleName, groups) &&
              FieldsMetaMap(rv, moduleName, groups)[MetaEntries(groups)[i].id] == rv.globalById[MetaEntries(groups)[i].id].apiName
  {
    var es := MetaEntries(groups);
    if es[i].id != "" {
      AddMetasLastWins(rv, moduleName, map[], es, i);
    }
  }

  // ---------------------------------------------------------------------
  // `_process_during_fields`: one ENTRY per field of the DURING tab
  // ---------------------------------------------------------------------

  /** `not f.get('IsNonMandatory', True)` */
  function Mandatory(isNonMandatory: Option<Json.Value>): (b: bool)
    ensures b <==> isNonMandatory.Some? && !Json.Truthy(isNonMandatory.value)
  {
    match isNonMandatory
    case None => false
    case Some(v) => !Json.Truthy(v)
  }

  function EntryUsage(c: Context, apiName: string, mandatory: bool, fieldLabel: string): Usage.FieldUsage {
    Usage.FieldUsage(Usage.Entry, Usage.Blueprint, c.sourceLabel, c.sourceId, c.moduleName, apiName,
      map["mandatory" := Json.Bool(mandatory), "field_label" := Json.Str(fieldLabel)])
  }

  /** A DURING entry is a field when its type is `Field` and it has an id. */
  predicate IsEntryField(f: EntryField) {
    f.fieldType == "Field" && f.id != ""
  }

  /** A DURING field whose id neither the local map nor the global id table knows. */
  predicate UnresolvedEntry(rv: Rosetta.Resolver, fieldMap: map<string, string>, f: EntryField)
  {
    IsEntryField(f) && Get(fieldMap, f.id).GetOr("") == "" && f.id !in rv.globalById
  }

  /**
   * One DURING entry: named by the local map, else by the global id table
   * (which also gives the label), else by its raw id, logged as unresolved.
   * Only a field yields a usage, and it is an ENTRY.
   */
  function EntryStep(rv: Rosetta.Resolver, c: Context, fieldMap: map<string, string>, f: EntryField): (e: Emitted)
    ensures |e.events| == (if IsEntryField(f) then 1 else 0)
    ensures e.events == [] || (e.events[0].usageType == Usage.Entry && FromContext(e.events[0], c))
    ensures |e.logs| == (if UnresolvedEntry(rv, fieldMap, f) then 1 else 0)
  {
    if !IsEntryField(f) then Emitted([], [])
    else
      var local := Get(fieldMap, f.id).GetOr("");
      if local == "" then
        match rv.ResolveById(f.id)
        case Some(e) => Emitted([EntryUsage(c, e.apiName, Mandatory(f.isNonMandatory), e.fieldLabel)], [])
        case None =>
          Emitted([EntryUsage(c, f.id, Mandatory(f.isNonMandatory), "")],
                  [Unresolved(c.moduleName, "ID:" + f.id, f.id, c.sourceLabel, "during_field")])
      else
        var fieldLabel := match rv.Resolve(c.moduleName, Rosetta.QueryBy(Rosetta.ApiName, local))
                     case Some(e) => e.fieldLabel
                     case None => "";
        Emitted([EntryUsage(c, local, Mandatory(f.isNonMandatory), fieldLabel)], [])
  }

  function EntrySteps(rv: Rosetta.Resolver, c: Context, fieldMap: map<string, string>, fs: seq<EntryField>): Emitted
  {
    if fs == [] then Emitted([], [])
    else Then(EntrySteps(rv, c, fieldMap, fs[..|fs| - 1]), EntryStep(rv, c, fieldMap, fs[|fs| - 1]))
  }

  lemma EntryStepsSnoc(rv: Rosetta.Resolver, c: Context, fieldMap: map<string, string>, fs: seq<EntryField>, i: nat)
    requires i < |fs|
    ensures EntrySteps(rv, c, fieldMap, fs[..i + 1]) == Then(EntrySteps(rv, c, fieldMap, fs[..i]), EntryStep(rv, c, fieldMap, fs[i]))
  {
    assert fs[..i + 1][..i] == fs[..i];
  }

  /** How many DURING entries are fields. */
  function CountEntryFields(fs: seq<EntryField>): (n: nat)
    ensures n <= |fs|
  {
    if fs == [] then 0 else CountEntryFields(fs[..|fs| - 1]) + (if IsEntryField(fs[|fs| - 1]) then 1 else 0)
  }

  /** How many DURING fields are unresolved. */
  function CountUnresolvedEntries(rv: Rosetta.Resolver, fieldMap: map<string, string>, fs: seq<EntryField>): (n: nat)
    ensures n <= CountEntryFields(fs)
  {
    if fs == [] then 0
    else CountUnresolvedEntries(rv, fieldMap, fs[..|fs| - 1]) + (if UnresolvedEntry(rv, fieldMap, fs[|fs| - 1]) then 1 else 0)
  }

  /** A usage reported by a transition in this context. */
  predicate FromContext(u: Usage.FieldUsage, c: Context) {
    u.sourceType == Usage.Blueprint && u.sourceName == c.sourceLabel && u.sourceId == c.sourceId && u.moduleName == c.moduleName
  }

  /**
   * One ENTRY usage per DURING entry that is a field; one unresolved record
   * per field that neither the local map nor the global id table knows.
   */
  lemma {:induction false} EntryStepsCount(rv: Rosetta.Resolver, c: Context, fieldMap: map<string, string>, fs: seq<EntryField>)
    ensures |EntrySteps(rv, c, fieldMap, fs).events| == CountEntryFields(fs)
    ensures |EntrySteps(rv, c, fieldMap, fs).logs| == CountUnresolvedEntries(rv, fieldMap, fs)
  {
    if fs != [] {
      EntryStepsCount(rv, c, fieldMap, fs[..|fs| - 1]);
    }
  }

  /** Every usage from the DURING tab is an ENTRY reported in this context. */
  lemma {:induction false} EntryStepsKind(rv: Rosetta.Resolver, c: Context, fieldMap: map<string, string>, fs: seq<EntryField>)
    ensures forall u :: u in EntrySteps(rv, c, fieldMap, fs).events ==> u.usageType == Usage.Entry && FromContext(u, c)
  {
    if fs != [] {
      EntryStepsKind(rv, c, fieldMap, fs[..|fs| - 1]);
    }
  }

  /** The usage of a DURING field records whether it is mandatory: only an explicit falsy `IsNonMandatory` makes it so. */
  lemma EntryStepMandatory(rv: Rosetta.Resolver, c: Context, fieldMap: map<string, string>, f: EntryField)
    requires IsEntryField(f)
    ensures |EntryStep(rv, c, fieldMap, f).events| == 1
    ensures EntryStep(rv, c, fieldMap, f).events[0].details["mandatory"] ==
            Json.Bool(f.isNonMandatory.Some? && !Json.Truthy(f.isNonMandatory.value))
  {
  }

  // ---------------------------------------------------------------------
  // `_process_field_updates`: one WRITE per automatic field update
  // ---------------------------------------------------------------------

  function WriteUsage(c: Context, apiName: string, fu: FieldUpdate): Usage.FieldUsage {
    Usage.FieldUsage(Usage.Write, Usage.Blueprint, c.sourceLabel, c.sourceId, c.moduleName, apiName,
      map["value" := fu.fieldValue, "actual_value" := fu.actualValue,
          "update_name" := fu.updateName, "field_label" := Json.Str(fu.fieldLabel)])
  }

  /** A field update that neither the local map, nor its label in the module, nor its id globally resolves. */
  predicate UnresolvedUpdate(rv: Rosetta.Resolver, moduleName: string, fieldMap: map<string, string>, fu: FieldUpdate)
  {
    Get(fieldMap, fu.fieldId).GetOr("") == "" &&
    rv.Resolve(moduleName, Rosetta.QueryBy(Rosetta.Label, fu.fieldLabel)).None? &&
    fu.fieldId !in rv.globalById
  }

  /**
   * One field update: named by the local map, else by its label in the
   * module, else by its id globally, else by its raw label, logged as
   * unresolved. It always yields exactly one WRITE, carrying its label.
   */
  function UpdateStep(rv: Rosetta.Resolver, c: Context, fieldMap: map<string, string>, fu: FieldUpdate): (e: Emitted)
    ensures |e.events| == 1 && e.events[0].usageType == Usage.Write && FromContext(e.events[0], c)
    ensures "field_label" in e.events[0].details && e.events[0].details["field_label"] == Json.Str(fu.fieldLabel)
    ensures |e.logs| == (if UnresolvedUpdate(rv, c.moduleName, fieldMap, fu) then 1 else 0)
  {
    var local := Get(fieldMap, fu.fieldId).GetOr("");
    if local != "" then Emitted([WriteUsage(c, local, fu)], [])
    else
      match rv.Resolve(c.moduleName, Rosetta.QueryBy(Rosetta.Label, fu.fieldLabel))
      case Some(e) => Emitted([WriteUsage(c, e.apiName, fu)], [])
      case None =>
        match rv.ResolveById(fu.fieldId)
        case Some(e) => Emitted([WriteUsage(c, e.apiName, fu)], [])
        case None =>
          Emitted([WriteUsage(c, fu.fieldLabel, fu)],
                  [Unresolved(c.moduleName, fu.fieldLabel, fu.fieldId, c.sourceLabel, "field_update")])
  }

  function UpdateSteps(rv: Rosetta.Resolver, c: Context, fieldMap: map<string, string>, fus: seq<FieldUpdate>): Emitted
  {
    if fus == [] then Emitted([], [])
    else Then(UpdateSteps(rv, c, fieldMap, fus[..|fus| - 1]), UpdateStep(rv, c, fieldMap, fus[|fus| - 1]))
  }

  lemma UpdateStepsSnoc(rv: Rosetta.Resolver, c: Context, fieldMap: map<string, string>, fus: seq<FieldUpdate>, i: nat)
    requires i < |fus|
    ensures UpdateSteps(rv, c, fieldMap, fus[..i + 1]) == Then(UpdateSteps(rv, c, fieldMap, fus[..i]), UpdateStep(rv, c, fieldMap, fus[i]))
  {
    assert fus[..i + 1][..i] == fus[..i];
  }

  /** How many field updates are unresolved. */
  function CountUnresolvedUpdates(rv: Rosetta.Resolver, moduleName: string, fieldMap: map<string, string>, fus: seq<FieldUpdate>): (n: nat)
    ensures n <= |fus|
  {
    if fus == [] then 0
    else CountUnresolvedUpdates(rv, moduleName, fieldMap, fus[..|fus| - 1]) + (if UnresolvedUpdate(rv, moduleName, fieldMap, fus[|fus| - 1]) then 1 else 0)
  }

  /** Exactly one WRITE usage per field update; one unresolved record per unresolved update. */
  lemma {:induction false} UpdateStepsCount(rv: Rosetta.Resolver, c: Context, fieldMap: map<string, string>, fus: seq<FieldUpdate>)
    ensures |UpdateSteps(rv, c, fieldMap, fus).events| == |fus|
    ensures |UpdateSteps(rv, c, fieldMap, fus).logs| == CountUnresolvedUpdates(rv, c.moduleName, fieldMap, fus)
  {
    if fus != [] {
      UpdateStepsCount(rv, c, fieldMap, fus[..|fus| - 1]);
    }
  }

  /** Every usage from the AFTER tab is a WRITE reported in this context. */
  lemma {:induction false} UpdateStepsKind(rv: Rosetta.Resolver, c: Context, fieldMap: map<string, string>, fus: seq<FieldUpdate>)
    ensures forall u :: u in UpdateSteps(rv, c, fieldMap, fus).events ==> u.usageType == Usage.Write && FromContext(u, c)
  {
    if fus != [] {
      UpdateStepsKind(rv, c, fieldMap, fus[..|fus| - 1]);
    }
  }

  /** An update the local map names keeps that name even if its label or id would resolve elsewhere. */
  lemma UpdateStepPrefersLocalMap(rv: Rosetta.Resolver, c: Context, fieldMap: map<string, string>, fu: FieldUpdate)
    requires fu.fieldId in fieldMap && fieldMap[fu.fieldId] != ""
    ensures UpdateStep(rv, c, fieldMap, fu).events[0].fieldApiName == fieldMap[fu.fieldId]
    ensures UpdateStep(rv, c, fieldMap, fu).logs == []
  {
  }

  // ---------------------------------------------------------------------
  // `_process_criteria`: one READ for a non-blank criteria
  // ---------------------------------------------------------------------

  /** The placeholder field a transition's criteria is reported on. */
  const CriteriaField := "_transition_criteria_"

  function CriteriaEvents(c: Context, criteria: string): (us: seq<Usage.FieldUsage>)
    ensures |us| == (if Text.AllSpace(criteria) then 0 else 1)
  {
    if criteria == "" || Text.Strip(criteria) == "" then []
    else
      [Usage.FieldUsage(Usage.Read, Usage.Blueprint, c.sourceLabel, c.sourceId, c.moduleName, CriteriaField,
         map["criteria_string" := Json.Str(criteria), "note" := Json.Str("Unparsed transition criteria")])]
  }

  // ---------------------------------------------------------------------
  // One transition
  // ---------------------------------------------------------------------

  /** Everything one transition reports, DURING fields first, then updates, then the criteria. */
  function TransitionEmitted(rv: Rosetta.Resolver, c: Context, trans: Transition): Emitted
  {
    TransitionWith(rv, c, trans, FieldsMetaMap(rv, c.moduleName, trans.fieldsMeta))
  }

  /** `TransitionEmitted` once the transition's field map is known. */
  function TransitionWith(rv: Rosetta.Resolver, c: Context, trans: Transition, fieldMap: map<string, string>): Emitted
  {
    Then(Then(EntrySteps(rv, c, fieldMap, trans.fields), UpdateSteps(rv, c, fieldMap, trans.fieldUpdates)),
         Emitted(CriteriaEvents(c, trans.criteria), []))
  }

  lemma TransitionWithParts(rv: Rosetta.Resolver, c: Context, trans: Transition, fieldMap: map<string, string>)
    ensures TransitionWith(rv, c, trans, fieldMap).events ==
            EntrySteps(rv, c, fieldMap, trans.fields).events + UpdateSteps(rv, c, fieldMap, trans.fieldUpdates).events +
            CriteriaEvents(c, trans.criteria)
    ensures TransitionWith(rv, c, trans, fieldMap).logs ==
            EntrySteps(rv, c, fieldMap, trans.fields).logs + UpdateSteps(rv, c, fieldMap, trans.fieldUpdates).logs
  {
    var logs := EntrySteps(rv, c, fieldMap, trans.fields).logs + UpdateSteps(rv, c, fieldMap, trans.fieldUpdates).logs;
    assert logs + [] == logs;
  }

  /** Recording the three passes one after the other records the whole transition. */
  lemma TransitionWithRecorded(rv: Rosetta.Resolver, c: Context, trans: Transition, fieldMap: map<string, string>,
                               s0: Usage.Profiles, log0: seq<Unresolved>)
    ensures Usage.RecordAll(Usage.RecordAll(Usage.RecordAll(s0, EntrySteps(rv, c, fieldMap, trans.fields).events),
                                            UpdateSteps(rv, c, fieldMap, trans.fieldUpdates).events),
                            CriteriaEvents(c, trans.criteria))
            == Usage.RecordAll(s0, TransitionWith(rv, c, trans, fieldMap).events)
    ensures log0 + EntrySteps(rv, c, fieldMap, trans.fields).logs + UpdateSteps(rv, c, fieldMap, trans.fieldUpdates).logs
            == log0 + TransitionWith(rv, c, trans, fieldMap).logs
  {
    var entries := EntrySteps(rv, c, fieldMap, trans.fields);
    var updates := UpdateSteps(rv, c, fieldMap, trans.fieldUpdates);
    TransitionWithParts(rv, c, trans, fieldMap);
    Usage.RecordAllAppend(s0, entries.events, updates.events);
    Usage.RecordAllAppend(s0, entries.events + updates.events, CriteriaEvents(c, trans.criteria));
    Text.AppendAssoc(log0, entries.logs, updates.logs);
  }

  /** Three runs of usages, each of one kind and all from `c`, laid end to end. */
  predicate KindsInOrder(all: seq<Usage.FieldUsage>, c: Context, nEntries: nat, nWrites: nat)
  {
    forall i :: 0 <= i < |all| ==>
      FromContext(all[i], c) &&
      all[i].usageType == (if i < nEntries then Usage.Entry else if i < nEntries + nWrites then Usage.Write else Usage.Read)
  }

  lemma ConcatKinds(es: seq<Usage.FieldUsage>, us: seq<Usage.FieldUsage>, rs: seq<Usage.FieldUsage>, c: Context)
    requires forall u :: u in es ==> u.usageType == Usage.Entry && FromContext(u, c)
    requires forall u :: u in us ==> u.usageType == Usage.Write && FromContext(u, c)
    requires forall u :: u in rs ==> u.usageType == Usage.Read && FromContext(u, c)
    ensures KindsInOrder(es + us + rs, c, |es|, |us|)
  {
    var all := es + us + rs;
    forall i | 0 <= i < |all|
      ensures FromContext(all[i], c)
      ensures all[i].usageType == (if i < |es| then Usage.Entry else if i < |es| + |us| then Usage.Write else Usage.Read)
    {
      if i < |es| {
        assert all[i] == es[i] && es[i] in es;
      } else if i < |es| + |us| {
        assert all[i] == us[i - |es|] && us[i - |es|] in us;
      } else {
        assert all[i] == rs[i - |es| - |us|] && rs[i - |es| - |us|] in rs;
      }
    }
  }

  /**
   * What a transition reports, in order: one ENTRY per DURING field, then one
   * WRITE per field update, then one READ exactly when the criteria is not
   * blank; all of it in the transition's context.
   */
  lemma TransitionCounts(rv: Rosetta.Resolver, c: Context, trans: Transition)
    ensures |TransitionEmitted(rv, c, trans).events| ==
            CountEntryFields(trans.fields) + |trans.fieldUpdates| + (if Text.AllSpace(trans.criteria) then 0 else 1)
    ensures KindsInOrder(TransitionEmitted(rv, c, trans).events, c, CountEntryFields(trans.fields), |trans.fieldUpdates|)
  {
    var fieldMap := FieldsMetaMap(rv, c.moduleName, trans.fieldsMeta);
    var es := EntrySteps(rv, c, fieldMap, trans.fields).events;
    var us := UpdateSteps(rv, c, fieldMap, trans.fieldUpdates).events;
    var rs := CriteriaEvents(c, trans.criteria);
    TransitionWithParts(rv, c, trans, fieldMap);
    EntryStepsCount(rv, c, fieldMap, trans.fields);
    UpdateStepsCount(rv, c, fieldMap, trans.fieldUpdates);
    EntryStepsKind(rv, c, fieldMap, trans.fields);
    UpdateStepsKind(rv, c, fieldMap, trans.fieldUpdates);
    ConcatKinds(es, us, rs, c);
  }

  // ---------------------------------------------------------------------
  // `get_function_references`
  // ---------------------------------------------------------------------

  datatype FunctionRef = FunctionRef(functionName: string, functionId: string, transition: string, transitionFile: string, moduleName: string)

  /** The references of one transition file; here an absent `Name` is the empty string. */
  function FunctionRefs(stem: string, trans: Transition): (refs: seq<FunctionRef>)
    ensures |refs| == |trans.deluge|
  {
    seq(|trans.deluge|, i requires 0 <= i < |trans.deluge| =>
      FunctionRef(trans.deluge[i].name, trans.deluge[i].id, trans.name.GetOr(""), stem + ".json", trans.moduleRaw))
  }

  /** The references of every transition file, in order; none without a transitions directory. */
  /** `get_function_references`: nothing without a transitions directory. */
  function FunctionReferences(files: Option<seq<(string, Transition)>>): seq<FunctionRef> {
    match files
    case None => []
    case Some(fs) => AllFunctionRefs(fs)
  }

  function AllFunctionRefs(fs: seq<(string, Transition)>): seq<FunctionRef> {
    if fs == [] then [] else AllFunctionRefs(fs[..|fs| - 1]) + FunctionRefs(fs[|fs| - 1].0, fs[|fs| - 1].1)
  }

  function DelugeCount(fs: seq<(string, Transition)>): nat {
    if fs == [] then 0 else DelugeCount(fs[..|fs| - 1]) + |fs[|fs| - 1].1.deluge|
  }

  /** One reference per `Deluge` action, each naming the file it came from. */
  lemma {:induction false} AllFunctionRefsShape(fs: seq<(string, Transition)>)
    ensures |AllFunctionRefs(fs)| == DelugeCount(fs)
    ensures forall ref :: ref in AllFunctionRefs(fs) ==> exists k :: 0 <= k < |fs| && ref.transitionFile == fs[k].0 + ".json"
  {
    if fs != [] {
      var init := fs[..|fs| - 1];
      AllFunctionRefsShape(init);
      forall ref | ref in AllFunctionRefs(fs)
        ensures exists k :: 0 <= k < |fs| && ref.transitionFile == fs[k].0 + ".json"
      {
        if ref in AllFunctionRefs(init) {
          var k :| 0 <= k < |init| && ref.transitionFile == init[k].0 + ".json";
          assert fs[k] == init[k];
        } else {
          assert ref in FunctionRefs(fs[|fs| - 1].0, fs[|fs| - 1].1);
        }
      }
    }
  }

  // ---------------------------------------------------------------------
  // `analyze_all` over every transition file
  // ---------------------------------------------------------------------

  /** What the transition files report, one file after the other. */
  function AllEmitted(rv: Rosetta.Resolver, names: map<string, string>, fs: seq<(string, Transition)>): Emitted
  {
    if fs == [] then Emitted([], [])
    else
      var f := fs[|fs| - 1];
      Then(AllEmitted(rv, names, fs[..|fs| - 1]), TransitionEmitted(rv, TransitionContext(names, f.0, f.1), f.1))
  }

  function TotalEntryFields(fs: seq<(string, Transition)>): nat {
    if fs == [] then 0 else TotalEntryFields(fs[..|fs| - 1]) + CountEntryFields(fs[|fs| - 1].1.fields)
  }

  function TotalFieldUpdates(fs: seq<(string, Transition)>): nat {
    if fs == [] then 0 else TotalFieldUpdates(fs[..|fs| - 1]) + |fs[|fs| - 1].1.fieldUpdates|
  }

  /** How many transitions carry a criteria that is not blank. */
  function TotalCriteria(fs: seq<(string, Transition)>): nat {
    if fs == [] then 0 else TotalCriteria(fs[..|fs| - 1]) + (if Text.AllSpace(fs[|fs| - 1].1.criteria) then 0 else 1)
  }

  lemma AllEmittedSnoc(rv: Rosetta.Resolver, names: map<string, string>, fs: seq<(string, Transition)>, i: nat)
    requires i < |fs|
    ensures AllEmitted(rv, names, fs[..i + 1]) ==
            Then(AllEmitted(rv, names, fs[..i]), TransitionEmitted(rv, TransitionContext(names, fs[i].0, fs[i].1), fs[i].1))
    ensures TotalEntryFields(fs[..i + 1]) == TotalEntryFields(fs[..i]) + CountEntryFields(fs[i].1.fields)
    ensures TotalFieldUpdates(fs[..i + 1]) == TotalFieldUpdates(fs[..i]) + |fs[i].1.fieldUpdates|
  {
    assert fs[..i + 1][..i] == fs[..i];
  }

  /**
   * Every usage the transition files report is one of their DURING fields,
   * field updates or non-blank criteria: the totals add up.
   */
  lemma {:induction false} AllEmittedCount(rv: Rosetta.Resolver, names: map<string, string>, fs: seq<(string, Transition)>)
    ensures |AllEmitted(rv, names, fs).events| == TotalEntryFields(fs) + TotalFieldUpdates(fs) + TotalCriteria(fs)
  {
    if fs != [] {
      var f := fs[|fs| - 1];
      AllEmittedCount(rv, names, fs[..|fs| - 1]);
      TransitionCounts(rv, TransitionContext(names, f.0, f.1), f.1);
    }
  }

  // ---------------------------------------------------------------------
  // The analyzer object
  // ---------------------------------------------------------------------

  class BlueprintAnalyzer {
    /** The loaded stone, which the analyzer only queries. */
    const rosetta: Rosetta.Resolver
    const tracker: Usage.UsageTracker
    var blueprintsProcessed: nat
    var transitionsProcessed: nat
    var fieldUpdatesFound: nat
    var entryFieldsFound: nat
    var criteriaFieldsFound: nat
    var unresolvedFields: nat
    var unresolved: seq<Unresolved>

    /** The unresolved counter always equals the number of records logged. */
    ghost predicate Valid()
      reads this
    {
      unresolvedFields == |unresolved|
    }

    constructor(stone: Rosetta.RosettaStone, tracker: Usage.UsageTracker)
      ensures Valid()
      ensures rosetta == stone.View() && this.tracker == tracker
      ensures blueprintsProcessed == transitionsProcessed == fieldUpdatesFound == 0
      ensures entryFieldsFound == criteriaFieldsFound == unresolvedFields == 0
      ensures unresolved == []
    {
      rosetta := stone.View();
      this.tracker := tracker;
      blueprintsProcessed, transitionsProcessed, fieldUpdatesFound := 0, 0, 0;
      entryFieldsFound, criteriaFieldsFound, unresolvedFields := 0, 0, 0;
      unresolved := [];
    }

    /** `_log_unresolved` */
    method LogUnresolved(moduleName: string, fieldLabel: string, fieldId: string, source: string, context: string)
      modifies this`unresolvedFields, this`unresolved
      ensures unresolved == old(unresolved) + [Unresolved(moduleName, fieldLabel, fieldId, source, context)]
      ensures unresolvedFields == old(unresolvedFields) + 1
      ensures old(Valid()) ==> Valid()
    {
      unresolvedFields := unresolvedFields + 1;
      unresolved := unresolved + [Unresolved(moduleName, fieldLabel, fieldId, source, context)];
    }

    /** `_build_fieldsmeta_map` */
    method BuildFieldsMetaMap(trans: Transition, moduleName: string) returns (fieldMap: map<string, string>)
      ensures fieldMap == FieldsMetaMap(rosetta, moduleName, trans.fieldsMeta)
    {
      var groups := trans.fieldsMeta;
      fieldMap := map[];
      for g := 0 to |groups|
        invariant fieldMap == AddMetas(rosetta, moduleName, map[], MetaEntries(groups[..g]))
      {
        assert groups[..g + 1][..g] == groups[..g];
        var metaFields := GroupEntries(groups[g]);
        ghost var done := MetaEntries(groups[..g]);
        assert done + metaFields[..0] == done;
        for i := 0 to |metaFields|
          invariant fieldMap == AddMetas(rosetta, moduleName, map[], done + metaFields[..i])
        {
          var fm := metaFields[i];
          SnocSlice(done, metaFields, i);
          AddMetasSnoc(rosetta, moduleName, map[], done + metaFields[..i], fm);
          if fm.id == "" {
            continue;
          }
          var resolved := rosetta.ResolveById(fm.id);
          if resolved.None? && fm.name != "" {
            resolved := rosetta.Resolve(moduleName, Rosetta.QueryBy(Rosetta.ColumnName, fm.name));
          }
          if resolved.None? && fm.labelText != "" {
            resolved := rosetta.Resolve(moduleName, Rosetta.QueryBy(Rosetta.Label, fm.labelText));
          }
          assert resolved == MetaResolved(rosetta, moduleName, fm);
          if resolved.Some? {
            fieldMap := fieldMap[fm.id := resolved.value.apiName];
          } else {
            fieldMap := fieldMap[fm.id := if fm.name != "" then fm.name else if fm.labelText != "" then fm.labelText else fm.id];
          }
        }
        assert metaFields[..|metaFields|] == metaFields;
      }
      assert groups[..|groups|] == groups;
    }

    /**
     * The body of `_process_during_fields`'s loop: one DURING entry. The name
     * is settled first; an unresolved id is then logged before the usage is
     * reported, as in the source.
     */
    method ProcessDuringField(f: EntryField, c: Context, fieldMap: map<string, string>)
      modifies this`entryFieldsFound, this`unresolvedFields, this`unresolved, tracker
      ensures tracker.profiles == Usage.RecordAll(old(tracker.profiles), EntryStep(rosetta, c, fieldMap, f).events)
      ensures unresolved == old(unresolved) + EntryStep(rosetta, c, fieldMap, f).logs
      ensures entryFieldsFound == old(entryFieldsFound) + |EntryStep(rosetta, c, fieldMap, f).events|
      ensures unresolvedFields == old(unresolvedFields) + |EntryStep(rosetta, c, fieldMap, f).logs|
    {
      if f.fieldType != "Field" || f.id == "" {
        assert unresolved + [] == unresolved;
        return;
      }
      var apiName := Get(fieldMap, f.id).GetOr("");
      var fieldLabel := "";
      var unknown := false;
      if apiName == "" {
        var resolved := rosetta.ResolveById(f.id);
        if resolved.Some? {
          apiName := resolved.value.apiName;
          fieldLabel := resolved.value.fieldLabel;
        } else {
          apiName := f.id;
          unknown := true;
        }
      } else {
        var resolved := rosetta.Resolve(c.moduleName, Rosetta.QueryBy(Rosetta.ApiName, apiName));
        if resolved.Some? {
          fieldLabel := resolved.value.fieldLabel;
        }
      }
      var u := EntryUsage(c, apiName, Mandatory(f.isNonMandatory), fieldLabel);
      ghost var record := Unresolved(c.moduleName, "ID:" + f.id, f.id, c.sourceLabel, "during_field");
      assert EntryStep(rosetta, c, fieldMap, f) == Emitted([u], if unknown then [record] else []);
      if unknown {
        LogUnresolved(c.moduleName, "ID:" + f.id, f.id, c.sourceLabel, "during_field");
      } else {
        assert unresolved + [] == unresolved;
      }
      tracker.AddUsage(u);
      Usage.RecordAllOne(old(tracker.profiles), u);
      entryFieldsFound := entryFieldsFound + 1;
    }

    /** `_process_during_fields` */
    method ProcessDuringFields(trans: Transition, c: Context, fieldMap: map<string, string>)
      modifies this`entryFieldsFound, this`unresolvedFields, this`unresolved, tracker
      ensures tracker.profiles == Usage.RecordAll(old(tracker.profiles), EntrySteps(rosetta, c, fieldMap, trans.fields).events)
      ensures unresolved == old(unresolved) + EntrySteps(rosetta, c, fieldMap, trans.fields).logs
      ensures entryFieldsFound == old(entryFieldsFound) + CountEntryFields(trans.fields)
      ensures unresolvedFields == old(unresolvedFields) + |EntrySteps(rosetta, c, fieldMap, trans.fields).logs|
    {
      var fields := trans.fields;
      for i := 0 to |fields|
        invariant tracker.profiles == Usage.RecordAll(old(tracker.profiles), EntrySteps(rosetta, c, fieldMap, fields[..i]).events)
        invariant unresolved == old(unresolved) + EntrySteps(rosetta, c, fieldMap, fields[..i]).logs
        invariant entryFieldsFound == old(entryFieldsFound) + |EntrySteps(rosetta, c, fieldMap, fields[..i]).events|
        invariant unresolvedFields == old(unresolvedFields) + |EntrySteps(rosetta, c, fieldMap, fields[..i]).logs|
      {
        EntryStepsSnoc(rosetta, c, fieldMap, fields, i);
        ghost var before := EntrySteps(rosetta, c, fieldMap, fields[..i]);
        ghost var step := EntryStep(rosetta, c, fieldMap, fields[i]);
        ProcessDuringField(fields[i], c, fieldMap);
        Usage.RecordAllAppend(old(tracker.profiles), before.events, step.events);
        Text.AppendAssoc(old(unresolved), before.logs, step.logs);
      }
      assert fields[..|fields|] == fields;
      EntryStepsCount(rosetta, c, fieldMap, fields);
    }

    /**
     * The body of `_process_field_updates`'s loop: one field update. The name
     * is settled first; an unresolved update is then logged before the usage
     * is reported, as in the source.
     */
    method ProcessFieldUpdate(fu: FieldUpdate, c: Context, fieldMap: map<string, string>)
      modifies this`fieldUpdatesFound, this`unresolvedFields, this`unresolved, tracker
      ensures tracker.profiles == Usage.RecordAll(old(tracker.profiles), UpdateStep(rosetta, c, fieldMap, fu).events)
      ensures unresolved == old(unresolved) + UpdateStep(rosetta, c, fieldMap, fu).logs
      ensures fieldUpdatesFound == old(fieldUpdatesFound) + 1
      ensures unresolvedFields == old(unresolvedFields) + |UpdateStep(rosetta, c, fieldMap, fu).logs|
    {
      var apiName := Get(fieldMap, fu.fieldId).GetOr("");
      var unknown := false;
      if apiName == "" {
        var resolved := rosetta.Resolve(c.moduleName, Rosetta.QueryBy(Rosetta.Label, fu.fieldLabel));
        if resolved.Some? {
          apiName := resolved.value.apiName;
        } else {
          resolved := rosetta.ResolveById(fu.fieldId);
          if resolved.Some? {
            apiName := resolved.value.apiName;
          } else {
            apiName := fu.fieldLabel;
            unknown := true;
          }
        }
      }
      var u := WriteUsage(c, apiName, fu);
      ghost var record := Unresolved(c.moduleName, fu.fieldLabel, fu.fieldId, c.sourceLabel, "field_update");
      assert UpdateStep(rosetta, c, fieldMap, fu) == Emitted([u], if unknown then [record] else []);
      if unknown {
        LogUnresolved(c.moduleName, fu.fieldLabel, fu.fieldId, c.sourceLabel, "field_update");
      } else {
        assert unresolved + [] == unresolved;
      }
      tracker.AddUsage(u);
      Usage.RecordAllOne(old(tracker.profiles), u);
      fieldUpdatesFound := fieldUpdatesFound + 1;
    }

    /** `_process_field_updates` */
    method ProcessFieldUpdates(trans: Transition, c: Context, fieldMap: map<string, string>)
      modifies this`fieldUpdatesFound, this`unresolvedFields, this`unresolved, tracker
      ensures tracker.profiles == Usage.RecordAll(old(tracker.profiles), UpdateSteps(rosetta, c, fieldMap, trans.fieldUpdates).events)
      ensures unresolved == old(unresolved) + UpdateSteps(rosetta, c, fieldMap, trans.fieldUpdates).logs
      ensures fieldUpdatesFound == old(fieldUpdatesFound) + |trans.fieldUpdates|
      ensures unresolvedFields == old(unresolvedFields) + |UpdateSteps(rosetta, c, fieldMap, trans.fieldUpdates).logs|
    {
      var fus := trans.fieldUpdates;
      for i := 0 to |fus|
        invariant tracker.profiles == Usage.RecordAll(old(tracker.profiles), UpdateSteps(rosetta, c, fieldMap, fus[..i]).events)
        invariant unresolved == old(unresolved) + UpdateSteps(rosetta, c, fieldMap, fus[..i]).logs
        invariant fieldUpdatesFound == old(fieldUpdatesFound) + i
        invariant unresolvedFields == old(unresolvedFields) + |UpdateSteps(rosetta, c, fieldMap, fus[..i]).logs|
      {
        UpdateStepsSnoc(rosetta, c, fieldMap, fus, i);
        ghost var before := UpdateSteps(rosetta, c, fieldMap, fus[..i]);
        ghost var step := UpdateStep(rosetta, c, fieldMap, fus[i]);
        ProcessFieldUpdate(fus[i], c, fieldMap);
        Usage.RecordAllAppend(old(tracker.profiles), before.events, step.events);
        Text.AppendAssoc(old(unresolved), before.logs, step.logs);
      }
      assert fus[..|fus|] == fus;
    }

    /** `_process_criteria`; it reports a usage but counts nothing. */
    method ProcessCriteria(trans: Transition, c: Context)
      modifies tracker
      ensures tracker.profiles == Usage.RecordAll(old(tracker.profiles), CriteriaEvents(c, trans.criteria))
    {
      var criteria := trans.criteria;
      if criteria == "" || Text.Strip(criteria) == "" {
        return;
      }
      var u := Usage.FieldUsage(Usage.Read, Usage.Blueprint, c.sourceLabel, c.sourceId, c.moduleName, CriteriaField,
         map["criteria_string" := Json.Str(criteria), "note" := Json.Str("Unparsed transition criteria")]);
      tracker.AddUsage(u);
      Usage.RecordAllOne(old(tracker.profiles), u);
    }

    /** The three passes of `_analyze_transition` over an already built field map. */
    method AnalyzeWith(trans: Transition, c: Context, fieldMap: map<string, string>)
      modifies this`entryFieldsFound, this`fieldUpdatesFound, this`unresolvedFields, this`unresolved, tracker
      ensures tracker.profiles == Usage.RecordAll(old(tracker.profiles), TransitionWith(rosetta, c, trans, fieldMap).events)
      ensures unresolved == old(unresolved) + TransitionWith(rosetta, c, trans, fieldMap).logs
      ensures unresolvedFields == old(unresolvedFields) + |TransitionWith(rosetta, c, trans, fieldMap).logs|
      ensures entryFieldsFound == old(entryFieldsFound) + CountEntryFields(trans.fields)
      ensures fieldUpdatesFound == old(fieldUpdatesFound) + |trans.fieldUpdates|
    {
      TransitionWithRecorded(rosetta, c, trans, fieldMap, tracker.profiles, unresolved);
      ProcessFieldPasses(trans, c, fieldMap);
      ProcessCriteria(trans, c);
    }

    /** The DURING pass, then the AFTER pass, of `_analyze_transition`. */
    method ProcessFieldPasses(trans: Transition, c: Context, fieldMap: map<string, string>)
      modifies this`entryFieldsFound, this`fieldUpdatesFound, this`unresolvedFields, this`unresolved, tracker
      ensures tracker.profiles == Usage.RecordAll(Usage.RecordAll(old(tracker.profiles), EntrySteps(rosetta, c, fieldMap, trans.fields).events),
                                                  UpdateSteps(rosetta, c, fieldMap, trans.fieldUpdates).events)
      ensures unresolved == old(unresolved) + EntrySteps(rosetta, c, fieldMap, trans.fields).logs + UpdateSteps(rosetta, c, fieldMap, trans.fieldUpdates).logs
      ensures unresolvedFields == old(unresolvedFields) + |EntrySteps(rosetta, c, fieldMap, trans.fields).logs| + |UpdateSteps(rosetta, c, fieldMap, trans.fieldUpdates).logs|
      ensures entryFieldsFound == old(entryFieldsFound) + CountEntryFields(trans.fields)
      ensures fieldUpdatesFound == old(fieldUpdatesFound) + |trans.fieldUpdates|
    {
      ProcessDuringFields(trans, c, fieldMap);
      ghost var ef1 := entryFieldsFound;
      ProcessFieldUpdates(trans, c, fieldMap);
      assert entryFieldsFound == ef1;
    }

    /** `_analyze_transition` */
    method AnalyzeTransition(trans: Transition, c: Context)
      modifies this`entryFieldsFound, this`fieldUpdatesFound, this`unresolvedFields, this`unresolved, tracker
      ensures tracker.profiles == Usage.RecordAll(old(tracker.profiles), TransitionEmitted(rosetta, c, trans).events)
      ensures unresolved == old(unresolved) + TransitionEmitted(rosetta, c, trans).logs
      ensures entryFieldsFound == old(entryFieldsFound) + CountEntryFields(trans.fields)
      ensures fieldUpdatesFound == old(fieldUpdatesFound) + |trans.fieldUpdates|
      ensures old(Valid()) ==> Valid()
    {
      var fieldMap := BuildFieldsMetaMap(trans, c.moduleName);
      AnalyzeWith(trans, c, fieldMap);
    }

    /** The body of `analyze_all`'s loop for one transition file. */
    method AnalyzeTransitionFile(names: map<string, string>, stem: string, trans: Transition)
      modifies this`transitionsProcessed, this`entryFieldsFound, this`fieldUpdatesFound, this`unresolvedFields, this`unresolved, tracker
      ensures tracker.profiles == Usage.RecordAll(old(tracker.profiles), TransitionEmitted(rosetta, TransitionContext(names, stem, trans), trans).events)
      ensures unresolved == old(unresolved) + TransitionEmitted(rosetta, TransitionContext(names, stem, trans), trans).logs
      ensures transitionsProcessed == old(transitionsProcessed) + 1
      ensures entryFieldsFound == old(entryFieldsFound) + CountEntryFields(trans.fields)
      ensures fieldUpdatesFound == old(fieldUpdatesFound) + |trans.fieldUpdates|
      ensures old(Valid()) ==> Valid()
    {
      var bpId := BlueprintIdOf(stem);
      var bpName := Get(names, bpId).GetOr(bpId);
      var transName := trans.name.GetOr(stem);
      var moduleName := MapModule(trans.moduleRaw);
      var c := Context(moduleName, bpName + " > " + transName, stem);
      assert c == TransitionContext(names, stem, trans);
      AnalyzeTransition(trans, c);
      transitionsProcessed := transitionsProcessed + 1;
    }

    /** `analyze_all`'s loop over the transition files, taken in file-name order. */
    method AnalyzeTransitions(names: map<string, string>, files: seq<(string, Transition)>)
      modifies this`transitionsProcessed, this`entryFieldsFound, this`fieldUpdatesFound, this`unresolvedFields, this`unresolved, tracker
      ensures tracker.profiles == Usage.RecordAll(old(tracker.profiles), AllEmitted(rosetta, names, files).events)
      ensures unresolved == old(unresolved) + AllEmitted(rosetta, names, files).logs
      ensures transitionsProcessed == old(transitionsProcessed) + |files|
      ensures entryFieldsFound == old(entryFieldsFound) + TotalEntryFields(files)
      ensures fieldUpdatesFound == old(fieldUpdatesFound) + TotalFieldUpdates(files)
      ensures old(Valid()) ==> Valid()
    {
      for i := 0 to |files|
        invariant tracker.profiles == Usage.RecordAll(old(tracker.profiles), AllEmitted(rosetta, names, files[..i]).events)
        invariant unresolved == old(unresolved) + AllEmitted(rosetta, names, files[..i]).logs
        invariant transitionsProcessed == old(transitionsProcessed) + i
        invariant entryFieldsFound == old(entryFieldsFound) + TotalEntryFields(files[..i])
        invariant fieldUpdatesFound == old(fieldUpdatesFound) + TotalFieldUpdates(files[..i])
        invariant old(Valid()) ==> Valid()
      {
        AllEmittedSnoc(rosetta, names, files, i);
        ghost var before := AllEmitted(rosetta, names, files[..i]);
        ghost var step := TransitionEmitted(rosetta, TransitionContext(names, files[i].0, files[i].1), files[i].1);
        AnalyzeTransitionFile(names, files[i].0, files[i].1);
        Usage.RecordAllAppend(old(tracker.profiles), before.events, step.events);
        Text.AppendAssoc(old(unresolved), before.logs, step.logs);
      }
      assert files[..|files|] == files;
    }

    /**
     * `analyze_all`: the blueprint files (in directory order) name the
     * blueprints, then every transition file (in file-name order) is
     * analyzed. Without a transitions directory nothing happens at all.
     */
    method AnalyzeAll(indexFiles: seq<(string, BlueprintDoc)>, transitions: Option<seq<(string, Transition)>>)
      modifies this`blueprintsProcessed, this`transitionsProcessed, this`entryFieldsFound, this`fieldUpdatesFound,
               this`unresolvedFields, this`unresolved, tracker
      ensures transitions.None? ==> unchanged(this) && unchanged(tracker)
      ensures transitions.Some? ==>
        var names := BlueprintNames(indexFiles);
        && blueprintsProcessed == |names|
        && tracker.profiles == Usage.RecordAll(old(tracker.profiles), AllEmitted(rosetta, names, transitions.value).events)
        && unresolved == old(unresolved) + AllEmitted(rosetta, names, transitions.value).logs
        && transitionsProcessed == old(transitionsProcessed) + |transitions.value|
        && entryFieldsFound == old(entryFieldsFound) + TotalEntryFields(transitions.value)
        && fieldUpdatesFound == old(fieldUpdatesFound) + TotalFieldUpdates(transitions.value)
      ensures old(Valid()) ==> Valid()
    {
      if transitions.None? {
        return;
      }
      var names: map<string, string> := map[];
      for i := 0 to |indexFiles|
        invariant names == BlueprintNames(indexFiles[..i])
      {
        assert indexFiles[..i + 1][..i] == indexFiles[..i];
        var (stem, doc) := indexFiles[i];
        if stem != "blueprints_index" {
          names := IndexBlueprintFile(names, stem, doc);
        }
      }
      assert indexFiles[..|indexFiles|] == indexFiles;
      AnalyzeTransitions(names, transitions.value);
      blueprintsProcessed := |names|;
    }

    /** `get_function_references`: every `Deluge` action of every transition file, in file-name order. */
    method GetFunctionReferences(transitions: Option<seq<(string, Transition)>>) returns (refs: seq<FunctionRef>)
      ensures refs == FunctionReferences(transitions)
    {
      refs := [];
      if transitions.None? {
        return;
      }
      var files := transitions.value;
      for i := 0 to |files|
        invariant refs == AllFunctionRefs(files[..i])
      {
        assert files[..i + 1][..i] == files[..i];
        var (stem, trans) := files[i];
        ghost var done := refs;
        assert done + FunctionRefs(stem, trans)[..0] == done;
        for j := 0 to |trans.deluge|
          invariant refs == done + FunctionRefs(stem, trans)[..j]
        {
          var d := trans.deluge[j];
          SnocSlice(done, FunctionRefs(stem, trans), j);
          refs := refs + [FunctionRef(d.name, d.id, trans.name.GetOr(""), stem + ".json", trans.moduleRaw)];
        }
        assert FunctionRefs(stem, trans)[..|trans.deluge|] == FunctionRefs(stem, trans);
      }
      assert files[..|files|] == files;
    }
  }
}
