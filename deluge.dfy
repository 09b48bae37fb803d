/**
 * The Deluge function analyzer: the CRM fields a Deluge script reads with
 * `record.get("Field")` on a variable holding a fetched record, and writes
 * with `map.put("Field", …)` on a map that the script passes to
 * `zoho.crm.updateRecord` or `zoho.crm.createRecord`.
 */
module Deluge {
  import opened Wrappers
  import Json
  import Text
  import Rosetta
  import Usage
  import Patterns

  // ---------------------------------------------------------------------
  // Noise names and module aliases
  // ---------------------------------------------------------------------

  /** `NOISE_VAR_NAMES`: variables that never hold a field map. */
  const NoiseVarNames: set<string> := {
    "errLogMap", "errlogmap", "inputParams", "inputparams",
    "headers", "params", "queryParams", "body", "response",
    "resp", "result", "config", "settings", "options"
  }

  /** `NOISE_FIELD_NAMES`: keys that are never CRM fields. */
  const NoiseFieldNames: set<string> := {
    "Function", "Email_Error", "Params", "See_Line", "Module",
    "Error", "status", "code", "message", "data", "details",
    "id", "select_query", "email", "user_name", "users",
    "name", "content", "result", "response", "info",
    "$se_module", "trigger", "workflow", "blueprint", "approval"
  }

  /** The noise variable names, lower-cased. */
  const LoweredNoiseVarNames: set<string> := {
    "errlogmap", "inputparams", "headers", "params", "queryparams", "body",
    "response", "resp", "result", "config", "settings", "options"
  }

  /** The lower-cased set is the noise variable names, each lower-cased. */
  lemma LoweredNoiseVarNamesCorrect()
    ensures LoweredNoiseVarNames == set n | n in NoiseVarNames :: Text.Lower(n)
  {
    assert Text.Lower("errLogMap") == "errlogmap";
    assert Text.Lower("errlogmap") == "errlogmap";
    assert Text.Lower("inputParams") == "inputparams";
    assert Text.Lower("inputparams") == "inputparams";
    assert Text.Lower("headers") == "headers";
    assert Text.Lower("params") == "params";
    assert Text.Lower("queryParams") == "queryparams";
    assert Text.Lower("body") == "body";
    assert Text.Lower("response") == "response";
    assert Text.Lower("resp") == "resp";
    assert Text.Lower("result") == "result";
    assert Text.Lower("config") == "config";
    assert Text.Lower("settings") == "settings";
    assert Text.Lower("options") == "options";
  }

  /** A noise variable, compared without regard to case. */
  predicate IsNoiseVar(v: string) {
    Text.Lower(v) in LoweredNoiseVarNames
  }

  /** The alias table of `_normalize_module`. */
  const ModuleAliases: map<string, string> := map[
    "Potentials" := "Deals",
    "Sales_Orders" := "Sales_Orders",
    "Salesorders" := "Sales_Orders",
    "Purchase_Orders" := "Purchase_Orders"
  ]

  /**
   * `_normalize_module`: the two legacy names become their current ones and
   * every other name is kept. No result is renamed again.
   */
  function NormalizeModule(moduleName: string): (r: string)
    ensures moduleName == "Potentials" ==> r == "Deals"
    ensures moduleName == "Salesorders" ==> r == "Sales_Orders"
    ensures moduleName != "Potentials" && moduleName != "Salesorders" ==> r == moduleName
    ensures r != "Potentials" && r != "Salesorders"
  {
    Get(ModuleAliases, moduleName).GetOr(moduleName)
  }

  // ---------------------------------------------------------------------
  // The function name
  // ---------------------------------------------------------------------

  predicate IsHeader(line: string) {
    Text.StartsWith(line, "// Display_Name:") || Text.StartsWith(line, "// Function:")
  }

  /** What a header line names: the text after its first ':', stripped. */
  function HeaderName(line: string): string
    requires IsHeader(line)
  {
    if Text.StartsWith(line, "// Display_Name:") then
      assert line[..16][15] == ':';
      Text.Strip(Text.AfterFirst(line, ':'))
    else
      assert line[..12][11] == ':';
      Text.Strip(Text.AfterFirst(line, ':'))
  }

  /** The name given by the first header among `lines`, if any. */
  function FirstHeader(lines: seq<string>): Option<string> {
    if lines == [] then None
    else if IsHeader(lines[0]) then Some(HeaderName(lines[0]))
    else FirstHeader(lines[1..])
  }

  /**
   * `_extract_function_name`: the name given by a header among the first
   * five lines, else the file's stem.
   */
  function ExtractFunctionName(content: string, stem: string): (r: string)
    ensures (forall i :: 0 <= i < 5 && i < |Text.Split(content, '\n')| ==> !IsHeader(Text.Split(content, '\n')[i])) ==> r == stem
  {
    var lines := Text.Split(content, '\n');
    var head := lines[..if |lines| < 5 then |lines| else 5];
    NoHeaderFound(head);
    FirstHeader(head).GetOr(stem)
  }

  lemma {:induction false} NoHeaderFound(lines: seq<string>)
    ensures (forall i :: 0 <= i < |lines| ==> !IsHeader(lines[i])) ==> FirstHeader(lines) == None
  {
    if lines != [] {
      NoHeaderFound(lines[1..]);
      assert forall i :: 0 <= i < |lines[1..]| ==> lines[1..][i] == lines[i + 1];
    }
  }

  /** The text after a header tag is everything after the tag's own ':'. */
  lemma AfterTag(tag: string, rest: string)
    requires tag == "// Display_Name:" || tag == "// Function:"
    ensures Text.AfterFirst(tag + rest, ':') == rest
  {
    var s := tag + rest;
    var n := |tag| - 1;
    assert s[..n] == tag[..n];
    if tag == "// Display_Name:" {
      assert tag[..n] == "// Display_Name";
    } else {
      assert tag[..n] == "// Function";
    }
    Text.AfterFirstAt(s, ':', n);
    assert s[n + 1..] == rest;
  }

  /**
   * A script whose first line is a header tag is named by the stripped rest
   * of that line, whatever follows.
   */
  lemma ExtractFromHeader(tag: string, rest: string, body: string, stem: string)
    requires tag == "// Display_Name:" || tag == "// Function:"
    requires '\n' !in rest
    ensures ExtractFunctionName(tag + rest + "\n" + body, stem) == Text.Strip(rest)
  {
    var first := tag + rest;
    assert '\n' !in first by {
      assert forall k :: 0 <= k < |first| ==> first[k] == (if k < |tag| then tag[k] else rest[k - |tag|]);
    }
    Text.SplitAfter(first, body, '\n');
    assert tag + rest + "\n" + body == first + ['\n'] + body;
    AfterTag(tag, rest);
    assert Text.StartsWith(first, tag) by {
      assert first[..|tag|] == tag;
    }
    if tag == "// Function:" {
      assert !Text.StartsWith(first, "// Display_Name:") by {
        assert first[3] == 'F';
      }
    }
  }

  // ---------------------------------------------------------------------
  // Record variables and update maps
  // ---------------------------------------------------------------------

  /** The `(variable, module)` pair of each match: group `varGroup`, and group `moduleGroup` normalized. */
  function ModuleBindings(ms: seq<Patterns.Match>, varGroup: nat, moduleGroup: nat): seq<(string, string)> {
    seq(|ms|, i requires 0 <= i < |ms| => (Patterns.Group(ms[i], varGroup), NormalizeModule(Patterns.Group(ms[i], moduleGroup))))
  }

  /** The `(loop variable, list variable)` pair of each `for each` match. */
  function LoopPairs(ms: seq<Patterns.Match>): seq<(string, string)> {
    seq(|ms|, i requires 0 <= i < |ms| => (Patterns.Group(ms[i], 0), Patterns.Group(ms[i], 1)))
  }

  /** Assigning each pair to the dictionary in turn. */
  function Bind(env: map<string, string>, bs: seq<(string, string)>): map<string, string> {
    if bs == [] then env else Bind(env, bs[..|bs| - 1])[bs[|bs| - 1].0 := bs[|bs| - 1].1]
  }

  /** Last writer wins: a variable has the module of its last pair, or its old one if no pair names it. */
  lemma {:induction false} BindLastWins(env: map<string, string>, bs: seq<(string, string)>, v: string)
    ensures v in Bind(env, bs) <==> v in env || exists i :: 0 <= i < |bs| && bs[i].0 == v
    ensures forall i :: 0 <= i < |bs| && bs[i].0 == v && (forall j :: i < j < |bs| ==> bs[j].0 != v) ==>
              Bind(env, bs)[v] == bs[i].1
    ensures v in env && (forall i :: 0 <= i < |bs| ==> bs[i].0 != v) ==> Bind(env, bs)[v] == env[v]
    decreases |bs|
  {
    if bs != [] {
      var init := bs[..|bs| - 1];
      BindLastWins(env, init, v);
      assert forall i :: 0 <= i < |init| ==> init[i] == bs[i];
    }
  }

  /** Every module bound is an old one or one of the pairs'. */
  lemma {:induction false} BindValues(env: map<string, string>, bs: seq<(string, string)>)
    ensures forall v :: v in Bind(env, bs) ==>
              (v in env && Bind(env, bs)[v] == env[v]) || exists i :: 0 <= i < |bs| && Bind(env, bs)[v] == bs[i].1
    decreases |bs|
  {
    if bs != [] {
      var init := bs[..|bs| - 1];
      BindValues(env, init);
      assert forall i :: 0 <= i < |init| ==> init[i] == bs[i];
    }
  }

  /**
   * The `for each X in Y` pass, in text order: X takes Y's module when Y is
   * bound at that point.
   */
  function Propagate(env: map<string, string>, loops: seq<(string, string)>): map<string, string> {
    if loops == [] then env
    else
      var e := Propagate(env, loops[..|loops| - 1]);
      var l := loops[|loops| - 1];
      if l.1 in e then e[l.0 := e[l.1]] else e
  }

  /**
   * The loop pass loses no variable, binds only loop variables, and gives
   * them only modules that were already bound.
   */
  lemma {:induction false} PropagateInventsNothing(env: map<string, string>, loops: seq<(string, string)>)
    ensures env.Keys <= Propagate(env, loops).Keys
    ensures forall v :: v in Propagate(env, loops) ==> Propagate(env, loops)[v] in env.Values
    ensures forall v :: v in Propagate(env, loops) && v !in env ==> exists i :: 0 <= i < |loops| && loops[i].0 == v
    decreases |loops|
  {
    if loops != [] {
      var init := loops[..|loops| - 1];
      PropagateInventsNothing(env, init);
      assert forall i :: 0 <= i < |init| ==> init[i] == loops[i];
      var e := Propagate(env, init);
      var l := loops[|loops| - 1];
      if l.1 in e {
        assert e[l.1] in env.Values;
      }
      forall v | v in Propagate(env, loops) && v !in env
        ensures exists i :: 0 <= i < |loops| && loops[i].0 == v
      {
        if l.1 in e && v == l.0 {
          assert loops[|loops| - 1].0 == v;
        } else {
          var i :| 0 <= i < |init| && init[i].0 == v;
          assert loops[i].0 == v;
        }
      }
    }
  }

  /**
   * The record variables of a script whose `getRecordById`,
   * `searchRecords` and `for each` matches are given: the first two bind
   * in that order, then the loop pass runs.
   */
  function RecordVariablesOf(getMs: seq<Patterns.Match>, searchMs: seq<Patterns.Match>, loopMs: seq<Patterns.Match>): map<string, string> {
    Propagate(Bind(Bind(map[], ModuleBindings(getMs, 0, 1)), ModuleBindings(searchMs, 0, 1)), LoopPairs(loopMs))
  }

  /** `_find_record_variables` as a value. */
  function RecordVariables(content: string): map<string, string> {
    RecordVariablesOf(Patterns.Find(Patterns.GetRecord, content), Patterns.Find(Patterns.SearchRecords, content),
                      Patterns.Find(Patterns.ForEach, content))
  }

  /** Every record variable holds the normalized module of some `getRecordById` or `searchRecords` match. */
  lemma RecordVariableModules(getMs: seq<Patterns.Match>, searchMs: seq<Patterns.Match>, loopMs: seq<Patterns.Match>, v: string)
    requires v in RecordVariablesOf(getMs, searchMs, loopMs)
    ensures exists m :: (m in getMs || m in searchMs) &&
              RecordVariablesOf(getMs, searchMs, loopMs)[v] == NormalizeModule(Patterns.Group(m, 1))
  {
    var gets := ModuleBindings(getMs, 0, 1);
    var searches := ModuleBindings(searchMs, 0, 1);
    var env := Bind(Bind(map[], gets), searches);
    PropagateInventsNothing(env, LoopPairs(loopMs));
    var bound := RecordVariablesOf(getMs, searchMs, loopMs)[v];
    var u :| u in env && env[u] == bound;
    BindValues(Bind(map[], gets), searches);
    BindValues(map[], gets);
    if exists i :: 0 <= i < |searches| && env[u] == searches[i].1 {
      var i :| 0 <= i < |searches| && env[u] == searches[i].1;
      assert searchMs[i] in searchMs;
    } else {
      var i :| 0 <= i < |gets| && Bind(map[], gets)[u] == gets[i].1;
      assert getMs[i] in getMs;
    }
  }

  /**
   * The update maps of a script whose `updateRecord` and `createRecord`
   * matches are given: the third argument of each `updateRecord`, then the
   * second argument of each `createRecord`, bound to the call's normalized
   * module.
   */
  function UpdateMapsOf(updateMs: seq<Patterns.Match>, createMs: seq<Patterns.Match>): map<string, string> {
    Bind(Bind(map[], ModuleBindings(updateMs, 2, 0)), ModuleBindings(createMs, 1, 0))
  }

  /** `_find_update_maps` as a value. */
  function UpdateMaps(content: string): map<string, string> {
    UpdateMapsOf(Patterns.Find(Patterns.UpdateRecord, content), Patterns.Find(Patterns.CreateRecord, content))
  }

  /**
   * The update maps are exactly the payload variables of the two calls; a
   * variable passed to `createRecord` takes the module of its last such call,
   * whatever `updateRecord` calls say.
   */
  lemma UpdateMapsFrom(updateMs: seq<Patterns.Match>, createMs: seq<Patterns.Match>, v: string)
    ensures v in UpdateMapsOf(updateMs, createMs) <==>
              (exists i :: 0 <= i < |updateMs| && Patterns.Group(updateMs[i], 2) == v) ||
              (exists i :: 0 <= i < |createMs| && Patterns.Group(createMs[i], 1) == v)
    ensures forall i :: (0 <= i < |createMs| && Patterns.Group(createMs[i], 1) == v &&
                         forall j :: i < j < |createMs| ==> Patterns.Group(createMs[j], 1) != v) ==>
              UpdateMapsOf(updateMs, createMs)[v] == NormalizeModule(Patterns.Group(createMs[i], 0))
  {
    var updates := ModuleBindings(updateMs, 2, 0);
    var creates := ModuleBindings(createMs, 1, 0);
    assert forall i :: 0 <= i < |updates| ==> updates[i].0 == Patterns.Group(updateMs[i], 2);
    assert forall i :: 0 <= i < |creates| ==> creates[i] == (Patterns.Group(createMs[i], 1), NormalizeModule(Patterns.Group(createMs[i], 0)));
    BindLastWins(map[], updates, v);
    BindLastWins(Bind(map[], updates), creates, v);
  }

  // ---------------------------------------------------------------------
  // READs and WRITEs
  // ---------------------------------------------------------------------

  /** The usages a scan yields, with the number of them that resolved and that did not. */
  datatype Found = Found(events: seq<Usage.FieldUsage>, resolved: nat, unresolved: nat)

  function Plus(a: Found, b: Found): Found {
    Found(a.events + b.events, a.resolved + b.resolved, a.unresolved + b.unresolved)
  }

  const NothingFound := Found([], 0, 0)

  function SourceName(funcName: string): string {
    "Function: " + funcName
  }

  /** One usage of `field` in `moduleName`, flagged `unresolved` when the stone does not know the field. */
  function Flagged(rv: Rosetta.Resolver, kind: Usage.UsageType, funcName: string, sourceId: string,
                   moduleName: string, field: string, details: map<string, Json.Value>): Found
  {
    if rv.Resolve(moduleName, Rosetta.QueryBy(Rosetta.ApiName, field)).Some? then
      Found([Usage.FieldUsage(kind, Usage.Function, SourceName(funcName), sourceId, moduleName, field, details)], 1, 0)
    else
      Found([Usage.FieldUsage(kind, Usage.Function, SourceName(funcName), sourceId, moduleName, field,
                              details["unresolved" := Json.Bool(true)])], 0, 1)
  }

  /** The READ a `.get("F")` match yields: only on a record variable, and never for a noise field. */
  function ReadStep(rv: Rosetta.Resolver, content: string, records: map<string, string>,
                    funcName: string, sourceId: string, m: Patterns.Match): Found
    requires m.start <= |content|
  {
    var v := Patterns.Group(m, 0);
    var field := Patterns.Group(m, 1);
    if field in NoiseFieldNames || v !in records then NothingFound
    else Flagged(rv, Usage.Read, funcName, sourceId, records[v], field,
                 map["line" := Json.Num(Text.LineNumber(content, m.start))])
  }

  /** `s[:n]` */
  function Truncate(s: string, n: nat): (r: string)
    ensures |r| <= n && Text.StartsWith(s, r)
    ensures |s| <= n ==> r == s
  {
    if |s| <= n then s else s[..n]
  }

  /** The text of the line on which position `p` lies, as `content.split('\n')[line - 1]`. */
  function LineText(content: string, p: nat): string
    requires p <= |content|
  {
    Text.Split(content, '\n')[Text.LineNumber(content, p) - 1]
  }

  /**
   * The WRITE a `.put("F", …)` match yields: only on an update map, never
   * for a noise field or a noise variable; its context is its line, stripped
   * and cut to 200 characters.
   */
  function WriteStep(rv: Rosetta.Resolver, content: string, updateMaps: map<string, string>,
                     funcName: string, sourceId: string, m: Patterns.Match): Found
    requires m.start <= |content|
  {
    var v := Patterns.Group(m, 0);
    var field := Patterns.Group(m, 1);
    if field in NoiseFieldNames || IsNoiseVar(v) || v !in updateMaps then NothingFound
    else
      Flagged(rv, Usage.Write, funcName, sourceId, updateMaps[v], field,
              map["line" := Json.Num(Text.LineNumber(content, m.start)),
                  "context" := Json.Str(Truncate(Text.Strip(LineText(content, m.start)), 200))])
  }

  predicate InText(ms: seq<Patterns.Match>, content: string) {
    forall i :: 0 <= i < |ms| ==> ms[i].start <= |content|
  }

  function ReadsOf(rv: Rosetta.Resolver, content: string, records: map<string, string>,
                   funcName: string, sourceId: string, ms: seq<Patterns.Match>): Found
    requires InText(ms, content)
  {
    if ms == [] then NothingFound
    else Plus(ReadsOf(rv, content, records, funcName, sourceId, ms[..|ms| - 1]),
              ReadStep(rv, content, records, funcName, sourceId, ms[|ms| - 1]))
  }

  function WritesOf(rv: Rosetta.Resolver, content: string, updateMaps: map<string, string>,
                    funcName: string, sourceId: string, ms: seq<Patterns.Match>): Found
    requires InText(ms, content)
  {
    if ms == [] then NothingFound
    else Plus(WritesOf(rv, content, updateMaps, funcName, sourceId, ms[..|ms| - 1]),
              WriteStep(rv, content, updateMaps, funcName, sourceId, ms[|ms| - 1]))
  }

  /** Extending the matches by one adds that match's READ step. */
  lemma ReadsOfSnoc(rv: Rosetta.Resolver, content: string, records: map<string, string>,
                    funcName: string, sourceId: string, ms: seq<Patterns.Match>, i: nat)
    requires InText(ms, content) && i < |ms|
    ensures ReadsOf(rv, content, records, funcName, sourceId, ms[..i + 1])
            == Plus(ReadsOf(rv, content, records, funcName, sourceId, ms[..i]),
                    ReadStep(rv, content, records, funcName, sourceId, ms[i]))
  {
    assert ms[..i + 1][..i] == ms[..i];
  }

  /** Extending the matches by one adds that match's WRITE step. */
  lemma WritesOfSnoc(rv: Rosetta.Resolver, content: string, updateMaps: map<string, string>,
                     funcName: string, sourceId: string, ms: seq<Patterns.Match>, i: nat)
    requires InText(ms, content) && i < |ms|
    ensures WritesOf(rv, content, updateMaps, funcName, sourceId, ms[..i + 1])
            == Plus(WritesOf(rv, content, updateMaps, funcName, sourceId, ms[..i]),
                    WriteStep(rv, content, updateMaps, funcName, sourceId, ms[i]))
  {
    assert ms[..i + 1][..i] == ms[..i];
  }

  /** The READs of a whole script: its `.get` matches against its record variables. */
  function FunctionReads(rv: Rosetta.Resolver, content: string, funcName: string, sourceId: string): Found {
    ReadsOf(rv, content, RecordVariables(content), funcName, sourceId, Patterns.Find(Patterns.DotGet, content))
  }

  /** The WRITEs of a whole script: its `.put` matches against its update maps. */
  function FunctionWrites(rv: Rosetta.Resolver, content: string, funcName: string, sourceId: string): Found {
    WritesOf(rv, content, UpdateMaps(content), funcName, sourceId, Patterns.Find(Patterns.DotPut, content))
  }

  // ---------------------------------------------------------------------
  // What the scans promise
  // ---------------------------------------------------------------------

  /** The number of usages flagged `unresolved`. */
  function FlaggedCount(us: seq<Usage.FieldUsage>): nat {
    if us == [] then 0 else FlaggedCount(us[..|us| - 1]) + (if "unresolved" in us[|us| - 1].details then 1 else 0)
  }

  lemma {:induction false} FlaggedCountAppend(a: seq<Usage.FieldUsage>, b: seq<Usage.FieldUsage>)
    ensures FlaggedCount(a + b) == FlaggedCount(a) + FlaggedCount(b)
    decreases |b|
  {
    if b == [] {
      assert a + b == a;
    } else {
      FlaggedCountAppend(a, b[..|b| - 1]);
      assert (a + b)[..|a + b| - 1] == a + b[..|b| - 1];
    }
  }

  /** The counters agree with the usages: each is counted once, as resolved or as unresolved, by its flag. */
  predicate Counted(f: Found) {
    |f.events| == f.resolved + f.unresolved && f.unresolved == FlaggedCount(f.events)
  }

  /** A usage of the scan of `funcName`: a `kind` usage from a function, flagged exactly when unresolved. */
  predicate FromScan(rv: Rosetta.Resolver, u: Usage.FieldUsage, kind: Usage.UsageType, funcName: string, sourceId: string) {
    u.usageType == kind && u.sourceType == Usage.Function && u.sourceName == SourceName(funcName) &&
    u.sourceId == sourceId && u.fieldApiName !in NoiseFieldNames &&
    ("unresolved" in u.details <==> rv.Resolve(u.moduleName, Rosetta.QueryBy(Rosetta.ApiName, u.fieldApiName)).None?)
  }

  /** Every usage is from the scan of `funcName` and names one of `modules`. */
  predicate AllFromScan(rv: Rosetta.Resolver, us: seq<Usage.FieldUsage>, kind: Usage.UsageType, funcName: string,
                        sourceId: string, modules: set<string>) {
    forall k :: 0 <= k < |us| ==> FromScan(rv, us[k], kind, funcName, sourceId) && us[k].moduleName in modules
  }

  lemma FlaggedCounted(rv: Rosetta.Resolver, kind: Usage.UsageType, funcName: string, sourceId: string,
                       moduleName: string, field: string, details: map<string, Json.Value>)
    requires "unresolved" !in details
    ensures Counted(Flagged(rv, kind, funcName, sourceId, moduleName, field, details))
    ensures |Flagged(rv, kind, funcName, sourceId, moduleName, field, details).events| == 1
  {
    var f := Flagged(rv, kind, funcName, sourceId, moduleName, field, details);
    assert f.events[..0] == [];
  }

  lemma FlaggedFromScan(rv: Rosetta.Resolver, kind: Usage.UsageType, funcName: string, sourceId: string,
                        moduleName: string, field: string, details: map<string, Json.Value>, modules: set<string>)
    requires "unresolved" !in details && field !in NoiseFieldNames && moduleName in modules
    ensures AllFromScan(rv, Flagged(rv, kind, funcName, sourceId, moduleName, field, details).events, kind, funcName, sourceId, modules)
  {
  }

  /** Counts add up. */
  lemma PlusCounted(a: Found, b: Found)
    requires Counted(a) && Counted(b)
    ensures Counted(Plus(a, b))
  {
    FlaggedCountAppend(a.events, b.events);
  }

  lemma PlusFromScan(rv: Rosetta.Resolver, a: seq<Usage.FieldUsage>, b: seq<Usage.FieldUsage>, kind: Usage.UsageType, funcName: string,
                     sourceId: string, modules: set<string>)
    requires AllFromScan(rv, a, kind, funcName, sourceId, modules) && AllFromScan(rv, b, kind, funcName, sourceId, modules)
    ensures AllFromScan(rv, a + b, kind, funcName, sourceId, modules)
  {
    assert forall k :: |a| <= k < |a + b| ==> (a + b)[k] == b[k - |a|];
  }

  /** A `.get` match qualifies for a READ. */
  predicate Readable(records: map<string, string>, m: Patterns.Match) {
    Patterns.Group(m, 1) !in NoiseFieldNames && Patterns.Group(m, 0) in records
  }

  /** The number of `.get` matches that qualify for a READ. */
  function ReadableCount(records: map<string, string>, ms: seq<Patterns.Match>): nat {
    if ms == [] then 0
    else ReadableCount(records, ms[..|ms| - 1]) + (if Readable(records, ms[|ms| - 1]) then 1 else 0)
  }

  /** One `.get` match yields one READ exactly when it qualifies, counted by its flag. */
  lemma ReadStepCounted(rv: Rosetta.Resolver, content: string, records: map<string, string>,
                      funcName: string, sourceId: string, m: Patterns.Match)
    requires m.start <= |content|
    ensures Counted(ReadStep(rv, content, records, funcName, sourceId, m))
    ensures |ReadStep(rv, content, records, funcName, sourceId, m).events| == (if Readable(records, m) then 1 else 0)
  {
    if Readable(records, m) {
      FlaggedCounted(rv, Usage.Read, funcName, sourceId, records[Patterns.Group(m, 0)], Patterns.Group(m, 1),
                     map["line" := Json.Num(Text.LineNumber(content, m.start))]);
    }
  }

  /** The READ of one match is from this scan, in the module of its variable. */
  lemma ReadStepFromScan(rv: Rosetta.Resolver, content: string, records: map<string, string>,
                       funcName: string, sourceId: string, m: Patterns.Match)
    requires m.start <= |content|
    ensures AllFromScan(rv, ReadStep(rv, content, records, funcName, sourceId, m).events, Usage.Read, funcName, sourceId, records.Values)
  {
    if Readable(records, m) {
      FlaggedFromScan(rv, Usage.Read, funcName, sourceId, records[Patterns.Group(m, 0)], Patterns.Group(m, 1),
                      map["line" := Json.Num(Text.LineNumber(content, m.start))], records.Values);
    }
  }

  /**
   * Each `.get("F")` on a record variable, with F not a noise name, yields exactly one READ; the counters agree with the
   * `unresolved` flags.
   */
  lemma {:induction false} ReadsCounted(rv: Rosetta.Resolver, content: string, records: map<string, string>,
                                      funcName: string, sourceId: string, ms: seq<Patterns.Match>)
    requires InText(ms, content)
    ensures Counted(ReadsOf(rv, content, records, funcName, sourceId, ms))
    decreases |ms|
  {
    if ms != [] {
      var init := ms[..|ms| - 1];
      var m := ms[|ms| - 1];
      ReadsCounted(rv, content, records, funcName, sourceId, init);
      ReadStepCounted(rv, content, records, funcName, sourceId, m);
      PlusCounted(ReadsOf(rv, content, records, funcName, sourceId, init), ReadStep(rv, content, records, funcName, sourceId, m));
    }
  }

  /** One READ per qualifying match, in the order of the matches. */
  lemma {:induction false} ReadsCount(rv: Rosetta.Resolver, content: string, records: map<string, string>,
                                   funcName: string, sourceId: string, ms: seq<Patterns.Match>)
    requires InText(ms, content)
    ensures |ReadsOf(rv, content, records, funcName, sourceId, ms).events| == ReadableCount(records, ms)
    decreases |ms|
  {
    if ms != [] {
      ReadsCount(rv, content, records, funcName, sourceId, ms[..|ms| - 1]);
    }
  }

  /**
   * Every READ is one of this function's, of a non-noise field, in the
   * module of its variable, and flagged `unresolved` exactly when the stone
   * does not know the field there.
   */
  lemma {:induction false} ReadsFromScan(rv: Rosetta.Resolver, content: string, records: map<string, string>,
                                       funcName: string, sourceId: string, ms: seq<Patterns.Match>)
    requires InText(ms, content)
    ensures AllFromScan(rv, ReadsOf(rv, content, records, funcName, sourceId, ms).events, Usage.Read, funcName, sourceId, records.Values)
    decreases |ms|
  {
    if ms != [] {
      var init := ms[..|ms| - 1];
      var m := ms[|ms| - 1];
      ReadsFromScan(rv, content, records, funcName, sourceId, init);
      ReadStepFromScan(rv, content, records, funcName, sourceId, m);
      PlusFromScan(rv, ReadsOf(rv, content, records, funcName, sourceId, init).events, ReadStep(rv, content, records, funcName, sourceId, m).events,
                   Usage.Read, funcName, sourceId, records.Values);
    }
  }

  /** A `.put` match qualifies for a WRITE. */
  predicate Writable(updateMaps: map<string, string>, m: Patterns.Match) {
    Patterns.Group(m, 1) !in NoiseFieldNames && !IsNoiseVar(Patterns.Group(m, 0)) && Patterns.Group(m, 0) in updateMaps
  }

  /** The number of `.put` matches that qualify for a WRITE. */
  function WritableCount(updateMaps: map<string, string>, ms: seq<Patterns.Match>): nat {
    if ms == [] then 0
    else WritableCount(updateMaps, ms[..|ms| - 1]) + (if Writable(updateMaps, ms[|ms| - 1]) then 1 else 0)
  }

  /** One `.put` match yields one WRITE exactly when it qualifies, counted by its flag. */
  lemma WriteStepCounted(rv: Rosetta.Resolver, content: string, updateMaps: map<string, string>,
                      funcName: string, sourceId: string, m: Patterns.Match)
    requires m.start <= |content|
    ensures Counted(WriteStep(rv, content, updateMaps, funcName, sourceId, m))
    ensures |WriteStep(rv, content, updateMaps, funcName, sourceId, m).events| == (if Writable(updateMaps, m) then 1 else 0)
  {
    if Writable(updateMaps, m) {
      FlaggedCounted(rv, Usage.Write, funcName, sourceId, updateMaps[Patterns.Group(m, 0)], Patterns.Group(m, 1),
                     map["line" := Json.Num(Text.LineNumber(content, m.start)),
                         "context" := Json.Str(Truncate(Text.Strip(LineText(content, m.start)), 200))]);
    }
  }

  /** The WRITE of one match is from this scan, in the module of its variable. */
  lemma WriteStepFromScan(rv: Rosetta.Resolver, content: string, updateMaps: map<string, string>,
                       funcName: string, sourceId: string, m: Patterns.Match)
    requires m.start <= |content|
    ensures AllFromScan(rv, WriteStep(rv, content, updateMaps, funcName, sourceId, m).events, Usage.Write, funcName, sourceId, updateMaps.Values)
  {
    if Writable(updateMaps, m) {
      FlaggedFromScan(rv, Usage.Write, funcName, sourceId, updateMaps[Patterns.Group(m, 0)], Patterns.Group(m, 1),
                      map["line" := Json.Num(Text.LineNumber(content, m.start)),
                         "context" := Json.Str(Truncate(Text.Strip(LineText(content, m.start)), 200))], updateMaps.Values);
    }
  }

  /**
   * Each `.put("F", …)` on an update map, with neither F nor the variable a noise name, yields exactly one WRITE; the counters agree with the
   * `unresolved` flags.
   */
  lemma {:induction false} WritesCounted(rv: Rosetta.Resolver, content: string, updateMaps: map<string, string>,
                                      funcName: string, sourceId: string, ms: seq<Patterns.Match>)
    requires InText(ms, content)
    ensures Counted(WritesOf(rv, content, updateMaps, funcName, sourceId, ms))
    decreases |ms|
  {
    if ms != [] {
      var init := ms[..|ms| - 1];
      var m := ms[|ms| - 1];
      WritesCounted(rv, content, updateMaps, funcName, sourceId, init);
      WriteStepCounted(rv, content, updateMaps, funcName, sourceId, m);
      PlusCounted(WritesOf(rv, content, updateMaps, funcName, sourceId, init), WriteStep(rv, content, updateMaps, funcName, sourceId, m));
    }
  }

  /** One WRITE per qualifying match, in the order of the matches. */
  lemma {:induction false} WritesCount(rv: Rosetta.Resolver, content: string, updateMaps: map<string, string>,
                                   funcName: string, sourceId: string, ms: seq<Patterns.Match>)
    requires InText(ms, content)
    ensures |WritesOf(rv, content, updateMaps, funcName, sourceId, ms).events| == WritableCount(updateMaps, ms)
    decreases |ms|
  {
    if ms != [] {
      WritesCount(rv, content, updateMaps, funcName, sourceId, ms[..|ms| - 1]);
    }
  }

  /**
   * Every WRITE is one of this function's, of a non-noise field, in the
   * module of its variable, and flagged `unresolved` exactly when the stone
   * does not know the field there.
   */
  lemma {:induction false} WritesFromScan(rv: Rosetta.Resolver, content: string, updateMaps: map<string, string>,
                                       funcName: string, sourceId: string, ms: seq<Patterns.Match>)
    requires InText(ms, content)
    ensures AllFromScan(rv, WritesOf(rv, content, updateMaps, funcName, sourceId, ms).events, Usage.Write, funcName, sourceId, updateMaps.Values)
    decreases |ms|
  {
    if ms != [] {
      var init := ms[..|ms| - 1];
      var m := ms[|ms| - 1];
      WritesFromScan(rv, content, updateMaps, funcName, sourceId, init);
      WriteStepFromScan(rv, content, updateMaps, funcName, sourceId, m);
      PlusFromScan(rv, WritesOf(rv, content, updateMaps, funcName, sourceId, init).events, WriteStep(rv, content, updateMaps, funcName, sourceId, m).events,
                   Usage.Write, funcName, sourceId, updateMaps.Values);
    }
  }

  /**
   * A WRITE records the number of the line on which its `.put` starts, and
   * as context that line, from the newline before the match to the newline
   * after it, stripped and cut to 200 characters.
   */
  lemma WriteContext(rv: Rosetta.Resolver, content: string, updateMaps: map<string, string>,
                     funcName: string, sourceId: string, m: Patterns.Match)
    requires m.start <= |content|
    requires |WriteStep(rv, content, updateMaps, funcName, sourceId, m).events| > 0
    ensures var u := WriteStep(rv, content, updateMaps, funcName, sourceId, m).events[0];
            "line" in u.details && "context" in u.details &&
            u.details["line"] == Json.Num(Text.LineNumber(content, m.start)) &&
            exists k: nat :: Text.LineFrom(content, m.start, k) &&
              u.details["context"] == Json.Str(Truncate(Text.Strip(content[k..m.start] + Text.BeforeFirst(content[m.start..], '\n')), 200))
  {
    Text.LineAt(content, m.start);
  }

  // ---------------------------------------------------------------------
  // The analyzer
  // ---------------------------------------------------------------------

  /** Everything `analyze_all` adds: the usages, in order, and the five counters. */
  datatype Stats = Stats(events: seq<Usage.FieldUsage>, functionsProcessed: nat, fieldReads: nat, fieldWrites: nat,
                         unresolvedReads: nat, unresolvedWrites: nat)

  /** What `_analyze_function` adds for one script, plus one processed function. */
  function FileStats(rv: Rosetta.Resolver, stem: string, content: string): Stats {
    var name := ExtractFunctionName(content, stem);
    var readsFound := FunctionReads(rv, content, name, stem);
    var writes := FunctionWrites(rv, content, name, stem);
    Stats(readsFound.events + writes.events, 1, readsFound.resolved, writes.resolved, readsFound.unresolved, writes.unresolved)
  }

  function AddStats(a: Stats, b: Stats): Stats {
    Stats(a.events + b.events, a.functionsProcessed + b.functionsProcessed, a.fieldReads + b.fieldReads,
          a.fieldWrites + b.fieldWrites, a.unresolvedReads + b.unresolvedReads, a.unresolvedWrites + b.unresolvedWrites)
  }

  /** `analyze_all` over `(stem, content)` files, in file-name order. */
  function AllStats(rv: Rosetta.Resolver, files: seq<(string, string)>): Stats {
    if files == [] then Stats([], 0, 0, 0, 0, 0)
    else
      var f := files[|files| - 1];
      AddStats(AllStats(rv, files[..|files| - 1]), FileStats(rv, f.0, f.1))
  }

  /** Extending the files by one adds that file's statistics. */
  lemma AllStatsSnoc(rv: Rosetta.Resolver, files: seq<(string, string)>, i: nat)
    requires i < |files|
    ensures AllStats(rv, files[..i + 1]) == AddStats(AllStats(rv, files[..i]), FileStats(rv, files[i].0, files[i].1))
  {
    assert files[..i + 1][..i] == files[..i];
  }

  /** The five counters account for every usage recorded, and one function is counted per file. */
  lemma {:induction false} AllStatsCounted(rv: Rosetta.Resolver, files: seq<(string, string)>)
    ensures var s := AllStats(rv, files);
            |s.events| == s.fieldReads + s.fieldWrites + s.unresolvedReads + s.unresolvedWrites &&
            s.functionsProcessed == |files|
    decreases |files|
  {
    if files != [] {
      var f := files[|files| - 1];
      AllStatsCounted(rv, files[..|files| - 1]);
      var name := ExtractFunctionName(f.1, f.0);
      ReadsCounted(rv, f.1, RecordVariables(f.1), name, f.0, Patterns.Find(Patterns.DotGet, f.1));
      WritesCounted(rv, f.1, UpdateMaps(f.1), name, f.0, Patterns.Find(Patterns.DotPut, f.1));
    }
  }

  class DelugeAnalyzer {
    /** The loaded stone, which the analyzer only queries. */
    const rosetta: Rosetta.Resolver
    const tracker: Usage.UsageTracker
    var functionsProcessed: nat
    var fieldReads: nat
    var fieldWrites: nat
    var unresolvedReads: nat
    var unresolvedWrites: nat

    constructor(stone: Rosetta.RosettaStone, tracker: Usage.UsageTracker)
      ensures rosetta == stone.View() && this.tracker == tracker
      ensures functionsProcessed == fieldReads == fieldWrites == unresolvedReads == unresolvedWrites == 0
    {
      rosetta := stone.View();
      this.tracker := tracker;
      functionsProcessed, fieldReads, fieldWrites, unresolvedReads, unresolvedWrites := 0, 0, 0, 0, 0;
    }

    /** A loop of `_find_record_variables` or `_find_update_maps`: each match binds its variable group to its normalized module group. */
    static method BindMatches(env: map<string, string>, ms: seq<Patterns.Match>, varGroup: nat, moduleGroup: nat)
      returns (r: map<string, string>)
      ensures r == Bind(env, ModuleBindings(ms, varGroup, moduleGroup))
    {
      r := env;
      for i := 0 to |ms|
        invariant r == Bind(env, ModuleBindings(ms, varGroup, moduleGroup)[..i])
      {
        assert ModuleBindings(ms, varGroup, moduleGroup)[..i + 1][..i] == ModuleBindings(ms, varGroup, moduleGroup)[..i];
        r := r[Patterns.Group(ms[i], varGroup) := NormalizeModule(Patterns.Group(ms[i], moduleGroup))];
      }
      assert ModuleBindings(ms, varGroup, moduleGroup)[..|ms|] == ModuleBindings(ms, varGroup, moduleGroup);
    }

    /** The `for each` loop of `_find_record_variables`. */
    static method PropagateMatches(env: map<string, string>, loopMs: seq<Patterns.Match>) returns (r: map<string, string>)
      ensures r == Propagate(env, LoopPairs(loopMs))
    {
      r := env;
      for i := 0 to |loopMs|
        invariant r == Propagate(env, LoopPairs(loopMs)[..i])
      {
        assert LoopPairs(loopMs)[..i + 1][..i] == LoopPairs(loopMs)[..i];
        var iterVar := Patterns.Group(loopMs[i], 0);
        var listVar := Patterns.Group(loopMs[i], 1);
        if listVar in r {
          r := r[iterVar := r[listVar]];
        }
      }
      assert LoopPairs(loopMs)[..|loopMs|] == LoopPairs(loopMs);
    }

    /** `_find_record_variables` */
    static method FindRecordVariables(content: string) returns (records: map<string, string>)
      ensures records == RecordVariables(content)
    {
      var getMs := Patterns.Find(Patterns.GetRecord, content);
      records := BindMatches(map[], getMs, 0, 1);
      var searchMs := Patterns.Find(Patterns.SearchRecords, content);
      records := BindMatches(records, searchMs, 0, 1);
      var loopMs := Patterns.Find(Patterns.ForEach, content);
      records := PropagateMatches(records, loopMs);
    }

    /** `_find_update_maps`; its fallback over `Map()` variables adds nothing. */
    static method FindUpdateMaps(content: string) returns (updateMaps: map<string, string>)
      ensures updateMaps == UpdateMaps(content)
    {
      var updateMs := Patterns.Find(Patterns.UpdateRecord, content);
      updateMaps := BindMatches(map[], updateMs, 2, 0);
      var createMs := Patterns.Find(Patterns.CreateRecord, content);
      updateMaps := BindMatches(updateMaps, createMs, 1, 0);
    }

    /** One `.get` match of `_analyze_function`. */
    method ScanRead(content: string, funcName: string, sourceId: string, records: map<string, string>, m: Patterns.Match)
      requires m.start <= |content|
      modifies this`fieldReads, this`unresolvedReads, tracker
      ensures tracker.profiles == Usage.RecordAll(old(tracker.profiles), ReadStep(rosetta, content, records, funcName, sourceId, m).events)
      ensures fieldReads == old(fieldReads) + ReadStep(rosetta, content, records, funcName, sourceId, m).resolved
      ensures unresolvedReads == old(unresolvedReads) + ReadStep(rosetta, content, records, funcName, sourceId, m).unresolved
    {
      var v := Patterns.Group(m, 0);
      var field := Patterns.Group(m, 1);
      if field in NoiseFieldNames || v !in records {
        return;
      }
      var moduleName := records[v];
      var details := map["line" := Json.Num(Text.LineNumber(content, m.start))];
      var u;
      if rosetta.Resolve(moduleName, Rosetta.QueryBy(Rosetta.ApiName, field)).Some? {
        u := Usage.FieldUsage(Usage.Read, Usage.Function, SourceName(funcName), sourceId, moduleName, field, details);
        fieldReads := fieldReads + 1;
        assert ReadStep(rosetta, content, records, funcName, sourceId, m) == Found([u], 1, 0);
      } else {
        u := Usage.FieldUsage(Usage.Read, Usage.Function, SourceName(funcName), sourceId, moduleName, field,
                              details["unresolved" := Json.Bool(true)]);
        unresolvedReads := unresolvedReads + 1;
        assert ReadStep(rosetta, content, records, funcName, sourceId, m) == Found([u], 0, 1);
      }
      tracker.AddUsage(u);
      Usage.RecordAllOne(old(tracker.profiles), u);
    }

    /** One `.put` match of `_analyze_function`. */
    method ScanWrite(content: string, lines: seq<string>, funcName: string, sourceId: string,
                     updateMaps: map<string, string>, m: Patterns.Match)
      requires m.start <= |content| && lines == Text.Split(content, '\n')
      modifies this`fieldWrites, this`unresolvedWrites, tracker
      ensures tracker.profiles == Usage.RecordAll(old(tracker.profiles), WriteStep(rosetta, content, updateMaps, funcName, sourceId, m).events)
      ensures fieldWrites == old(fieldWrites) + WriteStep(rosetta, content, updateMaps, funcName, sourceId, m).resolved
      ensures unresolvedWrites == old(unresolvedWrites) + WriteStep(rosetta, content, updateMaps, funcName, sourceId, m).unresolved
    {
      var v := Patterns.Group(m, 0);
      var field := Patterns.Group(m, 1);
      if field in NoiseFieldNames || IsNoiseVar(v) || v !in updateMaps {
        return;
      }
      var moduleName := updateMaps[v];
      var lineNum := Text.LineNumber(content, m.start);
      // The source's fallback to '' for a line past the end cannot happen.
      var lineText := lines[lineNum - 1];
      var details := map["line" := Json.Num(lineNum), "context" := Json.Str(Truncate(Text.Strip(lineText), 200))];
      var u;
      if rosetta.Resolve(moduleName, Rosetta.QueryBy(Rosetta.ApiName, field)).Some? {
        u := Usage.FieldUsage(Usage.Write, Usage.Function, SourceName(funcName), sourceId, moduleName, field, details);
        fieldWrites := fieldWrites + 1;
        assert WriteStep(rosetta, content, updateMaps, funcName, sourceId, m) == Found([u], 1, 0);
      } else {
        u := Usage.FieldUsage(Usage.Write, Usage.Function, SourceName(funcName), sourceId, moduleName, field,
                              details["unresolved" := Json.Bool(true)]);
        unresolvedWrites := unresolvedWrites + 1;
        assert WriteStep(rosetta, content, updateMaps, funcName, sourceId, m) == Found([u], 0, 1);
      }
      tracker.AddUsage(u);
      Usage.RecordAllOne(old(tracker.profiles), u);
    }

    /** The READ phase of `_analyze_function`. */
    method ScanReads(content: string, funcName: string, sourceId: string, records: map<string, string>, gets: seq<Patterns.Match>)
      requires InText(gets, content)
      modifies this`fieldReads, this`unresolvedReads, tracker
      ensures tracker.profiles == Usage.RecordAll(old(tracker.profiles),
                ReadsOf(rosetta, content, records, funcName, sourceId, gets).events)
      ensures fieldReads == old(fieldReads) + ReadsOf(rosetta, content, records, funcName, sourceId, gets).resolved
      ensures unresolvedReads == old(unresolvedReads) + ReadsOf(rosetta, content, records, funcName, sourceId, gets).unresolved
    {
      for i := 0 to |gets|
        invariant tracker.profiles == Usage.RecordAll(old(tracker.profiles), ReadsOf(rosetta, content, records, funcName, sourceId, gets[..i]).events)
        invariant fieldReads == old(fieldReads) + ReadsOf(rosetta, content, records, funcName, sourceId, gets[..i]).resolved
        invariant unresolvedReads == old(unresolvedReads) + ReadsOf(rosetta, content, records, funcName, sourceId, gets[..i]).unresolved
      {
        ReadsOfSnoc(rosetta, content, records, funcName, sourceId, gets, i);
        ghost var before := ReadsOf(rosetta, content, records, funcName, sourceId, gets[..i]);
        ScanRead(content, funcName, sourceId, records, gets[i]);
        Usage.RecordAllAppend(old(tracker.profiles), before.events, ReadStep(rosetta, content, records, funcName, sourceId, gets[i]).events);
      }
      assert gets[..|gets|] == gets;
    }

    /** The WRITE phase of `_analyze_function`. */
    method ScanWrites(content: string, funcName: string, sourceId: string, updateMaps: map<string, string>, puts: seq<Patterns.Match>)
      requires InText(puts, content)
      modifies this`fieldWrites, this`unresolvedWrites, tracker
      ensures tracker.profiles == Usage.RecordAll(old(tracker.profiles),
                WritesOf(rosetta, content, updateMaps, funcName, sourceId, puts).events)
      ensures fieldWrites == old(fieldWrites) + WritesOf(rosetta, content, updateMaps, funcName, sourceId, puts).resolved
      ensures unresolvedWrites == old(unresolvedWrites) + WritesOf(rosetta, content, updateMaps, funcName, sourceId, puts).unresolved
    {
      var lines := Text.Split(content, '\n');
      for i := 0 to |puts|
        invariant tracker.profiles == Usage.RecordAll(old(tracker.profiles), WritesOf(rosetta, content, updateMaps, funcName, sourceId, puts[..i]).events)
        invariant fieldWrites == old(fieldWrites) + WritesOf(rosetta, content, updateMaps, funcName, sourceId, puts[..i]).resolved
        invariant unresolvedWrites == old(unresolvedWrites) + WritesOf(rosetta, content, updateMaps, funcName, sourceId, puts[..i]).unresolved
      {
        WritesOfSnoc(rosetta, content, updateMaps, funcName, sourceId, puts, i);
        ghost var before := WritesOf(rosetta, content, updateMaps, funcName, sourceId, puts[..i]);
        ScanWrite(content, lines, funcName, sourceId, updateMaps, puts[i]);
        Usage.RecordAllAppend(old(tracker.profiles), before.events, WriteStep(rosetta, content, updateMaps, funcName, sourceId, puts[i]).events);
      }
      assert puts[..|puts|] == puts;
    }

    /** `_analyze_function`: the READs of the script, then its WRITEs. */
    method AnalyzeFunction(content: string, funcName: string, sourceId: string)
      modifies this`fieldReads, this`fieldWrites, this`unresolvedReads, this`unresolvedWrites, tracker
      ensures tracker.profiles == Usage.RecordAll(old(tracker.profiles),
                FunctionReads(rosetta, content, funcName, sourceId).events + FunctionWrites(rosetta, content, funcName, sourceId).events)
      ensures fieldReads == old(fieldReads) + FunctionReads(rosetta, content, funcName, sourceId).resolved
      ensures unresolvedReads == old(unresolvedReads) + FunctionReads(rosetta, content, funcName, sourceId).unresolved
      ensures fieldWrites == old(fieldWrites) + FunctionWrites(rosetta, content, funcName, sourceId).resolved
      ensures unresolvedWrites == old(unresolvedWrites) + FunctionWrites(rosetta, content, funcName, sourceId).unresolved
    {
      var records := FindRecordVariables(content);
      var updateMaps := FindUpdateMaps(content);
      var gets := Patterns.Find(Patterns.DotGet, content);
      ScanReads(content, funcName, sourceId, records, gets);
      var puts := Patterns.Find(Patterns.DotPut, content);
      ScanWrites(content, funcName, sourceId, updateMaps, puts);
      Usage.RecordAllAppend(old(tracker.profiles), FunctionReads(rosetta, content, funcName, sourceId).events,
                            FunctionWrites(rosetta, content, funcName, sourceId).events);
    }

    /** One file of `analyze_all`: its function name, its usages, and one more function processed. */
    method AnalyzeFile(stem: string, content: string)
      modifies this`functionsProcessed, this`fieldReads, this`fieldWrites, this`unresolvedReads, this`unresolvedWrites, tracker
      ensures tracker.profiles == Usage.RecordAll(old(tracker.profiles), FileStats(rosetta, stem, content).events)
      ensures functionsProcessed == old(functionsProcessed) + 1
      ensures fieldReads == old(fieldReads) + FileStats(rosetta, stem, content).fieldReads
      ensures fieldWrites == old(fieldWrites) + FileStats(rosetta, stem, content).fieldWrites
      ensures unresolvedReads == old(unresolvedReads) + FileStats(rosetta, stem, content).unresolvedReads
      ensures unresolvedWrites == old(unresolvedWrites) + FileStats(rosetta, stem, content).unresolvedWrites
    {
      var funcName := ExtractFunctionName(content, stem);
      AnalyzeFunction(content, funcName, stem);
      functionsProcessed := functionsProcessed + 1;
    }

    /** `analyze_all`, over `(stem, content)` pairs in file-name order. */
    method AnalyzeAll(files: seq<(string, string)>)
      modifies this`functionsProcessed, this`fieldReads, this`fieldWrites, this`unresolvedReads, this`unresolvedWrites, tracker
      ensures tracker.profiles == Usage.RecordAll(old(tracker.profiles), AllStats(rosetta, files).events)
      ensures functionsProcessed == old(functionsProcessed) + AllStats(rosetta, files).functionsProcessed
      ensures fieldReads == old(fieldReads) + AllStats(rosetta, files).fieldReads
      ensures fieldWrites == old(fieldWrites) + AllStats(rosetta, files).fieldWrites
      ensures unresolvedReads == old(unresolvedReads) + AllStats(rosetta, files).unresolvedReads
      ensures unresolvedWrites == old(unresolvedWrites) + AllStats(rosetta, files).unresolvedWrites
    {
      for i := 0 to |files|
        invariant tracker.profiles == Usage.RecordAll(old(tracker.profiles), AllStats(rosetta, files[..i]).events)
        invariant functionsProcessed == old(functionsProcessed) + AllStats(rosetta, files[..i]).functionsProcessed
        invariant fieldReads == old(fieldReads) + AllStats(rosetta, files[..i]).fieldReads
        invariant fieldWrites == old(fieldWrites) + AllStats(rosetta, files[..i]).fieldWrites
        invariant unresolvedReads == old(unresolvedReads) + AllStats(rosetta, files[..i]).unresolvedReads
        invariant unresolvedWrites == old(unresolvedWrites) + AllStats(rosetta, files[..i]).unresolvedWrites
      {
        AllStatsSnoc(rosetta, files, i);
        var (stem, content) := files[i];
        ghost var before := AllStats(rosetta, files[..i]);
        AnalyzeFile(stem, content);
        Usage.RecordAllAppend(old(tracker.profiles), before.events, FileStats(rosetta, stem, content).events);
      }
      assert files[..|files|] == files;
    }
  }
}
