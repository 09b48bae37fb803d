/**
 * The field-identity resolver ("Rosetta Stone"): one field of a CRM module is
 * known by its label, its API name, its storage column name and a numeric id.
 * Per module, four tables map each of those names to the field; one more table
 * maps ids to fields across all modules, since ids are globally unique.
 */
module Rosetta {
  import opened Wrappers
  import Text

  /**
   * A field definition from a module's metadata document, reduced to the keys
   * the resolver reads. An absent key is the empty string; the id has already
   * gone through `str`.
   */
  datatype RawField = RawField(fieldLabel: string, apiName: string, columnName: string, id: string, dataType: string)

  /** One field with all its names; `raw` is the definition it was built from. */
  datatype FieldEntry = FieldEntry(
    moduleName: string,
    fieldLabel: string,
    apiName: string,
    columnName: string,
    fieldId: string,
    dataType: string,
    raw: RawField)

  /** The four naming conventions a field can be looked up by. */
  datatype KeyKind = ApiName | ColumnName | Label | Id

  function KeyOf(e: FieldEntry, k: KeyKind): string {
    match k
    case ApiName => e.apiName
    case ColumnName => e.columnName
    case Label => e.fieldLabel
    case Id => e.fieldId
  }

  function MakeEntry(moduleName: string, raw: RawField): FieldEntry {
    FieldEntry(moduleName, raw.fieldLabel, raw.apiName, raw.columnName, raw.id, raw.dataType, raw)
  }

  /** The entries `_register_module` builds for a module: one per definition, in input order. */
  function Entries(moduleName: string, fields: seq<RawField>): (es: seq<FieldEntry>)
    ensures |es| == |fields|
    ensures forall i :: 0 <= i < |fields| ==> es[i].moduleName == moduleName && es[i].raw == fields[i]
    ensures forall i :: 0 <= i < |fields| ==> es[i] == MakeEntry(moduleName, fields[i])
  {
    seq(|fields|, i requires 0 <= i < |fields| => MakeEntry(moduleName, fields[i]))
  }

  /**
   * The lookup table on one key built by assigning `table[key] = entry` for
   * every entry in order, skipping entries whose key is empty.
   */
  function Index(es: seq<FieldEntry>, k: KeyKind): map<string, FieldEntry> {
    IndexPrefix(es, |es|, k)
  }

  /** The table built from the first `n` entries. */
  function IndexPrefix(es: seq<FieldEntry>, n: nat, k: KeyKind): map<string, FieldEntry>
    requires n <= |es|
  {
    if n == 0 then map[] else Put(IndexPrefix(es, n - 1, k), es[n - 1], k)
  }

  /** `if key: table[key] = entry` */
  function Put(table: map<string, FieldEntry>, e: FieldEntry, k: KeyKind): map<string, FieldEntry> {
    if KeyOf(e, k) != "" then table[KeyOf(e, k) := e] else table
  }

  /** The table of a prefix depends only on the prefix. */
  lemma {:induction false} IndexPrefixOfPrefix(es: seq<FieldEntry>, longer: seq<FieldEntry>, n: nat, k: KeyKind)
    requires n <= |es| <= |longer| && es == longer[..|es|]
    ensures IndexPrefix(es, n, k) == IndexPrefix(longer, n, k)
  {
    if n > 0 {
      IndexPrefixOfPrefix(es, longer, n - 1, k);
    }
  }

  /** Indexing one more entry stores it under its key, when that key is non-empty. */
  lemma IndexAppend(es: seq<FieldEntry>, e: FieldEntry, k: KeyKind)
    ensures Index(es + [e], k) == Put(Index(es, k), e, k)
  {
    IndexPrefixOfPrefix(es, es + [e], |es|, k);
  }

  /** Only non-empty keys are stored, each under itself, and only entries among the first `n` are stored. */
  lemma {:induction false} IndexPrefixSound(es: seq<FieldEntry>, n: nat, k: KeyKind, key: string)
    requires n <= |es|
    ensures key in IndexPrefix(es, n, k) ==>
      key != "" && KeyOf(IndexPrefix(es, n, k)[key], k) == key && IndexPrefix(es, n, k)[key] in es[..n]
  {
    if n > 0 {
      IndexPrefixSound(es, n - 1, k, key);
      assert es[..n] == es[..n - 1] + [es[n - 1]];
    }
  }

  /** Every non-empty key of the first `n` entries is stored. */
  lemma {:induction false} IndexPrefixComplete(es: seq<FieldEntry>, n: nat, k: KeyKind, i: nat)
    requires i < n <= |es| && KeyOf(es[i], k) != ""
    ensures KeyOf(es[i], k) in IndexPrefix(es, n, k)
  {
    if i < n - 1 {
      IndexPrefixComplete(es, n - 1, k, i);
    }
  }

  /** The entry stored under a key is the last of the first `n` entries that has it. */
  lemma {:induction false} IndexPrefixLastWriter(es: seq<FieldEntry>, n: nat, k: KeyKind, i: nat)
    requires i < n <= |es| && KeyOf(es[i], k) != ""
    requires forall j :: i < j < n ==> KeyOf(es[j], k) != KeyOf(es[i], k)
    ensures KeyOf(es[i], k) in IndexPrefix(es, n, k) && IndexPrefix(es, n, k)[KeyOf(es[i], k)] == es[i]
  {
    if i < n - 1 {
      IndexPrefixLastWriter(es, n - 1, k, i);
    }
  }

  /** Every table entry is one of the indexed entries and carries the key it is stored under. */
  lemma IndexSound(es: seq<FieldEntry>, k: KeyKind)
    ensures forall key :: key in Index(es, k) ==> key != "" && KeyOf(Index(es, k)[key], k) == key && Index(es, k)[key] in es
  {
    forall key | key in Index(es, k)
      ensures key != "" && KeyOf(Index(es, k)[key], k) == key && Index(es, k)[key] in es
    {
      IndexPrefixSound(es, |es|, k, key);
      assert es[..|es|] == es;
    }
  }

  /**
   * The keyword arguments of `resolve`. The empty string stands for an argument
   * that was not supplied: the source skips `None` and `""` alike.
   */
  datatype Query = Query(apiName: string, columnName: string, fieldLabel: string, fieldId: string)

  /** The query that supplies only the `k` key. */
  function QueryBy(k: KeyKind, key: string): Query {
    match k
    case ApiName => Query(key, "", "", "")
    case ColumnName => Query("", key, "", "")
    case Label => Query("", "", key, "")
    case Id => Query("", "", "", key)
  }

  /**
   * The lookup tables of one module: its entries in `_by_api_name`,
   * `_by_column_name`, `_by_label` and `_by_id`. Those four dictionaries are
   * always given a module together, so they are kept here as one dictionary
   * from module name to the module's four tables.
   */
  datatype Tables = Tables(
    byApiName: map<string, FieldEntry>,
    byColumnName: map<string, FieldEntry>,
    byLabel: map<string, FieldEntry>,
    byId: map<string, FieldEntry>)
  {
    function On(k: KeyKind): map<string, FieldEntry> {
      match k
      case ApiName => byApiName
      case ColumnName => byColumnName
      case Label => byLabel
      case Id => byId
    }
  }

  /** The tables `_register_module` builds from a module's entries. */
  function TablesOf(es: seq<FieldEntry>): Tables {
    Tables(Index(es, ApiName), Index(es, ColumnName), Index(es, Label), Index(es, Id))
  }

  /** `_by_<k>.get(module, {}).get(key)` */
  function Lookup(tables: map<string, Tables>, moduleName: string, k: KeyKind, key: string): Option<FieldEntry> {
    if moduleName in tables && key in tables[moduleName].On(k) then Some(tables[moduleName].On(k)[key]) else None
  }

  /** The internal module names `_build_aliases` maps to API names, in the order it visits them. */
  const AliasMap: seq<(string, string)> := [("Potentials", "Deals"), ("Potential", "Deals")]

  /** The alias table after visiting `pairs` in order: an alias is added when its target is registered. */
  function WithAliases(aliases: map<string, string>, pairs: seq<(string, string)>, registered: set<string>): map<string, string> {
    if pairs == [] then aliases
    else
      var a := WithAliases(aliases, pairs[..|pairs| - 1], registered);
      var pair := pairs[|pairs| - 1];
      if pair.1 in registered then a[pair.0 := pair.1] else a
  }

  /** Only the two internal names of `Deals` are aliases, and only when `Deals` is registered. */
  ghost predicate ValidAliases(aliases: map<string, string>, registered: set<string>) {
    forall a :: a in aliases ==>
      (a == "Potentials" || a == "Potential") && aliases[a] == "Deals" && "Deals" in registered
  }

  /** Visiting a prefix of the alias map keeps a valid alias table valid. */
  lemma {:induction false} WithAliasesKeepsValid(aliases: map<string, string>, n: nat, registered: set<string>)
    requires n <= |AliasMap|
    requires ValidAliases(aliases, registered)
    ensures ValidAliases(WithAliases(aliases, AliasMap[..n], registered), registered)
  {
    if n > 0 {
      WithAliasesKeepsValid(aliases, n - 1, registered);
      assert AliasMap[..n][..n - 1] == AliasMap[..n - 1];
      assert AliasMap[..n][n - 1] == AliasMap[n - 1];
    }
  }

  /** Starting from no aliases, both internal names of `Deals` become aliases exactly when `Deals` is registered. */
  lemma AliasesOfFreshTable(registered: set<string>)
    ensures WithAliases(map[], AliasMap, registered) ==
      if "Deals" in registered then map["Potentials" := "Deals", "Potential" := "Deals"] else map[]
  {
    var first: (string, string) := ("Potentials", "Deals");
    var prefix := [first];
    assert prefix[..0] == [];
    assert WithAliases(map[], prefix[..0], registered) == map[];
    assert prefix[|prefix| - 1] == first;
    assert WithAliases(map[], prefix, registered) == if "Deals" in registered then map["Potentials" := "Deals"] else map[];
    assert AliasMap[..|AliasMap| - 1] == prefix;
  }

  /**
   * Every registered module's tables index its field list, every field of a
   * module carries the module's name, and the global table holds every id of
   * every module, each under itself.
   */
  ghost predicate TablesOk(tables: map<string, Tables>, globalById: map<string, FieldEntry>, modules: map<string, seq<FieldEntry>>) {
    && tables.Keys == modules.Keys
    && (forall m :: m in modules ==> tables[m] == TablesOf(modules[m]))
    && (forall m, i :: m in modules && 0 <= i < |modules[m]| ==> modules[m][i].moduleName == m)
    && (forall id :: id in globalById ==> id != "" && globalById[id].fieldId == id)
    && (forall m, i :: m in modules && 0 <= i < |modules[m]| && modules[m][i].fieldId != "" ==>
          modules[m][i].fieldId in globalById)
  }

  /** Registering a module (again) keeps the tables consistent. */
  lemma RegisterKeepsTablesOk(
    tables: map<string, Tables>, globalById: map<string, FieldEntry>, modules: map<string, seq<FieldEntry>>,
    moduleName: string, es: seq<FieldEntry>)
    requires TablesOk(tables, globalById, modules)
    requires forall i :: 0 <= i < |es| ==> es[i].moduleName == moduleName
    ensures TablesOk(tables[moduleName := TablesOf(es)], globalById + Index(es, Id), modules[moduleName := es])
  {
    var ts, global, ms := tables[moduleName := TablesOf(es)], globalById + Index(es, Id), modules[moduleName := es];
    assert ts.Keys == ms.Keys;
    assert forall m :: m in ms ==> ts[m] == TablesOf(ms[m]);
    assert forall m, i :: m in ms && 0 <= i < |ms[m]| ==> ms[m][i].moduleName == m;
    RegisterKeepsGlobal(globalById, modules, moduleName, es, global, ms);
  }

  /** The global table, extended with a module's ids, holds each id under itself and covers every id of that module. */
  lemma RegisterKeepsGlobal(globalById: map<string, FieldEntry>, modules: map<string, seq<FieldEntry>>, moduleName: string, es: seq<FieldEntry>,
    global: map<string, FieldEntry>, ms: map<string, seq<FieldEntry>>)
    requires forall id :: id in globalById ==> id != "" && globalById[id].fieldId == id
    requires forall m, i :: m in modules && 0 <= i < |modules[m]| && modules[m][i].fieldId != "" ==>
      modules[m][i].fieldId in globalById
    requires global == globalById + Index(es, Id) && ms == modules[moduleName := es]
    ensures forall id :: id in global ==> id != "" && global[id].fieldId == id
    ensures forall m, i :: m in ms && 0 <= i < |ms[m]| && ms[m][i].fieldId != "" ==> ms[m][i].fieldId in global
  {
    IndexSound(es, Id);
    forall i | 0 <= i < |es| && es[i].fieldId != ""
      ensures es[i].fieldId in Index(es, Id)
    {
      IndexPrefixComplete(es, |es|, Id, i);
    }
  }

  /** `_normalize_module`: the module's alias target, or the name itself. */
  function Normalize(moduleAliases: map<string, string>, moduleName: string): string {
    Get(moduleAliases, moduleName).GetOr(moduleName)
  }

  /**
   * What the resolver's queries read, as a value: the per-module tables, the
   * global id table and the module aliases.
   */
  datatype Resolver = Resolver(tables: map<string, Tables>, globalById: map<string, FieldEntry>, moduleAliases: map<string, string>)
  {
    /**
     * `resolve`: look the field up under the first supplied key, in the order
     * id, API name, column name, label. An id is tried in the module's table,
     * then in the global one.
     */
    function Resolve(moduleName: string, q: Query): (r: Option<FieldEntry>)
      ensures q == Query("", "", "", "") ==> r == None
    {
      var m := Normalize(moduleAliases, moduleName);
      if q.fieldId != "" then
        match Lookup(tables, m, Id, q.fieldId)
        case Some(e) => Some(e)
        case None => Get(globalById, q.fieldId)
      else if q.apiName != "" then Lookup(tables, m, ApiName, q.apiName)
      else if q.columnName != "" then Lookup(tables, m, ColumnName, q.columnName)
      else if q.fieldLabel != "" then Lookup(tables, m, Label, q.fieldLabel)
      else None
    }

    /** `resolve_by_id`: the global id table only. */
    function ResolveById(id: string): Option<FieldEntry> {
      Get(globalById, id)
    }
  }

  class RosettaStone {
    var tables: map<string, Tables>
    var globalById: map<string, FieldEntry>
    var moduleAliases: map<string, string>
    var modules: map<string, seq<FieldEntry>>

    /** See `TablesOk`. */
    ghost predicate TablesValid()
      reads this`tables, this`globalById, this`modules
    {
      TablesOk(tables, globalById, modules)
    }

    /** Only the two internal names of `Deals` are aliases, and only once `Deals` is registered. */
    ghost predicate AliasesValid()
      reads this`moduleAliases, this`modules
    {
      ValidAliases(moduleAliases, modules.Keys)
    }

    ghost predicate Valid()
      reads this
    {
      TablesValid() && AliasesValid()
    }

    /** The alias table `_build_aliases` builds on a fresh resolver for the modules registered now. */
    ghost predicate AliasesBuilt()
      reads this`moduleAliases, this`modules
    {
      moduleAliases == WithAliases(map[], AliasMap, modules.Keys)
    }

    constructor ()
      ensures Valid()
      ensures modules == map[] && globalById == map[] && moduleAliases == map[] && tables == map[]
    {
      tables, globalById, moduleAliases, modules := map[], map[], map[], map[];
    }

    /**
     * `_register_module`: (re)build the module's field list and its four tables
     * from its definitions, and add its ids to the global table. The global
     * table is not cleared, so ids of an earlier registration stay resolvable.
     */
    method RegisterModule(moduleName: string, fields: seq<RawField>)
      requires TablesValid() && AliasesValid()
      modifies this`tables, this`globalById, this`modules
      ensures TablesValid() && AliasesValid()
      ensures modules == old(modules)[moduleName := Entries(moduleName, fields)]
      ensures tables == old(tables)[moduleName := TablesOf(Entries(moduleName, fields))]
      ensures globalById == old(globalById) + Index(Entries(moduleName, fields), Id)
    {
      var list, t := IndexFields(moduleName, fields);
      RegisterKeepsTablesOk(tables, globalById, modules, moduleName, list);
      modules := modules[moduleName := list];
      tables := tables[moduleName := t];
      globalById := globalById + t.byId;
    }

    /**
     * The loop of `_register_module`: one entry per definition, in order, each
     * indexed under its non-empty keys. The module's list and tables are
     * filled in locals and stored by the caller, the ids also into the global
     * table; nothing reads them in between.
     */
    static method IndexFields(moduleName: string, fields: seq<RawField>) returns (list: seq<FieldEntry>, t: Tables)
      ensures list == Entries(moduleName, fields)
      ensures t == TablesOf(list)
    {
      list := [];
      var api: map<string, FieldEntry> := map[];
      var column: map<string, FieldEntry> := map[];
      var labels: map<string, FieldEntry> := map[];
      var ids: map<string, FieldEntry> := map[];
      for i := 0 to |fields|
        invariant |list| == i
        invariant forall j :: 0 <= j < i ==> list[j] == MakeEntry(moduleName, fields[j])
        invariant api == Index(list, ApiName) && column == Index(list, ColumnName)
        invariant labels == Index(list, Label) && ids == Index(list, Id)
      {
        var entry := MakeEntry(moduleName, fields[i]);
        IndexAppend(list, entry, ApiName);
        IndexAppend(list, entry, ColumnName);
        IndexAppend(list, entry, Label);
        IndexAppend(list, entry, Id);
        list := list + [entry];
        api := Put(api, entry, ApiName);
        column := Put(column, entry, ColumnName);
        labels := Put(labels, entry, Label);
        ids := Put(ids, entry, Id);
      }
      t := Tables(api, column, labels, ids);
    }

    /** `_build_aliases`: add the alias of every internal name whose API module is registered. */
    method BuildAliases()
      requires AliasesValid()
      modifies this`moduleAliases
      ensures AliasesValid()
      ensures moduleAliases == WithAliases(old(moduleAliases), AliasMap, modules.Keys)
    {
      for n := 0 to |AliasMap|
        invariant moduleAliases == WithAliases(old(moduleAliases), AliasMap[..n], modules.Keys)
      {
        var pair := AliasMap[n];
        assert AliasMap[..n + 1][..n] == AliasMap[..n];
        if pair.1 in modules {
          moduleAliases := moduleAliases[pair.0 := pair.1];
        }
      }
      assert AliasMap[..|AliasMap|] == AliasMap;
      WithAliasesKeepsValid(old(moduleAliases), |AliasMap|, modules.Keys);
    }

    /** The state `resolve` and `resolve_by_id` read, as a value. */
    function View(): Resolver
      reads this`moduleAliases, this`tables, this`globalById
    {
      Resolver(tables, globalById, moduleAliases)
    }

    /** `_normalize_module` */
    function NormalizeModule(moduleName: string): string
      reads this`moduleAliases
    {
      Normalize(moduleAliases, moduleName)
    }

    /** `resolve`; see `Resolver.Resolve`. */
    function Resolve(moduleName: string, q: Query): (r: Option<FieldEntry>)
      reads this`moduleAliases, this`tables, this`globalById
      ensures q == Query("", "", "", "") ==> r == None
    {
      View().Resolve(moduleName, q)
    }

    /** `resolve_by_id`; see `Resolver.ResolveById`. */
    function ResolveById(id: string): Option<FieldEntry>
      reads this`moduleAliases, this`tables, this`globalById
    {
      View().ResolveById(id)
    }

    /** `get_module_fields` */
    function GetModuleFields(moduleName: string): seq<FieldEntry>
      reads this`moduleAliases, this`modules
    {
      Get(modules, NormalizeModule(moduleName)).GetOr([])
    }

    /** `get_all_modules`: the registered module names, sorted, each once. */
    function GetAllModules(): (r: seq<string>)
      reads this`modules
      ensures Text.StrictlySorted(r)
      ensures forall m :: m in r <==> m in modules
    {
      Text.SortedSet(modules.Keys)
    }
  }

  // -----------------------------------------------------------------------
  // What resolution promises
  // -----------------------------------------------------------------------

  /** A table lookup finds only a field of that module that has the key looked up. */
  lemma LookupSound(tables: map<string, Tables>, globalById: map<string, FieldEntry>, modules: map<string, seq<FieldEntry>>,
    m: string, k: KeyKind, key: string)
    requires TablesOk(tables, globalById, modules)
    ensures Lookup(tables, m, k, key).Some? ==>
      KeyOf(Lookup(tables, m, k, key).value, k) == key && Lookup(tables, m, k, key).value.moduleName == m
  {
    if m in modules {
      var es := modules[m];
      assert tables[m].On(k) == Index(es, k);
      IndexPrefixSound(es, |es|, k, key);
    }
  }

  /**
   * Whatever `resolve` returns carries the key that won: the id when one was
   * supplied, otherwise the API name, then the column name, then the label;
   * a result found by a name (not by id) belongs to the normalized module.
   * The keys that lose are ignored: the query resolves as the winning key alone.
   */
  lemma ResolveMatchesWinningKey(r: RosettaStone, moduleName: string, q: Query)
    requires r.Valid()
    ensures q.fieldId != "" ==> r.Resolve(moduleName, q) == r.Resolve(moduleName, QueryBy(Id, q.fieldId))
    ensures q.fieldId == "" && q.apiName != "" ==>
              r.Resolve(moduleName, q) == r.Resolve(moduleName, QueryBy(ApiName, q.apiName))
    ensures q.fieldId == "" && q.apiName == "" && q.columnName != "" ==>
              r.Resolve(moduleName, q) == r.Resolve(moduleName, QueryBy(ColumnName, q.columnName))
    ensures q.fieldId == "" && q.apiName == "" && q.columnName == "" ==>
              r.Resolve(moduleName, q) == r.Resolve(moduleName, QueryBy(Label, q.fieldLabel))
    ensures var res := r.Resolve(moduleName, q);
      res.Some? ==>
        && (q.fieldId != "" ==> res.value.fieldId == q.fieldId)
        && (q.fieldId == "" && q.apiName != "" ==>
              res.value.apiName == q.apiName && res.value.moduleName == r.NormalizeModule(moduleName))
        && (q.fieldId == "" && q.apiName == "" && q.columnName != "" ==>
              res.value.columnName == q.columnName && res.value.moduleName == r.NormalizeModule(moduleName))
        && (q.fieldId == "" && q.apiName == "" && q.columnName == "" && q.fieldLabel != "" ==>
              res.value.fieldLabel == q.fieldLabel && res.value.moduleName == r.NormalizeModule(moduleName))
  {
    var m := r.NormalizeModule(moduleName);
    if q.fieldId != "" {
      LookupSound(r.tables, r.globalById, r.modules, m, Id, q.fieldId);
    } else if q.apiName != "" {
      LookupSound(r.tables, r.globalById, r.modules, m, ApiName, q.apiName);
    } else if q.columnName != "" {
      LookupSound(r.tables, r.globalById, r.modules, m, ColumnName, q.columnName);
    } else if q.fieldLabel != "" {
      LookupSound(r.tables, r.globalById, r.modules, m, Label, q.fieldLabel);
    }
  }

  /**
   * Round trip: a field registered in module `m` with a non-empty key is found
   * by `resolve` under that key, unless a later field of `m` has the same key,
   * in which case that later field is found (the last registration wins).
   */
  lemma ResolveFindsLastRegistered(r: RosettaStone, moduleName: string, k: KeyKind, i: nat)
    requires r.Valid()
    requires r.NormalizeModule(moduleName) in r.modules
    requires i < |r.modules[r.NormalizeModule(moduleName)]|
    requires KeyOf(r.modules[r.NormalizeModule(moduleName)][i], k) != ""
    requires forall j :: i < j < |r.modules[r.NormalizeModule(moduleName)]| ==>
      KeyOf(r.modules[r.NormalizeModule(moduleName)][j], k) != KeyOf(r.modules[r.NormalizeModule(moduleName)][i], k)
    ensures r.Resolve(moduleName, QueryBy(k, KeyOf(r.modules[r.NormalizeModule(moduleName)][i], k)))
      == Some(r.modules[r.NormalizeModule(moduleName)][i])
  {
    var m := r.NormalizeModule(moduleName);
    var es := r.modules[m];
    var key := KeyOf(es[i], k);
    assert r.tables[m].On(k) == Index(es, k);
    IndexPrefixLastWriter(es, |es|, k, i);
  }

  /**
   * A registered id is found whatever module name the caller passes, by
   * `resolve` and by `resolve_by_id`, and the field found has that id.
   */
  lemma RegisteredIdFoundUnderAnyModule(r: RosettaStone, m: string, i: nat, anyModule: string)
    requires r.Valid()
    requires m in r.modules && i < |r.modules[m]| && r.modules[m][i].fieldId != ""
    ensures var id := r.modules[m][i].fieldId;
      && r.ResolveById(id).Some? && r.ResolveById(id).value.fieldId == id
      && r.Resolve(anyModule, QueryBy(Id, id)).Some?
      && r.Resolve(anyModule, QueryBy(Id, id)).value.fieldId == id
  {
    var es := r.modules[m];
    var id := es[i].fieldId;
    assert r.tables[m] == TablesOf(es);
    IndexPrefixComplete(es, |es|, Id, i);
    assert id in r.globalById;
    LookupSound(r.tables, r.globalById, r.modules, r.NormalizeModule(anyModule), Id, id);
  }

  /**
   * `resolve_by_id` ignores modules: it never finds the empty id, the field it
   * finds has the id asked for, and it is what `resolve` by id falls back to
   * when the module's own id table has no such id.
   */
  lemma ResolveByIdSound(r: RosettaStone, moduleName: string, id: string)
    requires r.Valid()
    ensures r.ResolveById("") == None
    ensures r.ResolveById(id).Some? ==> r.ResolveById(id).value.fieldId == id
    ensures id != "" && Lookup(r.tables, r.NormalizeModule(moduleName), Id, id) == None ==>
      r.Resolve(moduleName, QueryBy(Id, id)) == r.ResolveById(id)
  {
  }

  /**
   * Once the aliases are built, `Potentials` and `Potential` name `Deals`
   * exactly when `Deals` is registered; every other name is left alone.
   */
  lemma NormalizeModuleAfterBuild(r: RosettaStone, moduleName: string)
    requires r.Valid() && r.AliasesBuilt()
    ensures r.NormalizeModule(moduleName) ==
      if (moduleName == "Potentials" || moduleName == "Potential") && "Deals" in r.modules then "Deals" else moduleName
  {
    AliasesOfFreshTable(r.modules.Keys);
  }

  /** Normalizing twice is normalizing once: `Deals` is never itself an alias. */
  lemma NormalizeModuleIdempotent(r: RosettaStone, moduleName: string)
    requires r.Valid()
    ensures r.NormalizeModule(r.NormalizeModule(moduleName)) == r.NormalizeModule(moduleName)
  {
  }

  /** `get_module_fields` returns the normalized module's own fields, or nothing for an unknown module. */
  lemma ModuleFieldsBelongToModule(r: RosettaStone, moduleName: string)
    requires r.Valid()
    ensures forall e :: e in r.GetModuleFields(moduleName) ==> e.moduleName == r.NormalizeModule(moduleName)
    ensures r.NormalizeModule(moduleName) !in r.modules ==> r.GetModuleFields(moduleName) == []
  {
    var m := r.NormalizeModule(moduleName);
    if m in r.modules {
      assert r.tables[m] == TablesOf(r.modules[m]);
    }
  }
}
