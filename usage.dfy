/**
 * The aggregation store of the analyzers: one profile per `(module, api_name)`
 * field, holding every read, write and entry recorded against it, and the
 * queries the reports are built from.
 */
module Usage {
  import opened Wrappers
  import Json
  import Text

  datatype UsageType = Read | Write | Entry

  datatype SourceType = Blueprint | Workflow | Function

  /** One occurrence of a field in a blueprint, a workflow rule or a Deluge function. */
  datatype FieldUsage = FieldUsage(
    usageType: UsageType,
    sourceType: SourceType,
    sourceName: string,
    sourceId: string,
    moduleName: string,
    fieldApiName: string,
    details: map<string, Json.Value>)

  /** Everything known about one field: its Rosetta metadata and the usages recorded against it. */
  datatype FieldProfile = FieldProfile(
    moduleName: string,
    fieldLabel: string,
    apiName: string,
    columnName: string,
    fieldId: string,
    dataType: string,
    readUses: seq<FieldUsage>,
    writeUses: seq<FieldUsage>,
    entryUses: seq<FieldUsage>)

  // ---------------------------------------------------------------------
  // FieldProfile
  // ---------------------------------------------------------------------

  /** `is_used`: at least one usage of any kind. */
  predicate IsUsed(p: FieldProfile) {
    p.readUses != [] || p.writeUses != [] || p.entryUses != []
  }

  /** `total_usages`: the number of usages of all kinds; zero exactly for an unused field. */
  function TotalUsages(p: FieldProfile): (n: nat)
    ensures n == 0 <==> !IsUsed(p)
    ensures n >= |p.readUses| && n >= |p.writeUses| && n >= |p.entryUses|
  {
    |p.readUses| + |p.writeUses| + |p.entryUses|
  }

  /** `add_usage`: the usage goes at the end of the list of its kind; nothing else changes. */
  function AddToProfile(p: FieldProfile, u: FieldUsage): (r: FieldProfile)
    ensures r.(readUses := p.readUses, writeUses := p.writeUses, entryUses := p.entryUses) == p
    ensures r.readUses == p.readUses + (if u.usageType == Read then [u] else [])
    ensures r.writeUses == p.writeUses + (if u.usageType == Write then [u] else [])
    ensures r.entryUses == p.entryUses + (if u.usageType == Entry then [u] else [])
    ensures TotalUsages(r) == TotalUsages(p) + 1
    ensures IsUsed(r)
  {
    match u.usageType
    case Read => p.(readUses := p.readUses + [u])
    case Write => p.(writeUses := p.writeUses + [u])
    case Entry => p.(entryUses := p.entryUses + [u])
  }

  /** One part of the summary: a letter, a colon and a count. */
  function Part(c: char, n: nat): (r: string)
    ensures |r| >= 3 && r[0] == c
  {
    [c, ':'] + Text.NatToString(n)
  }

  /** A list of at most one part. */
  function OptionalPart(c: char, n: nat): seq<string> {
    if n > 0 then [Part(c, n)] else []
  }

  /** The non-empty parts of the summary, "R:n", "W:n", "E:n" in that order. */
  function SummaryParts(p: FieldProfile): (parts: seq<string>)
    ensures |parts| >= 1 <==> IsUsed(p)
    ensures |parts| >= 1 ==> |parts[0]| >= 1 && parts[0][0] != 'u'
  {
    OptionalPart('R', |p.readUses|) + OptionalPart('W', |p.writeUses|) + OptionalPart('E', |p.entryUses|)
  }

  /** `usage_summary`: "unused" exactly for an unused field, else the parts joined by spaces. */
  function UsageSummary(p: FieldProfile): (r: string)
    ensures r == "unused" <==> !IsUsed(p)
  {
    if !IsUsed(p) then "unused"
    else
      var parts := SummaryParts(p);
      Text.JoinStartsWith(parts, ' ');
      Text.Join(parts, ' ')
  }

  /** One summary part read back: its letter and its count. */
  function ParsePart(piece: string): Option<(char, nat)> {
    if |piece| >= 3 && piece[1] == ':' && Text.IsDigits(piece[2..]) then
      Some((piece[0], Text.ParseNat(piece[2..])))
    else None
  }

  /** Adds the count of one part to the counts of the parts after it. */
  function AddCount(c: char, n: nat, counts: Option<(nat, nat, nat)>): Option<(nat, nat, nat)> {
    match counts
    case None => None
    case Some((r, w, e)) =>
      if c == 'R' then Some((r + n, w, e))
      else if c == 'W' then Some((r, w + n, e))
      else if c == 'E' then Some((r, w, e + n))
      else None
  }

  /** The read, write and entry counts named by a list of summary parts. */
  function ParseCounts(pieces: seq<string>): Option<(nat, nat, nat)> {
    if pieces == [] then Some((0, 0, 0))
    else
      match ParsePart(pieces[0])
      case None => None
      case Some((c, n)) => AddCount(c, n, ParseCounts(pieces[1..]))
  }

  /** Reads a usage summary back into its three counts. */
  function ParseSummary(s: string): Option<(nat, nat, nat)> {
    if s == "unused" then Some((0, 0, 0)) else ParseCounts(Text.Split(s, ' '))
  }

  lemma ParsePartOf(c: char, n: nat)
    requires c != ' '
    ensures ParsePart(Part(c, n)) == Some((c, n))
    ensures ' ' !in Part(c, n)
  {
    var piece := Part(c, n);
    assert piece[2..] == Text.NatToString(n);
    Text.ParseNatToString(n);
    forall k | 2 <= k < |piece|
      ensures piece[k] != ' '
    {
      assert piece[k] == piece[2..][k - 2];
    }
  }

  /** Reading a part in front of other parts adds its count to the others'. */
  lemma ParseCountsCons(c: char, n: nat, rest: seq<string>)
    requires c != ' '
    ensures ParseCounts([Part(c, n)] + rest) == AddCount(c, n, ParseCounts(rest))
  {
    ParsePartOf(c, n);
    assert ([Part(c, n)] + rest)[1..] == rest;
  }

  lemma OptionalPartCounts(c: char, n: nat, rest: seq<string>)
    requires c != ' '
    ensures ParseCounts(OptionalPart(c, n) + rest) == if n > 0 then AddCount(c, n, ParseCounts(rest)) else ParseCounts(rest)
  {
    if n > 0 {
      ParseCountsCons(c, n, rest);
    } else {
      assert OptionalPart(c, n) + rest == rest;
    }
  }

  /** Parts for the counts `r`, `w` and `e`, zero counts left out, read back to those counts. */
  lemma {:induction false} PartsCounts(r: nat, w: nat, e: nat)
    ensures ParseCounts(OptionalPart('R', r) + OptionalPart('W', w) + OptionalPart('E', e)) == Some((r, w, e))
  {
    var pr := OptionalPart('R', r);
    var pw := OptionalPart('W', w);
    var pe := OptionalPart('E', e);
    assert pr + pw + pe == pr + (pw + (pe + [])) by {
      assert pe + [] == pe;
    }
    OptionalPartCounts('E', e, []);
    assert ParseCounts(pe + []) == Some((0, 0, e));
    OptionalPartCounts('W', w, pe + []);
    assert ParseCounts(pw + (pe + [])) == Some((0, w, e));
    OptionalPartCounts('R', r, pw + (pe + []));
  }

  lemma SummaryPartsCounts(p: FieldProfile)
    ensures ParseCounts(SummaryParts(p)) == Some((|p.readUses|, |p.writeUses|, |p.entryUses|))
  {
    PartsCounts(|p.readUses|, |p.writeUses|, |p.entryUses|);
  }

  lemma SummaryPartsSpaceFree(p: FieldProfile)
    ensures forall i :: 0 <= i < |SummaryParts(p)| ==> ' ' !in SummaryParts(p)[i]
  {
    ParsePartOf('R', |p.readUses|);
    ParsePartOf('W', |p.writeUses|);
    ParsePartOf('E', |p.entryUses|);
  }

  /** The summary determines the three counts: reading it back gives them. */
  lemma SummaryRoundTrip(p: FieldProfile)
    ensures ParseSummary(UsageSummary(p)) == Some((|p.readUses|, |p.writeUses|, |p.entryUses|))
  {
    if IsUsed(p) {
      SummaryPartsCounts(p);
      SummaryPartsSpaceFree(p);
      Text.SplitJoin(SummaryParts(p), ' ');
    }
  }

  // ---------------------------------------------------------------------
  // The store: `_profiles`, a dict keyed by (module, api_name)
  // ---------------------------------------------------------------------

  type Key = (string, string)

  function KeyOf(u: FieldUsage): Key {
    (u.moduleName, u.fieldApiName)
  }

  /** The `_profiles` dict: its keys in insertion order, and the profile stored under each key. */
  datatype Profiles = Profiles(keys: seq<Key>, byKey: map<Key, FieldProfile>)

  /** The shape every store reached from the empty one has. */
  ghost predicate Wf(s: Profiles) {
    (forall i, j :: 0 <= i < j < |s.keys| ==> s.keys[i] != s.keys[j])
    && (forall k :: k in s.byKey <==> k in s.keys)
    && (forall k :: k in s.byKey ==> s.byKey[k].moduleName == k.0 && s.byKey[k].apiName == k.1)
  }

  function NewProfile(moduleName: string, fieldLabel: string, apiName: string,
                      columnName: string, fieldId: string, dataType: string): FieldProfile
  {
    FieldProfile(moduleName, fieldLabel, apiName, columnName, fieldId, dataType, [], [], [])
  }

  /** The profile made for a field that was used but never registered. */
  function Orphan(u: FieldUsage): (p: FieldProfile)
    ensures p.moduleName == u.moduleName && p.apiName == u.fieldApiName && p.fieldLabel == u.fieldApiName
    ensures p.columnName == "" && p.fieldId == "" && p.dataType == "unknown"
    ensures !IsUsed(p)
  {
    NewProfile(u.moduleName, u.fieldApiName, u.fieldApiName, "", "", "unknown")
  }

  /** `_profiles[key] = p`: a new key goes at the end of the order, an existing one keeps its place. */
  function Put(s: Profiles, key: Key, p: FieldProfile): (r: Profiles)
    ensures r.byKey == s.byKey[key := p]
    ensures r.keys == if key in s.byKey then s.keys else s.keys + [key]
  {
    if key in s.byKey then Profiles(s.keys, s.byKey[key := p]) else Profiles(s.keys + [key], s.byKey[key := p])
  }

  /** Storing a profile that belongs to its key keeps a store well formed. */
  lemma PutKeepsWf(s: Profiles, key: Key, p: FieldProfile)
    requires Wf(s)
    requires p.moduleName == key.0 && p.apiName == key.1
    ensures Wf(Put(s, key, p))
  {
  }

  /**
   * `register_field`: adds an unused profile for a field not seen before; a
   * field already present keeps its profile, so the first registration wins.
   */
  function Register(s: Profiles, moduleName: string, fieldLabel: string, apiName: string,
                    columnName: string, fieldId: string, dataType: string): (r: Profiles)
    ensures r.byKey.Keys == s.byKey.Keys + {(moduleName, apiName)}
    ensures forall k :: k in s.byKey ==> r.byKey[k] == s.byKey[k]
    ensures (moduleName, apiName) in s.byKey ==> r == s
    ensures (moduleName, apiName) !in s.byKey ==>
      r.byKey[(moduleName, apiName)] == NewProfile(moduleName, fieldLabel, apiName, columnName, fieldId, dataType)
  {
    var key := (moduleName, apiName);
    if key in s.byKey then s
    else Put(s, key, NewProfile(moduleName, fieldLabel, apiName, columnName, fieldId, dataType))
  }

  lemma RegisterKeepsWf(s: Profiles, moduleName: string, fieldLabel: string, apiName: string,
                        columnName: string, fieldId: string, dataType: string)
    requires Wf(s)
    ensures Wf(Register(s, moduleName, fieldLabel, apiName, columnName, fieldId, dataType))
  {
    var key := (moduleName, apiName);
    if key !in s.byKey {
      PutKeepsWf(s, key, NewProfile(moduleName, fieldLabel, apiName, columnName, fieldId, dataType));
    }
  }

  /**
   * `add_usage` on the store: the usage is added to its field's profile,
   * which is first created as an orphan if the field is unknown; every
   * other profile is unchanged.
   */
  function Record(s: Profiles, u: FieldUsage): (r: Profiles)
    ensures r.byKey.Keys == s.byKey.Keys + {KeyOf(u)}
    ensures forall k :: k in s.byKey && k != KeyOf(u) ==> r.byKey[k] == s.byKey[k]
    ensures KeyOf(u) in s.byKey ==> r.keys == s.keys && r.byKey[KeyOf(u)] == AddToProfile(s.byKey[KeyOf(u)], u)
    ensures KeyOf(u) !in s.byKey ==> r.keys == s.keys + [KeyOf(u)] && r.byKey[KeyOf(u)] == AddToProfile(Orphan(u), u)
  {
    var key := KeyOf(u);
    var base := if key in s.byKey then s else Put(s, key, Orphan(u));
    Put(base, key, AddToProfile(base.byKey[key], u))
  }

  lemma RecordKeepsWf(s: Profiles, u: FieldUsage)
    requires Wf(s)
    ensures Wf(Record(s, u))
  {
    var key := KeyOf(u);
    var base := if key in s.byKey then s else Put(s, key, Orphan(u));
    if key !in s.byKey {
      PutKeepsWf(s, key, Orphan(u));
    }
    PutKeepsWf(base, key, AddToProfile(base.byKey[key], u));
  }

  /** `Register` of a new field is one `Put` of its new profile. */
  lemma RegisterIsPut(s: Profiles, moduleName: string, fieldLabel: string, apiName: string,
                      columnName: string, fieldId: string, dataType: string)
    requires (moduleName, apiName) !in s.byKey
    ensures Register(s, moduleName, fieldLabel, apiName, columnName, fieldId, dataType)
         == Put(s, (moduleName, apiName), NewProfile(moduleName, fieldLabel, apiName, columnName, fieldId, dataType))
  {
  }

  /** `Record` is one `Put` of the updated profile on the store as it was. */
  lemma RecordIsPut(s: Profiles, u: FieldUsage)
    ensures Record(s, u) == Put(s, KeyOf(u), Record(s, u).byKey[KeyOf(u)])
  {
    var key := KeyOf(u);
    var q := Record(s, u).byKey[key];
    assert Record(s, u).byKey == s.byKey[key := q];
  }

  /** The store after recording the usages one after another. */
  function RecordAll(s: Profiles, us: seq<FieldUsage>): (r: Profiles)
    ensures s.byKey.Keys <= r.byKey.Keys
  {
    if us == [] then s else Record(RecordAll(s, us[..|us| - 1]), us[|us| - 1])
  }

  lemma {:induction false} RecordAllKeepsWf(s: Profiles, us: seq<FieldUsage>)
    requires Wf(s)
    ensures Wf(RecordAll(s, us))
  {
    if us != [] {
      RecordAllKeepsWf(s, us[..|us| - 1]);
      RecordKeepsWf(RecordAll(s, us[..|us| - 1]), us[|us| - 1]);
    }
  }

  /** Recording two runs of usages is recording the first and then the second. */
  lemma {:induction false} RecordAllAppend(s: Profiles, us: seq<FieldUsage>, vs: seq<FieldUsage>)
    ensures RecordAll(s, us + vs) == RecordAll(RecordAll(s, us), vs)
    decreases |vs|
  {
    if vs == [] {
      assert us + vs == us;
    } else {
      var n := |vs| - 1;
      assert (us + vs)[..|us + vs| - 1] == us + vs[..n];
      RecordAllAppend(s, us, vs[..n]);
    }
  }

  /** Recording one more usage after a batch is recording it last. */
  lemma RecordAllSnoc(s: Profiles, us: seq<FieldUsage>, u: FieldUsage)
    ensures RecordAll(s, us + [u]) == Record(RecordAll(s, us), u)
  {
    assert (us + [u])[..|us|] == us;
  }

  lemma RecordAllOne(s: Profiles, u: FieldUsage)
    ensures RecordAll(s, [u]) == Record(s, u)
  {
    assert [u][..0] == [];
  }

  // ---------------------------------------------------------------------
  // The tracker object
  // ---------------------------------------------------------------------

  class UsageTracker {
    var profiles: Profiles

    ghost predicate Valid()
      reads this
    {
      Wf(profiles)
    }

    constructor()
      ensures Valid()
      ensures profiles == Profiles([], map[])
    {
      profiles := Profiles([], map[]);
    }

    method RegisterField(moduleName: string, fieldLabel: string, apiName: string,
                         columnName: string, fieldId: string, dataType: string)
      modifies this
      ensures profiles == Register(old(profiles), moduleName, fieldLabel, apiName, columnName, fieldId, dataType)
      ensures old(Valid()) ==> Valid()
    {
      if Valid() {
        RegisterKeepsWf(profiles, moduleName, fieldLabel, apiName, columnName, fieldId, dataType);
      }
      var key := (moduleName, apiName);
      if key !in profiles.byKey {
        profiles := Put(profiles, key, NewProfile(moduleName, fieldLabel, apiName, columnName, fieldId, dataType));
      }
    }

    method AddUsage(u: FieldUsage)
      modifies this
      ensures profiles == Record(old(profiles), u)
      ensures old(Valid()) ==> Valid()
    {
      if Valid() {
        RecordKeepsWf(profiles, u);
      }
      var key := KeyOf(u);
      if key !in profiles.byKey {
        profiles := Put(profiles, key, Orphan(u));
      }
      profiles := Put(profiles, key, AddToProfile(profiles.byKey[key], u));
    }
  }

  // ---------------------------------------------------------------------
  // Views of the store
  // ---------------------------------------------------------------------

  /** `_profiles.values()` restricted to the given keys, in their order. */
  function ValuesOf(keys: seq<Key>, byKey: map<Key, FieldProfile>): (r: seq<FieldProfile>)
    ensures (forall k :: k in keys ==> k in byKey) ==> |r| == |keys|
    ensures (forall k :: k in keys ==> k in byKey) ==> forall i {:trigger r[i]} :: 0 <= i < |keys| ==> r[i] == byKey[keys[i]]
  {
    if keys == [] then []
    else
      var n := |keys| - 1;
      ValuesOf(keys[..n], byKey) + (if keys[n] in byKey then [byKey[keys[n]]] else [])
  }

  /** `_profiles.values()`, in insertion order. */
  function Values(s: Profiles): seq<FieldProfile> {
    ValuesOf(s.keys, s.byKey)
  }

  /** `get_profile` */
  function GetProfile(s: Profiles, moduleName: string, apiName: string): (r: Option<FieldProfile>)
    ensures r.Some? <==> (moduleName, apiName) in s.byKey
    ensures Wf(s) && r.Some? ==> r.value.moduleName == moduleName && r.value.apiName == apiName
  {
    Get(s.byKey, (moduleName, apiName))
  }

  // ---------------------------------------------------------------------
  // Filters and the stable sort by (module, lower-cased label)
  // ---------------------------------------------------------------------

  /** `[p for p in vs if p.module == moduleName]` */
  function OfModule(vs: seq<FieldProfile>, moduleName: string): (r: seq<FieldProfile>)
    ensures forall p :: p in r <==> p in vs && p.moduleName == moduleName
  {
    if vs == [] then []
    else (if vs[0].moduleName == moduleName then [vs[0]] else []) + OfModule(vs[1..], moduleName)
  }

  /** The optional module filter of `get_used_fields`: an empty module name filters nothing. */
  function InScope(vs: seq<FieldProfile>, moduleFilter: string): seq<FieldProfile> {
    if moduleFilter == "" then vs else OfModule(vs, moduleFilter)
  }

  /** `[p for p in vs if p.is_used == used]` */
  function WithUsed(vs: seq<FieldProfile>, used: bool): (r: seq<FieldProfile>)
    ensures forall p :: p in r <==> p in vs && IsUsed(p) == used
  {
    if vs == [] then []
    else (if IsUsed(vs[0]) == used then [vs[0]] else []) + WithUsed(vs[1..], used)
  }

  /** Every profile is either used or unused: the two filters split the list. */
  lemma {:induction false} WithUsedSplits(vs: seq<FieldProfile>)
    ensures multiset(WithUsed(vs, true)) + multiset(WithUsed(vs, false)) == multiset(vs)
  {
    if vs != [] {
      WithUsedSplits(vs[1..]);
      assert vs == [vs[0]] + vs[1..];
    }
  }

  /** The sort key `(p.module, p.field_label.lower())`. */
  function SortKey(p: FieldProfile): (string, string) {
    (p.moduleName, Text.Lower(p.fieldLabel))
  }

  /** Python's `<` on pairs of strings. */
  predicate KeyLess(a: (string, string), b: (string, string)) {
    Text.Less(a.0, b.0) || (a.0 == b.0 && Text.Less(a.1, b.1))
  }

  lemma KeyLessAsymmetric(a: (string, string), b: (string, string))
    ensures !(KeyLess(a, b) && KeyLess(b, a))
  {
    Text.LessAsymmetric(a.0, b.0);
    Text.LessAsymmetric(a.1, b.1);
    Text.LessIrreflexive(a.0);
  }

  /** "Not after" is transitive, which is what lets insertion keep a list sorted. */
  lemma KeyNotLessTransitive(a: (string, string), b: (string, string), c: (string, string))
    requires !KeyLess(b, a) && !KeyLess(c, b)
    ensures !KeyLess(c, a)
  {
    Text.LessTotal(a.0, b.0);
    Text.LessTotal(b.0, c.0);
    Text.LessTotal(a.1, b.1);
    Text.LessTotal(b.1, c.1);
    if KeyLess(c, a) {
      if Text.Less(c.0, a.0) {
        if Text.Less(a.0, b.0) {
          Text.LessTransitive(c.0, a.0, b.0);
          if Text.Less(b.0, c.0) {
            Text.LessTransitive(c.0, b.0, c.0);
            Text.LessIrreflexive(c.0);
          }
        } else if Text.Less(b.0, c.0) {
          Text.LessTransitive(b.0, c.0, a.0);
        }
      } else {
        if Text.Less(a.0, b.0) {
          if Text.Less(b.0, c.0) {
            Text.LessTransitive(a.0, b.0, c.0);
            Text.LessIrreflexive(a.0);
          }
        } else if Text.Less(b.0, c.0) {
          Text.LessAsymmetric(b.0, c.0);
        } else if Text.Less(a.1, b.1) {
          Text.LessTransitive(c.1, a.1, b.1);
          if Text.Less(b.1, c.1) {
            Text.LessTransitive(c.1, b.1, c.1);
            Text.LessIrreflexive(c.1);
          }
        } else if Text.Less(b.1, c.1) {
          Text.LessTransitive(b.1, c.1, a.1);
        }
      }
    }
  }

  /** No profile is followed by one that sorts strictly before it. */
  predicate SortedByKey(ps: seq<FieldProfile>) {
    forall i, j :: 0 <= i < j < |ps| ==> !KeyLess(SortKey(ps[j]), SortKey(ps[i]))
  }

  /** Places `x` after every profile of a sorted list that does not sort after it. */
  function Insert(sorted: seq<FieldProfile>, x: FieldProfile): (r: seq<FieldProfile>)
    requires SortedByKey(sorted)
    ensures SortedByKey(r)
    ensures multiset(r) == multiset(sorted) + multiset{x}
    decreases |sorted|
  {
    if sorted == [] then [x]
    else
      var n := |sorted| - 1;
      var last := sorted[n];
      assert sorted == sorted[..n] + [last];
      if KeyLess(SortKey(x), SortKey(last)) then
        var r := Insert(sorted[..n], x);
        InsertBeforeLast(sorted, x, r);
        r + [last]
      else
        InsertAfterLast(sorted, x);
        sorted + [x]
  }

  lemma InsertBeforeLast(sorted: seq<FieldProfile>, x: FieldProfile, r: seq<FieldProfile>)
    requires SortedByKey(sorted) && |sorted| > 0
    requires KeyLess(SortKey(x), SortKey(sorted[|sorted| - 1]))
    requires SortedByKey(r) && multiset(r) == multiset(sorted[..|sorted| - 1]) + multiset{x}
    ensures SortedByKey(r + [sorted[|sorted| - 1]])
  {
    var last := sorted[|sorted| - 1];
    forall i | 0 <= i < |r|
      ensures !KeyLess(SortKey(last), SortKey(r[i]))
    {
      assert r[i] in multiset(r);
      if r[i] == x {
        KeyLessAsymmetric(SortKey(x), SortKey(last));
      } else {
        assert r[i] in sorted[..|sorted| - 1];
      }
    }
  }

  lemma InsertAfterLast(sorted: seq<FieldProfile>, x: FieldProfile)
    requires SortedByKey(sorted) && |sorted| > 0
    requires !KeyLess(SortKey(x), SortKey(sorted[|sorted| - 1]))
    ensures SortedByKey(sorted + [x])
  {
    var n := |sorted| - 1;
    forall i | 0 <= i < n
      ensures !KeyLess(SortKey(x), SortKey(sorted[i]))
    {
      KeyNotLessTransitive(SortKey(sorted[i]), SortKey(sorted[n]), SortKey(x));
    }
  }

  lemma SameElements(a: seq<FieldProfile>, b: seq<FieldProfile>)
    requires multiset(a) == multiset(b)
    ensures forall p :: p in a <==> p in b
  {
    forall p
      ensures p in a <==> p in b
    {
      assert p in a <==> p in multiset(a);
      assert p in b <==> p in multiset(b);
    }
  }

  /** `sorted(ps, key=SortKey)`: a sorted permutation of `ps`, built by stable insertion. */
  function SortProfiles(ps: seq<FieldProfile>): (r: seq<FieldProfile>)
    ensures SortedByKey(r)
    ensures multiset(r) == multiset(ps)
  {
    if ps == [] then []
    else
      var n := |ps| - 1;
      assert ps == ps[..n] + [ps[n]];
      Insert(SortProfiles(ps[..n]), ps[n])
  }

  // ---------------------------------------------------------------------
  // Queries
  // ---------------------------------------------------------------------

  /** `get_module_profiles`: the module's profiles, and only those, sorted by lower-cased label. */
  function GetModuleProfiles(s: Profiles, moduleName: string): (r: seq<FieldProfile>)
    ensures forall p :: p in r <==> p in Values(s) && p.moduleName == moduleName
    ensures multiset(r) == multiset(OfModule(Values(s), moduleName))
    ensures forall i, j :: 0 <= i < j < |r| ==> !Text.Less(Text.Lower(r[j].fieldLabel), Text.Lower(r[i].fieldLabel))
  {
    var ofModule := OfModule(Values(s), moduleName);
    var r := SortProfiles(ofModule);
    SameElements(r, ofModule);
    assert forall i :: 0 <= i < |r| ==> r[i] in ofModule;
    r
  }

  /** `get_all_modules`: every module that has a profile, once each, in increasing order. */
  function GetAllModules(s: Profiles): (r: seq<string>)
    ensures Text.StrictlySorted(r)
    ensures forall m :: m in r <==> exists p :: p in Values(s) && p.moduleName == m
  {
    Text.SortedSet(set p | p in Values(s) :: p.moduleName)
  }

  /** `get_used_fields(module)`: the used profiles in scope, sorted by (module, lower-cased label). */
  function GetUsedFields(s: Profiles, moduleFilter: string): (r: seq<FieldProfile>)
    ensures SortedByKey(r)
    ensures forall p :: p in r <==> p in InScope(Values(s), moduleFilter) && IsUsed(p)
  {
    var used := WithUsed(InScope(Values(s), moduleFilter), true);
    SameElements(SortProfiles(used), used);
    SortProfiles(used)
  }

  /** `get_unused_fields(module)`: the unused profiles in scope, sorted by (module, lower-cased label). */
  function GetUnusedFields(s: Profiles, moduleFilter: string): (r: seq<FieldProfile>)
    ensures SortedByKey(r)
    ensures forall p :: p in r <==> p in InScope(Values(s), moduleFilter) && !IsUsed(p)
  {
    var unused := WithUsed(InScope(Values(s), moduleFilter), false);
    SameElements(SortProfiles(unused), unused);
    SortProfiles(unused)
  }

  /** The used and the unused fields together are the profiles in scope, each exactly once. */
  lemma UsedUnusedPartition(s: Profiles, moduleFilter: string)
    ensures multiset(GetUsedFields(s, moduleFilter)) + multiset(GetUnusedFields(s, moduleFilter))
         == multiset(InScope(Values(s), moduleFilter))
  {
    WithUsedSplits(InScope(Values(s), moduleFilter));
  }

  /** A module filter keeps exactly the profiles of that module. */
  lemma InScopeOfModule(s: Profiles, moduleName: string, p: FieldProfile)
    requires moduleName != ""
    ensures p in InScope(Values(s), moduleName) <==> p in Values(s) && p.moduleName == moduleName
  {
  }

  // ---------------------------------------------------------------------
  // stats
  // ---------------------------------------------------------------------

  datatype Stats = Stats(
    totalFields: nat,
    usedFields: nat,
    unusedFields: nat,
    totalReads: nat,
    totalWrites: nat,
    totalEntries: nat)

  function Sum(vs: seq<FieldProfile>, f: FieldProfile -> nat): nat {
    if vs == [] then 0 else f(vs[0]) + Sum(vs[1..], f)
  }

  function UsedFlag(p: FieldProfile): nat {
    if IsUsed(p) then 1 else 0
  }

  function ReadCount(p: FieldProfile): nat {
    |p.readUses|
  }

  function WriteCount(p: FieldProfile): nat {
    |p.writeUses|
  }

  function EntryCount(p: FieldProfile): nat {
    |p.entryUses|
  }

  lemma {:induction false} SumAppend(a: seq<FieldProfile>, b: seq<FieldProfile>, f: FieldProfile -> nat)
    ensures Sum(a + b, f) == Sum(a, f) + Sum(b, f)
    decreases |a|
  {
    if a == [] {
      assert a + b == b;
    } else {
      assert (a + b)[1..] == a[1..] + b;
      SumAppend(a[1..], b, f);
    }
  }

  /** Counting the used profiles is counting the elements of the used filter. */
  lemma {:induction false} UsedFlagCounts(vs: seq<FieldProfile>)
    ensures Sum(vs, UsedFlag) == |WithUsed(vs, true)|
    ensures |WithUsed(vs, true)| + |WithUsed(vs, false)| == |vs|
  {
    if vs != [] {
      UsedFlagCounts(vs[1..]);
    }
  }

  /** The statistics of a list of profiles. */
  function Tally(vs: seq<FieldProfile>): (r: Stats)
    ensures r.usedFields + r.unusedFields == r.totalFields
  {
    UsedFlagCounts(vs);
    var used := Sum(vs, UsedFlag);
    Stats(|vs|, used, |vs| - used, Sum(vs, ReadCount), Sum(vs, WriteCount), Sum(vs, EntryCount))
  }

  /** One more profile adds itself to every statistic. */
  lemma TallySnoc(vs: seq<FieldProfile>, p: FieldProfile)
    ensures Tally(vs + [p]) == Stats(
      Tally(vs).totalFields + 1,
      Tally(vs).usedFields + UsedFlag(p),
      Tally(vs).unusedFields + 1 - UsedFlag(p),
      Tally(vs).totalReads + |p.readUses|,
      Tally(vs).totalWrites + |p.writeUses|,
      Tally(vs).totalEntries + |p.entryUses|)
  {
    SumAppend(vs, [p], ReadCount);
    SumAppend(vs, [p], WriteCount);
    SumAppend(vs, [p], EntryCount);
    SumAppend(vs, [p], UsedFlag);
  }

  /** `stats()`: the number of profiles, how many are used and unused, and the usages of each kind. */
  function StatsOf(s: Profiles): (r: Stats)
    ensures r.usedFields + r.unusedFields == r.totalFields
  {
    Tally(Values(s))
  }

  /** The used and unused counts of `stats()` are the lengths of the two unfiltered lists. */
  lemma StatsMatchLists(s: Profiles)
    ensures StatsOf(s).usedFields == |GetUsedFields(s, "")|
    ensures StatsOf(s).unusedFields == |GetUnusedFields(s, "")|
  {
    UsedFlagCounts(Values(s));
    assert |multiset(GetUsedFields(s, ""))| == |GetUsedFields(s, "")|;
    assert |multiset(GetUnusedFields(s, ""))| == |GetUnusedFields(s, "")|;
  }

  lemma {:induction false} ValuesOfUnaffected(keys: seq<Key>, m: map<Key, FieldProfile>, k: Key, p: FieldProfile)
    requires k !in keys
    ensures ValuesOf(keys, m[k := p]) == ValuesOf(keys, m)
  {
    if keys != [] {
      var n := |keys| - 1;
      assert k !in keys[..n];
      ValuesOfUnaffected(keys[..n], m, k, p);
    }
  }

  /** Replacing the profile under a key that occurs once changes each sum by the difference. */
  lemma {:induction false} SumReplace(keys: seq<Key>, m: map<Key, FieldProfile>, k: Key, p: FieldProfile,
                                      f: FieldProfile -> nat)
    requires k in m && k in keys
    requires forall i, j :: 0 <= i < j < |keys| ==> keys[i] != keys[j]
    ensures Sum(ValuesOf(keys, m[k := p]), f) + f(m[k]) == Sum(ValuesOf(keys, m), f) + f(p)
  {
    var n := |keys| - 1;
    var pre := keys[..n];
    var m2 := m[k := p];
    if keys[n] == k {
      assert k !in pre;
      ValuesOfUnaffected(pre, m, k, p);
      SumAppend(ValuesOf(pre, m), [p], f);
      SumAppend(ValuesOf(pre, m), [m[k]], f);
    } else {
      assert k in pre;
      SumReplace(pre, m, k, p, f);
      var tail := if keys[n] in m then [m[keys[n]]] else [];
      assert (if keys[n] in m2 then [m2[keys[n]]] else []) == tail;
      SumAppend(ValuesOf(pre, m2), tail, f);
      SumAppend(ValuesOf(pre, m), tail, f);
    }
  }

  /** A new key at the end adds its profile at the end of the values. */
  lemma ValuesAddKey(s: Profiles, k: Key, p: FieldProfile)
    requires k !in s.keys && k !in s.byKey
    ensures Values(Put(s, k, p)) == Values(s) + [p]
  {
    assert (s.keys + [k])[..|s.keys|] == s.keys;
    ValuesOfUnaffected(s.keys, s.byKey, k, p);
  }

  /** How storing one profile moves a sum over the profiles. */
  lemma SumAfterPut(s: Profiles, key: Key, q: FieldProfile, f: FieldProfile -> nat)
    requires forall i, j :: 0 <= i < j < |s.keys| ==> s.keys[i] != s.keys[j]
    requires key in s.byKey <==> key in s.keys
    ensures Sum(Values(Put(s, key, q)), f) + (if key in s.byKey then f(s.byKey[key]) else 0)
         == Sum(Values(s), f) + f(q)
  {
    if key in s.byKey {
      SumReplace(s.keys, s.byKey, key, q, f);
    } else {
      ValuesAddKey(s, key, q);
      SumAppend(Values(s), [q], f);
    }
  }

  /** How storing one profile moves each statistic: the prior profile under the key is replaced by the new one. */
  lemma StatsAfterPut(s: Profiles, key: Key, q: FieldProfile)
    requires forall i, j :: 0 <= i < j < |s.keys| ==> s.keys[i] != s.keys[j]
    requires forall k :: k in s.keys <==> k in s.byKey
    ensures var before := StatsOf(s);
      var after := StatsOf(Put(s, key, q));
      var prior := if key in s.byKey then Some(s.byKey[key]) else None;
      && after.totalFields == before.totalFields + (if prior.Some? then 0 else 1)
      && after.usedFields + (if prior.Some? then UsedFlag(prior.value) else 0) == before.usedFields + UsedFlag(q)
      && after.totalReads + (if prior.Some? then |prior.value.readUses| else 0) == before.totalReads + |q.readUses|
      && after.totalWrites + (if prior.Some? then |prior.value.writeUses| else 0) == before.totalWrites + |q.writeUses|
      && after.totalEntries + (if prior.Some? then |prior.value.entryUses| else 0) == before.totalEntries + |q.entryUses|
  {
    SumAfterPut(s, key, q, ReadCount);
    SumAfterPut(s, key, q, WriteCount);
    SumAfterPut(s, key, q, EntryCount);
    SumAfterPut(s, key, q, UsedFlag);
    UsedFlagCounts(Values(s));
    UsedFlagCounts(Values(Put(s, key, q)));
  }

  /**
   * One recorded usage adds one to the total of its kind, adds a field exactly
   * when the field was unknown, and adds a used field exactly when the field
   * was unknown or unused.
   */
  lemma StatsAfterRecord(s: Profiles, u: FieldUsage)
    requires Wf(s)
    ensures StatsOf(Record(s, u)).totalReads == StatsOf(s).totalReads + (if u.usageType == Read then 1 else 0)
    ensures StatsOf(Record(s, u)).totalWrites == StatsOf(s).totalWrites + (if u.usageType == Write then 1 else 0)
    ensures StatsOf(Record(s, u)).totalEntries == StatsOf(s).totalEntries + (if u.usageType == Entry then 1 else 0)
    ensures StatsOf(Record(s, u)).totalFields == StatsOf(s).totalFields + (if KeyOf(u) in s.byKey then 0 else 1)
    ensures StatsOf(Record(s, u)).usedFields
         == StatsOf(s).usedFields + (if KeyOf(u) in s.byKey && IsUsed(s.byKey[KeyOf(u)]) then 0 else 1)
  {
    var key := KeyOf(u);
    var r := Record(s, u);
    var q := r.byKey[key];
    RecordIsPut(s, u);
    StatsAfterPut(s, key, q);
    var before, after := StatsOf(s), StatsOf(r);
    if key in s.byKey {
      var p := s.byKey[key];
      assert q == AddToProfile(p, u);
      assert after.totalFields == before.totalFields;
    } else {
      assert q == AddToProfile(Orphan(u), u);
      assert after.totalFields == before.totalFields + 1;
    }
  }

  /** Registering a field not seen before adds one unused field and changes no other statistic. */
  lemma StatsAfterRegister(s: Profiles, moduleName: string, fieldLabel: string, apiName: string,
                           columnName: string, fieldId: string, dataType: string)
    requires Wf(s)
    requires (moduleName, apiName) !in s.byKey
    ensures var before := StatsOf(s);
      StatsOf(Register(s, moduleName, fieldLabel, apiName, columnName, fieldId, dataType))
        == before.(totalFields := before.totalFields + 1, unusedFields := before.unusedFields + 1)
  {
    RegisterIsPut(s, moduleName, fieldLabel, apiName, columnName, fieldId, dataType);
    StatsAfterPut(s, (moduleName, apiName), NewProfile(moduleName, fieldLabel, apiName, columnName, fieldId, dataType));
  }

  /** The number of usages of one kind in a list of usages. */
  function CountOfType(us: seq<FieldUsage>, t: UsageType): (n: nat)
    ensures n <= |us|
  {
    if us == [] then 0 else CountOfType(us[..|us| - 1], t) + (if us[|us| - 1].usageType == t then 1 else 0)
  }

  /** After recording a list of usages, each kind's total has grown by the usages of that kind. */
  lemma {:induction false} StatsAfterRecordAll(s: Profiles, us: seq<FieldUsage>)
    requires Wf(s)
    ensures StatsOf(RecordAll(s, us)).totalReads == StatsOf(s).totalReads + CountOfType(us, Read)
    ensures StatsOf(RecordAll(s, us)).totalWrites == StatsOf(s).totalWrites + CountOfType(us, Write)
    ensures StatsOf(RecordAll(s, us)).totalEntries == StatsOf(s).totalEntries + CountOfType(us, Entry)
    ensures StatsOf(RecordAll(s, us)).totalFields >= StatsOf(s).totalFields
    decreases |us|
  {
    if us != [] {
      var n := |us| - 1;
      var prev := RecordAll(s, us[..n]);
      StatsAfterRecordAll(s, us[..n]);
      RecordAllKeepsWf(s, us[..n]);
      StatsAfterRecord(prev, us[n]);
      assert RecordAll(s, us) == Record(prev, us[n]);
      assert CountOfType(us, Read) == CountOfType(us[..n], Read) + (if us[n].usageType == Read then 1 else 0);
      assert CountOfType(us, Write) == CountOfType(us[..n], Write) + (if us[n].usageType == Write then 1 else 0);
      assert CountOfType(us, Entry) == CountOfType(us[..n], Entry) + (if us[n].usageType == Entry then 1 else 0);
    }
  }
}
