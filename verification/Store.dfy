/** The store object: in-memory maps backed by state.json, rewritten after every change. */
module Store {
  import opened Records
  import opened StoreSpec
  import opened StoredFields

  datatype Document = Document(vcenters: seq<VCenter>, mappings: seq<Mapping>, settings: Settings)

  /** What a path on the volume may hold. */
  datatype Content = Missing | Empty | Corrupt | Holds(doc: Document)

  const EMPTY_STATE := StoreState(map[], map[], Settings(false))

  // ---------------------------------------------------------------- the document

  ghost predicate Lists(keys: seq<string>, ks: set<string>) {
    && (forall i :: 0 <= i < |keys| ==> keys[i] in ks)
    && (forall k :: k in ks ==> k in keys)
    && (forall i, j :: 0 <= i < j < |keys| ==> keys[i] != keys[j])
  }

  ghost function ValuesOf<V>(keys: seq<string>, m: map<string, V>): seq<V>
    requires forall i :: 0 <= i < |keys| ==> keys[i] in m
  {
    seq(|keys|, i requires 0 <= i < |keys| => m[keys[i]])
  }

  /** d lists the maps of s, in some order. */
  ghost predicate IsSnapshot(s: StoreState, d: Document) {
    exists ks, us ::
      && Lists(ks, s.vcenters.Keys) && Lists(us, s.byUUID.Keys)
      && d == Document(ValuesOf(ks, s.vcenters), ValuesOf(us, s.byUUID), s.settings)
  }

  function Repaired(vc: VCenter): VCenter {
    vc.(isoFolder := if vc.isoFolder == "" then DEFAULT_ISO_FOLDER else vc.isoFolder,
    datastore := NormalizeDatastore(vc.datastore))
  }

  /** The vCenter map read back from a list: no empty ids, later entries win. */
  function LoadVCenters(vcs: seq<VCenter>): map<string, VCenter> {
    if vcs == [] then map[] else
    var m := LoadVCenters(vcs[..|vcs| - 1]);
    var vc := vcs[|vcs| - 1];
    if vc.id == "" then m else m[vc.id := Repaired(vc)]
  }

  function LoadMappings(ms: seq<Mapping>): map<string, Mapping> {
    if ms == [] then map[] else
    var m := LoadMappings(ms[..|ms| - 1]);
    var e := ms[|ms| - 1];
    var u := NormalizeUuid(e.uuid);
    if u == "" || e.vcenterId == "" then m else m[u := e.(uuid := u)]
  }

  function LoadDocument(d: Document): StoreState {
    StoreState(LoadVCenters(d.vcenters), LoadMappings(d.mappings), d.settings)
  }

  /** Opening a store on this content gives s. */
  ghost predicate LoadsAs(c: Content, s: StoreState) {
    match c
    case Missing => s == EMPTY_STATE
    case Empty => s == EMPTY_STATE
    case Corrupt => false
    case Holds(d) => s == LoadDocument(d)
  }

  ghost function MapOf<V>(keys: seq<string>, m: map<string, V>): map<string, V>
    requires forall i :: 0 <= i < |keys| ==> keys[i] in m
  {
    map k | k in keys :: m[k]
  }

  lemma MapOfSnoc<V>(keys: seq<string>, m: map<string, V>)
    requires keys != [] && forall i :: 0 <= i < |keys| ==> keys[i] in m
    ensures var rest, k := keys[..|keys| - 1], keys[|keys| - 1]; MapOf(keys, m) == MapOf(rest, m)[k := m[k]]
    ensures ValuesOf(keys, m)[..|keys| - 1] == ValuesOf(keys[..|keys| - 1], m)
  {
    assert keys == keys[..|keys| - 1] + [keys[|keys| - 1]];
  }

  lemma MapOfAll<V>(keys: seq<string>, m: map<string, V>)
    requires Lists(keys, m.Keys)
    ensures MapOf(keys, m) == m
  {
  }

  lemma {:induction false} LoadVCentersOf(keys: seq<string>, m: map<string, VCenter>)
    requires forall i :: 0 <= i < |keys| ==> keys[i] in m
    requires forall id :: id in m ==> RecordOk(id, m[id])
    ensures LoadVCenters(ValuesOf(keys, m)) == MapOf(keys, m)
  {
    hide NormalizeDatastore;
    if keys != [] {
      LoadVCentersOf(keys[..|keys| - 1], m);
      MapOfSnoc(keys, m);
      assert RecordOk(keys[|keys| - 1], m[keys[|keys| - 1]]);
    }
  }

  lemma {:induction false} LoadMappingsOf(keys: seq<string>, m: map<string, Mapping>, ids: set<string>)
    requires forall i :: 0 <= i < |keys| ==> keys[i] in m
    requires "" !in ids
    requires forall u :: u in m ==> MappingOk(u, m[u], ids)
    ensures LoadMappings(ValuesOf(keys, m)) == MapOf(keys, m)
  {
    if keys != [] {
      LoadMappingsOf(keys[..|keys| - 1], m, ids);
      MapOfSnoc(keys, m);
      var k := keys[|keys| - 1];
      assert MappingOk(k, m[k], ids);
      assert m[k].(uuid := NormalizeUuid(m[k].uuid)) == m[k];
    }
  }

  /** Reading back a snapshot gives the state it was taken of, in whatever order the maps were listed. */
  lemma LoadOfSnapshot(s: StoreState, d: Document)
    requires Inv(s) && IsSnapshot(s, d)
    ensures LoadDocument(d) == s
  {
    var ks, us :| Lists(ks, s.vcenters.Keys) && Lists(us, s.byUUID.Keys)
                  && d == Document(ValuesOf(ks, s.vcenters), ValuesOf(us, s.byUUID), s.settings);
    LoadVCentersOf(ks, s.vcenters);
    assert forall id :: id in s.vcenters ==> RecordOk(id, s.vcenters[id]);
    assert "" !in s.vcenters;
    LoadMappingsOf(us, s.byUUID, s.vcenters.Keys);
    MapOfAll(ks, s.vcenters);
    MapOfAll(us, s.byUUID);
  }

  predicate LoadedOk(id: string, vc: VCenter) {
    vc.id == id != "" && vc.isoFolder != "" && NormalizeDatastore(vc.datastore) == vc.datastore
  }

  lemma RepairedOk(vc: VCenter)
    requires vc.id != ""
    ensures LoadedOk(vc.id, Repaired(vc))
  {
    NormalizeDatastoreTwice(vc.datastore);
  }

  /** Whatever the file says, keys are ids and fields are defaulted. */
  lemma {:induction false} LoadRepairsVCenters(vcs: seq<VCenter>, id: string)
    requires id in LoadVCenters(vcs)
    ensures LoadedOk(id, LoadVCenters(vcs)[id])
  {
    var m := LoadVCenters(vcs[..|vcs| - 1]);
    var vc := vcs[|vcs| - 1];
    if vc.id == id != "" {
      RepairedOk(vc);
    } else {
      LoadRepairsVCenters(vcs[..|vcs| - 1], id);
    }
  }

  /** Whatever the file says, mapping keys are non-empty normalized UUIDs. */
  lemma {:induction false} LoadRepairsMappings(ms: seq<Mapping>)
    ensures var m := LoadMappings(ms); forall u :: u in m ==>
              m[u].uuid == u != "" && NormalizeUuid(u) == u && m[u].vcenterId != ""
  {
    if ms != [] {
      NormalizeUuidTwice(ms[|ms| - 1].uuid);
      LoadRepairsMappings(ms[..|ms| - 1]);
    }
  }

  /** Whatever the file says: an id that is not empty is loaded from its last record, of which only the
      datastore and the ISO folder are repaired. */
  lemma {:induction false} LoadKeepsLast(vcs: seq<VCenter>, i: nat)
    requires i < |vcs| && vcs[i].id != "" && forall j :: i < j < |vcs| ==> vcs[j].id != vcs[i].id
    ensures vcs[i].id in LoadVCenters(vcs)
    ensures var x, r := vcs[i], LoadVCenters(vcs)[vcs[i].id];
            && r.(datastore := x.datastore, isoFolder := x.isoFolder) == x
            && r.datastore == NormalizeDatastore(x.datastore)
            && r.isoFolder == if x.isoFolder == "" then "rf2vc/isos" else x.isoFolder
  {
    hide NormalizeDatastore, Repaired;
    var n := |vcs| - 1;
    if i < n {
      LoadKeepsLast(vcs[..n], i);
    } else {
      RepairedIs(vcs[i]);
    }
  }

  lemma RepairedIs(x: VCenter)
    ensures var r := Repaired(x);
            && r.(datastore := x.datastore, isoFolder := x.isoFolder) == x
            && r.datastore == NormalizeDatastore(x.datastore)
            && r.isoFolder == if x.isoFolder == "" then "rf2vc/isos" else x.isoFolder
  {
    hide NormalizeDatastore;
  }

  /** And nothing else is loaded. */
  lemma {:induction false} LoadedIsLast(vcs: seq<VCenter>, id: string) returns (i: nat)
    requires id in LoadVCenters(vcs)
    ensures i < |vcs| && vcs[i].id == id != "" && forall j :: i < j < |vcs| ==> vcs[j].id != id
  {
    hide Repaired;
    var n := |vcs| - 1;
    i := n;
    if vcs[n].id == "" || vcs[n].id != id {
      i := LoadedIsLast(vcs[..n], id);
    }
  }

  /** The same of the mappings: a UUID that is not blank gets the last one with a vCenter id. */
  lemma {:induction false} LoadKeepsLastMapping(ms: seq<Mapping>, i: nat, u: string)
    requires i < |ms| && Maps(ms[i], u) && forall j :: i < j < |ms| ==> !Maps(ms[j], u)
    ensures u in LoadMappings(ms) && LoadMappings(ms)[u].uuid == u
    ensures LoadMappings(ms)[u].(uuid := ms[i].uuid) == ms[i]
  {
    hide Maps, LoadMappings;
    var n := |ms| - 1;
    LastMapping(ms, u);
    if i < n {
      LoadKeepsLastMapping(ms[..n], i, u);
    }
  }

  lemma {:induction false} LoadedMappingIsLast(ms: seq<Mapping>, u: string) returns (i: nat)
    requires u in LoadMappings(ms)
    ensures i < |ms| && Maps(ms[i], u) && forall j :: i < j < |ms| ==> !Maps(ms[j], u)
  {
    hide Maps, NormalizeUuid;
    var n := |ms| - 1;
    LastMapping(ms, u);
    i := n;
    if !Maps(ms[n], u) {
      i := LoadedMappingIsLast(ms[..n], u);
    }
  }

  lemma LastMapping(ms: seq<Mapping>, u: string)
    requires ms != []
    ensures var n := |ms| - 1;
            if Maps(ms[n], u) then u in LoadMappings(ms) && LoadMappings(ms)[u] == ms[n].(uuid := u)
            else (u in LoadMappings(ms) <==> u in LoadMappings(ms[..n]))
                 && (u in LoadMappings(ms) ==> LoadMappings(ms)[u] == LoadMappings(ms[..n])[u])
  {
    hide NormalizeUuid;
  }

  predicate Maps(m: Mapping, u: string) {
    u != "" && NormalizeUuid(m.uuid) == u && m.vcenterId != ""
  }

  // ---------------------------------------------------------------- the volume

  /** The volume holding state.json. Writing a file is not atomic, renaming one is. */
  class Disk {
    var files: map<string, Content>
    const reliable: bool

    function Read(name: string): Content
      reads this
    {
      if name in files then files[name] else Missing
    }

    method WriteFile(name: string, d: Document) returns (ok: bool)
      modifies this
      ensures name in files && (ok ==> files[name] == Holds(d)) && (reliable ==> ok)
      ensures files == old(files)[name := files[name]]
    {
      ok := *;
      ok := ok || reliable;
      var partial: Content := *;
      files := files[name := if ok then Holds(d) else partial];
    }

    method Rename(source: string, target: string) returns (ok: bool)
      requires source in files
      modifies this
      ensures reliable ==> ok
      ensures files == if ok then (old(files) - {source})[target := old(files[source])] else old(files)
    {
      ok := *;
      ok := ok || reliable;
      if ok {
        files := (files - {source})[target := files[source]];
      }
    }
  }

  // ---------------------------------------------------------------- the store

  /** A content of state.json, how many in-memory states had been passed when it appeared, and which
      of them it holds. */
  datatype Sighting = Sighting(content: Content, passed: nat, state: nat)

  /** The content is a snapshot of the state it is said to hold, one passed before it appeared. */
  ghost predicate Justified(x: Sighting, passed: seq<StoreState>) {
    && x.state < x.passed <= |passed|
    && x.content.Holds? && IsSnapshot(passed[x.state], x.content.doc)
  }

  lemma JustifiedLater(x: Sighting, passed: seq<StoreState>, t: StoreState)
    requires Justified(x, passed)
    ensures Justified(x, passed + [t])
  {
    assert (passed + [t])[x.state] == passed[x.state];
  }

  /** What one process did to the store, from opening it to its end. */
  datatype Life = Life(passed: seq<StoreState>, ops: seq<Op>, sightings: seq<Sighting>)

  /** The states passed are a run from what was read at the start, and whatever state.json held
      after that is what it held before or a snapshot of a state passed by then. */
  ghost predicate LifeOk(l: Life) {
    && Run(l.passed, l.ops)
    && l.sightings != []
    && LoadsAs(l.sightings[0].content, l.passed[0]) && l.sightings[0].state == 0
    && (forall j :: 0 <= j < |l.sightings| ==> SightingOk(l, l.sightings[j]))
    && Forward(l.sightings)
  }

  ghost predicate SightingOk(l: Life, x: Sighting)
    requires l.sightings != []
  {
    && x.state < |l.passed| && x.passed <= |l.passed|
    && ((x.content == l.sightings[0].content && x.state == 0) || Justified(x, l.passed))
  }

  /** A state that was written is never replaced by an earlier one. */
  ghost predicate Forward(sightings: seq<Sighting>) {
    forall i, j :: 0 <= i <= j < |sightings| ==> sightings[i].state <= sightings[j].state
  }

  class Store {
    var vcenters: map<string, VCenter>
    var byUUID: map<string, Mapping>
    var settings: Settings
    const disk: Disk
    const path: string

    /** Every in-memory state so far, and the operation between each two. */
    ghost var passed: seq<StoreState>
    ghost var ops: seq<Op>
    /** Every content state.json had since the store was opened, oldest first. */
    ghost var sightings: seq<Sighting>

    ghost function S(): StoreState
      reads this
    {
      StoreState(vcenters, byUUID, settings)
    }

    ghost predicate HistoryOk()
      reads this, disk
    {
      && LifeOk(Life(passed, ops, sightings))
      && sightings[|sightings| - 1].content == disk.Read(path)
    }

    ghost predicate Valid()
      reads this, disk
    {
      HistoryOk() && passed[|ops|] == S()
    }

    /** Nothing of the history is rewritten. */
    twostate predicate Extends()
      reads this
    {
      && old(passed) <= passed && old(ops) <= ops && old(sightings) <= sightings
    }

    constructor (disk: Disk, path: string)
      ensures this.disk == disk && this.path == path && S() == EMPTY_STATE && passed == [S()] && ops == []
      ensures sightings == [Sighting(disk.Read(path), 1, 0)]
    {
      this.disk, this.path := disk, path;
      vcenters, byUUID, settings := map[], map[], Settings(false);
      passed, ops, sightings := [EMPTY_STATE], [], [Sighting(disk.Read(path), 1, 0)];
    }

    /** Open: read state.json, writing an empty one when there is none. It fails when the directory
        cannot be made, the file cannot be read or does not parse, or that first write fails. */
    static method Open(disk: Disk, path: string) returns (st: Store?)
      modifies disk
      ensures st != null ==>
                && fresh(st) && st.disk == disk && st.path == path && st.Valid()
                && st.passed == [st.S()] && LoadsAs(old(disk.Read(path)), st.S())
      ensures st == null ==> old(disk.Read(path)) == Corrupt || !disk.reliable
      ensures old(disk.Read(path)) == Corrupt ==> st == null
      ensures old(disk.Read(path)) != Missing ==> disk.files == old(disk.files)
    {
      var readable: bool := *;
      if !readable && !disk.reliable {
        return null;
      }
      st := new Store(disk, path);
      match disk.Read(path)
      case Missing =>
        var ok := st.Persist();
        if !ok {
          st := null;
        }
      case Empty =>
      case Corrupt => st := null;
      case Holds(d) =>
        st.LoadFrom(d);
        st.passed := [st.S()];
    }

    /** The two loops of load. */
    method LoadFrom(d: Document)
      modifies this`vcenters, this`byUUID, this`settings
      ensures S() == LoadDocument(d)
    {
      hide Repaired, NormalizeUuid, Run, Step, Justified, LoadsAs, Inv;
      vcenters, byUUID, settings := map[], map[], d.settings;
      for i := 0 to |d.vcenters|
        invariant vcenters == LoadVCenters(d.vcenters[..i]) && byUUID == map[] && settings == d.settings
      {
        var vc := d.vcenters[i];
        assert d.vcenters[..i + 1][..i] == d.vcenters[..i];
        if vc.id != "" {
          vcenters := vcenters[vc.id := Repaired(vc)];
        }
      }
      assert d.vcenters[..|d.vcenters|] == d.vcenters;
      for i := 0 to |d.mappings|
        invariant vcenters == LoadVCenters(d.vcenters) && byUUID == LoadMappings(d.mappings[..i])
        invariant settings == d.settings
      {
        var m := d.mappings[i];
        var u := NormalizeUuid(m.uuid);
        assert d.mappings[..i + 1][..i] == d.mappings[..i];
        if u != "" && m.vcenterId != "" {
          byUUID := byUUID[u := m.(uuid := u)];
        }
      }
      assert d.mappings[..|d.mappings|] == d.mappings;
    }

    /** The document for the current state; map order is whatever it happens to be. */
    method Snapshot() returns (d: Document)
      ensures IsSnapshot(S(), d)
    {
      var vcs, ms := [], [];
      ghost var ks, us := [], [];
      var todo := vcenters.Keys;
      while todo != {}
        invariant todo <= vcenters.Keys && Lists(ks, vcenters.Keys - todo)
        invariant forall i :: 0 <= i < |ks| ==> ks[i] in vcenters
        invariant vcs == ValuesOf(ks, vcenters)
      {
        var k :| k in todo;
        vcs, ks, todo := vcs + [vcenters[k]], ks + [k], todo - {k};
      }
      todo := byUUID.Keys;
      while todo != {}
        invariant todo <= byUUID.Keys && Lists(us, byUUID.Keys - todo)
        invariant forall i :: 0 <= i < |us| ==> us[i] in byUUID
        invariant ms == ValuesOf(us, byUUID)
      {
        var u :| u in todo;
        ms, us, todo := ms + [byUUID[u]], us + [u], todo - {u};
      }
      d := Document(vcs, ms, settings);
    }

    /** The state that state.json holds now, as a number of operations. */
    ghost function OnDisk(): nat
      reads this
      requires sightings != []
    {
      sightings[|sightings| - 1].state
    }

    /** Another sighting of state.json, which holds the given state. */
    ghost method See(state: nat)
      requires LifeOk(Life(passed, ops, sightings)) && passed[|ops|] == S()
      requires || (state == OnDisk() && disk.Read(path) == sightings[|sightings| - 1].content)
               || (state == |ops| && disk.Read(path).Holds? && IsSnapshot(S(), disk.Read(path).doc))
      modifies this`sightings
      ensures Valid() && sightings == old(sightings) + [Sighting(disk.Read(path), |passed|, state)]
    {
      hide Step, Inv, LoadsAs;
      sightings := sightings + [Sighting(disk.Read(path), |passed|, state)];
    }

    /** persistLocked: write a temporary file, then rename it over state.json. */
    method Persist() returns (ok: bool)
      requires Valid()
      modifies this`sightings, disk
      ensures Valid() && old(sightings) <= sightings
      ensures disk.reliable ==> ok
      ensures ok ==> disk.Read(path).Holds? && IsSnapshot(S(), disk.Read(path).doc) && OnDisk() == |ops|
    {
      hide Step;
      ghost var held := OnDisk();
      var d := Snapshot();
      var stamp: string := *;
      var tmp := path + ".tmp." + stamp;
      assert |tmp| > |path|;
      ok := disk.WriteFile(tmp, d);
      See(held);
      if ok {
        ok := disk.Rename(tmp, path);
        See(if ok then |ops| else held);
      }
    }

    /** The end of every edit: note the new state, then rewrite the file. */
    method Commit(ghost op: Op) returns (ok: bool)
      requires HistoryOk() && Step(passed[|ops|], op, S())
      modifies this`passed, this`ops, this`sightings, disk
      ensures Valid() && Extends() && passed == old(passed) + [S()] && ops == old(ops) + [op]
      ensures disk.reliable ==> ok
      ensures ok ==> disk.Read(path).Holds? && IsSnapshot(S(), disk.Read(path).doc) && OnDisk() == |ops|
    {
      hide Step, Inv, IsSnapshot, Justified, LoadsAs;
      RunSnoc(passed, ops, op, S());
      forall x | x in sightings && Justified(x, passed) {
        JustifiedLater(x, passed, S());
      }
      passed, ops := passed + [S()], ops + [op];
      ok := Persist();
    }

    function GetVCenter(id: string): Option<VCenter>
      reads this
    {
      if id in vcenters then Some(Redact(vcenters[id])) else None
    }

    function GetVCenterSecret(id: string): Option<VCenter>
      reads this
    {
      if id in vcenters then Some(vcenters[id].(datastore := NormalizeDatastore(vcenters[id].datastore))) else None
    }

    /** Every record once, redacted, in whatever order the map is walked; keys says which is which. */
    method ListVCenters() returns (out: seq<VCenter>, ghost keys: seq<string>)
      ensures Lists(keys, vcenters.Keys) && |out| == |keys|
      ensures forall i :: 0 <= i < |keys| ==> keys[i] in vcenters && out[i] == Redact(vcenters[keys[i]])
    {
      out, keys := [], [];
      var todo := vcenters.Keys;
      while todo != {}
        invariant todo <= vcenters.Keys && Lists(keys, vcenters.Keys - todo) && |out| == |keys|
        invariant forall i :: 0 <= i < |keys| ==> keys[i] in vcenters && out[i] == Redact(vcenters[keys[i]])
      {
        var k :| k in todo;
        out, keys, todo := out + [Redact(vcenters[k])], keys + [k], todo - {k};
      }
    }

    /** The mapping of a UUID whose vCenter exists. */
    function LookupUUID(uuid: string): (r: Option<Mapping>)
      reads this
      ensures r.Some? ==> NormalizeUuid(uuid) in byUUID && byUUID[NormalizeUuid(uuid)] == r.value
      ensures r.Some? ==> r.value.vcenterId in vcenters
      ensures r.None? ==> NormalizeUuid(uuid) !in byUUID || byUUID[NormalizeUuid(uuid)].vcenterId !in vcenters
    {
      var u := NormalizeUuid(uuid);
      if u in byUUID && byUUID[u].vcenterId in vcenters then Some(byUUID[u]) else None
    }

    function DryRunForUUID(uuid: string): (r: bool)
      reads this
      ensures r <==> DryFor(S(), uuid)
    {
      settings.dryRun || (LookupUUID(uuid).Some? && vcenters[LookupUUID(uuid).value.vcenterId].dryRun)
    }

    method UpsertVCenter(vc: VCenter, newId: string) returns (r: Result<VCenter, StoreError>)
      requires Valid() && FreshId(S(), newId)
      modifies this, disk
      ensures Valid() && Extends() && (r.Ok? ==> OnDisk() == |ops|)
      ensures match UpsertRecord(old(S()), vc, newId)
              case Err(e) => r == Err(e) && S() == old(S()) && ops == old(ops) && disk.files == old(disk.files)
              case Ok(rec) =>
                && S() == Put(old(S()), rec) && ops == old(ops) + [Upsert(vc, newId)]
                && r == (if r.Ok? then Ok(Redact(rec)) else Err(PersistFailed)) && (disk.reliable ==> r.Ok?)
      ensures r.Ok? ==>
                var id := if vc.id == "" then newId else vc.id;
                && OnlyRecord(old(S()), id, S()) && Typed(vc, RecordAt(old(S()), id), vcenters[id])
                && r.value == Redact(vcenters[id])
    {
      hide Typed, NormalizeDatastore;
      if UpsertRecord(S(), vc, newId).Ok? {
        EditStores(S(), vc, newId, Put(S(), UpsertRecord(S(), vc, newId).value));
      }
      match UpsertRecord(StoreState(vcenters, byUUID, settings), vc, newId)
      case Err(e) => r := Err(e);
      case Ok(rec) =>
        vcenters := vcenters[rec.id := rec];
        var ok := Commit(Upsert(vc, newId));
        r := if ok then Ok(Redact(rec)) else Err(PersistFailed);
    }

    /** The two searches of ApplyConfigVCenter over the unordered map. */
    method FindExisting(cfg: VCenter) returns (found: Option<VCenter>)
      ensures Matches(S(), cfg, found)
    {
      if cfg.id != "" && cfg.id in vcenters {
        return Some(vcenters[cfg.id]);
      }
      var todo := vcenters.Keys;
      while todo != {}
        invariant todo <= vcenters.Keys
        invariant forall id :: id in vcenters && id !in todo ==> !SameConfigMap(vcenters[id], cfg)
      {
        var id :| id in todo;
        if SameConfigMap(vcenters[id], cfg) {
          return Some(vcenters[id]);
        }
        todo := todo - {id};
      }
      todo := vcenters.Keys;
      while todo != {}
        invariant todo <= vcenters.Keys
        invariant forall id :: id in vcenters && id !in todo ==> !Adoptable(vcenters[id], cfg)
      {
        var id :| id in todo;
        if Adoptable(vcenters[id], cfg) {
          return Some(vcenters[id]);
        }
        todo := todo - {id};
      }
      found := None;
    }

    method ApplyConfigVCenter(cfg: VCenter, setDryRun: Option<bool>, secret: string, newId: string)
      returns (r: Result<VCenter, StoreError>)
      requires Valid() && FreshId(S(), newId)
      modifies this, disk
      ensures Valid() && Extends() && (r.Ok? ==> OnDisk() == |ops|)
      ensures Inv(old(S())) && r.Ok? ==>
                && OnlyRecord(old(S()), r.value.id, S())
                && Configured(cfg, setDryRun, secret, RecordAt(old(S()), r.value.id), vcenters[r.value.id])
      ensures if ConfigValid(cfg)
              then
                && ops == old(ops) + [ApplyConfig(cfg, setDryRun, secret, newId)]
                && (r.Err? ==> r.error == PersistFailed) && (disk.reliable ==> r.Ok?)
                && (r.Ok? ==>
                  && StoredUnder(old(S()), ApplyConfig(cfg, setDryRun, secret, newId), r.value.id, S())
                  && r.value.id in vcenters && r.value == Redact(vcenters[r.value.id])
                  && r.value.configMap == cfg.configMap)
              else
                r == Err(MissingFields) && S() == old(S()) && ops == old(ops) && disk.files == old(disk.files)
    {
      hide Matches, Merged, Configured, Run, LoadsAs, Inv;
      if !ConfigValid(cfg) {
        return Err(MissingFields);
      }
      var found := FindExisting(cfg);
      var rec := Merged(cfg, setDryRun, secret, found, newId);
      MergedIds(cfg, setDryRun, secret, found, newId);
      vcenters := vcenters[rec.id := rec];
      assert PutsUnder(old(S()), ApplyConfig(cfg, setDryRun, secret, newId), found, rec.id, S());
      var ok := Commit(ApplyConfig(cfg, setDryRun, secret, newId));
      if Inv(old(S())) {
        LoadStores(old(S()), ApplyConfig(cfg, setDryRun, secret, newId), rec.id, S());
      }
      r := if ok then Ok(Redact(rec)) else Err(PersistFailed);
    }

    method SetVCenterConfigMap(id: string, configMap: string, origin: Origin, ref: Option<SecretRef>)
      returns (r: Result<(), StoreError>)
      requires Valid()
      modifies this, disk
      ensures Valid() && Extends() && (r.Ok? ==> OnDisk() == |ops|)
      ensures if id in old(vcenters)
              then
                && S() == PutAt(old(S()), id, WithConfigMap(old(vcenters)[id], configMap, origin, ref))
                && ops == old(ops) + [SetConfigMap(id, configMap, origin, ref)]
                && (r.Err? ==> r.error == PersistFailed) && (disk.reliable ==> r.Ok?)
              else
                r == Err(NotFound) && S() == old(S()) && ops == old(ops)
    {
      if id !in vcenters {
        return Err(NotFound);
      }
      vcenters := vcenters[id := WithConfigMap(vcenters[id], configMap, origin, ref)];
      var ok := Commit(SetConfigMap(id, configMap, origin, ref));
      r := if ok then Ok(()) else Err(PersistFailed);
    }

    method SetGlobalDryRun(on: bool) returns (r: Result<Settings, StoreError>)
      requires Valid()
      modifies this, disk
      ensures Valid() && Extends() && (r.Ok? ==> OnDisk() == |ops|)
      ensures S() == old(S()).(settings := Settings(on)) && ops == old(ops) + [StoreSpec.SetGlobalDryRun(on)]
      ensures (r == if r.Ok? then Ok(Settings(on)) else Err(PersistFailed)) && (disk.reliable ==> r.Ok?)
    {
      settings := settings.(dryRun := on);
      var ok := Commit(StoreSpec.SetGlobalDryRun(on));
      r := if ok then Ok(settings) else Err(PersistFailed);
    }

    method SetVCenterDryRun(id: string, on: bool) returns (r: Result<VCenter, StoreError>)
      requires Valid()
      modifies this, disk
      ensures Valid() && Extends() && (r.Ok? ==> OnDisk() == |ops|)
      ensures if id in old(vcenters)
              then S() == old(S()).(vcenters := old(vcenters)[id := old(vcenters)[id].(dryRun := on)])
                   && (r.Ok? ==> r.value == Redact(vcenters[id])) && (r.Err? ==> r.error == PersistFailed)
                   && (disk.reliable ==> r.Ok?)
              else r == Err(NotFound) && S() == old(S()) && ops == old(ops)
    {
      if id !in vcenters {
        return Err(NotFound);
      }
      vcenters := vcenters[id := vcenters[id].(dryRun := on)];
      var ok := Commit(StoreSpec.SetVCenterDryRun(id, on));
      r := if ok then Ok(Redact(vcenters[id])) else Err(PersistFailed);
    }

    /** Deletes the mappings of the vCenter one by one, then the vCenter. */
    method DeleteVCenter(id: string) returns (r: Result<(), StoreError>)
      requires Valid()
      modifies this, disk
      ensures Valid() && Extends() && (r.Ok? ==> OnDisk() == |ops|)
      ensures if id in old(vcenters)
              then S() == WithoutVCenter(old(S()), id) && ops == old(ops) + [StoreSpec.DeleteVCenter(id)]
                   && (r.Err? ==> r.error == PersistFailed) && (disk.reliable ==> r.Ok?)
              else r == Err(NotFound) && S() == old(S()) && ops == old(ops) && disk.files == old(disk.files)
    {
      hide LifeOk, Run, Justified, LoadsAs;
      if id !in vcenters {
        return Err(NotFound);
      }
      var todo := byUUID.Keys;
      while todo != {}
        invariant todo <= old(byUUID).Keys && HistoryOk()
        invariant vcenters == old(vcenters) && settings == old(settings)
        invariant unchanged(this`passed, this`ops, this`sightings, disk)
        invariant byUUID == map u | u in old(byUUID) && (u in todo || old(byUUID)[u].vcenterId != id) :: old(byUUID)[u]
      {
        var u :| u in todo;
        if byUUID[u].vcenterId == id {
          byUUID := byUUID - {u};
        }
        todo := todo - {u};
      }
      vcenters := vcenters - {id};
      assert S() == WithoutVCenter(old(S()), id);
      var ok := Commit(StoreSpec.DeleteVCenter(id));
      r := if ok then Ok(()) else Err(PersistFailed);
    }

    /** On a first boot the environment gives one vCenter; a store that has one is left alone. */
    method SeedFromGOVC(e: Govc, newId: string) returns (seeded: bool, failed: bool)
      requires Valid() && FreshId(S(), newId)
      modifies this, disk
      ensures Valid() && Extends() && (disk.reliable ==> !failed) && !(seeded && failed)
      ensures seeded ==> OnDisk() == |ops|
      ensures if Seeds(e) && old(vcenters) == map[]
              then
                && S() == Put(old(S()), SeedRecord(e, newId)) && ops == old(ops) + [Seed(e, newId)]
                && (seeded || failed)
              else
                !seeded && !failed && S() == old(S()) && ops == old(ops)
    {
      hide SeedRecord, Justified, LoadsAs, Run, IsSnapshot, Seeds;
      seeded, failed := false, false;
      if !Seeds(e) || |vcenters| > 0 {
        return;
      }
      var vc := SeedRecord(e, newId);
      vcenters := vcenters[vc.id := vc];
      seeded := Commit(Seed(e, newId));
      failed := !seeded;
    }

    method UpsertMapping(m: Mapping) returns (r: Result<Mapping, StoreError>)
      requires Valid()
      modifies this, disk
      ensures Valid() && Extends() && (r.Ok? ==> OnDisk() == |ops|)
      ensures var n := m.(uuid := NormalizeUuid(m.uuid));
              if n.uuid == "" || n.vcenterId == "" then r == Err(MissingFields) && S() == old(S()) && ops == old(ops)
              else if n.vcenterId !in old(vcenters) then r == Err(NotFound) && S() == old(S()) && ops == old(ops)
              else
                && S() == old(S()).(byUUID := old(byUUID)[n.uuid := n])
                && (r == if r.Ok? then Ok(n) else Err(PersistFailed)) && (disk.reliable ==> r.Ok?)
    {
      var n := m.(uuid := NormalizeUuid(m.uuid));
      if n.uuid == "" || n.vcenterId == "" {
        return Err(MissingFields);
      }
      if n.vcenterId !in vcenters {
        return Err(NotFound);
      }
      byUUID := byUUID[n.uuid := n];
      var ok := Commit(StoreSpec.UpsertMapping(m));
      r := if ok then Ok(n) else Err(PersistFailed);
    }

    method DeleteMapping(uuid: string) returns (r: Result<(), StoreError>)
      requires Valid()
      modifies this, disk
      ensures Valid() && Extends() && (r.Ok? ==> OnDisk() == |ops|)
      ensures var u := NormalizeUuid(uuid);
              if u in old(byUUID)
              then
                && S() == old(S()).(byUUID := old(byUUID) - {u})
                && (r.Err? ==> r.error == PersistFailed) && (disk.reliable ==> r.Ok?)
              else r == Err(NotFound) && S() == old(S()) && ops == old(ops)
    {
      var u := NormalizeUuid(uuid);
      if u !in byUUID {
        return Err(NotFound);
      }
      byUUID := byUUID - {u};
      var ok := Commit(StoreSpec.DeleteMapping(uuid));
      r := if ok then Ok(()) else Err(PersistFailed);
    }
  }

  // ---------------------------------------------------------------- crash safety

  /** At every instant, whatever writes failed, opening a store on state.json gives the state the
      sighting names, one this store had already passed through, and a well-formed one. */
  lemma CrashSafe(l: Life, j: nat)
    requires LifeOk(l) && Inv(l.passed[0]) && j < |l.sightings|
    ensures var k := l.sightings[j].state;
            && k < |l.passed| && (k == 0 || k < l.sightings[j].passed)
            && LoadsAs(l.sightings[j].content, l.passed[k]) && Inv(l.passed[k])
  {
    hide Inv, Step;
    var x := l.sightings[j];
    assert SightingOk(l, x);
    RunKeepsInv(l.passed, l.ops, x.state);
    if Justified(x, l.passed) {
      LoadOfSnapshot(l.passed[x.state], x.content.doc);
    }
  }

  /** Processes one after the other. Each but the last is cut off at a sighting of the file, and the
      next one opens what the file held then. */
  ghost predicate Lives(lives: seq<Life>, cuts: seq<nat>) {
    && |lives| == |cuts| + 1
    && (forall i :: 0 <= i < |lives| ==> LifeOk(lives[i]))
    && Inv(lives[0].passed[0])
    && (forall i :: 0 <= i < |cuts| ==> Reopens(lives[i], cuts[i], lives[i + 1]))
  }

  ghost predicate Reopens(l: Life, cut: nat, next: Life) {
    cut < |l.sightings| && next.sightings != [] && l.sightings[cut].content == next.sightings[0].content
  }

  /** Of each life the operations that were on disk when it was cut off, and all of the last. */
  function Survived(lives: seq<Life>, cuts: seq<nat>): seq<Op>
    requires |lives| == |cuts| + 1
  {
    Saved(lives[..|cuts|], cuts) + lives[|cuts|].ops
  }

  function Saved(lives: seq<Life>, cuts: seq<nat>): seq<Op>
    requires |lives| == |cuts|
  {
    if lives == [] then [] else
    var n := |lives| - 1;
    Saved(lives[..n], cuts[..n]) + OnDiskAt(lives[n], cuts[n])
  }

  function OnDiskAt(l: Life, j: nat): seq<Op> {
    if j < |l.sightings| && l.sightings[j].state <= |l.ops| then l.ops[..l.sightings[j].state] else []
  }

  lemma OpenedOnce(content: Content, s: StoreState, t: StoreState)
    requires LoadsAs(content, s) && LoadsAs(content, t)
    ensures s == t
  {
  }

  /** A history cut at state k, and carried on from there. */
  lemma Glue(states: seq<StoreState>, ops: seq<Op>, k: nat, l: Life) returns (glued: seq<StoreState>, all: seq<Op>)
    requires Run(states, ops) && k < |states| && Run(l.passed, l.ops) && states[k] == l.passed[0]
    ensures Run(glued, all) && glued[0] == states[0] && all == ops[..k] + l.ops
    ensures |glued| == k + |l.passed| && glued[k..] == l.passed
  {
    hide Step;
    glued, all := states[..k] + l.passed, ops[..k] + l.ops;
    forall i | 0 <= i < |all| ensures Step(glued[i], all[i], glued[i + 1]) {
      if i < k {
        assert Step(states[i], ops[i], states[i + 1]);
        assert glued[i + 1] == states[i + 1];
      } else {
        assert Step(l.passed[i - k], l.ops[i - k], l.passed[i - k + 1]);
      }
    }
  }

  /** One more process: the surviving history goes on from the state its predecessor left on disk. */
  lemma OneMoreLife(earlier: seq<StoreState>, saved: seq<Op>, l: Life, cut: nat, last: Life)
    returns (states: seq<StoreState>)
    requires Run(earlier, saved + l.ops) && Inv(earlier[0])
    requires |saved| < |earlier| && earlier[|saved|..] == l.passed
    requires LifeOk(l) && LifeOk(last) && Reopens(l, cut, last)
    ensures var kept := saved + OnDiskAt(l, cut);
            && Run(states, kept + last.ops) && states[0] == earlier[0]
            && |kept| < |states| && states[|kept|..] == last.passed
  {
    hide Inv, Step, LoadsAs, Justified, SightingOk, Forward;
    var k := l.sightings[cut].state;
    assert earlier[|saved|] == earlier[|saved|..][0];
    RunKeepsInv(earlier, saved + l.ops, |saved|);
    CrashSafe(l, cut);
    StatesInRange(l, cut);
    OpenedOnce(last.sightings[0].content, l.passed[k], last.passed[0]);
    assert earlier[|saved| + k] == earlier[|saved|..][k];
    var all;
    states, all := Glue(earlier, saved + l.ops, |saved| + k, last);
    assert (saved + l.ops)[..|saved| + k] == saved + l.ops[..k];
  }

  /** Over any number of crashes, what survives is one run of the store from the first state: of each
      life exactly the operations on disk when it was cut off, in order, and all of the last. */
  lemma {:induction false} SurvivingHistoryIsARun(lives: seq<Life>, cuts: seq<nat>) returns (states: seq<StoreState>)
    requires Lives(lives, cuts)
    ensures Run(states, Survived(lives, cuts)) && states[0] == lives[0].passed[0]
    ensures var start := |Saved(lives[..|cuts|], cuts)|;
            start < |states| && states[start..] == lives[|cuts|].passed
    ensures forall i :: 0 <= i < |states| ==> Inv(states[i])
  {
    hide Inv, Step, LoadsAs, Justified, SightingOk, Forward, Saved, OnDiskAt;
    var n := |cuts|;
    if n == 0 {
      states := lives[0].passed;
      NothingSaved(lives, cuts);
    } else {
      EarlierLives(lives, cuts);
      var earlier := SurvivingHistoryIsARun(lives[..n], cuts[..n - 1]);
      assert lives[..n][..n - 1] == lives[..n - 1];
      states := OneMoreLife(earlier, Saved(lives[..n - 1], cuts[..n - 1]), lives[n - 1], cuts[n - 1], lives[n]);
      SavedSnoc(lives[..n], cuts);
    }
    forall i | 0 <= i < |states| ensures Inv(states[i]) {
      RunKeepsInv(states, Survived(lives, cuts), i);
    }
  }

  lemma NothingSaved(lives: seq<Life>, cuts: seq<nat>)
    requires |lives| == 1 && cuts == []
    ensures Saved(lives[..0], cuts) == [] && Survived(lives, cuts) == lives[0].ops
  {
  }

  lemma EarlierLives(lives: seq<Life>, cuts: seq<nat>)
    requires Lives(lives, cuts) && cuts != []
    ensures var n := |cuts|;
            && Lives(lives[..n], cuts[..n - 1])
            && LifeOk(lives[n - 1]) && LifeOk(lives[n]) && Reopens(lives[n - 1], cuts[n - 1], lives[n])
  {
    hide LifeOk, Inv;
    assert Reopens(lives[|cuts| - 1], cuts[|cuts| - 1], lives[|cuts|]);
  }

  lemma SavedSnoc(lives: seq<Life>, cuts: seq<nat>)
    requires |lives| == |cuts| > 0
    ensures var n := |lives| - 1;
            Saved(lives, cuts) == Saved(lives[..n], cuts[..n]) + OnDiskAt(lives[n], cuts[n])
  {
  }

  /** Durability. After an edit was answered with success, the state it left is on disk
      (Store.Commit); from then on nothing takes it back: whenever the process is cut off, its
      operations up to that edit are in the history that survives, with all that survived before it
      in front, however many crashes follow. */
  lemma {:induction false} AcknowledgedSurvives(lives: seq<Life>, cuts: seq<nat>, i: nat, a: nat)
    requires Lives(lives, cuts) && i < |cuts| && a <= cuts[i]
    ensures var l := lives[i];
            && a < |l.sightings| && l.sightings[a].state <= |l.ops|
            && Saved(lives[..i], cuts[..i]) + l.ops[..l.sightings[a].state] <= Survived(lives, cuts)
  {
    hide LoadsAs, Justified, Run, Inv, SightingOk, Saved;
    var l := lives[i];
    assert LifeOk(l) && Reopens(l, cuts[i], lives[i + 1]);
    StatesInRange(l, a);
    StatesInRange(l, cuts[i]);
    assert l.sightings[a].state <= l.sightings[cuts[i]].state;
    SavedGrows(lives[..|cuts|], cuts, i + 1);
    assert lives[..|cuts|][..i + 1] == lives[..i + 1] && lives[..i + 1][..i] == lives[..i]
        && cuts[..i + 1][..i] == cuts[..i];
    SavedSnoc(lives[..i + 1], cuts[..i + 1]);
  }

  lemma StatesInRange(l: Life, j: nat)
    requires LifeOk(l) && j < |l.sightings|
    ensures l.sightings[j].state <= |l.ops|
  {
    hide Step, LoadsAs, Justified;
    assert SightingOk(l, l.sightings[j]);
  }

  lemma {:induction false} SavedGrows(lives: seq<Life>, cuts: seq<nat>, n: nat)
    requires |lives| == |cuts| && n <= |lives|
    ensures Saved(lives[..n], cuts[..n]) <= Saved(lives, cuts)
    decreases |lives| - n
  {
    if n == |lives| {
      assert lives[..n] == lives && cuts[..n] == cuts;
    } else {
      SavedGrows(lives, cuts, n + 1);
      assert lives[..n + 1][..n] == lives[..n] && cuts[..n + 1][..n] == cuts[..n];
      SavedSnoc(lives[..n + 1], cuts[..n + 1]);
    }
  }

  /** A stored password outlives any number of crashes, unless a surviving operation deleted its
      vCenter. */
  lemma PasswordOutlivesCrashes(lives: seq<Life>, cuts: seq<nat>, id: string)
    requires Lives(lives, cuts) && HasPassword(lives[0].passed[0], id)
    requires DeleteVCenter(id) !in Saved(lives[..|cuts|], cuts)
    ensures HasPassword(lives[|cuts|].passed[0], id)
  {
    hide Inv, Step, HasPassword, LoadsAs, Justified;
    var states := SurvivingHistoryIsARun(lives, cuts);
    var start := |Saved(lives[..|cuts|], cuts)|;
    assert states[start] == states[start..][0];
    RunPrefix(states, Survived(lives, cuts), start);
    assert Survived(lives, cuts)[..start] == Saved(lives[..|cuts|], cuts);
    OnlyDeleteLosesPassword(states[..start + 1], Survived(lives, cuts)[..start], id);
  }

  lemma RunPrefix(states: seq<StoreState>, ops: seq<Op>, n: nat)
    requires Run(states, ops) && n <= |ops|
    ensures Run(states[..n + 1], ops[..n])
  {
    hide Step;
  }
}
