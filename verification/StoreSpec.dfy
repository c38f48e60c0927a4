/** The store's operations as functions and relations on its in-memory state. */
module StoreSpec {
  import opened Text
  import opened Records

  datatype StoreState = StoreState(
    vcenters: map<string, VCenter>,
    byUUID: map<string, Mapping>,
    settings: Settings)

  datatype StoreError = MissingFields | PasswordRequired | NotFound | PersistFailed | BadFile

  predicate RecordOk(id: string, vc: VCenter) {
    && vc.id == id != ""
    && vc.isoFolder != ""
    && NormalizeDatastore(vc.datastore) == vc.datastore
    && vc.name != "" && vc.url != "" && vc.datacenter != ""
    && !vc.hasPassword
    && (vc.password == "" ==> vc.passwordSource == NoSource)
  }

  predicate MappingOk(u: string, m: Mapping, ids: set<string>) {
    m.uuid == u != "" && NormalizeUuid(u) == u && m.vcenterId in ids
  }

  /** What every operation keeps. */
  ghost predicate Inv(s: StoreState) {
    && (forall id :: id in s.vcenters ==> RecordOk(id, s.vcenters[id]))
    && (forall u :: u in s.byUUID ==> MappingOk(u, s.byUUID[u], s.vcenters.Keys))
  }

  // ---------------------------------------------------------------- operations

  /** The record UpsertVCenter stores. An empty id asks for a new record. */
  function UpsertRecord(s: StoreState, vc: VCenter, newId: string): Result<VCenter, StoreError> {
    var named := vc.(datastore := NormalizeDatastore(vc.datastore));
    if named.url == "" || named.username == "" || named.datacenter == "" then Err(MissingFields) else
    var full := named.(
      name := if named.name == "" then named.url else named.name,
      isoFolder := if named.isoFolder == "" then DEFAULT_ISO_FOLDER else named.isoFolder);
    if vc.id == "" then
      if vc.password == "" then Err(PasswordRequired) else
      Ok(full.(id := newId, passwordSource := Manual, hasPassword := false,
      configMap := "", configOrigin := NoOrigin, credentialsSecret := None))
    else if vc.id !in s.vcenters then Err(NotFound) else
    var existing := s.vcenters[vc.id];
    Ok(full.(
    password := if vc.password == "" then existing.password else vc.password,
    passwordSource := if vc.password == "" then existing.passwordSource else Manual,
    dryRun := existing.dryRun, hasPassword := false,
    configMap := existing.configMap, configOrigin := existing.configOrigin,
    credentialsSecret := existing.credentialsSecret))
  }

  /** Field defaults ApplyConfigVCenter fills in before it looks for an existing record. */
  function WithDefaults(cfg: VCenter): VCenter {
    cfg.(name := if cfg.name == "" then cfg.url else cfg.name,
    isoFolder := if cfg.isoFolder == "" then DEFAULT_ISO_FOLDER else cfg.isoFolder,
    datastore := NormalizeDatastore(cfg.datastore))
  }

  predicate SameConfigMap(r: VCenter, cfg: VCenter) {
    cfg.configMap != "" && r.configMap == cfg.configMap
  }

  predicate Adoptable(r: VCenter, cfg: VCenter) {
    r.name == WithDefaults(cfg).name && (r.configMap == "" || r.configMap == cfg.configMap)
  }

  /** Which record a ConfigMap is merged into: by id, then by ConfigMap name, then by
      name. The maps are walked in no fixed order, so any candidate may be the one. */
  ghost predicate Matches(s: StoreState, cfg: VCenter, found: Option<VCenter>) {
    if cfg.id != "" && cfg.id in s.vcenters then
      found == Some(s.vcenters[cfg.id])
    else if exists id :: id in s.vcenters && SameConfigMap(s.vcenters[id], cfg) then
      found.Some? && exists id :: id in s.vcenters && s.vcenters[id] == found.value && SameConfigMap(found.value, cfg)
    else if exists id :: id in s.vcenters && Adoptable(s.vcenters[id], cfg) then
      found.Some? && exists id :: id in s.vcenters && s.vcenters[id] == found.value && Adoptable(found.value, cfg)
    else
      found == None
  }

  predicate ConfigValid(cfg: VCenter) {
    cfg.url != "" && cfg.datacenter != ""
  }

  /** The merged record: ConfigMap fields win; the Secret's password wins when there is
      one, otherwise the last known password is kept and counts as typed. */
  function Merged(cfg: VCenter, dryRun: Option<bool>, secret: string, found: Option<VCenter>, newId: string): VCenter {
    var base := WithDefaults(cfg);
    var keeps := found.Some? && found.value.password != "";
    base.(
    id := if found.Some? then found.value.id else if cfg.id == "" then newId else cfg.id,
    dryRun := if dryRun.Some? then dryRun.value else if found.Some? then found.value.dryRun else cfg.dryRun,
    password := if secret != "" then secret else if keeps then found.value.password else "",
    passwordSource :=
      if secret != "" then FromSecret
      else if !keeps then NoSource
      else if found.value.passwordSource == FromSecret then Manual else found.value.passwordSource,
    hasPassword := false)
  }

  lemma MergedIds(cfg: VCenter, dryRun: Option<bool>, secret: string, found: Option<VCenter>, newId: string)
    ensures var r := Merged(cfg, dryRun, secret, found, newId);
            && r.configMap == cfg.configMap
            && r.id == if found.Some? then found.value.id else if cfg.id == "" then newId else cfg.id
  {
  }

  function PutAt(s: StoreState, id: string, vc: VCenter): StoreState {
    s.(vcenters := s.vcenters[id := vc])
  }

  function Put(s: StoreState, vc: VCenter): StoreState {
    PutAt(s, vc.id, vc)
  }

  function WithConfigMap(r: VCenter, configMap: string, origin: Origin, ref: Option<SecretRef>): VCenter {
    r.(configMap := configMap, configOrigin := origin, credentialsSecret := ref)
  }

  function WithoutVCenter(s: StoreState, id: string): StoreState {
    s.(vcenters := s.vcenters - {id},
    byUUID := map u | u in s.byUUID && s.byUUID[u].vcenterId != id :: s.byUUID[u])
  }

  /** The environment variables a first vCenter is seeded from. */
  datatype Govc = Govc(
    url: string,
    username: string,
    password: string,
    insecure: string,
    datacenter: string,
    datastore: string,
    folder: string,
    isoFolder: string)

  predicate Seeds(e: Govc) {
    Trim(e.url) != "" && Trim(e.username) != "" && e.password != "" && Trim(e.datacenter) != ""
  }

  function SeedRecord(e: Govc, newId: string): VCenter {
    VCenter(newId, "seeded-from-govc", Trim(e.url), Trim(e.username), e.password, Lower(e.insecure) in {"1", "true"},
            Trim(e.datacenter), NormalizeDatastore(e.datastore), Trim(e.folder),
            if Trim(e.isoFolder) == "" then DEFAULT_ISO_FOLDER else Trim(e.isoFolder),
            "auto-seeded from GOVC_* env on first boot", false, "", NoOrigin, None, NoSource, false)
  }

  /** The UUID is mapped to the stored vCenter id. */
  predicate MapsTo(s: StoreState, uuid: string, id: string) {
    var u := NormalizeUuid(uuid);
    u in s.byUUID && s.byUUID[u].vcenterId == id && id in s.vcenters
  }

  /** Whether what is sent out for a UUID must be faked. */
  predicate DryFor(s: StoreState, uuid: string) {
    var u := NormalizeUuid(uuid);
    s.settings.dryRun ||
    (u in s.byUUID && s.byUUID[u].vcenterId in s.vcenters && s.vcenters[s.byUUID[u].vcenterId].dryRun)
  }

  // ---------------------------------------------------------------- what an edit leaves in a record

  /** What a user's create (before is None) or edit of a record leaves in it, field by field. */
  predicate Typed(vc: VCenter, before: Option<VCenter>, r: VCenter) {
    && r.url == vc.url && r.username == vc.username && r.insecure == vc.insecure && r.datacenter == vc.datacenter
    && r.folder == vc.folder && r.notes == vc.notes && !r.hasPassword
    && r.name == (if vc.name == "" then vc.url else vc.name)
    && r.isoFolder == (if vc.isoFolder == "" then "rf2vc/isos" else vc.isoFolder)
    && r.datastore == NormalizeDatastore(vc.datastore)
    && (vc.password != "" ==> r.password == vc.password && r.passwordSource == Manual)
    && match before
       case None =>
         r.password != "" && r.dryRun == vc.dryRun && r.configMap == "" && r.configOrigin == NoOrigin
         && r.credentialsSecret == None
       case Some(o) =>
         && (vc.password == "" ==> r.password == o.password && r.passwordSource == o.passwordSource)
         && r.dryRun == o.dryRun && r.configMap == o.configMap
         && r.configOrigin == o.configOrigin && r.credentialsSecret == o.credentialsSecret
  }

  /** What loading a ConfigMap leaves in a record: the ConfigMap's fields win, the Secret's password
      wins, and of the record before only the password and the dry-run flag can stay. */
  predicate Configured(cfg: VCenter, dry: Option<bool>, secret: string, before: Option<VCenter>, r: VCenter) {
    && r.url == cfg.url && r.username == cfg.username && r.insecure == cfg.insecure && r.datacenter == cfg.datacenter
    && r.folder == cfg.folder && r.notes == cfg.notes && !r.hasPassword
    && r.configMap == cfg.configMap && r.configOrigin == cfg.configOrigin
    && r.credentialsSecret == cfg.credentialsSecret
    && r.name == (if cfg.name == "" then cfg.url else cfg.name)
    && r.isoFolder == (if cfg.isoFolder == "" then "rf2vc/isos" else cfg.isoFolder)
    && r.datastore == NormalizeDatastore(cfg.datastore)
    && r.dryRun == (if dry.Some? then dry.value else if before.Some? then before.value.dryRun else cfg.dryRun)
    && (secret != "" ==> r.password == secret && r.passwordSource == FromSecret)
    && (secret == "" && before.Some? && before.value.password != "" ==>
      && r.password == before.value.password
      && r.passwordSource == if before.value.passwordSource == FromSecret then Manual else before.value.passwordSource)
    && (secret == "" && (before.None? || before.value.password == "") ==>
        r.password == "" && r.passwordSource == NoSource)
  }

  /** Only the record id may differ. */
  predicate OnlyRecord(s: StoreState, id: string, t: StoreState) {
    && t.byUUID == s.byUUID && t.settings == s.settings && t.vcenters.Keys == s.vcenters.Keys + {id}
    && forall o :: o in s.vcenters && o != id ==> t.vcenters[o] == s.vcenters[o]
  }

  function RecordAt(s: StoreState, id: string): Option<VCenter> {
    if id in s.vcenters then Some(s.vcenters[id]) else None
  }

  // ---------------------------------------------------------------- one step

  datatype Op =
    | Upsert(vc: VCenter, newId: string)
    | ApplyConfig(cfg: VCenter, setDryRun: Option<bool>, secret: string, newId: string)
    | SetConfigMap(id: string, configMap: string, origin: Origin, ref: Option<SecretRef>)
    | SetGlobalDryRun(on: bool)
    | SetVCenterDryRun(id: string, on: bool)
    | DeleteVCenter(id: string)
    | UpsertMapping(m: Mapping)
    | DeleteMapping(uuid: string)
    | Seed(env: Govc, newId: string)

  predicate FreshId(s: StoreState, id: string) {
    id != "" && id !in s.vcenters
  }

  /** An ApplyConfig put its record under id. */
  ghost predicate StoredUnder(s: StoreState, op: Op, id: string, t: StoreState)
    requires op.ApplyConfig?
  {
    exists found :: Matches(s, op.cfg, found) && PutsUnder(s, op, found, id, t)
  }

  predicate PutsUnder(s: StoreState, op: Op, found: Option<VCenter>, id: string, t: StoreState)
    requires op.ApplyConfig?
  {
    var r := Merged(op.cfg, op.setDryRun, op.secret, found, op.newId);
    t == Put(s, r) && id == r.id
  }

  /** One operation that was accepted, on the in-memory state. */
  ghost predicate Step(s: StoreState, op: Op, t: StoreState) {
    match op
    case Upsert(vc, newId) =>
      var r := UpsertRecord(s, vc, newId);
      FreshId(s, newId) && r.Ok? && t == Put(s, r.value)
    case ApplyConfig(cfg, dry, secret, newId) =>
      && ConfigValid(cfg) && FreshId(s, newId)
      && exists found :: Matches(s, cfg, found) && t == Put(s, Merged(cfg, dry, secret, found, newId))
    case SetConfigMap(id, configMap, origin, ref) =>
      id in s.vcenters && t == PutAt(s, id, WithConfigMap(s.vcenters[id], configMap, origin, ref))
    case SetGlobalDryRun(on) =>
      t == s.(settings := Settings(on))
    case SetVCenterDryRun(id, on) =>
      id in s.vcenters && t == PutAt(s, id, s.vcenters[id].(dryRun := on))
    case DeleteVCenter(id) =>
      id in s.vcenters && t == WithoutVCenter(s, id)
    case UpsertMapping(m) =>
      var n := m.(uuid := NormalizeUuid(m.uuid));
      n.uuid != "" && n.vcenterId in s.vcenters && t == s.(byUUID := s.byUUID[n.uuid := n])
    case DeleteMapping(uuid) =>
      NormalizeUuid(uuid) in s.byUUID && t == s.(byUUID := s.byUUID - {NormalizeUuid(uuid)})
    case Seed(env, newId) =>
      s.vcenters == map[] && Seeds(env) && FreshId(s, newId) && t == Put(s, SeedRecord(env, newId))
  }

  ghost predicate Run(states: seq<StoreState>, ops: seq<Op>) {
    && |states| == |ops| + 1
    && forall i :: 0 <= i < |ops| ==> Step(states[i], ops[i], states[i + 1])
  }

  lemma RunSnoc(states: seq<StoreState>, ops: seq<Op>, op: Op, t: StoreState)
    requires Run(states, ops) && Step(states[|ops|], op, t)
    ensures Run(states + [t], ops + [op])
  {
    hide Step;
  }

  // ---------------------------------------------------------------- theorems

  lemma MatchedIsStored(s: StoreState, cfg: VCenter, found: Option<VCenter>)
    requires Inv(s) && Matches(s, cfg, found)
    ensures found.Some? ==> found.value.id in s.vcenters && s.vcenters[found.value.id] == found.value
    ensures found.None? && cfg.id != "" ==> cfg.id !in s.vcenters
  {
  }

  lemma PutKeepsInv(s: StoreState, vc: VCenter)
    requires Inv(s) && RecordOk(vc.id, vc)
    ensures Inv(Put(s, vc))
  {
  }

  lemma UpsertRecordOk(s: StoreState, vc: VCenter, newId: string)
    requires Inv(s) && FreshId(s, newId) && UpsertRecord(s, vc, newId).Ok?
    ensures var r := UpsertRecord(s, vc, newId).value; RecordOk(r.id, r)
  {
    NormalizeDatastoreTwice(vc.datastore);
    if vc.id != "" {
      assert RecordOk(vc.id, s.vcenters[vc.id]);
    }
  }

  lemma SeedRecordOk(e: Govc, newId: string)
    requires Seeds(e) && newId != ""
    ensures RecordOk(newId, SeedRecord(e, newId)) && SeedRecord(e, newId).password != ""
  {
    NormalizeDatastoreTwice(e.datastore);
  }

  lemma MergedOk(cfg: VCenter, dryRun: Option<bool>, secret: string, found: Option<VCenter>, newId: string)
    requires ConfigValid(cfg) && newId != ""
    requires found.Some? ==> RecordOk(found.value.id, found.value)
    ensures var r := Merged(cfg, dryRun, secret, found, newId); RecordOk(r.id, r)
  {
    NormalizeDatastoreTwice(cfg.datastore);
  }

  /** The record an accepted ApplyConfig stores, and where. */
  lemma AppliedRecord(s: StoreState, op: Op, t: StoreState) returns (found: Option<VCenter>, r: VCenter)
    requires Inv(s) && op.ApplyConfig? && Step(s, op, t)
    ensures Matches(s, op.cfg, found) && r == Merged(op.cfg, op.setDryRun, op.secret, found, op.newId)
    ensures t == Put(s, r) && RecordOk(r.id, r)
    ensures r.id in s.vcenters ==> found == Some(s.vcenters[r.id])
    ensures found.Some? ==> r.id in s.vcenters
  {
    found :| Matches(s, op.cfg, found) && t == Put(s, Merged(op.cfg, op.setDryRun, op.secret, found, op.newId));
    MatchedIsStored(s, op.cfg, found);
    MergedOk(op.cfg, op.setDryRun, op.secret, found, op.newId);
    r := Merged(op.cfg, op.setDryRun, op.secret, found, op.newId);
  }

  lemma MappingStepsKeepInv(s: StoreState, op: Op, t: StoreState)
    requires Inv(s) && Step(s, op, t)
    requires op.SetGlobalDryRun? || op.UpsertMapping? || op.DeleteMapping?
    ensures Inv(t)
  {
    if op.UpsertMapping? {
      NormalizeUuidTwice(op.m.uuid);
    }
  }

  lemma DeleteKeepsInv(s: StoreState, id: string)
    requires Inv(s)
    ensures Inv(WithoutVCenter(s, id))
  {
  }

  lemma StepKeepsInv(s: StoreState, op: Op, t: StoreState)
    requires Inv(s) && Step(s, op, t)
    ensures Inv(t)
  {
    if op.Upsert? {
      UpsertRecordOk(s, op.vc, op.newId);
      PutKeepsInv(s, UpsertRecord(s, op.vc, op.newId).value);
    } else if op.ApplyConfig? {
      var _, r := AppliedRecord(s, op, t);
      PutKeepsInv(s, r);
    } else if op.SetConfigMap? {
      PutKeepsInv(s, WithConfigMap(s.vcenters[op.id], op.configMap, op.origin, op.ref));
    } else if op.SetVCenterDryRun? {
      PutKeepsInv(s, s.vcenters[op.id].(dryRun := op.on));
    } else if op.DeleteVCenter? {
      DeleteKeepsInv(s, op.id);
    } else if op.Seed? {
      SeedRecordOk(op.env, op.newId);
      PutKeepsInv(s, SeedRecord(op.env, op.newId));
    } else {
      MappingStepsKeepInv(s, op, t);
    }
  }

  lemma {:induction false} RunKeepsInv(states: seq<StoreState>, ops: seq<Op>, n: nat)
    requires Run(states, ops) && Inv(states[0]) && n < |states|
    ensures Inv(states[n])
  {
    if n > 0 {
      RunKeepsInv(states, ops, n - 1);
      StepKeepsInv(states[n - 1], ops[n - 1], states[n]);
    }
  }

  ghost predicate HasPassword(s: StoreState, id: string) {
    id in s.vcenters && s.vcenters[id].password != ""
  }

  /** The step from s to t typed a new password for id, or took one from its Secret. */
  predicate SuppliesPassword(op: Op, t: StoreState, id: string) {
    || (op.Upsert? && op.vc.id == id && op.vc.password != "")
    || (op.ApplyConfig? && op.secret != "" && id in t.vcenters && t.vcenters[id].passwordSource == FromSecret)
  }

  /** What no operation but deletion may break on one record. */
  predicate KeepsPassword(op: Op, before: VCenter, t: StoreState, id: string) {
    && id in t.vcenters
    && (before.password != "" ==> t.vcenters[id].password != "")
    && (before.password != "" && before.passwordSource == Manual && !SuppliesPassword(op, t, id) ==>
      t.vcenters[id].password == before.password && t.vcenters[id].passwordSource == Manual)
  }

  lemma UpsertOnRecord(s: StoreState, op: Op, t: StoreState, id: string)
    requires op.Upsert? && Step(s, op, t) && id in s.vcenters
    ensures KeepsPassword(op, s.vcenters[id], t, id)
  {
    var r := UpsertRecord(s, op.vc, op.newId).value;
    assert t.vcenters[id] == if id == r.id then r else s.vcenters[id];
  }

  lemma ApplyOnRecord(s: StoreState, op: Op, t: StoreState, id: string)
    requires Inv(s) && op.ApplyConfig? && Step(s, op, t) && id in s.vcenters
    ensures KeepsPassword(op, s.vcenters[id], t, id)
  {
    var _, r := AppliedRecord(s, op, t);
    assert t.vcenters[id] == if id == r.id then r else s.vcenters[id];
  }

  lemma StepOnRecord(s: StoreState, op: Op, t: StoreState, id: string)
    requires Inv(s) && Step(s, op, t) && id in s.vcenters && op != DeleteVCenter(id)
    ensures KeepsPassword(op, s.vcenters[id], t, id)
  {
    if op.Upsert? {
      UpsertOnRecord(s, op, t, id);
    } else if op.ApplyConfig? {
      ApplyOnRecord(s, op, t, id);
    }
  }

  /** Over any run, only deleting the vCenter makes a stored password disappear. */
  lemma {:induction false} OnlyDeleteLosesPassword(states: seq<StoreState>, ops: seq<Op>, id: string)
    requires Run(states, ops) && Inv(states[0]) && HasPassword(states[0], id)
    requires DeleteVCenter(id) !in ops
    ensures HasPassword(states[|ops|], id)
  {
    hide Step, Inv;
    if ops != [] {
      var n := |ops| - 1;
      OnlyDeleteLosesPassword(states[..n + 1], ops[..n], id);
      RunKeepsInv(states, ops, n);
      StepOnRecord(states[n], ops[n], states[n + 1], id);
    }
  }

  /** A typed password survives any run in which nobody types another one and no Secret
      supplies one for this vCenter. Restarts are runs of ApplyConfig and SetConfigMap. */
  lemma {:induction false} TypedPasswordSurvives(states: seq<StoreState>, ops: seq<Op>, id: string)
    requires Run(states, ops) && Inv(states[0])
    requires HasPassword(states[0], id) && states[0].vcenters[id].passwordSource == Manual
    requires DeleteVCenter(id) !in ops
    requires forall i :: 0 <= i < |ops| ==> !SuppliesPassword(ops[i], states[i + 1], id)
    ensures HasPassword(states[|ops|], id)
    ensures states[|ops|].vcenters[id].password == states[0].vcenters[id].password
    ensures states[|ops|].vcenters[id].passwordSource == Manual
  {
    hide Step, Inv, FreshId;
    if ops != [] {
      var n := |ops| - 1;
      TypedPasswordSurvives(states[..n + 1], ops[..n], id);
      RunKeepsInv(states, ops, n);
      StepOnRecord(states[n], ops[n], states[n + 1], id);
    }
  }

  /** A Secret's password reaches the record the ConfigMap was matched with, whatever was typed
      before; when none was matched, the new one. */
  lemma SecretWins(s: StoreState, op: Op, t: StoreState) returns (found: Option<VCenter>, id: string)
    requires Inv(s) && op.ApplyConfig? && op.secret != "" && Step(s, op, t)
    ensures Matches(s, op.cfg, found) && PutsUnder(s, op, found, id, t)
    ensures if found.Some? then id == found.value.id && id in s.vcenters
              && s.vcenters[id] == found.value else id !in s.vcenters
    ensures id in t.vcenters && t.vcenters[id].configMap == op.cfg.configMap
    ensures t.vcenters[id].password == op.secret && t.vcenters[id].passwordSource == FromSecret
  {
    var r;
    found, r := AppliedRecord(s, op, t);
    id := r.id;
    MatchedIsStored(s, op.cfg, found);
  }
}
