/** What each store operation does to the state, field by field, and when it is accepted. */
module StoredFields {
  import opened Text
  import opened Records
  import opened StoreSpec

  // ---------------------------------------------------------------- the edit form

  /** A create or edit changes one record, and leaves in it what was typed. */
  lemma EditStores(s: StoreState, vc: VCenter, newId: string, t: StoreState)
    requires Step(s, Upsert(vc, newId), t)
    ensures var id := if vc.id == "" then newId else vc.id;
            && OnlyRecord(s, id, t) && t.vcenters[id].id == id && (vc.id == "" <==> id !in s.vcenters)
            && Typed(vc, RecordAt(s, id), t.vcenters[id])
  {
  }

  /** When an edit is accepted, and what is wrong with it otherwise, in the order of the checks. */
  lemma EditIsAccepted(s: StoreState, vc: VCenter, newId: string)
    requires FreshId(s, newId)
    ensures (exists t :: Step(s, Upsert(vc, newId), t)) <==>
              && vc.url != "" && vc.username != "" && vc.datacenter != ""
              && if vc.id == "" then vc.password != "" else vc.id in s.vcenters
    ensures var r := UpsertRecord(s, vc, newId);
            r.Err? ==>
              r.error == if vc.url == "" || vc.username == "" || vc.datacenter == "" then MissingFields
                         else if vc.id == "" then PasswordRequired else NotFound
  {
    var r := UpsertRecord(s, vc, newId);
    if r.Ok? {
      assert Step(s, Upsert(vc, newId), Put(s, r.value));
    }
  }

  // ---------------------------------------------------------------- a ConfigMap

  ghost function OnConfigMap(s: StoreState, cfg: VCenter): set<string> {
    set id | id in s.vcenters && cfg.configMap != "" && s.vcenters[id].configMap == cfg.configMap
  }

  ghost function OfTheName(s: StoreState, cfg: VCenter): set<string> {
    set id | id in s.vcenters && s.vcenters[id].configMap == ""
             && s.vcenters[id].name == if cfg.name == "" then cfg.url else cfg.name
  }

  /** The order of the match: by id; else by ConfigMap name; else a record of that name that has no
      ConfigMap; else none. Any record that qualifies may be the one. */
  lemma MatchIs(s: StoreState, cfg: VCenter, found: Option<VCenter>)
    requires Inv(s)
    ensures Matches(s, cfg, found) <==>
              if cfg.id in s.vcenters then found == Some(s.vcenters[cfg.id])
              else if OnConfigMap(s, cfg) != {} then IsOneOf(s, OnConfigMap(s, cfg), found)
              else if OfTheName(s, cfg) != {} then IsOneOf(s, OfTheName(s, cfg), found)
              else found == None
  {
    hide Inv, OnConfigMap, OfTheName, IsOneOf, SameConfigMap, Adoptable;
    IdsAreKeys(s);
    OnConfigMapIs(s, cfg, found);
    if OnConfigMap(s, cfg) == {} {
      OfTheNameIs(s, cfg, found);
    }
  }

  lemma IdsAreKeys(s: StoreState)
    requires Inv(s)
    ensures forall id :: id in s.vcenters ==> s.vcenters[id].id == id != ""
  {
    assert forall id :: id in s.vcenters ==> RecordOk(id, s.vcenters[id]);
  }

  ghost predicate IsOneOf(s: StoreState, ids: set<string>, found: Option<VCenter>) {
    found.Some? && found.value.id in ids && RecordAt(s, found.value.id) == found
  }

  lemma OnConfigMapIs(s: StoreState, cfg: VCenter, found: Option<VCenter>)
    requires forall id :: id in s.vcenters ==> s.vcenters[id].id == id
    ensures OnConfigMap(s, cfg) != {} <==> exists id :: id in s.vcenters && SameConfigMap(s.vcenters[id], cfg)
    ensures IsOneOf(s, OnConfigMap(s, cfg), found) <==>
              found.Some? && exists id ::
                id in s.vcenters && s.vcenters[id] == found.value && SameConfigMap(found.value, cfg)
  {
    forall id | id in s.vcenters && SameConfigMap(s.vcenters[id], cfg) ensures id in OnConfigMap(s, cfg) {
    }
  }

  lemma OfTheNameIs(s: StoreState, cfg: VCenter, found: Option<VCenter>)
    requires forall id :: id in s.vcenters ==> s.vcenters[id].id == id
    requires OnConfigMap(s, cfg) == {}
    ensures OfTheName(s, cfg) != {} <==> exists id :: id in s.vcenters && Adoptable(s.vcenters[id], cfg)
    ensures IsOneOf(s, OfTheName(s, cfg), found) <==>
              found.Some? && exists id ::
                id in s.vcenters && s.vcenters[id] == found.value && Adoptable(found.value, cfg)
  {
    hide NormalizeDatastore;
    forall id | id in s.vcenters && Adoptable(s.vcenters[id], cfg) ensures id in OfTheName(s, cfg) {
      assert id !in OnConfigMap(s, cfg);
    }
  }

  lemma MergedFields(cfg: VCenter, dry: Option<bool>, secret: string, found: Option<VCenter>, newId: string)
    ensures Configured(cfg, dry, secret, found, Merged(cfg, dry, secret, found, newId))
  {
    hide NormalizeDatastore;
  }

  /** Loading a ConfigMap changes one record: it gets the ConfigMap's fields. */
  lemma LoadStores(s: StoreState, op: Op, id: string, t: StoreState)
    requires Inv(s) && op.ApplyConfig? && op.newId !in s.vcenters && StoredUnder(s, op, id, t)
    ensures OnlyRecord(s, id, t) && t.vcenters[id].id == id
    ensures Configured(op.cfg, op.setDryRun, op.secret, RecordAt(s, id), t.vcenters[id])
  {
    hide Inv, Matches, Merged, Configured;
    var found :| Matches(s, op.cfg, found) && PutsUnder(s, op, found, id, t);
    MatchedIsStored(s, op.cfg, found);
    MergedFields(op.cfg, op.setDryRun, op.secret, found, op.newId);
    MergedIds(op.cfg, op.setDryRun, op.secret, found, op.newId);
  }

  /** A ConfigMap is accepted exactly when it has a url and a datacenter. */
  lemma LoadIsAccepted(s: StoreState, op: Op, found: Option<VCenter>)
    requires op.ApplyConfig? && FreshId(s, op.newId) && Matches(s, op.cfg, found)
    ensures (exists t :: Step(s, op, t)) <==> op.cfg.url != "" && op.cfg.datacenter != ""
  {
    if ConfigValid(op.cfg) {
      assert Step(s, op, Put(s, Merged(op.cfg, op.setDryRun, op.secret, found, op.newId)));
    }
  }

  /** A note of the ConfigMap changes its three fields and no other. */
  lemma NoteStores(s: StoreState, id: string, configMap: string, origin: Origin, ref: Option<SecretRef>, t: StoreState)
    requires Step(s, SetConfigMap(id, configMap, origin, ref), t)
    ensures id in s.vcenters && OnlyRecord(s, id, t)
    ensures var o, r := s.vcenters[id], t.vcenters[id];
            && r.configMap == configMap && r.configOrigin == origin && r.credentialsSecret == ref
            && r.(configMap := o.configMap, configOrigin := o.configOrigin,
                credentialsSecret := o.credentialsSecret) == o
  {
  }

  // ---------------------------------------------------------------- mappings

  /** A UUID finds its mapping under every spelling: any case, any space around it. */
  lemma MappingIsFound(s: StoreState, m: Mapping, t: StoreState, b1: string, u1: string, a1: string,
                       b2: string, u2: string, a2: string, id: string)
    requires AllSpace(b1) && AllSpace(a1) && AllSpace(b2) && AllSpace(a2) && Trimmed(u1) && Trimmed(u2)
    requires m.uuid == b1 + u1 + a1 && Step(s, UpsertMapping(m), t)
    ensures t.vcenters == s.vcenters && t.settings == s.settings
    ensures MapsTo(t, b2 + u2 + a2, id) <==>
              if SameLetters(u1, u2) then id == m.vcenterId else MapsTo(s, b2 + u2 + a2, id)
  {
    SameUuidIff(b1, u1, a1, b2, u2, a2);
    hide NormalizeUuid;
  }

  /** Deleting a mapping takes away that UUID's, under every spelling, and no other. */
  lemma MappingIsGone(s: StoreState, uuid: string, t: StoreState, b: string, u: string, a: string,
                      b2: string, u2: string, a2: string, id: string)
    requires AllSpace(b) && AllSpace(a) && AllSpace(b2) && AllSpace(a2) && Trimmed(u) && Trimmed(u2)
    requires uuid == b + u + a && Step(s, DeleteMapping(uuid), t)
    ensures t.vcenters == s.vcenters && t.settings == s.settings
    ensures MapsTo(t, b2 + u2 + a2, id) <==> MapsTo(s, b2 + u2 + a2, id) && !SameLetters(u, u2)
  {
    SameUuidIff(b, u, a, b2, u2, a2);
    hide NormalizeUuid;
  }

  /** A mapping is accepted exactly for a UUID that is not blank and a stored vCenter. */
  lemma MappingIsAccepted(s: StoreState, m: Mapping)
    ensures (exists t :: Step(s, UpsertMapping(m), t)) <==> Trim(m.uuid) != "" && m.vcenterId in s.vcenters
  {
    var n := m.(uuid := NormalizeUuid(m.uuid));
    assert n.uuid != "" <==> Trim(m.uuid) != "";
    if n.uuid != "" && n.vcenterId in s.vcenters {
      assert Step(s, UpsertMapping(m), s.(byUUID := s.byUUID[n.uuid := n]));
    }
  }

  /** A UUID maps to one vCenter at most. */
  lemma MapsToOne(s: StoreState, uuid: string, a: string, b: string)
    requires MapsTo(s, uuid, a) && MapsTo(s, uuid, b)
    ensures a == b && a in s.vcenters
  {
  }

  /** A UUID is dry by the global flag or by that of the vCenter it is mapped to, and in no other way. */
  lemma DryForIff(s: StoreState, uuid: string)
    ensures DryFor(s, uuid) <==> s.settings.dryRun || exists id :: MapsTo(s, uuid, id) && s.vcenters[id].dryRun
  {
    var u := NormalizeUuid(uuid);
    if u in s.byUUID {
      assert s.byUUID[u].vcenterId in s.vcenters ==> MapsTo(s, uuid, s.byUUID[u].vcenterId);
    }
  }

  // ---------------------------------------------------------------- the rest

  /** Deleting a vCenter takes its record and the mappings to it, and nothing else. */
  lemma DeleteStores(s: StoreState, id: string, t: StoreState)
    requires Step(s, DeleteVCenter(id), t)
    ensures id in s.vcenters && t.settings == s.settings && t.vcenters.Keys == s.vcenters.Keys - {id}
    ensures forall o :: o in t.vcenters ==> t.vcenters[o] == s.vcenters[o]
    ensures forall u :: u in t.byUUID <==> u in s.byUUID && s.byUUID[u].vcenterId != id
    ensures forall u :: u in t.byUUID ==> t.byUUID[u] == s.byUUID[u]
  {
  }

  /** The flags: the global one, or that of one record. */
  lemma FlagStores(s: StoreState, id: string, on: bool, t: StoreState)
    ensures Step(s, StoreSpec.SetGlobalDryRun(on), t) <==>
              t.vcenters == s.vcenters && t.byUUID == s.byUUID && t.settings.dryRun == on
    ensures Step(s, StoreSpec.SetVCenterDryRun(id, on), t) ==>
              id in s.vcenters && OnlyRecord(s, id, t) && t.vcenters[id].dryRun == on
              && t.vcenters[id].(dryRun := s.vcenters[id].dryRun) == s.vcenters[id]
  {
  }

  /** The first vCenter is made of the environment, without surrounding space, and only of it. */
  lemma SeedStores(s: StoreState, e: Govc, newId: string, t: StoreState)
    requires Step(s, Seed(e, newId), t)
    ensures s.vcenters == map[] && t.vcenters.Keys == {newId} && OnlyRecord(s, newId, t)
    ensures var r := t.vcenters[newId];
            && r.id == newId && r.url == Trim(e.url) && r.username == Trim(e.username) && r.password == e.password
            && r.datacenter == Trim(e.datacenter) && r.datastore == NormalizeDatastore(e.datastore)
            && r.folder == Trim(e.folder)
            && r.isoFolder == (if Trim(e.isoFolder) == "" then "rf2vc/isos" else Trim(e.isoFolder))
            && (r.insecure <==> e.insecure == "1" || SameLetters(e.insecure, "true"))
            && !r.dryRun && r.configMap == "" && r.configOrigin == NoOrigin && r.credentialsSecret == None
            && r.passwordSource == NoSource && r.name == "seeded-from-govc"
  {
    hide NormalizeDatastore, Trim, SameLetters;
    InsecureIs(e.insecure);
  }

  lemma InsecureIs(x: string)
    ensures Lower(x) in {"1", "true"} <==> x == "1" || SameLetters(x, "true")
  {
    LowerIff(x, "true");
    assert Lower("true") == "true" && Lower("1") == "1";
    if Lower(x) == "1" {
      assert LowerChar(x[0]) == '1';
      assert x == [x[0]];
    }
  }

  /** It is made exactly when there is none yet and url, user, password and datacenter are given. */
  lemma SeedIsAccepted(s: StoreState, e: Govc, newId: string)
    requires FreshId(s, newId)
    ensures (exists t :: Step(s, Seed(e, newId), t)) <==>
              && s.vcenters == map[] && Trim(e.url) != "" && Trim(e.username) != "" && e.password != ""
              && Trim(e.datacenter) != ""
  {
    if s.vcenters == map[] && Seeds(e) {
      assert Step(s, Seed(e, newId), Put(s, SeedRecord(e, newId)));
    }
  }
}
