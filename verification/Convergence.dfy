/** Restarting converges: what repeated Startups do to the store and to the cluster when
    every call succeeds and nobody else writes. */
module Convergence {
  import opened Records
  import opened StoreSpec
  import opened VcsyncSpec

  // ---------------------------------------------------------------- one Startup

  /** Everything that happened during one Startup in which no call failed. */
  datatype Trace = Trace(
    cms: seq<ConfigMap>,            // as listed by the API
    newIds: seq<string>,            // random ids on offer
    states: seq<StoreState>,        // before and after each ConfigMap
    applied: seq<string>,           // the record each ConfigMap went to, "" when it was refused
    vcs: seq<VCenter>,              // the records exported, as ListVCenters returned them
    exports: seq<(StoreState, Cluster)>)  // before and after each export

  ghost predicate ApplyStep(s: StoreState, cm: ConfigMap, secrets: Secrets, newId: string, id: string, t: StoreState) {
    if Loadable(cm) then
      Step(s, ApplyOp(cm, secrets, newId), t) && StoredUnder(s, ApplyOp(cm, secrets, newId), id, t)
    else
      t == s && id == ""
  }

  ghost predicate ExportStep(x: (StoreState, Cluster), vc: VCenter, y: (StoreState, Cluster)) {
    match ExportName(x.1, vc)
    case None => y == x
    case Some(name) =>
      var ref := ExportRef(vc, name);
      && name in y.1 && y.1 == x.1[name := y.1[name]] && y.1[name].(rv := 0) == Render(vc, name, ref)
      && (name in x.1 ==> x.1[name].rv < y.1[name].rv)
      && vc.id in x.0.vcenters
      && y.0 == PutAt(x.0, vc.id, WithConfigMap(x.0.vcenters[vc.id], name, Runtime, Some(ref)))
  }

  ghost predicate ApplyPhase(s: StoreState, c: Cluster, secrets: Secrets, tr: Trace) {
    && |tr.newIds| == |tr.applied| == |tr.cms|
    && |tr.states| == |tr.cms| + 1 && tr.states[0] == s
    && (forall i :: 0 <= i < |tr.cms| ==> tr.cms[i].name in c && c[tr.cms[i].name] == tr.cms[i] && IsListed(tr.cms[i]))
    && (forall i, j :: 0 <= i < j < |tr.cms| ==> tr.cms[i].name != tr.cms[j].name)
    && (forall n :: n in c && IsListed(c[n]) ==> c[n] in tr.cms)
    && (forall i :: 0 <= i < |tr.cms| ==>
      ApplyStep(tr.states[i], tr.cms[i], secrets, tr.newIds[i], tr.applied[i], tr.states[i + 1]))
  }

  ghost predicate ExportPhase(s: StoreState, c: Cluster, tr: Trace, t: StoreState, d: Cluster) {
    && |tr.exports| == |tr.vcs| + 1 && tr.exports[0] == (s, c) && tr.exports[|tr.vcs|] == (t, d)
    && (forall j :: 0 <= j < |tr.vcs| ==>
      && tr.vcs[j].id in s.vcenters && tr.vcs[j] == Redact(s.vcenters[tr.vcs[j].id]) && tr.vcs[j].id !in tr.applied)
    && (forall i, j :: 0 <= i < j < |tr.vcs| ==> tr.vcs[i].id != tr.vcs[j].id)
    && (forall id :: id in s.vcenters && id !in tr.applied ==> exists j :: 0 <= j < |tr.vcs| && tr.vcs[j].id == id)
    && (forall j :: 0 <= j < |tr.vcs| ==> ExportStep(tr.exports[j], tr.vcs[j], tr.exports[j + 1]))
  }

  /** Startup took (s, c) to (t, d). */
  ghost predicate Startup(s: StoreState, c: Cluster, secrets: Secrets, tr: Trace, t: StoreState, d: Cluster) {
    && ApplyPhase(s, c, secrets, tr)
    && ExportPhase(tr.states[|tr.cms|], c, tr, t, d)
  }

  /** No id drawn at random is one a listed ConfigMap asks for. */
  ghost predicate IdsApart(c: Cluster, newIds: seq<string>) {
    forall n, i :: n in c && IsListed(c[n]) && 0 <= i < |newIds| ==> SpecId(c[n]) != newIds[i]
  }

  // ---------------------------------------------------------------- where Startup may begin

  predicate Listed(c: Cluster, n: string) {
    n in c && IsListed(c[n])
  }

  ghost predicate Holds(s: StoreState, id: string, n: string) {
    id in s.vcenters && s.vcenters[id].configMap == n
  }

  /** The record id holds the ConfigMap n, and n does not ask for another stored record. */
  ghost predicate HeldBy(s: StoreState, c: Cluster, n: string, id: string)
    requires n in c
  {
    Holds(s, id, n) && (SpecId(c[n]) == id || SpecId(c[n]) !in s.vcenters)
  }

  function EffectiveName(c: Cluster, n: string): string
    requires n in c && c[n].payload.Yaml?
  {
    var spec := c[n].payload.spec;
    if spec.name == "" then spec.url else spec.name
  }

  /** ConfigMaps are stored under their own, non-empty names. */
  ghost predicate Keyed(c: Cluster) {
    forall n :: n in c ==> n != "" && c[n].name == n
  }

  /** Listed ConfigMaps are valid. */
  ghost predicate WellDefined(c: Cluster) {
    && Keyed(c)
    && (forall n :: Listed(c, n) ==> Loadable(c[n]))
  }

  /** The record id is on no listed ConfigMap: it has none, or its ConfigMap is gone or no longer labelled. */
  ghost predicate Adrift(s: StoreState, c: Cluster, id: string)
    requires id in s.vcenters
  {
    !Listed(c, s.vcenters[id].configMap)
  }

  /** The ConfigMap names on record are distinct, and no name that is gone is one a record
      without ConfigMap could take. */
  ghost predicate ClaimsOk(s: StoreState, c: Cluster) {
    && (forall id, o :: id in s.vcenters && o in s.vcenters && id != o && s.vcenters[id].configMap != "" ==>
      s.vcenters[id].configMap != s.vcenters[o].configMap)
    && (forall id, o :: id in s.vcenters && o in s.vcenters && s.vcenters[id].configMap == ""
                        && s.vcenters[o].configMap != "" && Adrift(s, c, o) ==>
      s.vcenters[o].configMap !in {BaseName(s.vcenters[id]), LongName(s.vcenters[id])})
  }

  /** No other listed ConfigMap asks for the same id. */
  ghost predicate AsksAlone(c: Cluster, n: string)
    requires n in c
  {
    SpecId(c[n]) == "" || forall m :: Listed(c, m) && m != n ==> SpecId(c[m]) != SpecId(c[n])
  }

  /** n is on no record yet and asks for its id alone; if that record is stored, it is adrift
      and no other waiting ConfigMap could adopt it by name first. */
  ghost predicate Waiting(s: StoreState, c: Cluster, n: string, todo: set<string>)
    requires WellDefined(c) && Listed(c, n)
  {
    && n in todo && AsksAlone(c, n)
    && (forall id :: id in s.vcenters ==> !Holds(s, id, n))
    && (SpecId(c[n]) in s.vcenters ==>
      && Adrift(s, c, SpecId(c[n]))
      && (s.vcenters[SpecId(c[n])].configMap == "" ==>
        forall m :: m in todo && m != n && Listed(c, m) ==> EffectiveName(c, m) != s.vcenters[SpecId(c[n])].name))
  }

  ghost predicate Admissible(s: StoreState, c: Cluster, todo: set<string>) {
    && Inv(s) && WellDefined(c) && ClaimsOk(s, c)
    && forall n :: Listed(c, n) ==> (exists id :: HeldBy(s, c, n, id)) || Waiting(s, c, n, todo)
  }

  /** Every listed ConfigMap is on exactly one record and asks for no other. */
  ghost predicate Settled(s: StoreState, c: Cluster) {
    Admissible(s, c, {})
  }

  // ---------------------------------------------------------------- one ConfigMap

  lemma ApplyStepKeepsInv(s: StoreState, cm: ConfigMap, secrets: Secrets, newId: string, id: string, t: StoreState)
    requires Inv(s) && ApplyStep(s, cm, secrets, newId, id, t)
    ensures Inv(t)
  {
    hide Inv, Step;
    if Loadable(cm) {
      StepKeepsInv(s, ApplyOp(cm, secrets, newId), t);
    }
  }

  lemma NoEmptyId(s: StoreState)
    requires Inv(s)
    ensures "" !in s.vcenters
  {
    assert forall id :: id in s.vcenters ==> RecordOk(id, s.vcenters[id]);
  }

  lemma HolderIsMatched(s: StoreState, c: Cluster, todo: set<string>, n: string, id: string, cfg: VCenter,
                        found: Option<VCenter>)
    requires Admissible(s, c, todo) && Listed(c, n) && Holds(s, id, n)
    requires cfg.id == SpecId(c[n]) && cfg.configMap == n && Matches(s, cfg, found)
    ensures HeldBy(s, c, n, id) && found == Some(s.vcenters[id])
    ensures forall o :: Holds(s, o, n) ==> o == id
  {
    assert !Waiting(s, c, n, todo);
    var h :| HeldBy(s, c, n, h);
    assert h == id;
    NoEmptyId(s);
    if !(cfg.id != "" && cfg.id in s.vcenters) {
      assert SameConfigMap(s.vcenters[id], cfg);
    }
  }

  /** The record found for a waiting ConfigMap is adrift. */
  ghost predicate FreeMatch(s: StoreState, c: Cluster, n: string, found: Option<VCenter>)
    requires n in c && c[n].payload.Yaml?
  {
    if SpecId(c[n]) in s.vcenters then
      found == Some(s.vcenters[SpecId(c[n])]) && !Listed(c, found.value.configMap)
    else
      found.Some? ==> found.value.configMap == "" && found.value.name == EffectiveName(c, n)
  }

  lemma WaitingIsMatched(s: StoreState, c: Cluster, todo: set<string>, n: string, cfg: VCenter, found: Option<VCenter>)
    requires Admissible(s, c, todo) && Listed(c, n) && forall id :: !Holds(s, id, n)
    requires cfg.id == SpecId(c[n]) && cfg.configMap == n && Matches(s, cfg, found)
    requires cfg.name == c[n].payload.spec.name && cfg.url == c[n].payload.spec.url
    ensures FreeMatch(s, c, n, found)
  {
    hide RecordOk, MappingOk, Loadable, ClaimsOk;
    NoEmptyId(s);
    assert Waiting(s, c, n, todo);
    if SpecId(c[n]) !in s.vcenters {
      forall id | id in s.vcenters
        ensures !SameConfigMap(s.vcenters[id], cfg)
      {
        assert !Holds(s, id, n);
      }
      if found.Some? {
        var id :| id in s.vcenters && s.vcenters[id] == found.value && Adoptable(found.value, cfg);
        assert !Holds(s, id, n);
      }
    }
  }

  /** The configuration read from a ConfigMap keeps its identifying fields. */
  lemma ConfigIds(cm: ConfigMap, secrets: Secrets, newId: string)
    requires cm.payload.Yaml?
    ensures var cfg := ApplyOp(cm, secrets, newId).cfg;
            cfg.id == SpecId(cm) && cfg.configMap == cm.name && cfg.name == cm.payload.spec.name
            && cfg.url == cm.payload.spec.url
  {
  }

  /** What is known of where the record r of ConfigMap n goes. */
  ghost predicate Placed(s: StoreState, c: Cluster, n: string, newId: string, r: VCenter)
    requires n in c && c[n].payload.Yaml?
  {
    && r.configMap == n
    && (r.id in s.vcenters ==> s.vcenters[r.id].configMap == n || !Listed(c, s.vcenters[r.id].configMap))
    && (forall id :: Holds(s, id, n) ==> id == r.id)
    && (SpecId(c[n]) == r.id || SpecId(c[n]) !in s.vcenters)
    && (r.id !in s.vcenters ==> r.id == newId || (r.id == SpecId(c[n]) && AsksAlone(c, n)))
    && (r.id in s.vcenters && s.vcenters[r.id].configMap != n ==>
      r.id == SpecId(c[n]) || (s.vcenters[r.id].configMap == "" && s.vcenters[r.id].name == EffectiveName(c, n)))
  }

  lemma PlacedOnHolder(s: StoreState, c: Cluster, todo: set<string>, n: string, cfg: VCenter, found: Option<VCenter>,
                       newId: string, r: VCenter, id: string)
    requires Admissible(s, c, todo) && Listed(c, n) && Matches(s, cfg, found) && Holds(s, id, n)
    requires cfg.id == SpecId(c[n]) && cfg.configMap == n
    requires r.configMap == n && r.id == if found.Some? then found.value.id else if cfg.id == "" then newId else cfg.id
    ensures Placed(s, c, n, newId, r)
  {
    HolderIsMatched(s, c, todo, n, id, cfg, found);
    assert RecordOk(id, s.vcenters[id]);
  }

  lemma PlacedOnFree(s: StoreState, c: Cluster, n: string, found: Option<VCenter>,
                     newId: string, r: VCenter)
    requires Inv(s) && Listed(c, n) && !Listed(c, "") && c[n].payload.Yaml? && AsksAlone(c, n)
    requires FreeMatch(s, c, n, found) && forall id :: !Holds(s, id, n)
    requires r.configMap == n && r.id == if found.Some? then found.value.id else if SpecId(c[n]) == "" then newId
               else SpecId(c[n])
    requires found.Some? ==> found.value.id in s.vcenters && s.vcenters[found.value.id] == found.value
    requires found.None? ==> r.id !in s.vcenters
    ensures Placed(s, c, n, newId, r)
  {
    if SpecId(c[n]) in s.vcenters {
      assert RecordOk(SpecId(c[n]), s.vcenters[SpecId(c[n])]);
    }
  }

  /** The record a ConfigMap goes to in an admissible state. */
  lemma WhereApplied(s: StoreState, c: Cluster, todo: set<string>, n: string, secrets: Secrets, newId: string,
                     t: StoreState)
    returns (found: Option<VCenter>, r: VCenter)
    requires Admissible(s, c, todo) && Listed(c, n)
    requires Step(s, ApplyOp(c[n], secrets, newId), t)
    ensures t == Put(s, r) && RecordOk(r.id, r) && Placed(s, c, n, newId, r)
    ensures var op := ApplyOp(c[n], secrets, newId);
            r == Merged(op.cfg, op.setDryRun, op.secret, found, newId)
    ensures r.id in s.vcenters ==> found == Some(s.vcenters[r.id])
  {
    var op := ApplyOp(c[n], secrets, newId);
    found, r := AppliedRecord(s, op, t);
    ConfigIds(c[n], secrets, newId);
    MergedIds(op.cfg, op.setDryRun, op.secret, found, newId);
    if id :| Holds(s, id, n) {
      PlacedOnHolder(s, c, todo, n, op.cfg, found, newId, r, id);
    } else {
      WaitingIsMatched(s, c, todo, n, op.cfg, found);
      assert Waiting(s, c, n, todo);
      PlacedOnFree(s, c, n, found, newId, r);
    }
  }

  // ---------------------------------------------------------------- the apply phase

  /** Claims survive a change of one record that is on a listed ConfigMap of its own afterwards. */
  lemma ClaimsCarry(s: StoreState, c: Cluster, t: StoreState, d: Cluster, id: string)
    requires ClaimsOk(s, c) && id in t.vcenters && t.vcenters[id].configMap != ""
    requires forall o :: o in t.vcenters && o != id ==>
               o in s.vcenters && t.vcenters[o] == s.vcenters[o] && t.vcenters[o].configMap != t.vcenters[id].configMap
    requires forall o :: o in t.vcenters && Adrift(t, d, o) ==> o != id && Adrift(s, c, o)
    ensures ClaimsOk(t, d)
  {
    hide Adrift, BaseName, LongName;
  }

  lemma ClaimsOfPut(s: StoreState, c: Cluster, n: string, r: VCenter)
    requires ClaimsOk(s, c) && Listed(c, n) && n != "" && r.configMap == n
    requires forall id :: Holds(s, id, n) ==> id == r.id
    ensures ClaimsOk(Put(s, r), c)
  {
    hide ClaimsOk, Listed;
    var t := Put(s, r);
    assert t.vcenters[r.id] == r && !Adrift(t, c, r.id);
    assert forall o :: o in t.vcenters && o != r.id ==>
        o in s.vcenters && t.vcenters[o] == s.vcenters[o] && !Holds(s, o, n);
    ClaimsCarry(s, c, t, c, r.id);
  }

  lemma ClaimsKept(s: StoreState, c: Cluster, n: string, newId: string, r: VCenter)
    requires ClaimsOk(s, c) && Listed(c, n) && c[n].payload.Yaml? && n != "" && Placed(s, c, n, newId, r)
    ensures ClaimsOk(Put(s, r), c)
  {
    hide ClaimsOk, Listed;
    ClaimsOfPut(s, c, n, r);
  }

  lemma OtherHolderKept(s: StoreState, c: Cluster, n: string, newId: string, r: VCenter, m: string, id: string)
    requires WellDefined(c) && Listed(c, n) && Listed(c, m) && m != n && Placed(s, c, n, newId, r)
    requires SpecId(c[m]) != newId && "" !in s.vcenters && r.id != ""
    requires HeldBy(s, c, m, id)
    ensures HeldBy(Put(s, r), c, m, id)
  {
    assert r.id != id;
  }

  lemma OtherStillWaits(s: StoreState, c: Cluster, todo: set<string>, n: string, newId: string, r: VCenter, m: string)
    requires WellDefined(c) && Listed(c, n) && Listed(c, m) && m != n && Placed(s, c, n, newId, r) && n in todo
    requires SpecId(c[m]) != newId && "" !in s.vcenters && r.id != ""
    requires Waiting(s, c, m, todo)
    ensures Waiting(Put(s, r), c, m, todo - {n})
  {
    var t, x := Put(s, r), SpecId(c[m]);
    if x in t.vcenters {
      assert x in s.vcenters && s.vcenters[x].configMap == "" ==> EffectiveName(c, n) != s.vcenters[x].name;
      assert x != r.id;
      assert t.vcenters[x] == s.vcenters[x];
    }
    forall id | id in t.vcenters
      ensures !Holds(t, id, m)
    {
      if id != r.id {
        assert !Holds(s, id, m);
      }
    }
  }

  /** Applying one ConfigMap keeps the state admissible, with one ConfigMap less to wait for. */
  lemma ApplyKeepsAdmissible(s: StoreState, c: Cluster, todo: set<string>, n: string, secrets: Secrets, newId: string,
                             t: StoreState)
    requires Admissible(s, c, todo) && Listed(c, n) && n in todo && IdsApart(c, [newId])
    requires Step(s, ApplyOp(c[n], secrets, newId), t)
    ensures Admissible(t, c, todo - {n})
    ensures t.byUUID == s.byUUID && t.settings == s.settings
  {
    hide RecordOk, MappingOk, Merged, ApplyOp, Step;
    var _, r := WhereApplied(s, c, todo, n, secrets, newId, t);
    NoEmptyId(s);
    PutKeepsInv(s, r);
    ClaimsKept(s, c, n, newId, r);
    assert newId == [newId][0];
    forall m | Listed(c, m)
      ensures (exists id :: HeldBy(t, c, m, id)) || Waiting(t, c, m, todo - {n})
    {
      if m == n {
        assert HeldBy(t, c, n, r.id);
      } else if id :| HeldBy(s, c, m, id) {
        OtherHolderKept(s, c, n, newId, r, m, id);
      } else {
        OtherStillWaits(s, c, todo, n, newId, r, m);
      }
    }
  }

  ghost function Todo(c: Cluster, cms: seq<ConfigMap>, i: nat): set<string>
    requires i <= |cms|
  {
    set n | n in c && IsListed(c[n]) && forall k :: 0 <= k < i ==> cms[k].name != n
  }

  ghost predicate AppliedSoFar(tr: Trace, i: nat, s: StoreState)
    requires i <= |tr.cms| && |tr.applied| == |tr.cms|
  {
    forall k :: 0 <= k < i ==> Holds(s, tr.applied[k], tr.cms[k].name)
  }

  ghost predicate DistinctNames(cms: seq<ConfigMap>) {
    && (forall k :: 0 <= k < |cms| ==> cms[k].name != "")
    && (forall k, j :: 0 <= k < j < |cms| ==> cms[k].name != cms[j].name)
  }

  lemma ApplyKeepsHolders(tr: Trace, i: nat, s: StoreState, c: Cluster, newId: string, r: VCenter)
    requires i < |tr.cms| && |tr.applied| == |tr.cms| && AppliedSoFar(tr, i, s)
    requires DistinctNames(tr.cms) && forall k :: 0 <= k < i ==> Listed(c, tr.cms[k].name)
    requires tr.cms[i].name in c && c[tr.cms[i].name].payload.Yaml? && Placed(s, c, tr.cms[i].name, newId, r)
    ensures AppliedSoFar(tr, i, Put(s, r))
  {
    forall k | 0 <= k < i
      ensures Holds(Put(s, r), tr.applied[k], tr.cms[k].name)
    {
      assert Holds(s, tr.applied[k], tr.cms[k].name);
    }
  }

  lemma ListedNames(s: StoreState, c: Cluster, secrets: Secrets, tr: Trace, i: nat)
    requires ApplyPhase(s, c, secrets, tr) && WellDefined(c) && IdsApart(c, tr.newIds) && i < |tr.cms|
    ensures Listed(c, tr.cms[i].name) && tr.cms[i] == c[tr.cms[i].name] && tr.cms[i].name != "" && Loadable(tr.cms[i])
    ensures tr.cms[i].name in Todo(c, tr.cms, i)
    ensures Todo(c, tr.cms, i + 1) == Todo(c, tr.cms, i) - {tr.cms[i].name}
    ensures IdsApart(c, [tr.newIds[i]])
  {
    assert Listed(c, tr.cms[i].name);
  }

  lemma ApplyOne(s: StoreState, c: Cluster, secrets: Secrets, tr: Trace, i: nat, x: StoreState, y: StoreState)
    requires ApplyPhase(s, c, secrets, tr) && IdsApart(c, tr.newIds) && i < |tr.cms|
    requires Admissible(x, c, Todo(c, tr.cms, i))
    requires ApplyStep(x, tr.cms[i], secrets, tr.newIds[i], tr.applied[i], y)
    ensures Admissible(y, c, Todo(c, tr.cms, i + 1))
    ensures y.byUUID == x.byUUID && y.settings == x.settings
  {
    ListedNames(s, c, secrets, tr, i);
    ApplyKeepsAdmissible(x, c, Todo(c, tr.cms, i), tr.cms[i].name, secrets, tr.newIds[i], y);
  }

  lemma NamesAreDistinct(s: StoreState, c: Cluster, secrets: Secrets, tr: Trace)
    requires ApplyPhase(s, c, secrets, tr) && WellDefined(c)
    ensures DistinctNames(tr.cms)
  {
    forall k | 0 <= k < |tr.cms| ensures tr.cms[k].name != "" {
      assert Listed(c, tr.cms[k].name);
    }
  }

  lemma ApplyOneHolders(c: Cluster, secrets: Secrets, tr: Trace, i: nat, todo: set<string>, x: StoreState,
                        y: StoreState)
    requires i < |tr.cms| == |tr.newIds| == |tr.applied| && DistinctNames(tr.cms)
    requires forall k :: 0 <= k < i ==> Listed(c, tr.cms[k].name)
    requires Listed(c, tr.cms[i].name) && tr.cms[i] == c[tr.cms[i].name] && Loadable(tr.cms[i])
    requires Admissible(x, c, todo) && AppliedSoFar(tr, i, x)
    requires ApplyStep(x, tr.cms[i], secrets, tr.newIds[i], tr.applied[i], y)
    ensures AppliedSoFar(tr, i + 1, y)
  {
    var _, r := WhereApplied(x, c, todo, tr.cms[i].name, secrets, tr.newIds[i], y);
    ApplyKeepsHolders(tr, i, x, c, tr.newIds[i], r);
    assert Holds(y, tr.applied[i], tr.cms[i].name);
  }

  lemma {:induction false} ApplyPrefix(s: StoreState, c: Cluster, secrets: Secrets, tr: Trace, i: nat)
    requires ApplyPhase(s, c, secrets, tr) && IdsApart(c, tr.newIds)
    requires Admissible(s, c, Todo(c, tr.cms, 0)) && i <= |tr.cms|
    ensures Admissible(tr.states[i], c, Todo(c, tr.cms, i)) && AppliedSoFar(tr, i, tr.states[i])
    ensures tr.states[i].byUUID == s.byUUID && tr.states[i].settings == s.settings
  {
    hide Waiting, HeldBy, ApplyStep, Inv, Todo, DistinctNames, IsListed, ClaimsOk;
    if i > 0 {
      ApplyPrefix(s, c, secrets, tr, i - 1);
      ApplyOne(s, c, secrets, tr, i - 1, tr.states[i - 1], tr.states[i]);
      NamesAreDistinct(s, c, secrets, tr);
      ListedNames(s, c, secrets, tr, i - 1);
      ApplyOneHolders(c, secrets, tr, i - 1, Todo(c, tr.cms, i - 1), tr.states[i - 1], tr.states[i]);
    }
  }

  /** After the apply phase every listed ConfigMap is settled, and the records left for
      export are those adrift. */
  lemma ApplySettles(s: StoreState, c: Cluster, secrets: Secrets, tr: Trace)
    requires ApplyPhase(s, c, secrets, tr) && IdsApart(c, tr.newIds)
    requires Admissible(s, c, Todo(c, tr.cms, 0))
    ensures var t := tr.states[|tr.cms|];
            && Settled(t, c) && t.byUUID == s.byUUID && t.settings == s.settings
            && forall id :: id in t.vcenters ==> (id in tr.applied <==> !Adrift(t, c, id))
  {
    var n := |tr.cms|;
    var t := tr.states[n];
    ApplyPrefix(s, c, secrets, tr, n);
    assert Todo(c, tr.cms, n) == {} by {
      forall m | m in c && IsListed(c[m])
        ensures exists k :: 0 <= k < n && tr.cms[k].name == m
      {
        assert c[m] in tr.cms;
        assert c[m].name == m;
      }
    }
    forall id | id in t.vcenters
      ensures id in tr.applied <==> !Adrift(t, c, id)
    {
      AppliedHaveConfigMap(t, c, tr, id);
    }
  }

  lemma AppliedHaveConfigMap(t: StoreState, c: Cluster, tr: Trace, id: string)
    requires |tr.applied| == |tr.cms| && AppliedSoFar(tr, |tr.cms|, t) && WellDefined(c) && ClaimsOk(t, c)
    requires forall i :: 0 <= i < |tr.cms| ==> Listed(c, tr.cms[i].name)
    requires forall n :: n in c && IsListed(c[n]) ==> c[n] in tr.cms
    requires id in t.vcenters
    ensures id in tr.applied <==> !Adrift(t, c, id)
  {
    if id in tr.applied {
      var k :| 0 <= k < |tr.applied| && tr.applied[k] == id;
      assert Holds(t, id, tr.cms[k].name) && Listed(c, tr.cms[k].name);
    }
    var n := t.vcenters[id].configMap;
    if Listed(c, n) {
      assert c[n] in tr.cms;
      var k :| 0 <= k < |tr.cms| && tr.cms[k] == c[n];
      assert Holds(t, tr.applied[k], tr.cms[k].name);
    }
  }

  // ---------------------------------------------------------------- the export phase

  /** Export finds no ConfigMap it may write for the vCenter. */
  predicate Stuck(c: Cluster, vc: VCenter) {
    ExportName(c, vc) == None
  }

  lemma RenderedIs(cm: ConfigMap, vc: VCenter, name: string, ref: SecretRef)
    requires cm.(rv := 0) == Render(vc, name, ref)
    ensures IsListed(cm) && IsRuntime(cm) && SpecId(cm) == vc.id && cm.name == name && cm.payload.Yaml?
    ensures cm.payload.spec.url == vc.url && cm.payload.spec.datacenter == vc.datacenter
  {
    var r := Render(vc, name, ref);
    assert r.labels[LABEL_VCENTER] == "true" && r.labels[LABEL_ORIGIN] == "runtime";
    assert cm.labels == r.labels && cm.payload == r.payload;
  }

  lemma AdriftIsUnasked(s: StoreState, c: Cluster, id: string)
    requires Settled(s, c) && id in s.vcenters && Adrift(s, c, id)
    ensures forall m :: Listed(c, m) ==> SpecId(c[m]) != id
  {
    hide Inv, ClaimsOk;
    forall m | Listed(c, m)
      ensures SpecId(c[m]) != id
    {
      var h := SettledHolder(s, c, m);
    }
  }

  /** What an export may pick as a name: its own recorded one, or one of the two it makes up. */
  lemma PickedName(c: Cluster, vc: VCenter, name: string)
    requires ExportName(c, vc) == Some(name)
    ensures vc.configMap == "" ==> name in {BaseName(vc), LongName(vc)} && name != "" && NameUsable(c, name, vc.id)
    ensures vc.configMap != "" ==> name == vc.configMap && (name in c ==> IsRuntime(c[name]))
  {
  }

  /** The name an export writes to is on no other record and not listed. */
  lemma ExportNameIsFree(s: StoreState, c: Cluster, id: string, name: string)
    requires Settled(s, c) && id in s.vcenters && Adrift(s, c, id) && s.vcenters[id].id == id
    requires ExportName(c, s.vcenters[id]) == Some(name)
    ensures name != "" && !Listed(c, name) && (name in c ==> IsRuntime(c[name]))
    ensures forall o :: o in s.vcenters && o != id ==> s.vcenters[o].configMap != name
    ensures forall m :: Listed(c, m) ==> SpecId(c[m]) != id
  {
    AdriftIsUnasked(s, c, id);
    PickedName(c, s.vcenters[id], name);
    assert ClaimsOk(s, c);
    hide Settled, BaseName, LongName, SpecId, IsRuntime, IsListed, ExportName;
    assert forall o :: o in s.vcenters && s.vcenters[o].configMap == name ==> Adrift(s, c, o);
  }

  lemma SettledHolder(s: StoreState, c: Cluster, n: string) returns (id: string)
    requires Settled(s, c) && Listed(c, n)
    ensures HeldBy(s, c, n, id)
  {
    assert !Waiting(s, c, n, {});
    id :| HeldBy(s, c, n, id);
  }

  lemma ExportedClusterWellDefined(c: Cluster, d: Cluster, name: string)
    requires WellDefined(c) && name in d && d == c[name := d[name]] && name != ""
    requires d[name].name == name && Loadable(d[name])
    ensures WellDefined(d)
  {
    assert forall m :: m != name ==> (Listed(d, m) <==> Listed(c, m));
  }

  lemma PutThere(s: StoreState, id: string, r: VCenter)
    requires id in s.vcenters
    ensures PutAt(s, id, r).vcenters.Keys == s.vcenters.Keys && PutAt(s, id, r).vcenters[id] == r
    ensures forall o :: o in s.vcenters && o != id ==> PutAt(s, id, r).vcenters[o] == s.vcenters[o]
  {
  }

  lemma ExportedClaims(s: StoreState, c: Cluster, d: Cluster, name: string, id: string, r: VCenter)
    requires ClaimsOk(s, c) && name in d && d == c[name := d[name]] && IsListed(d[name]) && !Listed(c, name)
    requires id in s.vcenters && r.configMap == name != ""
    requires forall o :: o in s.vcenters && o != id ==> s.vcenters[o].configMap != name
    ensures ClaimsOk(PutAt(s, id, r), d)
  {
    hide ClaimsOk, IsListed, PutAt;
    var t := PutAt(s, id, r);
    PutThere(s, id, r);
    assert forall m :: Listed(c, m) ==> Listed(d, m);
    assert forall o :: o in t.vcenters && Adrift(t, d, o) ==>
        o != id && t.vcenters[o] == s.vcenters[o] && Adrift(s, c, o);
    ClaimsCarry(s, c, t, d, id);
  }

  lemma ExportedHolders(s: StoreState, c: Cluster, d: Cluster, name: string, id: string, r: VCenter, m: string)
    requires Settled(s, c) && name in d && d == c[name := d[name]] && SpecId(d[name]) == id
    requires id in s.vcenters && Adrift(s, c, id) && r.configMap == name
    requires Listed(d, m) && !Listed(c, name)
    ensures exists h :: HeldBy(PutAt(s, id, r), d, m, h)
  {
    var t := PutAt(s, id, r);
    if m == name {
      assert HeldBy(t, d, m, id);
    } else {
      assert Listed(c, m);
      var h := SettledHolder(s, c, m);
      assert HeldBy(t, d, m, h);
    }
  }

  lemma ExportedSettled(s: StoreState, c: Cluster, vc: VCenter, name: string, ref: SecretRef, d: Cluster)
    requires Settled(s, c) && vc.id in s.vcenters && vc == Redact(s.vcenters[vc.id]) && Adrift(s, c, vc.id)
    requires ExportName(c, vc) == Some(name)
    requires name in d && d == c[name := d[name]] && d[name].(rv := 0) == Render(vc, name, ref)
    ensures Settled(PutAt(s, vc.id, WithConfigMap(s.vcenters[vc.id], name, Runtime, Some(ref))), d)
  {
    hide RecordOk, MappingOk, FreeName, Render, BaseName, LongName;
    var r := WithConfigMap(s.vcenters[vc.id], name, Runtime, Some(ref));
    var t := PutAt(s, vc.id, r);
    assert RecordOk(vc.id, s.vcenters[vc.id]);
    OnRecord(s.vcenters[vc.id], vc.id, r);
    SameExportName(c, s.vcenters[vc.id]);
    ExportNameIsFree(s, c, vc.id, name);
    RenderedIs(d[name], vc, name, ref);
    ExportedClusterWellDefined(c, d, name);
    ExportedClaims(s, c, d, name, vc.id, r);
    PutKeepsInv(s, r);
    forall m | Listed(d, m)
      ensures exists h :: HeldBy(t, d, m, h)
    {
      ExportedHolders(s, c, d, name, vc.id, r, m);
    }
  }

  lemma OnRecord(was: VCenter, id: string, r: VCenter)
    requires RecordOk(id, was) && r == WithConfigMap(was, r.configMap, r.configOrigin, r.credentialsSecret)
    ensures was.id == id && was.url != "" && was.datacenter != "" && r.id == id && RecordOk(id, r)
  {
  }

  /** What export is shown of a record names the same ConfigMap. */
  lemma SameExportName(c: Cluster, r: VCenter)
    ensures ExportName(c, Redact(r)) == ExportName(c, r)
  {
  }

  lemma StillStuck(c: Cluster, d: Cluster, name: string, id: string, o: VCenter)
    requires name in d && d == c[name := d[name]] && SpecId(d[name]) == id && o.id != id && Stuck(c, o)
    requires name in c ==> IsRuntime(c[name])
    ensures Stuck(d, o)
  {
    hide BaseName, LongName;
  }

  /** What one export of a record adrift does. */
  ghost predicate Exported(x: (StoreState, Cluster), vc: VCenter, y: (StoreState, Cluster)) {
    && y.0.byUUID == x.0.byUUID && y.0.settings == x.0.settings && y.0.vcenters.Keys == x.0.vcenters.Keys
    && (forall o :: o in x.0.vcenters && o != vc.id ==> y.0.vcenters[o] == x.0.vcenters[o])
    && (if Stuck(x.1, vc) then y == x else vc.id in y.0.vcenters && !Adrift(y.0, y.1, vc.id))
    && (forall o :: o in x.0.vcenters && o != vc.id && Adrift(x.0, x.1, o) ==> Adrift(y.0, y.1, o))
    && (forall o: VCenter :: o.id != vc.id && Stuck(x.1, o) ==> Stuck(y.1, o))
    && (forall m :: Listed(x.1, m) ==> Listed(y.1, m))
  }

  lemma ExportedLists(s: StoreState, c: Cluster, t: StoreState, d: Cluster, id: string, name: string)
    requires name in d && d == c[name := d[name]] && IsListed(d[name])
    requires id in t.vcenters && t.vcenters.Keys == s.vcenters.Keys && t.vcenters[id].configMap == name
    requires forall o :: o in s.vcenters && o != id ==>
               t.vcenters[o] == s.vcenters[o] && s.vcenters[o].configMap != name
    ensures !Adrift(t, d, id)
    ensures forall o :: o in s.vcenters && o != id && Adrift(s, c, o) ==> Adrift(t, d, o)
    ensures forall m :: Listed(c, m) ==> Listed(d, m)
  {
    hide IsListed;
  }

  lemma ExportedFrame(s: StoreState, c: Cluster, vc: VCenter, name: string, ref: SecretRef, d: Cluster)
    requires vc.id in s.vcenters && !Stuck(c, vc) && (name in c ==> IsRuntime(c[name]))
    requires name in d && d == c[name := d[name]] && d[name].(rv := 0) == Render(vc, name, ref)
    requires forall o :: o in s.vcenters && o != vc.id ==> s.vcenters[o].configMap != name
    ensures var t := PutAt(s, vc.id, WithConfigMap(s.vcenters[vc.id], name, Runtime, Some(ref)));
            Exported((s, c), vc, (t, d))
  {
    hide Adrift, Listed, Stuck, Render, IsListed, IsRuntime, SpecId;
    RenderedIs(d[name], vc, name, ref);
    var r := WithConfigMap(s.vcenters[vc.id], name, Runtime, Some(ref));
    PutThere(s, vc.id, r);
    ExportedLists(s, c, PutAt(s, vc.id, r), d, vc.id, name);
    forall o: VCenter | o.id != vc.id && Stuck(c, o)
      ensures Stuck(d, o)
    {
      StillStuck(c, d, name, vc.id, o);
    }
  }

  lemma ExportKeepsSettled(x: (StoreState, Cluster), vc: VCenter, y: (StoreState, Cluster))
    requires Settled(x.0, x.1) && ExportStep(x, vc, y)
    requires vc.id in x.0.vcenters && vc == Redact(x.0.vcenters[vc.id]) && Adrift(x.0, x.1, vc.id)
    ensures Settled(y.0, y.1) && Exported(x, vc, y)
  {
    hide Settled, Render, FreeName, Inv;
    assert x == (x.0, x.1) && y == (y.0, y.1);
    if !Stuck(x.1, vc) {
      var name := ExportName(x.1, vc).value;
      SameExportName(x.1, x.0.vcenters[vc.id]);
      ExportNameIsFree(x.0, x.1, vc.id, name);
      ExportedSettled(x.0, x.1, vc, name, ExportRef(vc, name), y.1);
      ExportedFrame(x.0, x.1, vc, name, ExportRef(vc, name), y.1);
    }
  }

  /** What has become of one record to export. */
  ghost predicate Settles(s: StoreState, vc: VCenter, x: (StoreState, Cluster)) {
    vc.id in s.vcenters && vc.id in x.0.vcenters
    && (!Adrift(x.0, x.1, vc.id) || (x.0.vcenters[vc.id] == s.vcenters[vc.id] && Stuck(x.1, vc)))
  }

  ghost predicate StillAdrift(s: StoreState, id: string, x: (StoreState, Cluster)) {
    id in s.vcenters && id in x.0.vcenters && x.0.vcenters[id] == s.vcenters[id] && Adrift(x.0, x.1, id)
  }

  /** What has become of the records after the first j exports. */
  ghost predicate ExportedSoFar(s: StoreState, c: Cluster, tr: Trace, j: nat, x: (StoreState, Cluster)) {
    && x.0.byUUID == s.byUUID && x.0.settings == s.settings && x.0.vcenters.Keys == s.vcenters.Keys
    && (forall k :: 0 <= k < |tr.vcs| ==> if k < j then Settles(s, tr.vcs[k], x) else StillAdrift(s, tr.vcs[k].id, x))
    && (forall m :: Listed(c, m) ==> Listed(x.1, m))
    && (forall id :: id in s.vcenters && !Adrift(s, c, id) ==> x.0.vcenters[id] == s.vcenters[id])
  }

  ghost predicate AllAdrift(s: StoreState, c: Cluster, vcs: seq<VCenter>) {
    && (forall k :: 0 <= k < |vcs| ==>
        vcs[k].id in s.vcenters && vcs[k] == Redact(s.vcenters[vcs[k].id]) && Adrift(s, c, vcs[k].id))
    && (forall k, l :: 0 <= k < l < |vcs| ==> vcs[k].id != vcs[l].id)
  }

  lemma ExportOne(s: StoreState, c: Cluster, tr: Trace, j: nat, x: (StoreState, Cluster), y: (StoreState, Cluster))
    requires j < |tr.vcs| && ExportedSoFar(s, c, tr, j, x) && Exported(x, tr.vcs[j], y) && AllAdrift(s, c, tr.vcs)
    ensures ExportedSoFar(s, c, tr, j + 1, y)
  {
    hide Stuck, Redact, Listed;
    forall k | 0 <= k < |tr.vcs|
      ensures if k < j + 1 then Settles(s, tr.vcs[k], y) else StillAdrift(s, tr.vcs[k].id, y)
    {
      assert if k < j then Settles(s, tr.vcs[k], x) else StillAdrift(s, tr.vcs[k].id, x);
      if k < j {
        StillSettled(s, tr.vcs[k], tr.vcs[j], x, y);
      }
    }
  }

  lemma StillSettled(s: StoreState, o: VCenter, vc: VCenter, x: (StoreState, Cluster), y: (StoreState, Cluster))
    requires Settles(s, o, x) && Exported(x, vc, y) && o.id != vc.id
    ensures Settles(s, o, y)
  {
    hide Stuck;
  }

  lemma ExportedNone(s: StoreState, c: Cluster, tr: Trace)
    requires AllAdrift(s, c, tr.vcs)
    ensures ExportedSoFar(s, c, tr, 0, (s, c))
  {
    hide Redact, Listed;
  }

  lemma {:induction false} ExportPrefix(s: StoreState, c: Cluster, tr: Trace, t: StoreState, d: Cluster, j: nat)
    requires ExportPhase(s, c, tr, t, d) && Settled(s, c) && j <= |tr.vcs| && AllAdrift(s, c, tr.vcs)
    ensures Settled(tr.exports[j].0, tr.exports[j].1) && ExportedSoFar(s, c, tr, j, tr.exports[j])
  {
    hide Settled, ExportStep, Stuck, Redact, Exported, Listed;
    if j == 0 {
      ExportedNone(s, c, tr);
    } else {
      ExportPrefix(s, c, tr, t, d, j - 1);
      var x, vc, y := tr.exports[j - 1], tr.vcs[j - 1], tr.exports[j];
      assert StillAdrift(s, vc.id, x);
      ExportKeepsSettled(x, vc, y);
      ExportOne(s, c, tr, j - 1, x, y);
    }
  }

  /** Every record adrift is stuck. */
  ghost predicate Exhausted(s: StoreState, c: Cluster) {
    forall id :: id in s.vcenters && Adrift(s, c, id) ==> Stuck(c, s.vcenters[id])
  }

  lemma ExportExhausts(s: StoreState, c: Cluster, tr: Trace, t: StoreState, d: Cluster)
    requires ExportPhase(s, c, tr, t, d) && Settled(s, c)
    requires forall id :: id in s.vcenters ==> (id in tr.applied <==> !Adrift(s, c, id))
    ensures Settled(t, d) && Exhausted(t, d)
    ensures t.byUUID == s.byUUID && t.settings == s.settings && t.vcenters.Keys == s.vcenters.Keys
  {
    hide Settled, ExportStep, Redact, Stuck;
    assert AllAdrift(s, c, tr.vcs);
    ExportPrefix(s, c, tr, t, d, |tr.vcs|);
    forall id | id in t.vcenters && Adrift(t, d, id)
      ensures Stuck(d, t.vcenters[id])
    {
      assert Adrift(s, c, id);
      var k :| 0 <= k < |tr.vcs| && tr.vcs[k].id == id;
      assert Settles(s, tr.vcs[k], (t, d));
      StuckAsShown(d, s.vcenters[id]);
    }
  }

  lemma StuckAsShown(c: Cluster, r: VCenter)
    ensures Stuck(c, Redact(r)) <==> Stuck(c, r)
  {
    SameExportName(c, r);
  }

  /** The first Startup settles everything that can be settled, and keeps the mappings. A
      record whose ConfigMap is gone gets it back under its name. */
  lemma FirstStartup(s: StoreState, c: Cluster, secrets: Secrets, tr: Trace, t: StoreState, d: Cluster)
    requires Startup(s, c, secrets, tr, t, d) && IdsApart(c, tr.newIds)
    requires Admissible(s, c, Todo(c, tr.cms, 0))
    ensures Settled(t, d) && Exhausted(t, d)
    ensures t.byUUID == s.byUUID && t.settings == s.settings
  {
    ApplySettles(s, c, secrets, tr);
    ExportExhausts(tr.states[|tr.cms|], c, tr, t, d);
  }

  // ---------------------------------------------------------------- why admissibility is asked for

  function BareSpec(id: string, name: string): Spec {
    Spec(id, name, "u", "", false, "dc", "", "", "", "", None, None)
  }

  function BareConfigMap(cmName: string, id: string, name: string): ConfigMap {
    ConfigMap(cmName, map[LABEL_VCENTER := "true"], Yaml(BareSpec(id, name)), 1)
  }

  function BareRecord(id: string, name: string, configMap: string, origin: Origin): VCenter {
    VCenter(id, name, "u", "", "", false, "dc", "", "", DEFAULT_ISO_FOLDER, "", false, configMap, origin, None,
        NoSource, false)
  }

  function OneRecord(name: string, configMap: string, origin: Origin): StoreState {
    StoreState(map["x" := BareRecord("x", name, configMap, origin)], map[], Settings(false))
  }

  /** One ConfigMap matches the record x by name, another asks for x by id and renames it.
      Loading the first again then finds no record and makes up a new vCenter. */
  lemma AmbiguityCreatesVCenters(newId: string)
    requires newId != "" && newId != "x"
    ensures var a, b := BareConfigMap("a", "", "lab"), BareConfigMap("b", "x", "other");
            var s, t, u := OneRecord("lab", "", NoOrigin), OneRecord("lab", "a", GitOps),
                OneRecord("other", "b", GitOps);
            && Step(s, ApplyOp(a, map[], newId), t)
            && Step(t, ApplyOp(b, map[], newId), u)
            && Step(u, ApplyOp(a, map[], newId), Put(u, BareRecord(newId, "lab", "a", GitOps)))
            && newId !in u.vcenters
  {
    AdoptedByName(newId);
    TakenOverById(newId);
    NotFoundAgain(newId);
  }

  lemma AdoptedByName(newId: string)
    requires newId != "" && newId != "x"
    ensures Step(OneRecord("lab", "", NoOrigin), ApplyOp(BareConfigMap("a", "", "lab"), map[], newId),
              OneRecord("lab", "a", GitOps))
  {
    hide Step, Inv, Credentials;
    var s, cm, r := OneRecord("lab", "", NoOrigin), BareConfigMap("a", "", "lab"), BareRecord("x", "lab", "a", GitOps);
    assert Adoptable(s.vcenters["x"], FieldsOf(cm));
    AppliesTo(s, cm, newId, Some(s.vcenters["x"]), r);
    assert Put(s, r) == OneRecord("lab", "a", GitOps);
  }

  lemma TakenOverById(newId: string)
    requires newId != "" && newId != "x"
    ensures Step(OneRecord("lab", "a", GitOps), ApplyOp(BareConfigMap("b", "x", "other"), map[], newId),
              OneRecord("other", "b", GitOps))
  {
    var s, cm, r := OneRecord("lab", "a", GitOps), BareConfigMap("b", "x", "other"),
        BareRecord("x", "other", "b", GitOps);
    AppliesTo(s, cm, newId, Some(s.vcenters["x"]), r);
    assert Put(s, r) == OneRecord("other", "b", GitOps);
  }

  lemma NotFoundAgain(newId: string)
    requires newId != "" && newId != "x"
    ensures var u := OneRecord("other", "b", GitOps);
            Step(u, ApplyOp(BareConfigMap("a", "", "lab"), map[], newId), Put(u, BareRecord(newId, "lab", "a", GitOps)))
  {
    var u, cm, r := OneRecord("other", "b", GitOps), BareConfigMap("a", "", "lab"),
        BareRecord(newId, "lab", "a", GitOps);
    AppliesTo(u, cm, newId, None, r);
  }

  lemma AppliesTo(s: StoreState, cm: ConfigMap, newId: string, found: Option<VCenter>, r: VCenter)
    requires Loadable(cm) && FreshId(s, newId) && cm.payload.spec.credentialsSecret == None
    requires Matches(s, FieldsOf(cm), found) && r == Merged(FieldsOf(cm), cm.payload.spec.dryRun, "", found, newId)
    ensures Step(s, ApplyOp(cm, map[], newId), Put(s, r))
  {
  }
}
