/** A store and cluster that stay as they are must be steady: the Startups that show it. */
module StayingPut {
  import opened Records
  import opened StoreSpec
  import opened VcsyncSpec
  import opened Convergence
  import opened SteadyStates

  // ---------------------------------------------------------------- Startups exist

  lemma FreshString(used: set<string>) returns (id: string)
    ensures id != "" && id !in used
  {
    var n: nat, todo := 0, used;
    while todo != {}
      invariant todo <= used && forall k :: k in used - todo ==> |k| <= n
    {
      var k :| k in todo;
      n, todo := if |k| > n then |k| else n, todo - {k};
    }
    id := seq(n + 1, _ => '0');
  }

  /** The ConfigMaps as the API may list them: each listed one once, in some order. */
  ghost predicate Listing(c: Cluster, cms: seq<ConfigMap>) {
    && (forall i :: 0 <= i < |cms| ==> cms[i].name in c && c[cms[i].name] == cms[i] && IsListed(cms[i]))
    && (forall i, j :: 0 <= i < j < |cms| ==> cms[i].name != cms[j].name)
    && (forall n :: n in c && IsListed(c[n]) ==> c[n] in cms)
  }

  lemma Enumerate(ids: set<string>) returns (list: seq<string>)
    ensures forall id :: id in list <==> id in ids
    ensures forall i, j :: 0 <= i < j < |list| ==> list[i] != list[j]
  {
    hide *;
    var todo := ids;
    list := [];
    while todo != {}
      invariant todo <= ids && forall id :: id in list <==> id in ids - todo
      invariant forall i, j :: 0 <= i < j < |list| ==> list[i] != list[j]
    {
      var id :| id in todo;
      assert forall k :: 0 <= k < |list| ==> list[k] in list && list[k] != id;
      list, todo := list + [id], todo - {id};
    }
  }

  /** Any of them may come last. */
  lemma ListingEndingIn(c: Cluster, last: string) returns (cms: seq<ConfigMap>)
    requires Keyed(c)
    ensures Listing(c, cms)
    ensures Listed(c, last) ==> cms != [] && cms[|cms| - 1] == c[last]
  {
    hide IsListed;
    var list := Enumerate((set n | n in c && IsListed(c[n])) - {last});
    assert forall i :: 0 <= i < |list| ==> list[i] in list;
    if Listed(c, last) {
      list := list + [last];
    }
    cms := seq(|list|, i requires 0 <= i < |list| => c[list[i]]);
    forall n | Listed(c, n) ensures c[n] in cms {
      assert n in list;
      var i :| 0 <= i < |list| && list[i] == n;
      assert cms[i] == c[n];
    }
  }

  lemma SomeMatch(x: StoreState, cfg: VCenter) returns (found: Option<VCenter>)
    ensures Matches(x, cfg, found)
  {
    hide Adoptable, SameConfigMap;
    if cfg.id != "" && cfg.id in x.vcenters {
      found := Some(x.vcenters[cfg.id]);
    } else if id :| id in x.vcenters && SameConfigMap(x.vcenters[id], cfg) {
      found := Some(x.vcenters[id]);
    } else if id :| id in x.vcenters && Adoptable(x.vcenters[id], cfg) {
      found := Some(x.vcenters[id]);
    } else {
      found := None;
    }
  }

  lemma LoadWith(x: StoreState, cm: ConfigMap, secrets: Secrets, newId: string, found: Option<VCenter>)
    returns (to: string, y: StoreState)
    requires FreshId(x, newId) && Loadable(cm) && Matches(x, ApplyOp(cm, secrets, newId).cfg, found)
    ensures ApplyStep(x, cm, secrets, newId, to, y)
    ensures found.Some? ==> to == found.value.id
  {
    var op := ApplyOp(cm, secrets, newId);
    var r := Merged(op.cfg, op.setDryRun, op.secret, found, newId);
    MergedIds(op.cfg, op.setDryRun, op.secret, found, newId);
    to, y := r.id, Put(x, r);
    hide Matches, Merged;
    assert PutsUnder(x, op, found, to, y);
  }

  /** The load went to id when it could (seek), or elsewhere when it could (otherwise). */
  ghost predicate Chosen(x: StoreState, c: Cluster, n: string, id: string, seek: bool, to: string)
    requires n in c
  {
    Anchored(x, c) && Live(c, n) ==>
      if seek then Candidate(x, c, n, id) ==> to == id
      else (exists o :: o != id && Candidate(x, c, n, o)) ==> to != id
  }

  lemma LoadChosen(x: StoreState, c: Cluster, n: string, secrets: Secrets, newId: string, id: string, seek: bool)
    returns (to: string, y: StoreState)
    requires Inv(x) && Keyed(c) && n in c && FreshId(x, newId)
    ensures ApplyStep(x, c[n], secrets, newId, to, y) && Chosen(x, c, n, id, seek, to)
  {
    if !Loadable(c[n]) {
      return "", x;
    }
    var cfg := ApplyOp(c[n], secrets, newId).cfg;
    ConfigIds(c[n], secrets, newId);
    hide Inv, Anchored, Loadable, Matches, Candidate, ApplyStep, ApplyOp, Keyed;
    if seek && Candidate(x, c, n, id) {
      CandidateMatches(x, c, n, cfg, id);
      StoredIds(x, c, n, id);
      to, y := LoadWith(x, c[n], secrets, newId, Some(x.vcenters[id]));
    } else if o :| o != id && Candidate(x, c, n, o) {
      CandidateMatches(x, c, n, cfg, o);
      StoredIds(x, c, n, o);
      to, y := LoadWith(x, c[n], secrets, newId, Some(x.vcenters[o]));
    } else {
      var found := SomeMatch(x, cfg);
      to, y := LoadWith(x, c[n], secrets, newId, found);
    }
  }

  lemma StoredIds(x: StoreState, c: Cluster, n: string, id: string)
    requires Inv(x) && n in c && Candidate(x, c, n, id)
    ensures id in x.vcenters && x.vcenters[id].id == id
  {
    hide MappingOk;
    assert RecordOk(id, x.vcenters[id]);
  }

  /** A chain of loads of the first i ConfigMaps. */
  ghost predicate Loads(s: StoreState, c: Cluster, secrets: Secrets, cms: seq<ConfigMap>, i: nat, newIds: seq<string>,
                        states: seq<StoreState>, applied: seq<string>) {
    && i <= |cms| && |newIds| == |applied| == i && |states| == i + 1 && states[0] == s && IdsApart(c, newIds)
    && forall k :: 0 <= k < i ==> ApplyStep(states[k], cms[k], secrets, newIds[k], applied[k], states[k + 1])
  }

  ghost predicate AllChosen(c: Cluster, cms: seq<ConfigMap>, states: seq<StoreState>, applied: seq<string>,
                            id: string, seek: bool) {
    |applied| <= |cms| && |applied| <= |states|
    && forall k :: 0 <= k < |applied| ==> cms[k].name in c && Chosen(states[k], c, cms[k].name, id, seek, applied[k])
  }

  lemma LoadsSnoc(s: StoreState, c: Cluster, secrets: Secrets, cms: seq<ConfigMap>, i: nat, newIds: seq<string>,
                  states: seq<StoreState>, applied: seq<string>, newId: string, to: string, y: StoreState)
    requires Loads(s, c, secrets, cms, i, newIds, states, applied) && i < |cms|
    requires ApplyStep(states[i], cms[i], secrets, newId, to, y) && forall n :: Listed(c, n) ==> SpecId(c[n]) != newId
    ensures Loads(s, c, secrets, cms, i + 1, newIds + [newId], states + [y], applied + [to])
  {
    hide ApplyStep, SpecId, IsListed;
  }

  lemma {:induction false} LoadsExist(s: StoreState, c: Cluster, secrets: Secrets, cms: seq<ConfigMap>, i: nat,
                                      id: string, seek: bool)
    returns (newIds: seq<string>, states: seq<StoreState>, applied: seq<string>)
    requires Inv(s) && Keyed(c) && Listing(c, cms) && i <= |cms|
    ensures Loads(s, c, secrets, cms, i, newIds, states, applied) && Inv(states[i])
    ensures AllChosen(c, cms, states, applied, id, seek)
  {
    hide Inv, ApplyStep, Chosen, Keyed, IsListed, SpecId;
    if i == 0 {
      newIds, states, applied := [], [s], [];
    } else {
      newIds, states, applied := LoadsExist(s, c, secrets, cms, i - 1, id, seek);
      var x := states[i - 1];
      var newId := FreshString(x.vcenters.Keys + set n | n in c :: SpecId(c[n]));
      var to, y := LoadChosen(x, c, cms[i - 1].name, secrets, newId, id, seek);
      ApplyStepKeepsInv(x, cms[i - 1], secrets, newId, to, y);
      LoadsSnoc(s, c, secrets, cms, i - 1, newIds, states, applied, newId, to, y);
      newIds, states, applied := newIds + [newId], states + [y], applied + [to];
    }
  }

  /** The records outside applied, each once. */
  ghost predicate PassedOver(s: StoreState, applied: seq<string>, vcs: seq<VCenter>) {
    && (forall j :: 0 <= j < |vcs| ==>
      vcs[j].id in s.vcenters && vcs[j] == Redact(s.vcenters[vcs[j].id]) && vcs[j].id !in applied)
    && (forall i, j :: 0 <= i < j < |vcs| ==> vcs[i].id != vcs[j].id)
    && (forall id :: id in s.vcenters && id !in applied ==> exists j :: 0 <= j < |vcs| && vcs[j].id == id)
  }

  ghost predicate OwnIds(s: StoreState) {
    forall id :: id in s.vcenters ==> s.vcenters[id].id == id
  }

  lemma InvOwnIds(s: StoreState)
    requires Inv(s)
    ensures OwnIds(s)
  {
    hide MappingOk;
    assert forall id :: id in s.vcenters ==> RecordOk(id, s.vcenters[id]);
  }

  lemma PassedOverExists(s: StoreState, applied: seq<string>) returns (vcs: seq<VCenter>)
    requires OwnIds(s)
    ensures PassedOver(s, applied, vcs)
  {
    hide NormalizeDatastore;
    var list := Enumerate(set id | id in s.vcenters && id !in applied);
    assert forall i :: 0 <= i < |list| ==> list[i] in list;
    vcs := seq(|list|, i requires 0 <= i < |list| => Redact(s.vcenters[list[i]]));
    assert forall i :: 0 <= i < |list| ==> vcs[i].id == list[i];
    forall id | id in s.vcenters && id !in applied
      ensures exists j :: 0 <= j < |vcs| && vcs[j].id == id
    {
      assert id in list;
      var j :| 0 <= j < |list| && list[j] == id;
      assert vcs[j].id == id;
    }
  }

  lemma NotedKeepsInv(s: StoreState, id: string, name: string, ref: SecretRef)
    requires Inv(s) && id in s.vcenters
    ensures Inv(PutAt(s, id, WithConfigMap(s.vcenters[id], name, Runtime, Some(ref))))
  {
    hide MappingOk;
    assert RecordOk(id, s.vcenters[id]);
    PutKeepsInv(s, WithConfigMap(s.vcenters[id], name, Runtime, Some(ref)));
  }

  lemma ExportNameIsSet(c: Cluster, vc: VCenter)
    ensures ExportName(c, vc).Some? ==> ExportName(c, vc).value != ""
  {
  }

  /** A write by export, as an API server may answer it. */
  lemma ExportExists(x: (StoreState, Cluster), vc: VCenter) returns (y: (StoreState, Cluster))
    requires Inv(x.0) && Keyed(x.1) && vc.id in x.0.vcenters
    ensures ExportStep(x, vc, y) && Inv(y.0) && Keyed(y.1) && y.0.vcenters.Keys == x.0.vcenters.Keys
  {
    hide ExportName, Inv, ExportRef;
    ExportNameIsSet(x.1, vc);
    match ExportName(x.1, vc)
    case None => y := x;
    case Some(name) =>
      var ref := ExportRef(vc, name);
      var cm := Render(vc, name, ref).(rv := if name in x.1 then x.1[name].rv + 1 else 1);
      NotedKeepsInv(x.0, vc.id, name, ref);
      y := (PutAt(x.0, vc.id, WithConfigMap(x.0.vcenters[vc.id], name, Runtime, Some(ref))), x.1[name := cm]);
  }

  /** A chain of exports. */
  ghost predicate Exports(x: (StoreState, Cluster), vcs: seq<VCenter>, exports: seq<(StoreState, Cluster)>) {
    && |exports| == |vcs| + 1 && exports[0] == x
    && forall j :: 0 <= j < |vcs| ==> ExportStep(exports[j], vcs[j], exports[j + 1])
  }

  lemma {:induction false} ExportsExist(x: (StoreState, Cluster), vcs: seq<VCenter>)
    returns (exports: seq<(StoreState, Cluster)>)
    requires Inv(x.0) && Keyed(x.1) && forall j :: 0 <= j < |vcs| ==> vcs[j].id in x.0.vcenters
    ensures Exports(x, vcs, exports) && Inv(exports[|vcs|].0) && Keyed(exports[|vcs|].1)
    ensures exports[|vcs|].0.vcenters.Keys == x.0.vcenters.Keys
  {
    hide Inv, ExportStep, Keyed;
    if vcs == [] {
      exports := [x];
    } else {
      var before := vcs[..|vcs| - 1];
      exports := ExportsExist(x, before);
      var y := ExportExists(exports[|before|], vcs[|before|]);
      exports := exports + [y];
    }
  }

  lemma PhaseOfLoads(s: StoreState, c: Cluster, secrets: Secrets, tr: Trace)
    requires Listing(c, tr.cms) && Loads(s, c, secrets, tr.cms, |tr.cms|, tr.newIds, tr.states, tr.applied)
    ensures ApplyPhase(s, c, secrets, tr)
  {
    hide ApplyStep, IdsApart;
  }

  lemma PhaseOfExports(m: StoreState, c: Cluster, tr: Trace)
    requires PassedOver(m, tr.applied, tr.vcs) && Exports((m, c), tr.vcs, tr.exports)
    ensures ExportPhase(m, c, tr, tr.exports[|tr.vcs|].0, tr.exports[|tr.vcs|].1)
  {
    hide ExportStep, Redact;
  }

  /** From every well-formed store, for every order of the listed ConfigMaps, there is a
      Startup, and one that favours or avoids the record id wherever there is a choice. */
  lemma StartupExists(s: StoreState, c: Cluster, secrets: Secrets, cms: seq<ConfigMap>, id: string, seek: bool)
    returns (tr: Trace, t: StoreState, d: Cluster)
    requires Inv(s) && Keyed(c) && Listing(c, cms)
    ensures Startup(s, c, secrets, tr, t, d) && IdsApart(c, tr.newIds) && Inv(t) && Keyed(d) && tr.cms == cms
    ensures AllChosen(c, cms, tr.states, tr.applied, id, seek)
  {
    hide Inv, ApplyStep, ExportStep, Chosen, Keyed, Redact, ApplyPhase, ExportPhase, Listing, IdsApart;
    var newIds, states, applied := LoadsExist(s, c, secrets, cms, |cms|, id, seek);
    var m := states[|cms|];
    InvOwnIds(m);
    var vcs := PassedOverExists(m, applied);
    var exports := ExportsExist((m, c), vcs);
    t, d := exports[|vcs|].0, exports[|vcs|].1;
    tr := Trace(cms, newIds, states, applied, vcs, exports);
    PhaseOfLoads(s, c, secrets, tr);
    PhaseOfExports(m, c, tr);
  }

  // ---------------------------------------------------------------- what they show

  /** Two Startups in a row, in whatever order ConfigMaps are listed and records matched: the
      first changes nothing but record fields, the second nothing at all. */
  ghost predicate StaysPut(s: StoreState, c: Cluster, secrets: Secrets) {
    forall tr1, t, d, tr2, u, e ::
      Startup(s, c, secrets, tr1, t, d) && IdsApart(c, tr1.newIds) && Startup(t, d, secrets, tr2, u, e)
          && IdsApart(d, tr2.newIds) ==>
        SameShape(s, c, t, d) && e == d && u == t
  }

  lemma MatchedById(x: StoreState, cfg: VCenter, found: Option<VCenter>)
    requires Matches(x, cfg, found) && cfg.id in x.vcenters && cfg.id != ""
    ensures found == Some(x.vcenters[cfg.id])
  {
  }

  lemma PutWhere(x: StoreState, op: Op, found: Option<VCenter>, to: string, y: StoreState)
    requires op.ApplyConfig? && PutsUnder(x, op, found, to, y)
    ensures x.vcenters.Keys <= y.vcenters.Keys && to in y.vcenters && y.vcenters[to].configMap == op.cfg.configMap
    ensures to == if found.Some? then found.value.id else if op.cfg.id == "" then op.newId else op.cfg.id
  {
    MergedIds(op.cfg, op.setDryRun, op.secret, found, op.newId);
    hide Merged;
  }

  /** What a load of n does to the store's ids and to the record it goes to. */
  lemma LoadLeaves(x: StoreState, c: Cluster, n: string, secrets: Secrets, newId: string, to: string, y: StoreState)
    requires Inv(x) && Keyed(c) && n in c && ApplyStep(x, c[n], secrets, newId, to, y)
    ensures x.vcenters.Keys <= y.vcenters.Keys
    ensures Loadable(c[n]) ==> Holds(y, to, n) && (SpecId(c[n]) in x.vcenters ==> to == SpecId(c[n]))
  {
    hide Inv, Matches, PutsUnder, Step;
    NoEmptyId(x);
    InvOwnIds(x);
    if Loadable(c[n]) {
      var op := ApplyOp(c[n], secrets, newId);
      ConfigIds(c[n], secrets, newId);
      hide Loadable, ApplyOp;
      var found :| Matches(x, op.cfg, found) && PutsUnder(x, op, found, to, y);
      PutWhere(x, op, found, to, y);
      if SpecId(c[n]) in x.vcenters {
        MatchedById(x, op.cfg, found);
      }
    }
  }

  lemma {:induction false} IdsOnlyGrow(s: StoreState, c: Cluster, secrets: Secrets, tr: Trace, i: nat)
    requires ApplyPhase(s, c, secrets, tr) && Inv(s) && Keyed(c) && i <= |tr.cms|
    ensures Inv(tr.states[i]) && s.vcenters.Keys <= tr.states[i].vcenters.Keys
  {
    hide Inv, ApplyStep;
    if i > 0 {
      IdsOnlyGrow(s, c, secrets, tr, i - 1);
      LoadLeaves(tr.states[i - 1], c, tr.cms[i - 1].name, secrets, tr.newIds[i - 1], tr.applied[i - 1], tr.states[i]);
      ApplyStepKeepsInv(tr.states[i - 1], tr.cms[i - 1], secrets, tr.newIds[i - 1], tr.applied[i - 1], tr.states[i]);
    }
  }

  /** A Startup that kept the cluster did no more to the store than its loads. */
  lemma OnlyLoads(s: StoreState, c: Cluster, secrets: Secrets, tr: Trace, t: StoreState, d: Cluster)
    requires Startup(s, c, secrets, tr, t, d) && d == c
    ensures t == tr.states[|tr.cms|] && forall k :: 0 <= k < |tr.vcs| ==> ExportName(c, tr.vcs[k]) == None
  {
    hide ApplyStep, ExportStep, ExportName, Redact;
    SameClusterMeansNoExport(tr.states[|tr.cms|], c, tr, t, d, |tr.vcs|);
  }

  /** Loading n last shows where n belongs. */
  lemma LastLoadAnchors(s: StoreState, c: Cluster, secrets: Secrets, tr: Trace, t: StoreState, d: Cluster, n: string)
    requires Startup(s, c, secrets, tr, t, d) && Inv(s) && Keyed(c) && SameShape(s, c, t, d)
    requires Live(c, n) && tr.cms != [] && tr.cms[|tr.cms| - 1] == c[n]
    ensures AnchoredAt(s, c, n)
  {
    hide Inv, ApplyStep, ExportPhase, Loadable, IsListed;
    var k := |tr.cms| - 1;
    OnlyLoads(s, c, secrets, tr, t, d);
    IdsOnlyGrow(s, c, secrets, tr, k);
    LoadLeaves(tr.states[k], c, n, secrets, tr.newIds[k], tr.applied[k], t);
    assert Holds(s, tr.applied[k], n);
  }

  lemma StayingAnchors(s: StoreState, c: Cluster, secrets: Secrets)
    requires Inv(s) && Keyed(c) && StaysPut(s, c, secrets)
    ensures Anchored(s, c)
  {
    hide Inv, Startup, Keyed, Listing, AllChosen, Loadable, IsListed, AnchoredAt;
    forall n | Live(c, n)
      ensures AnchoredAt(s, c, n)
    {
      LiveIsListed(c, n);
      var cms := ListingEndingIn(c, n);
      var tr1, t, d := StartupExists(s, c, secrets, cms, "", false);
      var more := ListingEndingIn(d, "");
      var tr2, u, e := StartupExists(t, d, secrets, more, "", false);
      LastLoadAnchors(s, c, secrets, tr1, t, d, n);
    }
  }

  lemma LiveIsListed(c: Cluster, n: string)
    requires Live(c, n)
    ensures Listed(c, n)
  {
  }

  // ---------------------------------------------------------------- a record that may be passed over

  /** A ConfigMap that can go to a record that is not sure can go elsewhere. */
  lemma ElsewhereToo(s: StoreState, c: Cluster, n: string, id: string)
    requires Live(c, n) && Candidate(s, c, n, id) && !Sure(s, c, id)
    ensures exists o :: o != id && Candidate(s, c, n, o)
  {
    hide Loadable, IsListed;
    var o :| Holds(s, o, n) && o != id;
    assert Candidate(s, c, n, o);
  }

  /** A Startup that avoids a record which is not sure does not load anything into it. */
  lemma Avoided(s: StoreState, c: Cluster, secrets: Secrets, tr: Trace, id: string, k: nat)
    requires ApplyPhase(s, c, secrets, tr) && Inv(s) && Keyed(c) && Anchored(s, c) && k < |tr.cms|
    requires AllChosen(c, tr.cms, tr.states, tr.applied, id, false) && id in s.vcenters && !Sure(s, c, id)
    ensures tr.applied[k] != id
  {
    NoEmptyId(s);
    LoadsOf(s, c, secrets, tr, |tr.cms|);
    LoadsOf(s, c, secrets, tr, k);
    NamesKept(s, c, secrets, tr.applied[..k], tr.states[k]);
    hide Inv, ApplyStep, Loaded, Anchored, Candidate, Sure, Live;
    var n := tr.cms[k].name;
    assert WentTo(s, c, n, tr.applied[k]) && Chosen(tr.states[k], c, n, id, false, tr.applied[k]);
    if tr.applied[k] == id {
      ElsewhereToo(s, c, n, id);
    }
  }

  /** A Startup that seeks a record its ConfigMap can go to loads it there. */
  lemma Sought(s: StoreState, c: Cluster, secrets: Secrets, tr: Trace, id: string)
    requires ApplyPhase(s, c, secrets, tr) && Inv(s) && Keyed(c) && Anchored(s, c)
    requires AllChosen(c, tr.cms, tr.states, tr.applied, id, true) && id in s.vcenters
    requires Live(c, s.vcenters[id].configMap) && Candidate(s, c, s.vcenters[id].configMap, id)
    ensures id in tr.applied
  {
    var n := s.vcenters[id].configMap;
    assert c[n] in tr.cms;
    var k :| 0 <= k < |tr.cms| && tr.cms[k] == c[n];
    LoadsOf(s, c, secrets, tr, k);
    NamesKept(s, c, secrets, tr.applied[..k], tr.states[k]);
    hide Inv, ApplyStep, Loaded, Anchored, Candidate;
    assert Chosen(tr.states[k], c, n, id, true, tr.applied[k]);
    assert Candidate(tr.states[k], c, n, id);
  }

  lemma KeptByLoads(s: StoreState, c: Cluster, secrets: Secrets, tr: Trace, t: StoreState, d: Cluster)
    requires Startup(s, c, secrets, tr, t, d) && d == c && Inv(s) && Keyed(c) && Anchored(s, c)
    ensures Loaded(s, c, secrets, tr.applied, t)
  {
    hide Inv, ApplyStep, ExportPhase, Anchored, Loaded, WentTo, Keyed;
    LoadsOf(s, c, secrets, tr, |tr.cms|);
    assert tr.applied[..|tr.cms|] == tr.applied;
    OnlyLoads(s, c, secrets, tr, t, d);
  }

  /** A record no ConfigMap was loaded into is exported, unless it cannot be. */
  lemma PassedOverIsExported(s: StoreState, c: Cluster, secrets: Secrets, tr: Trace, t: StoreState, d: Cluster,
                             id: string)
    requires Startup(s, c, secrets, tr, t, d) && d == c && Inv(s) && Keyed(c) && Anchored(s, c)
    requires id in s.vcenters && id !in tr.applied
    ensures Loaded(s, c, secrets, tr.applied, t) && t.vcenters[id] == s.vcenters[id]
    ensures ExportName(c, s.vcenters[id]) == None
  {
    KeptByLoads(s, c, secrets, tr, t, d);
    OnlyLoads(s, c, secrets, tr, t, d);
    NotLoaded(s.vcenters[id], c, secrets);
    hide Inv, ApplyPhase, ExportStep, ExportName, Redact, LoadedRecord, Anchored, Keyed;
    var j :| 0 <= j < |tr.vcs| && tr.vcs[j].id == id;
    SameExportName(c, s.vcenters[id]);
  }

  lemma StayingIdles(s: StoreState, c: Cluster, secrets: Secrets, id: string)
    requires Inv(s) && Keyed(c) && Anchored(s, c) && StaysPut(s, c, secrets) && id in s.vcenters && !Sure(s, c, id)
    ensures Idle(s, c, secrets, id)
  {
    var tr1, t, d, tr2, u := AvoidThenSeek(s, c, secrets, id);
    PassedOverIsExported(s, c, secrets, tr1, t, d, id);
    var n := s.vcenters[id].configMap;
    if Live(c, n) && SpecId(c[n]) !in s.vcenters {
      SoughtAfter(s, c, secrets, tr1, t, d, tr2, u, id);
    }
  }

  /** One Startup that avoids the record, then one that seeks it. */
  lemma AvoidThenSeek(s: StoreState, c: Cluster, secrets: Secrets, id: string)
    returns (tr1: Trace, t: StoreState, d: Cluster, tr2: Trace, u: StoreState)
    requires Inv(s) && Keyed(c) && Anchored(s, c) && StaysPut(s, c, secrets) && id in s.vcenters && !Sure(s, c, id)
    ensures Startup(s, c, secrets, tr1, t, d) && d == c && SameShape(s, c, t, d) && Inv(t) && id !in tr1.applied
    ensures Startup(t, c, secrets, tr2, u, c) && u == t && AllChosen(c, tr2.cms, tr2.states, tr2.applied, id, true)
  {
    hide Inv, Keyed, Listing, Sure, Anchored, SameShape, ApplyPhase, ExportPhase, AllChosen;
    var cms := ListingEndingIn(c, "");
    var e;
    tr1, t, d := StartupExists(s, c, secrets, cms, id, false);
    cms := ListingEndingIn(d, "");
    tr2, u, e := StartupExists(t, d, secrets, cms, id, true);
    ShapeKeepsCluster(s, c, t, d);
    NeverApplied(s, c, secrets, tr1, id);
  }

  lemma ShapeKeepsCluster(s: StoreState, c: Cluster, t: StoreState, d: Cluster)
    requires SameShape(s, c, t, d)
    ensures d == c
  {
  }

  lemma NeverApplied(s: StoreState, c: Cluster, secrets: Secrets, tr: Trace, id: string)
    requires ApplyPhase(s, c, secrets, tr) && Inv(s) && Keyed(c) && Anchored(s, c)
    requires AllChosen(c, tr.cms, tr.states, tr.applied, id, false) && id in s.vcenters && !Sure(s, c, id)
    ensures id !in tr.applied
  {
    hide Inv, Keyed, Anchored, Sure, ApplyStep, AllChosen;
    forall k | 0 <= k < |tr.applied| ensures tr.applied[k] != id {
      Avoided(s, c, secrets, tr, id, k);
    }
  }

  /** The second Startup refreshes the record it seeks; as that is no change, it was fresh. */
  lemma SoughtAfter(s: StoreState, c: Cluster, secrets: Secrets, tr1: Trace, t: StoreState, d: Cluster, tr2: Trace,
                    u: StoreState, id: string)
    requires Inv(s) && Keyed(c) && Anchored(s, c) && Inv(t) && Loaded(s, c, secrets, tr1.applied, t) && u == t
    requires Startup(t, c, secrets, tr2, u, c) && AllChosen(c, tr2.cms, tr2.states, tr2.applied, id, true)
    requires id in s.vcenters && t.vcenters[id] == s.vcenters[id] && Live(c, s.vcenters[id].configMap)
    requires SpecId(c[s.vcenters[id].configMap]) !in s.vcenters
    ensures Refreshed(s.vcenters[id], c[s.vcenters[id].configMap], secrets) == s.vcenters[id]
  {
    NamesKept(s, c, secrets, tr1.applied, t);
    assert Candidate(s, c, s.vcenters[id].configMap, id);
    hide Inv, ApplyPhase, ExportPhase, Anchored, Keyed, AllChosen, Refreshed, Candidate, Live;
    Sought(t, c, secrets, tr2, id);
    KeptByLoads(t, c, secrets, tr2, u, c);
  }

  /** Exactly the steady states stay put: in every listing order and whichever of several
      records is matched, two Startups create no vCenter, move no ConfigMap to another record,
      write no ConfigMap and change no mapping, and the second changes nothing at all. */
  lemma StaysPutIff(s: StoreState, c: Cluster, secrets: Secrets)
    requires Inv(s) && Keyed(c)
    ensures StaysPut(s, c, secrets) <==> Steady(s, c, secrets)
  {
    hide Inv, Keyed, Startup, Anchored, Sure, Idle, SameShape;
    if StaysPut(s, c, secrets) {
      StayingAnchors(s, c, secrets);
      forall id | id in s.vcenters && !Sure(s, c, id) ensures Idle(s, c, secrets, id) {
        StayingIdles(s, c, secrets, id);
      }
    }
    if Steady(s, c, secrets) {
      forall tr1, t, d, tr2, u, e | Startup(s, c, secrets, tr1, t, d) && IdsApart(c, tr1.newIds)
                                    && Startup(t, d, secrets, tr2, u, e) && IdsApart(d, tr2.newIds)
        ensures SameShape(s, c, t, d) && e == d && u == t
      {
        SteadyIsEnough(s, c, secrets, tr1, t, d, tr2, u, e);
      }
    }
  }
}
