/** Exactly when Startups stop changing anything, for every store and cluster and every order
    in which ConfigMaps are listed and records are matched. */
module SteadyStates {
  import opened Records
  import opened StoreSpec
  import opened VcsyncSpec
  import opened Convergence

  /** A ConfigMap every Startup loads. */
  predicate Live(c: Cluster, n: string) {
    Listed(c, n) && Loadable(c[n])
  }

  /** Every ConfigMap that is loaded is on a record already, and on the one it asks for if that
      is stored. */
  ghost predicate Anchored(s: StoreState, c: Cluster) {
    forall n :: Live(c, n) ==> AnchoredAt(s, c, n)
  }

  ghost predicate AnchoredAt(s: StoreState, c: Cluster, n: string)
    requires n in c
  {
    (exists id :: Holds(s, id, n)) && (SpecId(c[n]) in s.vcenters ==> Holds(s, SpecId(c[n]), n))
  }

  /** The record's ConfigMap can go to no other record. */
  ghost predicate Sure(s: StoreState, c: Cluster, id: string)
    requires id in s.vcenters
  {
    var n := s.vcenters[id].configMap;
    && Live(c, n)
    && (SpecId(c[n]) == id || (SpecId(c[n]) !in s.vcenters && forall o :: Holds(s, o, n) ==> o == id))
  }

  /** What loading its own ConfigMap again does to a record. */
  function Refreshed(r: VCenter, cm: ConfigMap, secrets: Secrets): VCenter
    requires cm.payload.Yaml?
  {
    var op := ApplyOp(cm, secrets, "");
    Merged(op.cfg, op.setDryRun, op.secret, Some(r), "")
  }

  /** A record that may be passed over, or may be loaded: neither changes anything. */
  ghost predicate Idle(s: StoreState, c: Cluster, secrets: Secrets, id: string)
    requires id in s.vcenters
  {
    var r := s.vcenters[id];
    && ExportName(c, r) == None
    && (Live(c, r.configMap) && SpecId(c[r.configMap]) !in s.vcenters ==> Refreshed(r, c[r.configMap], secrets) == r)
  }

  ghost predicate Steady(s: StoreState, c: Cluster, secrets: Secrets) {
    && Anchored(s, c)
    && forall id :: id in s.vcenters ==> Sure(s, c, id) || Idle(s, c, secrets, id)
  }

  /** Nothing but the fields of records differs, and no record changed its ConfigMap. */
  ghost predicate SameShape(s: StoreState, c: Cluster, t: StoreState, d: Cluster) {
    && d == c && t.vcenters.Keys == s.vcenters.Keys && t.byUUID == s.byUUID && t.settings == s.settings
    && forall id :: id in s.vcenters ==> t.vcenters[id].configMap == s.vcenters[id].configMap
  }

  // ---------------------------------------------------------------- one load

  lemma RefreshedTwice(r: VCenter, cm: ConfigMap, secrets: Secrets)
    requires cm.payload.Yaml?
    ensures Refreshed(Refreshed(r, cm, secrets), cm, secrets) == Refreshed(r, cm, secrets)
    ensures Refreshed(r, cm, secrets).configMap == cm.name && Refreshed(r, cm, secrets).id == r.id
  {
  }

  lemma RefreshedIs(r: VCenter, cm: ConfigMap, secrets: Secrets, newId: string)
    requires cm.payload.Yaml?
    ensures var op := ApplyOp(cm, secrets, newId);
            Merged(op.cfg, op.setDryRun, op.secret, Some(r), newId) == Refreshed(r, cm, secrets)
  {
  }

  /** The records a ConfigMap may be loaded into in an anchored state. */
  ghost predicate Candidate(s: StoreState, c: Cluster, n: string, id: string)
    requires n in c
  {
    Holds(s, id, n) && (SpecId(c[n]) == id || SpecId(c[n]) !in s.vcenters)
  }

  lemma MatchIsCandidate(s: StoreState, c: Cluster, n: string, cfg: VCenter, found: Option<VCenter>)
    requires Inv(s) && Keyed(c) && Anchored(s, c) && Live(c, n)
    requires cfg.id == SpecId(c[n]) && cfg.configMap == n && Matches(s, cfg, found)
    ensures found.Some? && Candidate(s, c, n, found.value.id) && s.vcenters[found.value.id] == found.value
  {
    hide MappingOk, Loadable;
    NoEmptyId(s);
    MatchedIsStored(s, cfg, found);
    var h :| Holds(s, h, n);
    if SpecId(c[n]) !in s.vcenters {
      assert SameConfigMap(s.vcenters[h], cfg);
    }
  }

  lemma CandidateMatches(s: StoreState, c: Cluster, n: string, cfg: VCenter, id: string)
    requires Inv(s) && Keyed(c) && n in c && Candidate(s, c, n, id)
    requires cfg.id == SpecId(c[n]) && cfg.configMap == n
    ensures Matches(s, cfg, Some(s.vcenters[id]))
  {
    hide MappingOk, RecordOk, Adoptable;
    NoEmptyId(s);
    assert SameConfigMap(s.vcenters[id], cfg);
  }

  /** In an anchored state a load refreshes a candidate. */
  lemma LoadRefreshes(s: StoreState, c: Cluster, secrets: Secrets, n: string, newId: string, id: string, t: StoreState)
    requires Inv(s) && Keyed(c) && Anchored(s, c) && Live(c, n)
    requires ApplyStep(s, c[n], secrets, newId, id, t)
    ensures Candidate(s, c, n, id) && t == PutAt(s, id, Refreshed(s.vcenters[id], c[n], secrets))
  {
    var op := ApplyOp(c[n], secrets, newId);
    ConfigIds(c[n], secrets, newId);
    hide Inv, Anchored, Keyed, ApplyOp, Merged, Matches, Candidate;
    var found :| Matches(s, op.cfg, found) && PutsUnder(s, op, found, id, t);
    MatchIsCandidate(s, c, n, op.cfg, found);
    MergedIds(op.cfg, op.setDryRun, op.secret, found, newId);
    RefreshedIs(found.value, c[n], secrets, newId);
  }

  // ---------------------------------------------------------------- the loads of one Startup

  /** A record of an anchored state, after loads that went to the records applied. */
  function LoadedRecord(r: VCenter, c: Cluster, secrets: Secrets, loaded: bool): VCenter {
    if loaded && Live(c, r.configMap) then Refreshed(r, c[r.configMap], secrets) else r
  }

  ghost predicate Loaded(s: StoreState, c: Cluster, secrets: Secrets, applied: seq<string>, x: StoreState) {
    && x.vcenters.Keys == s.vcenters.Keys && x.byUUID == s.byUUID && x.settings == s.settings
    && forall id :: id in s.vcenters ==> x.vcenters[id] == LoadedRecord(s.vcenters[id], c, secrets, id in applied)
  }

  lemma LoadedRecordIs(r: VCenter, c: Cluster, secrets: Secrets, loaded: bool)
    requires Keyed(c)
    ensures LoadedRecord(r, c, secrets, loaded).configMap == r.configMap
    ensures Live(c, r.configMap) ==>
              Refreshed(LoadedRecord(r, c, secrets, loaded), c[r.configMap], secrets) ==
                  Refreshed(r, c[r.configMap], secrets)
  {
    if Live(c, r.configMap) {
      RefreshedTwice(r, c[r.configMap], secrets);
    }
  }

  lemma NamesKept(s: StoreState, c: Cluster, secrets: Secrets, applied: seq<string>, x: StoreState)
    requires Keyed(c) && Loaded(s, c, secrets, applied, x)
    ensures SameShape(s, c, x, c)
    ensures forall id, n :: Holds(x, id, n) <==> Holds(s, id, n)
    ensures Anchored(x, c) <==> Anchored(s, c)
    ensures forall n, id :: n in c ==> (Candidate(x, c, n, id) <==> Candidate(s, c, n, id))
  {
    hide LoadedRecord, Live;
    forall id | id in s.vcenters
      ensures x.vcenters[id].configMap == s.vcenters[id].configMap
    {
      LoadedRecordIs(s.vcenters[id], c, secrets, id in applied);
    }
  }

  /** Where the loads went: each to a candidate, or nowhere. */
  ghost predicate WentTo(s: StoreState, c: Cluster, n: string, id: string)
    requires n in c
  {
    if Live(c, n) then Candidate(s, c, n, id) else id == ""
  }

  lemma OneLoad(s: StoreState, c: Cluster, secrets: Secrets, applied: seq<string>, n: string, x: StoreState,
                newId: string, id: string, y: StoreState)
    requires Keyed(c) && Inv(x) && Anchored(s, c) && Loaded(s, c, secrets, applied, x)
    requires Listed(c, n) && ApplyStep(x, c[n], secrets, newId, id, y)
    ensures Loaded(s, c, secrets, applied + [id], y) && Inv(y) && WentTo(s, c, n, id)
  {
    NamesKept(s, c, secrets, applied, x);
    if Live(c, n) {
      LoadRefreshes(x, c, secrets, n, newId, id, y);
      StepKeepsInv(x, ApplyOp(c[n], secrets, newId), y);
      LoadedRecordIs(s.vcenters[id], c, secrets, id in applied);
      LoadedOneMore(s, c, secrets, applied, x, id, y);
    } else {
      NoEmptyId(x);
      LoadedNone(s, c, secrets, applied, x);
    }
  }

  lemma LoadedOneMore(s: StoreState, c: Cluster, secrets: Secrets, applied: seq<string>, x: StoreState, id: string,
                      y: StoreState)
    requires Loaded(s, c, secrets, applied, x) && id in s.vcenters && Live(c, s.vcenters[id].configMap)
    requires y == PutAt(x, id, Refreshed(s.vcenters[id], c[s.vcenters[id].configMap], secrets))
    ensures Loaded(s, c, secrets, applied + [id], y)
  {
    hide Refreshed, Live;
  }

  lemma LoadedNone(s: StoreState, c: Cluster, secrets: Secrets, applied: seq<string>, x: StoreState)
    requires Loaded(s, c, secrets, applied, x) && "" !in s.vcenters
    ensures Loaded(s, c, secrets, applied + [""], x)
  {
    hide LoadedRecord;
  }

  lemma {:induction false} LoadsOf(s: StoreState, c: Cluster, secrets: Secrets, tr: Trace, i: nat)
    requires ApplyPhase(s, c, secrets, tr) && Inv(s) && Keyed(c) && Anchored(s, c) && i <= |tr.cms|
    ensures Loaded(s, c, secrets, tr.applied[..i], tr.states[i]) && Inv(tr.states[i])
    ensures forall k :: 0 <= k < i ==> WentTo(s, c, tr.cms[k].name, tr.applied[k])
  {
    hide Inv, Anchored, ApplyStep, LoadedRecord, WentTo;
    if i > 0 {
      LoadsOf(s, c, secrets, tr, i - 1);
      OneLoad(s, c, secrets, tr.applied[..i - 1], tr.cms[i - 1].name, tr.states[i - 1], tr.newIds[i - 1],
          tr.applied[i - 1],
              tr.states[i]);
      assert tr.applied[..i] == tr.applied[..i - 1] + [tr.applied[i - 1]];
    } else {
      StartsLoaded(s, c, secrets);
    }
  }

  lemma StartsLoaded(s: StoreState, c: Cluster, secrets: Secrets)
    ensures Loaded(s, c, secrets, [], s)
  {
  }

  /** A sure record is among those loaded. */
  lemma SureIsApplied(s: StoreState, c: Cluster, secrets: Secrets, tr: Trace, id: string)
    requires ApplyPhase(s, c, secrets, tr) && Keyed(c) && id in s.vcenters && Sure(s, c, id)
    requires forall k :: 0 <= k < |tr.cms| ==> WentTo(s, c, tr.cms[k].name, tr.applied[k])
    ensures id in tr.applied
  {
    hide ApplyStep;
    var n := s.vcenters[id].configMap;
    assert c[n] in tr.cms;
    var k :| 0 <= k < |tr.cms| && tr.cms[k] == c[n];
    assert Candidate(s, c, n, tr.applied[k]);
    assert Holds(s, id, n) && Holds(s, tr.applied[k], n);
  }

  // ---------------------------------------------------------------- the exports of one Startup

  ghost predicate Grows(c: Cluster, d: Cluster) {
    forall n :: n in c ==> n in d && c[n].rv <= d[n].rv
  }

  lemma {:induction false} ExportsGrow(s: StoreState, c: Cluster, tr: Trace, t: StoreState, d: Cluster, i: nat, j: nat)
    requires ExportPhase(s, c, tr, t, d) && i <= j <= |tr.vcs|
    ensures Grows(tr.exports[i].1, tr.exports[j].1)
    decreases j
  {
    hide ExportName, Render, Redact;
    if i < j {
      ExportsGrow(s, c, tr, t, d, i, j - 1);
    }
  }

  /** A write shows: the cluster is the same afterwards only if no record could be exported. */
  lemma {:induction false} SameClusterMeansNoExport(s: StoreState, c: Cluster, tr: Trace, t: StoreState, d: Cluster,
                                                    j: nat)
    requires ExportPhase(s, c, tr, t, d) && j <= |tr.vcs| && d == c
    ensures tr.exports[j] == (s, c)
    ensures forall k :: 0 <= k < j ==> ExportName(c, tr.vcs[k]) == None
  {
    hide ExportName, Render, Redact;
    if j > 0 {
      SameClusterMeansNoExport(s, c, tr, t, d, j - 1);
      ExportsGrow(s, c, tr, t, d, j, |tr.vcs|);
      if ExportName(c, tr.vcs[j - 1]).Some? {
        var name := ExportName(c, tr.vcs[j - 1]).value;
        assert name in tr.exports[j].1;
      }
    }
  }

  lemma {:induction false} IdleExports(s: StoreState, c: Cluster, tr: Trace, t: StoreState, d: Cluster, j: nat)
    requires ExportPhase(s, c, tr, t, d) && j <= |tr.vcs|
    requires forall k :: 0 <= k < |tr.vcs| ==> ExportName(c, tr.vcs[k]) == None
    ensures tr.exports[j] == (s, c)
  {
    hide ExportName, Render, Redact;
    if j > 0 {
      IdleExports(s, c, tr, t, d, j - 1);
    }
  }

  // ---------------------------------------------------------------- steady is enough

  /** One Startup from a steady state writes nothing and refreshes the records it loads. */
  lemma SteadyStartup(s: StoreState, c: Cluster, secrets: Secrets, tr: Trace, t: StoreState, d: Cluster)
    requires Startup(s, c, secrets, tr, t, d) && Inv(s) && Keyed(c) && Steady(s, c, secrets)
    ensures d == c && Loaded(s, c, secrets, tr.applied, t) && Inv(t)
    ensures forall k :: 0 <= k < |tr.cms| ==> WentTo(s, c, tr.cms[k].name, tr.applied[k])
    ensures forall id :: id in s.vcenters && Sure(s, c, id) ==> id in tr.applied
  {
    hide Inv, Keyed, Anchored, ApplyStep, ExportStep, Loaded, Redact, ExportName, Sure, Idle, WentTo;
    LoadsOf(s, c, secrets, tr, |tr.cms|);
    assert tr.applied[..|tr.cms|] == tr.applied;
    forall id | id in s.vcenters && Sure(s, c, id)
      ensures id in tr.applied
    {
      SureIsApplied(s, c, secrets, tr, id);
    }
    var m := tr.states[|tr.cms|];
    forall k | 0 <= k < |tr.vcs|
      ensures ExportName(c, tr.vcs[k]) == None
    {
      PassedOverIsIdle(s, c, secrets, m, tr.applied, tr.vcs[k]);
    }
    IdleExports(m, c, tr, t, d, |tr.vcs|);
  }

  lemma PassedOverIsIdle(s: StoreState, c: Cluster, secrets: Secrets, m: StoreState, applied: seq<string>, vc: VCenter)
    requires Steady(s, c, secrets) && Loaded(s, c, secrets, applied, m)
    requires vc.id in m.vcenters && vc == Redact(m.vcenters[vc.id]) && vc.id !in applied
    requires forall id :: id in s.vcenters && Sure(s, c, id) ==> id in applied
    ensures ExportName(c, vc) == None
  {
    hide ExportName, Refreshed, Anchored, Sure;
    assert Idle(s, c, secrets, vc.id);
    SameExportName(c, m.vcenters[vc.id]);
  }

  /** A record a Startup went to is sure, or was fresh already. */
  lemma LoadedIsSureOrFresh(s: StoreState, c: Cluster, secrets: Secrets, tr: Trace, id: string)
    requires ApplyPhase(s, c, secrets, tr) && Inv(s) && Keyed(c) && Steady(s, c, secrets)
    requires forall k :: 0 <= k < |tr.cms| ==> WentTo(s, c, tr.cms[k].name, tr.applied[k])
    requires id in s.vcenters && id in tr.applied && !Sure(s, c, id)
    ensures LoadedRecord(s.vcenters[id], c, secrets, true) == s.vcenters[id]
  {
    hide Refreshed, ApplyStep, ExportName, Anchored;
    NoEmptyId(s);
    var k :| 0 <= k < |tr.applied| && tr.applied[k] == id;
    assert WentTo(s, c, tr.cms[k].name, id);
    assert Idle(s, c, secrets, id);
  }

  /** What is left of a steady record after a Startup. */
  lemma SteadyRecord(s: StoreState, c: Cluster, secrets: Secrets, tr: Trace, t: StoreState, d: Cluster, id: string)
    requires Startup(s, c, secrets, tr, t, d) && Inv(s) && Keyed(c) && Steady(s, c, secrets) && id in s.vcenters
    ensures id in t.vcenters && t.vcenters[id] == LoadedRecord(s.vcenters[id], c, secrets, Sure(s, c, id))
  {
    SteadyStartup(s, c, secrets, tr, t, d);
    hide Inv, Anchored, Sure, Idle, LoadedRecord, ExportPhase, Keyed, WentTo;
    if id in tr.applied && !Sure(s, c, id) {
      LoadedIsSureOrFresh(s, c, secrets, tr, id);
    }
    NotLoaded(s.vcenters[id], c, secrets);
  }

  lemma NotLoaded(r: VCenter, c: Cluster, secrets: Secrets)
    ensures LoadedRecord(r, c, secrets, false) == r
  {
  }

  lemma SameSure(s: StoreState, c: Cluster, t: StoreState, id: string)
    requires SameShape(s, c, t, c) && id in s.vcenters
    ensures Sure(t, c, id) <==> Sure(s, c, id)
  {
    assert forall o, n :: Holds(t, o, n) <==> Holds(s, o, n);
  }

  lemma SteadyStays(s: StoreState, c: Cluster, secrets: Secrets, tr: Trace, t: StoreState, d: Cluster)
    requires Startup(s, c, secrets, tr, t, d) && Inv(s) && Keyed(c) && Steady(s, c, secrets)
    ensures SameShape(s, c, t, d) && Inv(t) && Steady(t, c, secrets)
  {
    SteadyStartup(s, c, secrets, tr, t, d);
    NamesKept(s, c, secrets, tr.applied, t);
    hide Inv, Anchored, LoadedRecord, Startup, WentTo, Loaded, Refreshed;
    forall id | id in t.vcenters
      ensures Sure(t, c, id) || Idle(t, c, secrets, id)
    {
      SameSure(s, c, t, id);
      if !Sure(s, c, id) {
        SteadyRecord(s, c, secrets, tr, t, d, id);
        NotLoaded(s.vcenters[id], c, secrets);
        assert Idle(s, c, secrets, id);
      }
    }
  }

  lemma SecondIsSame(s: StoreState, c: Cluster, secrets: Secrets,
                     tr1: Trace, t: StoreState, d: Cluster, tr2: Trace, u: StoreState, e: Cluster, id: string)
    requires Inv(s) && Keyed(c) && Steady(s, c, secrets) && Inv(t) && Steady(t, c, secrets) && SameShape(s, c, t, d)
    requires Startup(s, c, secrets, tr1, t, d) && Startup(t, d, secrets, tr2, u, e) && id in s.vcenters
    ensures id in u.vcenters && u.vcenters[id] == t.vcenters[id]
  {
    SteadyRecord(s, c, secrets, tr1, t, d, id);
    SteadyRecord(t, c, secrets, tr2, u, e, id);
    SameSure(s, c, t, id);
    hide Inv, Startup, Steady, LoadedRecord, Sure, Keyed, SameShape;
    LoadedTwice(s.vcenters[id], c, secrets, Sure(s, c, id));
  }

  /** Two Startups from a steady state: neither changes more than record fields, and the
      second nothing at all. */
  lemma SteadyIsEnough(s: StoreState, c: Cluster, secrets: Secrets,
                       tr1: Trace, t: StoreState, d: Cluster, tr2: Trace, u: StoreState, e: Cluster)
    requires Inv(s) && Keyed(c) && Steady(s, c, secrets)
    requires Startup(s, c, secrets, tr1, t, d) && Startup(t, d, secrets, tr2, u, e)
    ensures SameShape(s, c, t, d) && e == d && u == t
  {
    hide Inv, Startup, Steady, Keyed;
    SteadyStays(s, c, secrets, tr1, t, d);
    SteadyStays(t, c, secrets, tr2, u, e);
    forall id | id in t.vcenters
      ensures u.vcenters[id] == t.vcenters[id]
    {
      SecondIsSame(s, c, secrets, tr1, t, d, tr2, u, e, id);
    }
    assert u.vcenters == t.vcenters;
  }

  lemma LoadedTwice(r: VCenter, c: Cluster, secrets: Secrets, loaded: bool)
    requires Keyed(c)
    ensures LoadedRecord(LoadedRecord(r, c, secrets, loaded), c, secrets, loaded) == LoadedRecord(r, c, secrets, loaded)
  {
    LoadedRecordIs(r, c, secrets, loaded);
  }

  // ---------------------------------------------------------------- convergence

  /** With distinct names on record and valid ConfigMaps, steady means: every listed ConfigMap is
      on a record and asks for no other stored one, and every record adrift is stuck. */
  lemma SteadyMeansSettled(s: StoreState, c: Cluster, secrets: Secrets)
    requires Inv(s) && WellDefined(c) && ClaimsOk(s, c)
    ensures Steady(s, c, secrets) <==> Settled(s, c) && Exhausted(s, c)
  {
    if Settled(s, c) && Exhausted(s, c) {
      SettledIsSteady(s, c, secrets);
    }
    if Steady(s, c, secrets) {
      SteadyIsSettled(s, c, secrets);
    }
  }

  lemma SettledIsSteady(s: StoreState, c: Cluster, secrets: Secrets)
    requires Settled(s, c) && Exhausted(s, c)
    ensures Steady(s, c, secrets)
  {
    hide Inv, Loadable, IsListed, ExportName, Refreshed, AsksAlone;
    forall n | Live(c, n)
      ensures AnchoredAt(s, c, n)
    {
      var h := SettledHolder(s, c, n);
      assert Holds(s, h, n);
    }
    forall id | id in s.vcenters
      ensures Sure(s, c, id) || Idle(s, c, secrets, id)
    {
      var n := s.vcenters[id].configMap;
      if Listed(c, n) {
        var h := SettledHolder(s, c, n);
        assert h == id;
      } else {
        assert Stuck(c, s.vcenters[id]);
      }
    }
  }

  lemma SteadyIsSettled(s: StoreState, c: Cluster, secrets: Secrets)
    requires Inv(s) && WellDefined(c) && ClaimsOk(s, c) && Steady(s, c, secrets)
    ensures Settled(s, c) && Exhausted(s, c)
  {
    hide Inv, Loadable, IsListed, ExportName, Refreshed, AsksAlone, Keyed;
    forall n | Listed(c, n)
      ensures exists id :: HeldBy(s, c, n, id)
    {
      assert AnchoredAt(s, c, n);
      var h :| Holds(s, h, n);
      assert HeldBy(s, c, n, if SpecId(c[n]) in s.vcenters then SpecId(c[n]) else h);
    }
    forall id | id in s.vcenters && Adrift(s, c, id)
      ensures Stuck(c, s.vcenters[id])
    {
      assert Idle(s, c, secrets, id);
    }
  }

  /** Three Startups in a row. After the first, nothing is created and neither a mapping nor
      a ConfigMap changes any more; after the second, the store is a fixed point. */
  lemma RestartsConverge(s0: StoreState, c0: Cluster, secrets: Secrets,
                         tr1: Trace, s1: StoreState, c1: Cluster,
                         tr2: Trace, s2: StoreState, c2: Cluster,
                         tr3: Trace, s3: StoreState, c3: Cluster)
    requires Admissible(s0, c0, Todo(c0, tr1.cms, 0))
    requires Startup(s0, c0, secrets, tr1, s1, c1) && IdsApart(c0, tr1.newIds)
    requires Startup(s1, c1, secrets, tr2, s2, c2) && Startup(s2, c2, secrets, tr3, s3, c3)
    ensures s1.byUUID == s0.byUUID
    ensures SameShape(s1, c1, s2, c2) && c3 == c2 && s3 == s2
  {
    hide Startup, Steady, SameShape;
    FirstStartup(s0, c0, secrets, tr1, s1, c1);
    SettledIsSteady(s1, c1, secrets);
    SteadyIsEnough(s1, c1, secrets, tr2, s2, c2, tr3, s3, c3);
  }

  // ---------------------------------------------------------------- a name that is gone and taken

  /** Two records on one exported ConfigMap: the one it does not ask for would write over it. */
  lemma SharedIsNotSteady(s: StoreState, c: Cluster, secrets: Secrets, x: string, y: string, n: string)
    requires Holds(s, x, n) && Holds(s, y, n) && x != y && n != ""
    requires n in c && IsRuntime(c[n]) && SpecId(c[n]) == y
    ensures !Steady(s, c, secrets)
  {
    hide Refreshed, Anchored, Live;
    assert !Sure(s, c, x) && !Idle(s, c, secrets, x);
  }

  /** A first write of a ConfigMap, or a write over a runtime one. */
  lemma ExportTo(s: StoreState, c: Cluster, id: string, name: string) returns (y: (StoreState, Cluster))
    requires Inv(s) && id in s.vcenters && ExportName(c, s.vcenters[id]) == Some(name)
    ensures ExportStep((s, c), Redact(s.vcenters[id]), y) && Holds(y.0, id, name)
    ensures forall o :: o in s.vcenters && o != id ==> o in y.0.vcenters && y.0.vcenters[o] == s.vcenters[o]
    ensures y.1 == c[name := y.1[name]] && IsRuntime(y.1[name]) && SpecId(y.1[name]) == id
  {
    var vc := Redact(s.vcenters[id]);
    var ref := ExportRef(vc, name);
    var cm := Render(vc, name, ref).(rv := if name in c then c[name].rv + 1 else 1);
    SameExportName(c, s.vcenters[id]);
    assert RecordOk(id, s.vcenters[id]);
    RenderedIs(cm, vc, name, ref);
    hide Render, ExportName, Inv, ExportRef;
    y := (PutAt(s, id, WithConfigMap(s.vcenters[id], name, Runtime, Some(ref))), c[name := cm]);
  }

  /** Why a name that is gone must not be one a record without ConfigMap could take: exported
      first, that record takes it, the other one writes over it, and the state is not steady. */
  lemma GoneNameIsShared(s: StoreState, c: Cluster, secrets: Secrets, x: string, y: string)
    returns (a: (StoreState, Cluster), b: (StoreState, Cluster))
    requires Inv(s) && x in s.vcenters && y in s.vcenters && x != y
    requires s.vcenters[x].configMap == "" && s.vcenters[y].configMap == BaseName(s.vcenters[x])
    requires BaseName(s.vcenters[x]) !in c
    ensures ExportStep((s, c), Redact(s.vcenters[x]), a) && ExportStep(a, Redact(s.vcenters[y]), b)
    ensures !Steady(b.0, b.1, secrets)
  {
    var n := BaseName(s.vcenters[x]);
    a := ExportTo(s, c, x, n);
    ExportedInv(s, c, Redact(s.vcenters[x]), a);
    hide Inv, ExportStep, Steady, BaseName, Redact;
    b := ExportTo(a.0, a.1, y, n);
    assert a == (a.0, a.1);
    SharedIsNotSteady(b.0, b.1, secrets, x, y, n);
  }

  lemma ExportedInv(s: StoreState, c: Cluster, vc: VCenter, y: (StoreState, Cluster))
    requires Inv(s) && ExportStep((s, c), vc, y)
    ensures Inv(y.0)
  {
    hide MappingOk, ExportName, Render;
    if ExportName(c, vc).Some? {
      assert RecordOk(vc.id, s.vcenters[vc.id]);
      PutKeepsInv(s, y.0.vcenters[vc.id]);
    }
  }
}
