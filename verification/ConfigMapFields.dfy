/** What a ConfigMap says of a vCenter, field by field: what is read, what is written, and what a
    whole Startup leaves in the records. */
module ConfigMapFields {
  import opened Text
  import opened Records
  import opened StoreSpec
  import opened StoredFields
  import opened Slugs
  import opened VcsyncSpec
  import opened Convergence

  // ---------------------------------------------------------------- reading

  /** What the Secret that the document refers to holds under a key. */
  function Given(spec: Spec, secrets: Secrets, key: string): string {
    if spec.credentialsSecret.Some? && spec.credentialsSecret.value.name != ""
       && spec.credentialsSecret.value.name in secrets && key in secrets[spec.credentialsSecret.value.name]
    then secrets[spec.credentialsSecret.value.name][key] else ""
  }

  function PasswordKeyOf(spec: Spec): string {
    if spec.credentialsSecret.Some? && spec.credentialsSecret.value.passwordKey != ""
    then spec.credentialsSecret.value.passwordKey else "password"
  }

  /** The user name: the Secret's, when a key for it is named and holds one, else the document's. */
  function UserOf(spec: Spec, secrets: Secrets): string {
    if spec.credentialsSecret.Some? && spec.credentialsSecret.value.usernameKey != ""
       && Trim(Given(spec, secrets, spec.credentialsSecret.value.usernameKey)) != ""
    then Trim(Given(spec, secrets, spec.credentialsSecret.value.usernameKey)) else spec.username
  }

  /** The record has what the ConfigMap and its Secret say. */
  predicate Carries(r: VCenter, cm: ConfigMap, secrets: Secrets)
    requires cm.payload.Yaml?
  {
    var spec := cm.payload.spec;
    && r.url == spec.url && r.insecure == spec.insecure && r.datacenter == spec.datacenter
    && r.folder == spec.folder && r.notes == spec.notes && r.username == UserOf(spec, secrets)
    && r.name == (if spec.name == "" then spec.url else spec.name)
    && r.isoFolder == (if spec.isoFolder == "" then "rf2vc/isos" else spec.isoFolder)
    && r.datastore == NormalizeDatastore(spec.datastore)
    && (spec.dryRun.Some? ==> r.dryRun == spec.dryRun.value)
    && (Given(spec, secrets, PasswordKeyOf(spec)) != "" ==>
      r.password == Given(spec, secrets, PasswordKeyOf(spec)) && r.passwordSource == FromSecret)
    && r.configMap == cm.name && r.credentialsSecret == spec.credentialsSecret
    && r.configOrigin == if HasLabel(cm, "rf2vc.dasmlab.org/origin", "runtime") then Runtime else GitOps
  }

  /** What is handed to the store for a ConfigMap. */
  lemma ReadIs(cm: ConfigMap, secrets: Secrets, newId: string)
    requires cm.payload.Yaml?
    ensures var op, spec := ApplyOp(cm, secrets, newId), cm.payload.spec;
            && op == ApplyConfig(op.cfg, spec.dryRun, Given(spec, secrets, PasswordKeyOf(spec)), newId)
            && op.cfg == VCenter(spec.id, spec.name, spec.url, UserOf(spec, secrets), "", spec.insecure,
                                 spec.datacenter, spec.datastore, spec.folder, spec.isoFolder, spec.notes, false,
                                     cm.name,
                                 if HasLabel(cm, "rf2vc.dasmlab.org/origin", "runtime") then Runtime else GitOps,
                                 spec.credentialsSecret, NoSource, false)
  {
    hide Trim;
  }

  /** A ConfigMap is loaded exactly when its document parses and has a url and a datacenter. */
  lemma LoadableIs(cm: ConfigMap, secrets: Secrets, newId: string, s: StoreState, found: Option<VCenter>)
    requires cm.payload.Yaml? && FreshId(s, newId) && Matches(s, ApplyOp(cm, secrets, newId).cfg, found)
    ensures Loadable(cm) <==> exists t :: Step(s, ApplyOp(cm, secrets, newId), t)
    ensures Loadable(cm) <==> cm.payload.spec.url != "" && cm.payload.spec.datacenter != ""
  {
    ReadIs(cm, secrets, newId);
    LoadIsAccepted(s, ApplyOp(cm, secrets, newId), found);
    hide Step, ApplyOp, Matches;
  }

  /** One load. */
  lemma LoadCarries(s: StoreState, cm: ConfigMap, secrets: Secrets, newId: string, id: string, t: StoreState)
    requires Inv(s) && ApplyStep(s, cm, secrets, newId, id, t) && Loadable(cm)
    ensures OnlyRecord(s, id, t) && Carries(t.vcenters[id], cm, secrets)
  {
    hide Inv, UserOf, PasswordKeyOf, Given, StoredUnder, NormalizeDatastore;
    ReadIs(cm, secrets, newId);
    assert newId !in s.vcenters;
    LoadStores(s, ApplyOp(cm, secrets, newId), id, t);
  }

  // ---------------------------------------------------------------- a whole Startup

  lemma {:induction false} LoadsKeepInv(s: StoreState, c: Cluster, secrets: Secrets, tr: Trace, i: nat)
    requires ApplyPhase(s, c, secrets, tr) && Inv(s) && i <= |tr.cms|
    ensures Inv(tr.states[i])
  {
    hide Inv, ApplyStep;
    if i > 0 {
      LoadsKeepInv(s, c, secrets, tr, i - 1);
      ApplyStepKeepsInv(tr.states[i - 1], tr.cms[i - 1], secrets, tr.newIds[i - 1], tr.applied[i - 1], tr.states[i]);
    }
  }

  /** What a load does to a record it does not go to. */
  lemma LoadLeaves(s: StoreState, cm: ConfigMap, secrets: Secrets, newId: string, to: string, t: StoreState, id: string)
    requires Inv(s) && ApplyStep(s, cm, secrets, newId, to, t) && to != id
    ensures id in t.vcenters <==> id in s.vcenters
    ensures id in s.vcenters ==> t.vcenters[id] == s.vcenters[id]
  {
    hide Inv, Carries;
    if Loadable(cm) {
      LoadCarries(s, cm, secrets, newId, to, t);
    }
    hide Step, StoredUnder;
  }

  lemma {:induction false} CarriedSince(s: StoreState, c: Cluster, secrets: Secrets, tr: Trace, k: nat, i: nat)
    requires ApplyPhase(s, c, secrets, tr) && Inv(s) && k < i <= |tr.cms| && Loadable(tr.cms[k])
    requires forall j :: k < j < i ==> tr.applied[j] != tr.applied[k]
    ensures tr.applied[k] in tr.states[i].vcenters
    ensures Carries(tr.states[i].vcenters[tr.applied[k]], tr.cms[k], secrets)
  {
    hide Inv, ApplyStep, Carries;
    var x, cm, newId, to := tr.states[i - 1], tr.cms[i - 1], tr.newIds[i - 1], tr.applied[i - 1];
    LoadsKeepInv(s, c, secrets, tr, i - 1);
    if i == k + 1 {
      LoadCarries(x, cm, secrets, newId, to, tr.states[i]);
    } else {
      CarriedSince(s, c, secrets, tr, k, i - 1);
      LoadLeaves(x, cm, secrets, newId, to, tr.states[i], tr.applied[k]);
    }
  }

  lemma {:induction false} LeftByLoads(s: StoreState, c: Cluster, secrets: Secrets, tr: Trace, id: string, i: nat)
    requires ApplyPhase(s, c, secrets, tr) && Inv(s) && i <= |tr.cms|
    requires forall j :: 0 <= j < i ==> tr.applied[j] != id
    ensures id in tr.states[i].vcenters <==> id in s.vcenters
    ensures id in s.vcenters ==> tr.states[i].vcenters[id] == s.vcenters[id]
  {
    hide Inv, ApplyStep;
    if i > 0 {
      LeftByLoads(s, c, secrets, tr, id, i - 1);
      LoadsKeepInv(s, c, secrets, tr, i - 1);
      LoadLeaves(tr.states[i - 1], tr.cms[i - 1], secrets, tr.newIds[i - 1], tr.applied[i - 1], tr.states[i], id);
    }
  }

  /** Nothing but the three ConfigMap fields differs. */
  predicate SameButNote(a: VCenter, b: VCenter) {
    b.(configMap := a.configMap, configOrigin := a.configOrigin, credentialsSecret := a.credentialsSecret) == a
  }

  /** An export writes the note into the exported record, if anything. */
  lemma ExportNotes(x: (StoreState, Cluster), vc: VCenter, y: (StoreState, Cluster), id: string)
    requires ExportStep(x, vc, y) && vc.id in x.0.vcenters
    ensures y.0.vcenters.Keys == x.0.vcenters.Keys
    ensures id in x.0.vcenters ==> SameButNote(x.0.vcenters[id], y.0.vcenters[id])
    ensures id in x.0.vcenters && id != vc.id ==> y.0.vcenters[id] == x.0.vcenters[id]
  {
    hide ExportName, Render, ExportRef;
  }

  lemma {:induction false} ExportsNote(s: StoreState, c: Cluster, tr: Trace, t: StoreState, d: Cluster, id: string,
                                       j: nat)
    requires ExportPhase(s, c, tr, t, d) && j <= |tr.vcs|
    ensures tr.exports[j].0.vcenters.Keys == s.vcenters.Keys
    ensures id in s.vcenters ==> SameButNote(s.vcenters[id], tr.exports[j].0.vcenters[id])
    ensures id in s.vcenters && id in tr.applied ==> tr.exports[j].0.vcenters[id] == s.vcenters[id]
  {
    hide ExportStep, Redact;
    if j > 0 {
      ExportsNote(s, c, tr, t, d, id, j - 1);
      ExportNotes(tr.exports[j - 1], tr.vcs[j - 1], tr.exports[j], id);
    }
  }

  /** After any Startup whatever, a record carries the fields of the last ConfigMap loaded into it. */
  lemma StartupCarries(s: StoreState, c: Cluster, secrets: Secrets, tr: Trace, t: StoreState, d: Cluster, k: nat)
    requires Startup(s, c, secrets, tr, t, d) && Inv(s) && k < |tr.cms| && Loadable(tr.cms[k])
    requires forall j :: k < j < |tr.cms| ==> tr.applied[j] != tr.applied[k]
    ensures tr.applied[k] in t.vcenters && Carries(t.vcenters[tr.applied[k]], tr.cms[k], secrets)
  {
    var n, id := |tr.cms|, tr.applied[k];
    hide Inv, ApplyStep, ExportStep, Carries, SameButNote, Redact;
    CarriedSince(s, c, secrets, tr, k, n);
    ExportsNote(tr.states[n], c, tr, t, d, id, |tr.vcs|);
  }

  /** A record into which none was loaded keeps all but its note, and a new one is one that was
      loaded. */
  lemma StartupLeaves(s: StoreState, c: Cluster, secrets: Secrets, tr: Trace, t: StoreState, d: Cluster, id: string)
    requires Startup(s, c, secrets, tr, t, d) && Inv(s) && id !in tr.applied
    ensures id in t.vcenters <==> id in s.vcenters
    ensures id in s.vcenters ==> SameButNote(s.vcenters[id], t.vcenters[id])
  {
    hide Inv, ApplyStep, ExportStep, SameButNote, Redact;
    LeftByLoads(s, c, secrets, tr, id, |tr.cms|);
    ExportsNote(tr.states[|tr.cms|], c, tr, t, d, id, |tr.vcs|);
  }

  /** From an admissible state, a settled one among them, each listed ConfigMap ends up on a record
      that carries its fields. */
  lemma EachConfigMapIsCarried(s: StoreState, c: Cluster, secrets: Secrets, tr: Trace, t: StoreState, d: Cluster,
                               n: string)
    returns (id: string)
    requires Startup(s, c, secrets, tr, t, d) && IdsApart(c, tr.newIds) && Admissible(s, c, Todo(c, tr.cms, 0))
    requires Listed(c, n)
    ensures Holds(t, id, n) && c[n].payload.Yaml? && Carries(t.vcenters[id], c[n], secrets)
  {
    hide Inv, ApplyStep, ExportPhase, Waiting, ClaimsOk, HeldBy, Todo, Carries, IdsApart;
    ApplyPrefix(s, c, secrets, tr, |tr.cms|);
    NamesAreDistinct(s, c, secrets, tr);
    assert c[n] in tr.cms;
    var k :| 0 <= k < |tr.cms| && tr.cms[k] == c[n];
    id := tr.applied[k];
    var last := tr.states[|tr.cms|];
    forall j | k < j < |tr.cms| ensures tr.applied[j] != id {
      assert Holds(last, tr.applied[j], tr.cms[j].name) && Holds(last, id, tr.cms[k].name);
    }
    StartupCarries(s, c, secrets, tr, t, d, k);
    CarriesName(t.vcenters[id], c[n], secrets);
  }

  lemma CarriesName(r: VCenter, cm: ConfigMap, secrets: Secrets)
    requires cm.payload.Yaml? && Carries(r, cm, secrets)
    ensures r.configMap == cm.name
  {
  }

  // ---------------------------------------------------------------- writing

  /** The ConfigMap written for a record: its labels and, field by field, its document. */
  lemma WrittenIs(vc: VCenter, name: string, ref: SecretRef)
    ensures var cm := Render(vc, name, ref);
            && cm.name == name && cm.payload.Yaml?
            && cm.labels == map["app" := "rf2vc", "rf2vc.dasmlab.org/vcenter" := "true",
                "rf2vc.dasmlab.org/origin" := "runtime"]
            && var spec := cm.payload.spec;
            && spec.id == vc.id && spec.name == vc.name && spec.url == vc.url && spec.username == vc.username
            && spec.insecure == vc.insecure && spec.datacenter == vc.datacenter && spec.datastore == vc.datastore
            && spec.folder == vc.folder && spec.isoFolder == vc.isoFolder && spec.notes == vc.notes
            && spec.dryRun == (if vc.dryRun then Some(true) else None) && spec.credentialsSecret == Some(ref)
  {
  }

  /** The Secret it refers to: the record's own, or one of the ConfigMap's name with the usual key. */
  lemma RefIs(vc: VCenter, name: string)
    ensures ExportRef(vc, name) == match vc.credentialsSecret
                                   case Some(ref) => ref
                                   case None => SecretRef(name, "password", "")
  {
  }

  /** The two names made up for a record: they always differ. */
  lemma NamesAre(vc: VCenter)
    ensures BaseName(vc) == "rf2vc-vc-" + Slug(vc.name, vc.id)
    ensures LongName(vc) == BaseName(vc) + "-" + vc.id[..if |vc.id| < 6 then |vc.id| else 6]
    ensures LongName(vc) != BaseName(vc)
  {
    assert vc.id[..if |vc.id| < 6 then |vc.id| else 6] == if |vc.id| < 6 then vc.id else vc.id[..6];
    assert |LongName(vc)| > |BaseName(vc)|;
  }

  /** Nobody holds the name, or it is this record's own earlier export. */
  predicate MayTake(c: Cluster, name: string, id: string) {
    name in c ==> DecodedId(c[name]) == id && HasLabel(c[name], "rf2vc.dasmlab.org/origin", "runtime")
  }

  /** The id in a document, as far as it could be decoded. */
  function DecodedId(cm: ConfigMap): string {
    if cm.payload.Yaml? then cm.payload.spec.id else if cm.payload.Garbled? then cm.payload.partialId else ""
  }

  /** The name written to: the recorded one unless somebody else's ConfigMap has it, or the first of
      the two that may be taken. */
  lemma NameIs(c: Cluster, vc: VCenter)
    ensures vc.configMap != "" ==>
              var foreign := vc.configMap in c && !HasLabel(c[vc.configMap], "rf2vc.dasmlab.org/origin", "runtime");
              ExportName(c, vc) == if foreign then None else Some(vc.configMap)
    ensures vc.configMap == "" ==>
              ExportName(c, vc) == if MayTake(c, BaseName(vc), vc.id) then Some(BaseName(vc))
                                   else if MayTake(c, LongName(vc), vc.id) then Some(LongName(vc)) else None
  {
    hide BaseName, LongName;
  }

  /** Two records of one name, exported one after the other, get a ConfigMap each: the second one
      takes the longer name. */
  lemma SecondOfTheName(x: (StoreState, Cluster), a: VCenter, y: (StoreState, Cluster), b: VCenter)
    requires ExportStep(x, a, y) && a.configMap == "" && b.configMap == "" && a.id != b.id && BaseName(a) == BaseName(b)
    requires BaseName(a) !in x.1 && LongName(b) !in x.1
    ensures ExportName(x.1, a) == Some(BaseName(a)) && ExportName(y.1, b) == Some(LongName(b)) != ExportName(x.1, a)
  {
    NamesAre(b);
    hide BaseName, LongName;
    NameIs(x.1, a);
    RenderedIs(y.1[BaseName(a)], a, BaseName(a), ExportRef(a, BaseName(a)));
    hide Render;
    NameIs(y.1, b);
  }

  /** From a settled state an export changes no listed ConfigMap. */
  lemma ListedKept(x: (StoreState, Cluster), vc: VCenter, y: (StoreState, Cluster), m: string)
    requires Settled(x.0, x.1) && ExportStep(x, vc, y) && Listed(x.1, m)
    requires vc.id in x.0.vcenters && vc == Redact(x.0.vcenters[vc.id]) && Adrift(x.0, x.1, vc.id)
    ensures m in y.1 && y.1[m] == x.1[m]
  {
    hide Settled, Render, FreeName, WithConfigMap;
    SameExportName(x.1, x.0.vcenters[vc.id]);
    if ExportName(x.1, vc).Some? {
      ExportNameIsFree(x.0, x.1, vc.id, ExportName(x.1, vc).value);
    }
  }

  lemma {:induction false} ListedSince(s: StoreState, c: Cluster, tr: Trace, t: StoreState, d: Cluster, m: string,
                                       i: nat, j: nat)
    requires ExportPhase(s, c, tr, t, d) && Settled(s, c) && AllAdrift(s, c, tr.vcs) && i <= j <= |tr.vcs|
    requires Listed(tr.exports[i].1, m)
    ensures Listed(tr.exports[j].1, m) && tr.exports[j].1[m] == tr.exports[i].1[m]
    decreases j - i
  {
    hide Settled, ExportStep, Redact, Stuck, IsListed;
    if i < j {
      ListedSince(s, c, tr, t, d, m, i, j - 1);
      ExportPrefix(s, c, tr, t, d, j - 1);
      assert StillAdrift(s, tr.vcs[j - 1].id, tr.exports[j - 1]);
      ListedKept(tr.exports[j - 1], tr.vcs[j - 1], tr.exports[j], m);
    }
  }

  /** A Startup from an admissible state changes no listed ConfigMap. */
  lemma StartupKeepsListed(s: StoreState, c: Cluster, secrets: Secrets, tr: Trace, t: StoreState, d: Cluster, m: string)
    requires Startup(s, c, secrets, tr, t, d) && IdsApart(c, tr.newIds) && Admissible(s, c, Todo(c, tr.cms, 0))
    requires Listed(c, m)
    ensures Listed(d, m) && d[m] == c[m]
  {
    hide Admissible, Todo, IdsApart, ApplyStep, ExportStep, Adrift, IsListed;
    ApplySettles(s, c, secrets, tr);
    LeftAdrift(tr.states[|tr.cms|], c, tr, t, d);
    ListedSince(tr.states[|tr.cms|], c, tr, t, d, m, 0, |tr.vcs|);
  }

  lemma LeftAdrift(s: StoreState, c: Cluster, tr: Trace, t: StoreState, d: Cluster)
    requires ExportPhase(s, c, tr, t, d)
    requires forall id :: id in s.vcenters ==> (id in tr.applied <==> !Adrift(s, c, id))
    ensures AllAdrift(s, c, tr.vcs)
  {
    hide ExportStep, Redact, Adrift;
  }

  /** And each record it exports has, at the end, a ConfigMap that says what the record says. */
  lemma EachExportStands(s: StoreState, c: Cluster, secrets: Secrets, tr: Trace, t: StoreState, d: Cluster, j: nat)
    requires Startup(s, c, secrets, tr, t, d) && IdsApart(c, tr.newIds) && Admissible(s, c, Todo(c, tr.cms, 0))
    requires j < |tr.vcs| && !Stuck(tr.exports[j].1, tr.vcs[j])
    ensures var vc := tr.vcs[j];
            var name := ExportName(tr.exports[j].1, vc).value;
            name in d && d[name].(rv := 0) == Render(vc, name, ExportRef(vc, name))
  {
    hide Admissible, Todo, IdsApart, ApplyStep, Adrift, Render, FreeName, WithConfigMap, IsListed;
    ApplySettles(s, c, secrets, tr);
    LeftAdrift(tr.states[|tr.cms|], c, tr, t, d);
    var x, vc, y := tr.exports[j], tr.vcs[j], tr.exports[j + 1];
    assert ExportStep(x, vc, y);
    var name := ExportName(x.1, vc).value;
    RenderedIs(y.1[name], vc, name, ExportRef(vc, name));
    ListedSince(tr.states[|tr.cms|], c, tr, t, d, name, j + 1, |tr.vcs|);
  }
}
