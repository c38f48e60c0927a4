/** Keeping vCenters and ConfigMaps in step, against a cluster that others write to as well. */
module Vcsync {
  import opened Text
  import opened Records
  import opened StoreSpec
  import opened Store
  import opened VcsyncSpec
  import opened Convergence

  datatype Reply<+T> = Found(value: T) | Absent | Failed

  /** A ConfigMap write of the gateway that the API server committed. */
  datatype Write = Write(name: string, before: Option<ConfigMap>, after: ConfigMap)

  /** The write filled an absent name or replaced a ConfigMap labelled runtime at that moment. */
  predicate OwnedWrite(w: Write) {
    w.before.Some? ==> IsRuntime(w.before.value)
  }

  /** Between two moments, whatever changed carries a newer resource version. */
  predicate Newer(c: Cluster, rv: nat, d: Cluster, rw: nat) {
    rv <= rw && forall n :: n in d && d[n].rv <= rv ==> n in c && d[n] == c[n]
  }

  /** The ConfigMap API. Outsiders may create, edit, relabel and delete between any two
      calls of the gateway, and a flaky API may lose requests or replies. */
  class Kube {
    var cms: Cluster
    var secrets: Secrets
    var rv: nat
    const outsiders: bool
    const flaky: bool
    ghost var writes: seq<Write>
    ghost var deletes: seq<ConfigMap>

    ghost predicate Valid()
      reads this
    {
      forall n :: n in cms ==> cms[n].name == n && 0 < cms[n].rv <= rv
    }

    /** Only outsiders acted since the old state. */
    twostate predicate OnlyOutside()
      reads this
    {
      && Valid() && Newer(old(cms), old(rv), cms, rv) && writes == old(writes) && deletes == old(deletes)
      && (!outsiders ==> cms == old(cms) && secrets == old(secrets))
    }

    method Interfere()
      requires Valid()
      modifies this`cms, this`rv, this`secrets
      ensures OnlyOutside()
    {
      var steps: nat := *;
      while outsiders && steps > 0
        invariant Valid() && Newer(old(cms), old(rv), cms, rv)
        invariant !outsiders ==> cms == old(cms) && secrets == old(secrets)
        decreases steps
      {
        var name: string, cm: ConfigMap, remove: bool := *, *, *;
        if remove {
          cms := cms - {name};
        } else {
          rv := rv + 1;
          cms := cms[name := cm.(name := name, rv := rv)];
        }
        secrets := *;
        steps := steps - 1;
      }
    }

    method Get(name: string) returns (r: Reply<ConfigMap>)
      requires Valid()
      modifies this`cms, this`rv, this`secrets
      ensures OnlyOutside()
      ensures r.Found? ==> name in cms && r.value == cms[name]
      ensures r.Absent? ==> name !in cms
      ensures r.Failed? ==> flaky
    {
      Interfere();
      var lost: bool := *;
      if flaky && lost {
        return Failed;
      }
      r := if name in cms then Found(cms[name]) else Absent;
    }

    method GetSecret(name: string) returns (r: Reply<map<string, string>>)
      requires Valid()
      modifies this`cms, this`rv, this`secrets
      ensures OnlyOutside()
      ensures !flaky ==> r == if name in secrets then Found(secrets[name]) else Absent
    {
      Interfere();
      var lost: bool := *;
      if flaky && lost {
        return Failed;
      }
      r := if name in secrets then Found(secrets[name]) else Absent;
    }

    /** The listed ConfigMaps, each once, in any order. */
    method List() returns (ok: bool, items: seq<ConfigMap>)
      requires Valid()
      modifies this`cms, this`rv, this`secrets
      ensures OnlyOutside()
      ensures !flaky ==> ok
      ensures ok ==> forall i :: 0 <= i < |items| ==>
                       items[i].name in cms && cms[items[i].name] == items[i] && IsListed(items[i])
      ensures ok ==> forall i, j :: 0 <= i < j < |items| ==> items[i].name != items[j].name
      ensures ok ==> forall n :: n in cms && IsListed(cms[n]) ==> cms[n] in items
    {
      Interfere();
      ok := *;
      ok := ok || !flaky;
      items := [];
      if ok {
        var todo := cms.Keys;
        while todo != {}
          invariant todo <= cms.Keys
          invariant forall i :: 0 <= i < |items| ==>
                      items[i].name in cms.Keys - todo && cms[items[i].name] == items[i] && IsListed(items[i])
          invariant forall i, j :: 0 <= i < j < |items| ==> items[i].name != items[j].name
          invariant forall n :: n in cms.Keys - todo && IsListed(cms[n]) ==> cms[n] in items
        {
          var n :| n in todo;
          if IsListed(cms[n]) {
            items := items + [cms[n]];
          }
          todo := todo - {n};
        }
      }
    }

    /** One committed write, or none. */
    twostate predicate WroteAtMost(name: string, cm: ConfigMap)
      reads this
    {
      && Valid() && deletes == old(deletes)
      && (writes == old(writes) || (|writes| == |old(writes)| + 1 && writes[..|old(writes)|] == old(writes)
        && writes[|old(writes)|].name == name && writes[|old(writes)|].after.(rv := 0) == cm.(rv := 0)))
    }

    /** Create fails when the name is taken. */
    method Create(cm: ConfigMap) returns (ok: bool)
      requires Valid()
      modifies this
      ensures WroteAtMost(cm.name, cm)
      ensures writes != old(writes) ==> writes[|old(writes)|].before.None?
      ensures ok ==> writes != old(writes)
      ensures !outsiders && !flaky ==>
                && secrets == old(secrets) && ok == (cm.name !in old(cms))
                && if ok then cm.name in cms && cms == old(cms)[cm.name := cms[cm.name]]
                    && cms[cm.name].(rv := 0) == cm.(rv := 0)
                   else cms == old(cms)
    {
      Interfere();
      var lost: bool, lostReply: bool := *, *;
      if (flaky && lost) || cm.name in cms {
        return false;
      }
      rv := rv + 1;
      cms := cms[cm.name := cm.(rv := rv)];
      writes := writes + [Write(cm.name, None, cm.(rv := rv))];
      ok := !(flaky && lostReply);
    }

    /** Update fails unless the ConfigMap still has the resource version of cm; version 0
        (an empty resourceVersion) asks for no such check. */
    method Update(cm: ConfigMap) returns (ok: bool)
      requires Valid()
      modifies this
      ensures WroteAtMost(cm.name, cm)
      ensures writes != old(writes) ==>
                var before := writes[|old(writes)|].before;
                before.Some? && (cm.rv != 0 ==> before.value.rv == cm.rv) && before.value.name == cm.name
                && (before.value.rv <= old(rv) ==> cm.name in old(cms) && before.value == old(cms)[cm.name])
      ensures ok ==> writes != old(writes)
      ensures !outsiders && !flaky ==>
                && secrets == old(secrets) && ok == (cm.name in old(cms) && cm.rv in {0, old(cms)[cm.name].rv})
                && if ok then cm.name in cms && cms == old(cms)[cm.name := cms[cm.name]]
                    && cms[cm.name].(rv := 0) == cm.(rv := 0)
                              && old(cms)[cm.name].rv < cms[cm.name].rv
                   else cms == old(cms)
    {
      Interfere();
      var lost: bool, lostReply: bool := *, *;
      if (flaky && lost) || cm.name !in cms || (cm.rv != 0 && cms[cm.name].rv != cm.rv) {
        return false;
      }
      var before := cms[cm.name];
      rv := rv + 1;
      cms := cms[cm.name := cm.(rv := rv)];
      writes := writes + [Write(cm.name, Some(before), cm.(rv := rv))];
      ok := !(flaky && lostReply);
    }

    /** Delete checks nothing. */
    method Delete(name: string) returns (ok: bool)
      requires Valid()
      modifies this
      ensures Valid() && writes == old(writes)
      ensures deletes == old(deletes) ||
              (|deletes| == |old(deletes)| + 1 && deletes[..|old(deletes)|] == old(deletes)
                  && deletes[|old(deletes)|].name == name)
      ensures !outsiders && !flaky ==>
                && ok && cms == old(cms) - {name} && secrets == old(secrets)
                && (name in old(cms) ==> deletes == old(deletes) + [old(cms)[name]])
    {
      Interfere();
      var lost: bool, lostReply: bool := *, *;
      if flaky && lost {
        return false;
      }
      if name in cms {
        deletes := deletes + [cms[name]];
      }
      cms := cms - {name};
      ok := !(flaky && lostReply);
    }
  }

  ghost predicate OnlyOwnedWrites(before: seq<Write>, after: seq<Write>) {
    before <= after && forall i :: |before| <= i < |after| ==> OwnedWrite(after[i])
  }

  /** At most the ConfigMap of record id was noted. */
  ghost predicate NotesConfigMap(s: StoreState, t: StoreState, id: string) {
    t == s || (id in s.vcenters && exists name, ref ::
        t == PutAt(s, id, WithConfigMap(s.vcenters[id], name, Runtime, ref)))
  }

  /** Operations a Startup may perform on the store. */
  predicate StartupOp(op: Op) {
    op.ApplyConfig? || op.SetConfigMap?
  }

  ghost predicate OnlyStartupOps(before: seq<Op>, after: seq<Op>) {
    before <= after && forall i :: |before| <= i < |after| ==> StartupOp(after[i])
  }

  lemma Chained(a: seq<Op>, b: seq<Op>, c: seq<Op>, u: seq<Write>, v: seq<Write>, w: seq<Write>)
    requires OnlyStartupOps(a, b) && OnlyStartupOps(b, c) && OnlyOwnedWrites(u, v) && OnlyOwnedWrites(v, w)
    ensures OnlyStartupOps(a, c) && OnlyOwnedWrites(u, w)
  {
  }

  /** No ConfigMap asks for one of the ids drawn. */
  ghost predicate AskedByNone(items: seq<ConfigMap>, newIds: seq<string>) {
    forall k, l :: 0 <= k < |newIds| && 0 <= l < |items| ==> SpecId(items[l]) != newIds[k]
  }

  ghost predicate SameIds(applied: seq<string>, fromCM: set<string>) {
    forall id :: id != "" ==> (id in applied <==> id in fromCM)
  }

  lemma OneMore(applied: seq<string>, fromCM: set<string>, id: string)
    requires SameIds(applied, fromCM)
    ensures SameIds(applied + [id], if id == "" then fromCM else fromCM + {id})
  {
  }

  /** The reconciler between one store and one cluster. */
  class Sync {
    const kc: Kube
    const st: Store

    constructor (kc: Kube, st: Store)
      ensures this.kc == kc && this.st == st
    {
      this.kc, this.st := kc, st;
    }

    ghost predicate Valid()
      reads kc, st, st.disk
    {
      kc.Valid() && st.Valid()
    }

    /** Nothing fails and nobody else writes. */
    predicate Quiet() {
      !kc.outsiders && !kc.flaky && st.disk.reliable
    }

    /** The gateway committed only owned writes, and the store's history was only extended. */
    twostate predicate Safe()
      reads kc, st, st.disk
    {
      && Valid() && st.Extends()
      && OnlyOwnedWrites(old(kc.writes), kc.writes)
    }

    /** freeName: the plain name, then the name with the id, each looked up as it comes. */
    method PickName(vc: VCenter) returns (r: Reply<(string, Option<ConfigMap>)>)
      requires Valid()
      modifies kc`cms, kc`rv, kc`secrets
      ensures kc.OnlyOutside() && Valid()
      ensures r.Found? ==> r.value.0 in {BaseName(vc), LongName(vc)}
      ensures r.Found? && r.value.1.Some? ==>
                var cm := r.value.1.value;
                && OwnExport(cm, vc.id) && cm.name == r.value.0 && 0 < cm.rv <= kc.rv
                && (r.value.0 in kc.cms && kc.cms[r.value.0].rv == cm.rv ==> kc.cms[r.value.0] == cm)
      ensures Quiet() ==>
                match FreeName(kc.cms, vc)
                case None => r == Absent
                case Some(name) => r == Found((name, if name in kc.cms then Some(kc.cms[name]) else None))
    {
      hide BaseName, LongName, Store.HistoryOk;
      var names := [BaseName(vc), LongName(vc)];
      for i := 0 to 2
        invariant kc.OnlyOutside() && Valid()
        invariant Quiet() ==> forall k :: 0 <= k < i ==> !NameUsable(kc.cms, names[k], vc.id)
      {
        assert i == 1 ==> Quiet() ==> !NameUsable(kc.cms, names[0], vc.id);
        var got := kc.Get(names[i]);
        match got
        case Absent => return Found((names[i], None));
        case Failed => return Failed;
        case Found(cm) =>
          if OwnExport(cm, vc.id) {
            return Found((names[i], Some(cm)));
          }
      }
      assert Quiet() ==> !NameUsable(kc.cms, names[0], vc.id) && !NameUsable(kc.cms, names[1], vc.id);
      r := Absent;
    }

    /** The name to write to and, when there is one, the ConfigMap to replace. */
    method PickTarget(vc: VCenter) returns (r: Reply<(string, Option<ConfigMap>)>)
      requires Valid()
      modifies kc`cms, kc`rv, kc`secrets
      ensures kc.OnlyOutside() && Valid()
      ensures r.Found? ==> Replaceable(vc, r.value.0, r.value.1)
      ensures Quiet() ==>
                match ExportName(kc.cms, vc)
                case None => r == Absent
                case Some(name) => r == Found((name, if name in kc.cms then Some(kc.cms[name]) else None))
    {
      if vc.configMap == "" {
        r := PickName(vc);
        return;
      }
      var got := kc.Get(vc.configMap);
      match got
      case Failed => r := Failed;
      case Absent => r := Found((vc.configMap, None));
      case Found(cm) =>
        r := if IsRuntime(cm) then Found((vc.configMap, Some(cm))) else Absent;
    }

    /** What export wrote, if it wrote: the rendering of vc, over nothing or over a ConfigMap
        that was labelled runtime when the write was committed and, for a name export picked
        itself, was an earlier export of the same vCenter. */
    ghost predicate ExportWrite(vc: VCenter, w: Write) {
      && w.after.(rv := 0) == Render(vc, w.name, ExportRef(vc, w.name))
      && OwnedWrite(w)
      && (if vc.configMap == "" then w.name in {BaseName(vc), LongName(vc)} else w.name == vc.configMap)
      && (vc.configMap == "" && w.before.Some? ==> OwnExport(w.before.value, vc.id))
    }

    /** The ConfigMap read for a write, as PickTarget leaves it. */
    ghost predicate Replaceable(vc: VCenter, name: string, existing: Option<ConfigMap>)
      reads kc
    {
      && (if vc.configMap == "" then name in {BaseName(vc), LongName(vc)} else name == vc.configMap)
      && (existing.Some? ==>
        var cm := existing.value;
        && IsRuntime(cm) && cm.name == name && 0 < cm.rv <= kc.rv
        && (vc.configMap == "" ==> SpecId(cm) == vc.id)
        && (name in kc.cms && kc.cms[name].rv == cm.rv ==> kc.cms[name] == cm))
    }

    /** Update what was read, or create. */
    method WriteConfigMap(vc: VCenter, name: string, existing: Option<ConfigMap>) returns (ok: bool)
      requires Valid() && Replaceable(vc, name, existing)
      modifies kc
      ensures Valid() && kc.deletes == old(kc.deletes)
      ensures kc.writes == old(kc.writes) ||
              (|kc.writes| == |old(kc.writes)| + 1 && kc.writes[..|old(kc.writes)|] == old(kc.writes)
              && ExportWrite(vc, kc.writes[|old(kc.writes)|]) && kc.writes[|old(kc.writes)|].name == name)
      ensures ok ==> kc.writes != old(kc.writes)
      ensures Quiet() && existing == (if name in old(kc.cms) then Some(old(kc.cms)[name]) else None) ==>
                && ok && kc.secrets == old(kc.secrets) && name in kc.cms && kc.cms == old(kc.cms)[name := kc.cms[name]]
                && kc.cms[name].(rv := 0) == Render(vc, name, ExportRef(vc, name))
                && (name in old(kc.cms) ==> old(kc.cms)[name].rv < kc.cms[name].rv)
    {
      var cm := Render(vc, name, ExportRef(vc, name));
      if existing.Some? {
        ok := kc.Update(cm.(rv := existing.value.rv));
      } else {
        ok := kc.Create(cm);
      }
    }

    method Export(vc: VCenter) returns (ok: bool)
      requires Valid()
      modifies kc, st, st.disk
      ensures Safe()
      ensures |kc.writes| <= |old(kc.writes)| + 1 && kc.deletes == old(kc.deletes)
      ensures |kc.writes| > |old(kc.writes)| ==> ExportWrite(vc, kc.writes[|old(kc.writes)|])
      ensures st.ops == old(st.ops) || st.ops == old(st.ops) + [SetConfigMap(vc.id, LastName(kc.writes), Runtime,
                                                                Some(ExportRef(vc, LastName(kc.writes))))]
      ensures NotesConfigMap(old(st.S()), st.S(), vc.id) && (kc.writes == old(kc.writes) ==> st.S() == old(st.S()))
      ensures Quiet() && vc.id in old(st.vcenters) ==>
                && kc.secrets == old(kc.secrets)
                && ExportStep((old(st.S()), old(kc.cms)), vc, (st.S(), kc.cms))
    {
      hide Step, Render, Inv;
      var target := PickTarget(vc);
      if !target.Found? {
        return false;
      }
      var (name, existing) := target.value;
      ok := WriteConfigMap(vc, name, existing);
      if ok {
        var r := st.SetVCenterConfigMap(vc.id, name, Runtime, Some(ExportRef(vc, name)));
        ok := r.Ok?;
      }
    }

    /** After an edit in the UI. GitOps-owned vCenters are left alone. */
    method Saved(id: string) returns (ok: bool)
      requires Valid()
      modifies kc, st, st.disk
      ensures Safe() && kc.deletes == old(kc.deletes)
      ensures id !in old(st.vcenters) || old(st.vcenters)[id].configOrigin == GitOps ==>
                ok && kc.writes == old(kc.writes) && st.S() == old(st.S()) && kc.cms == old(kc.cms)
      ensures |kc.writes| > |old(kc.writes)| ==>
                id in old(st.vcenters) && ExportWrite(Redact(old(st.vcenters)[id]), kc.writes[|old(kc.writes)|])
      ensures |kc.writes| <= |old(kc.writes)| + 1
      ensures Inv(old(st.S())) ==>
                NotesConfigMap(old(st.S()), st.S(), id) && (kc.writes == old(kc.writes) ==> st.S() == old(st.S()))
      ensures Quiet() && Inv(old(st.S())) && id in old(st.vcenters) && old(st.vcenters)[id].configOrigin != GitOps ==>
                && kc.secrets == old(kc.secrets)
                && ExportStep((old(st.S()), old(kc.cms)), Redact(old(st.vcenters)[id]), (st.S(), kc.cms))
    {
      hide ExportWrite, ExportStep, Run, Step, Inv, OwnedWrite, Store.HistoryOk;
      if Inv(st.S()) && id in st.vcenters {
        KnownById(st.S(), id);
      }
      var vc := st.GetVCenter(id);
      if vc.None? || vc.value.configOrigin == GitOps {
        return true;
      }
      ok := Export(vc.value);
    }

    /** A vCenter that GitOps owns must not be deleted here. */
    predicate CheckDelete(id: string)
      reads st
    {
      !(id in st.vcenters && st.vcenters[id].configOrigin == GitOps)
    }

    /** Removes the runtime ConfigMap of a vCenter deleted in the UI; vc is the record as it was. */
    method Deleted(vc: VCenter) returns (ok: bool)
      requires Valid()
      modifies kc
      ensures Valid() && kc.writes == old(kc.writes)
      ensures vc.configOrigin != Runtime || vc.configMap == "" ==>
                ok && kc.cms == old(kc.cms) && kc.deletes == old(kc.deletes)
      ensures kc.deletes != old(kc.deletes) ==>
                && |kc.deletes| == |old(kc.deletes)| + 1 && kc.deletes[|old(kc.deletes)|].name == vc.configMap
                && vc.configOrigin == Runtime
      ensures Quiet() && vc.configOrigin == Runtime && vc.configMap != "" ==>
                ok && kc.cms == old(kc.cms) - {vc.configMap}
    {
      if vc.configOrigin != Runtime || vc.configMap == "" {
        return true;
      }
      ok := kc.Delete(vc.configMap);
    }

    method ReadCredentials(cfg: VCenter) returns (password: string, full: VCenter)
      requires Valid()
      modifies kc`cms, kc`rv, kc`secrets
      ensures kc.OnlyOutside() && Valid()
      ensures full == cfg.(username := full.username)
      ensures Quiet() ==> (password, full) == Credentials(kc.secrets, cfg)
    {
      password, full := "", cfg;
      if cfg.credentialsSecret.None? || cfg.credentialsSecret.value.name == "" {
        return;
      }
      var ref := cfg.credentialsSecret.value;
      var got := kc.GetSecret(ref.name);
      if got.Found? {
        if ref.usernameKey != "" {
          var user := Trim(Lookup(got.value, ref.usernameKey));
          if user != "" {
            full := full.(username := user);
          }
        }
        password := Lookup(got.value, PassKey(ref));
      }
    }

    /** Load one ConfigMap; the id of the record it went to, or "" when it was refused. */
    method Apply(cm: ConfigMap, newId: string) returns (id: string)
      requires Valid() && FreshId(st.S(), newId)
      modifies kc`cms, kc`rv, kc`secrets, st, st.disk
      ensures kc.OnlyOutside() && Valid() && st.Extends() && OnlyStartupOps(old(st.ops), st.ops)
      ensures Quiet() ==> ApplyStep(old(st.S()), cm, kc.secrets, newId, id, st.S())
    {
      if !cm.payload.Yaml? {
        return "";
      }
      var password, cfg := ReadCredentials(FieldsOf(cm));
      var r := st.ApplyConfigVCenter(cfg, cm.payload.spec.dryRun, password, newId);
      id := if r.Ok? then r.value.id else "";
      if Quiet() && ConfigValid(cfg) {
        assert Run(st.passed, st.ops);
        assert Step(st.passed[|old(st.ops)|], st.ops[|old(st.ops)|], st.passed[|st.ops|]);
      }
    }

    /** A random id: any string in use nowhere may come out. */
    method NewId(used: set<string>) returns (id: string)
      ensures id != "" && id !in used
    {
      var n: nat, todo := 0, used;
      while todo != {}
        invariant todo <= used && forall k :: k in used - todo ==> |k| <= n
      {
        var k :| k in todo;
        n, todo := if |k| > n then |k| else n, todo - {k};
      }
      id := seq(n + 1, _ => '0');
    }

    /** One round of the first loop: the record the i-th ConfigMap went to. */
    method ApplyNext(items: seq<ConfigMap>, i: nat, ghost ops: seq<Op>, ghost s: StoreState, ghost newIds: seq<string>,
                     ghost states: seq<StoreState>, ghost applied: seq<string>)
      returns (id: string, ghost newId: string)
      requires Valid() && i < |items| && OnlyStartupOps(ops, st.ops) && AskedByNone(items, newIds)
      modifies kc`cms, kc`rv, kc`secrets, st, st.disk
      ensures kc.OnlyOutside() && Valid() && st.Extends() && OnlyStartupOps(ops, st.ops)
      ensures AskedByNone(items, newIds + [newId])
      ensures Quiet() && Inv(old(st.S())) && ApplyRun(s, items[..i], kc.secrets, newIds, states, applied,
                old(st.S())) ==>
                && Inv(st.S())
                && ApplyRun(s, items[..i + 1], kc.secrets, newIds + [newId], states + [st.S()], applied + [id], st.S())
    {
      var drawn := NewId(st.vcenters.Keys + set l | 0 <= l < |items| :: SpecId(items[l]));
      newId := drawn;
      id := Apply(items[i], drawn);
      assert OnlyStartupOps(old(st.ops), st.ops);
      Chained(ops, old(st.ops), st.ops, [], [], []);
      if Quiet() && Inv(old(st.S())) && ApplyRun(s, items[..i], kc.secrets, newIds, states, applied, old(st.S())) {
        ApplyRunSnoc(s, items[..i], kc.secrets, newIds, states, applied, old(st.S()), items[i], newId, id, st.S());
        assert items[..i + 1] == items[..i] + [items[i]];
      }
    }

    /** The first loop of Startup. */
    method ApplyAll(items: seq<ConfigMap>)
      returns (fromCM: set<string>, ghost newIds: seq<string>, ghost states: seq<StoreState>,
          ghost applied: seq<string>)
      requires Valid()
      modifies kc`cms, kc`rv, kc`secrets, st, st.disk
      ensures kc.OnlyOutside() && Valid() && st.Extends() && OnlyStartupOps(old(st.ops), st.ops)
      ensures Quiet() && Inv(old(st.S())) ==>
                Inv(st.S()) && ApplyRun(old(st.S()), items, kc.secrets, newIds, states, applied, st.S())
      ensures AskedByNone(items, newIds) && SameIds(applied, fromCM)
    {
      hide ApplyStep, StartupOp, Store.HistoryOk;
      fromCM, newIds, states, applied := {}, [], [st.S()], [];
      assert items[..0] == [] && ApplyRun(st.S(), [], kc.secrets, [], [st.S()], [], st.S());
      assert OnlyStartupOps(st.ops, st.ops) && AskedByNone(items, []) && SameIds([], {});
      hide Inv, ApplyRun, OnlyStartupOps, AskedByNone, SameIds;
      for i := 0 to |items|
        invariant kc.OnlyOutside() && Valid() && st.Extends() && OnlyStartupOps(old(st.ops), st.ops)
        invariant Quiet() && Inv(old(st.S())) ==>
            Inv(st.S()) && ApplyRun(old(st.S()), items[..i], kc.secrets, newIds, states, applied, st.S())
        invariant AskedByNone(items, newIds) && SameIds(applied, fromCM)
      {
        var id, newId := ApplyNext(items, i, old(st.ops), old(st.S()), newIds, states, applied);
        OneMore(applied, fromCM, id);
        if id != "" {
          fromCM := fromCM + {id};
        }
        newIds, states, applied := newIds + [newId], states + [st.S()], applied + [id];
      }
      assert items[..|items|] == items;
    }

    /** One round of the second loop, for a record that came from no ConfigMap. */
    method ExportNext(vc: VCenter, ghost ops: seq<Op>, ghost writes: seq<Write>, ghost x: (StoreState, Cluster),
                      ghost vcs: seq<VCenter>, ghost exports: seq<(StoreState, Cluster)>)
      requires Valid() && OnlyStartupOps(ops, st.ops) && OnlyOwnedWrites(writes, kc.writes)
      modifies kc, st, st.disk
      ensures Valid() && st.Extends() && kc.deletes == old(kc.deletes)
      ensures OnlyStartupOps(ops, st.ops) && OnlyOwnedWrites(writes, kc.writes)
      ensures Quiet() && vc.id in old(st.vcenters) && ExportRun(x, vcs, exports, (old(st.S()), old(kc.cms))) ==>
                && kc.secrets == old(kc.secrets) && st.vcenters.Keys == old(st.vcenters).Keys
                && ExportRun(x, vcs + [vc], exports + [(st.S(), kc.cms)], (st.S(), kc.cms))
    {
      hide ExportWrite, ExportRun, Run, Step, OnlyOwnedWrites, Store.HistoryOk;
      var _ := Export(vc);
      Chained(ops, old(st.ops), st.ops, writes, old(kc.writes), kc.writes);
      if Quiet() && vc.id in old(st.vcenters) && ExportRun(x, vcs, exports, (old(st.S()), old(kc.cms))) {
        ExportRunSnoc(x, vcs, exports, (old(st.S()), old(kc.cms)), vc, (st.S(), kc.cms));
      }
    }

    /** The records that the second loop goes over, in the order of the list. */
    method ListedRecords() returns (list: seq<VCenter>, ghost keys: seq<string>)
      ensures Inv(st.S()) ==>
                && Listing(st.S(), list, keys) && forall i :: 0 <= i < |list| ==> list[i].id in st.vcenters
    {
      list, keys := st.ListVCenters();
      ghost var s := st.S();
      if Inv(s) {
        RedactedIds(s, list, keys);
      }
    }

    /** The second loop of Startup: a ConfigMap for every record that came from none. */
    method ExportAll(fromCM: set<string>)
      returns (ghost vcs: seq<VCenter>, ghost exports: seq<(StoreState, Cluster)>)
      requires Valid()
      modifies kc, st, st.disk
      ensures Safe() && OnlyStartupOps(old(st.ops), st.ops) && kc.deletes == old(kc.deletes)
      ensures Quiet() && Inv(old(st.S())) ==>
                && kc.secrets == old(kc.secrets)
                && ExportRun((old(st.S()), old(kc.cms)), vcs, exports, (st.S(), kc.cms))
                && ToExport(old(st.S()), fromCM, vcs)
    {
      var list, keys := ListedRecords();
      ghost var s, ops, writes := st.S(), st.ops, kc.writes;
      vcs, exports := [], [(s, kc.cms)];
      assert ExportRun((s, kc.cms), vcs, exports, (s, kc.cms)) && OnlyStartupOps(ops, ops)
          && OnlyOwnedWrites(writes, writes);
      hide Inv, Listing, ExportRun, ToExport, OnlyStartupOps, OnlyOwnedWrites, Store.HistoryOk;
      for i := 0 to |list|
        invariant Valid() && st.Extends() && kc.deletes == old(kc.deletes)
        invariant OnlyStartupOps(ops, st.ops) && OnlyOwnedWrites(writes, kc.writes)
        invariant Quiet() && Inv(s) ==>
            && kc.secrets == old(kc.secrets) && st.vcenters.Keys == s.vcenters.Keys
            && ExportRun((s, old(kc.cms)), vcs, exports, (st.S(), kc.cms)) && vcs == Unlisted(list[..i], fromCM)
      {
        assert list[..i + 1][..i] == list[..i];
        if list[i].id !in fromCM {
          ExportNext(list[i], ops, writes, (s, old(kc.cms)), vcs, exports);
          vcs, exports := vcs + [list[i]], exports + [(st.S(), kc.cms)];
        }
      }
      assert list[..|list|] == list;
      if Inv(s) {
        UnlistedIsToExport(s, fromCM, list, keys);
      }
    }

    /** Startup: load every listed ConfigMap, then write one for every vCenter that has none. */
    method Startup() returns (ok: bool, ghost tr: Trace)
      requires Valid()
      modifies kc, st, st.disk
      ensures Safe() && OnlyStartupOps(old(st.ops), st.ops) && kc.deletes == old(kc.deletes)
      ensures Quiet() && Inv(old(st.S())) ==>
                && ok && kc.secrets == old(kc.secrets) && IdsApart(old(kc.cms), tr.newIds)
                && Convergence.Startup(old(st.S()), old(kc.cms), kc.secrets, tr, st.S(), kc.cms)
    {
      var items;
      tr := Trace([], [], [], [], [], []);
      ok, items := kc.List();
      if !ok {
        return;
      }
      label listed:
      var fromCM, newIds, states, applied := ApplyAll(items);
      label loaded:
      var vcs, exports := ExportAll(fromCM);
      tr := Trace(items, newIds, states, applied, vcs, exports);
    }
  }

  ghost function Unlisted(list: seq<VCenter>, fromCM: set<string>): seq<VCenter> {
    if list == [] then [] else
    var rest, vc := Unlisted(list[..|list| - 1], fromCM), list[|list| - 1];
    if vc.id in fromCM then rest else rest + [vc]
  }

  /** vcs are the records outside fromCM, each once. */
  ghost predicate ToExport(s: StoreState, fromCM: set<string>, vcs: seq<VCenter>) {
    && (forall j :: 0 <= j < |vcs| ==>
      vcs[j].id in s.vcenters && vcs[j] == Redact(s.vcenters[vcs[j].id]) && vcs[j].id !in fromCM)
    && (forall i, j :: 0 <= i < j < |vcs| ==> vcs[i].id != vcs[j].id)
    && (forall id :: id in s.vcenters && id !in fromCM ==> exists j :: 0 <= j < |vcs| && vcs[j].id == id)
  }

  lemma {:induction false} UnlistedPrefix(fromCM: set<string>, list: seq<VCenter>)
    requires forall i, j :: 0 <= i < j < |list| ==> list[i].id != list[j].id
    ensures var vcs := Unlisted(list, fromCM);
            && (forall x :: x in vcs <==> x in list && x.id !in fromCM)
            && (forall i, j :: 0 <= i < j < |vcs| ==> vcs[i].id != vcs[j].id)
  {
    if list != [] {
      var n := |list| - 1;
      UnlistedPrefix(fromCM, list[..n]);
      assert list == list[..n] + [list[n]];
      assert forall x :: x in list <==> x in list[..n] || x == list[n];
    }
  }

  lemma KnownById(s: StoreState, id: string)
    requires Inv(s) && id in s.vcenters
    ensures Redact(s.vcenters[id]).id == id
  {
    assert RecordOk(id, s.vcenters[id]);
  }

  /** list holds every record once, redacted; keys are their ids. */
  ghost predicate Listing(s: StoreState, list: seq<VCenter>, keys: seq<string>) {
    && |list| == |keys| && Lists(keys, s.vcenters.Keys)
    && forall i :: 0 <= i < |keys| ==> keys[i] in s.vcenters && list[i] == Redact(s.vcenters[keys[i]])
  }

  lemma RedactedIds(s: StoreState, list: seq<VCenter>, keys: seq<string>)
    requires Inv(s) && Listing(s, list, keys)
    ensures forall i :: 0 <= i < |list| ==> list[i].id == keys[i]
    ensures forall i, j :: 0 <= i < j < |list| ==> list[i].id != list[j].id
  {
    forall i | 0 <= i < |list|
      ensures list[i].id == keys[i]
    {
      assert RecordOk(keys[i], s.vcenters[keys[i]]);
    }
  }

  lemma UnlistedIsToExport(s: StoreState, fromCM: set<string>, list: seq<VCenter>, keys: seq<string>)
    requires Inv(s) && Listing(s, list, keys)
    ensures ToExport(s, fromCM, Unlisted(list, fromCM))
  {
    RedactedIds(s, list, keys);
    UnlistedPrefix(fromCM, list);
    var vcs := Unlisted(list, fromCM);
    forall j | 0 <= j < |vcs|
      ensures vcs[j].id in s.vcenters && vcs[j] == Redact(s.vcenters[vcs[j].id]) && vcs[j].id !in fromCM
    {
      assert vcs[j] in vcs;
      var i :| 0 <= i < |list| && list[i] == vcs[j];
    }
    forall id | id in s.vcenters && id !in fromCM
      ensures exists j :: 0 <= j < |vcs| && vcs[j].id == id
    {
      var i :| 0 <= i < |keys| && keys[i] == id;
      assert list[i] in vcs;
    }
  }

  /** Loading items, one after the other, took s to t. */
  ghost predicate ApplyRun(s: StoreState, items: seq<ConfigMap>, secrets: Secrets, newIds: seq<string>,
                           states: seq<StoreState>, applied: seq<string>, t: StoreState) {
    && |newIds| == |applied| == |items| && |states| == |items| + 1 && states[0] == s && states[|items|] == t
    && forall i :: 0 <= i < |items| ==> ApplyStep(states[i], items[i], secrets, newIds[i], applied[i], states[i + 1])
  }

  lemma ApplyRunSnoc(s: StoreState, items: seq<ConfigMap>, secrets: Secrets, newIds: seq<string>,
                     states: seq<StoreState>, applied: seq<string>, t: StoreState,
                     cm: ConfigMap, newId: string, id: string, u: StoreState)
    requires ApplyRun(s, items, secrets, newIds, states, applied, t) && ApplyStep(t, cm, secrets, newId, id, u)
    requires Inv(t)
    ensures ApplyRun(s, items + [cm], secrets, newIds + [newId], states + [u], applied + [id], u) && Inv(u)
  {
    hide ApplyStep, Inv;
    ApplyStepKeepsInv(t, cm, secrets, newId, id, u);
  }

  /** The exports of vcs, one after the other, took x to y. */
  ghost predicate ExportRun(x: (StoreState, Cluster), vcs: seq<VCenter>, exports: seq<(StoreState, Cluster)>,
                            y: (StoreState, Cluster)) {
    && |exports| == |vcs| + 1 && exports[0] == x && exports[|vcs|] == y
    && forall j :: 0 <= j < |vcs| ==> ExportStep(exports[j], vcs[j], exports[j + 1])
  }

  lemma ExportRunSnoc(x: (StoreState, Cluster), vcs: seq<VCenter>, exports: seq<(StoreState, Cluster)>,
                      y: (StoreState, Cluster), vc: VCenter, z: (StoreState, Cluster))
    requires ExportRun(x, vcs, exports, y) && ExportStep(y, vc, z)
    ensures ExportRun(x, vcs + [vc], exports + [z], z)
  {
    hide ExportStep;
  }

  function LastName(writes: seq<Write>): string {
    if writes == [] then "" else writes[|writes| - 1].name
  }
}
