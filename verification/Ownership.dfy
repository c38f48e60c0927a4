/** Any number of concurrent exports and UI deletions against any number of outside writers. */
module Ownership {
  import opened Records
  import opened VcsyncSpec
  import opened Vcsync

  /** Where one export has got to. */
  datatype Exporter =
    | Starting(vc: VCenter)
    | Probing(vc: VCenter, k: nat)
    | Ready(vc: VCenter, name: string, existing: Option<ConfigMap>)
    | Finished

  datatype World = World(cms: Cluster, rv: nat, exporters: seq<Exporter>, writes: seq<Write>)

  datatype Action =
    | Begin(vc: VCenter)                              // a handler or Startup calls export
    | Read(i: nat)                                    // one lookup of export or freeName
    | Commit(i: nat)                                  // its create or update reaches the server
    | GiveUp(i: nat)                                  // a call failed
    | Remove(vc: VCenter)                             // Deleted, after the record left the store
    | OutsidePut(name: string, cm: ConfigMap)         // Git, Argo, an operator
    | OutsideDelete(name: string)

  function Candidate(vc: VCenter, k: nat): string {
    if k == 0 then BaseName(vc) else LongName(vc)
  }

  function Stored(w: World, name: string, cm: ConfigMap): World {
    w.(rv := w.rv + 1, cms := w.cms[name := cm.(name := name, rv := w.rv + 1)])
  }

  function Committed(w: World, name: string, cm: ConfigMap): World {
    var before := if name in w.cms then Some(w.cms[name]) else None;
    var x := Stored(w, name, cm);
    x.(writes := w.writes + [Write(name, before, x.cms[name])])
  }

  /** What a lookup leads to. */
  function AfterRead(c: Cluster, e: Exporter): Exporter {
    match e
    case Starting(vc) =>
      if vc.configMap == "" then Probing(vc, 0)
      else if vc.configMap !in c then Ready(vc, vc.configMap, None)
      else if IsRuntime(c[vc.configMap]) then Ready(vc, vc.configMap, Some(c[vc.configMap]))
      else Finished
    case Probing(vc, k) =>
      var name := Candidate(vc, k);
      if name !in c then Ready(vc, name, None)
      else if OwnExport(c[name], vc.id) then Ready(vc, name, Some(c[name]))
      else if k == 0 then Probing(vc, 1) else Finished
    case Ready(_, _, _) => e
    case Finished => e
  }

  /** Create wants the name absent; update wants the resource version that was read. */
  predicate Accepted(c: Cluster, name: string, existing: Option<ConfigMap>) {
    match existing
    case None => name !in c
    case Some(cm) => name in c && c[name].rv == cm.rv
  }

  function Next(w: World, a: Action): World {
    match a
    case Begin(vc) => w.(exporters := w.exporters + [Starting(vc)])
    case Read(i) =>
      if i >= |w.exporters| then w else w.(exporters := w.exporters[i := AfterRead(w.cms, w.exporters[i])])
    case Commit(i) =>
      if i >= |w.exporters| || !w.exporters[i].Ready? then w else
      var Ready(vc, name, existing) := w.exporters[i];
      var done := w.(exporters := w.exporters[i := Finished]);
      if Accepted(w.cms, name, existing) then Committed(done, name, Render(vc, name, ExportRef(vc, name))) else done
    case GiveUp(i) =>
      if i >= |w.exporters| then w else w.(exporters := w.exporters[i := Finished])
    case Remove(vc) =>
      if vc.configOrigin == Runtime && vc.configMap != "" then w.(cms := w.cms - {vc.configMap}) else w
    case OutsidePut(name, cm) => Stored(w, name, cm)
    case OutsideDelete(name) => w.(cms := w.cms - {name})
  }

  function RunOf(w: World, actions: seq<Action>): World {
    if actions == [] then w else Next(RunOf(w, actions[..|actions| - 1]), actions[|actions| - 1])
  }

  // ---------------------------------------------------------------- the invariant

  ghost predicate ClusterOk(c: Cluster, rv: nat) {
    forall n :: n in c ==> c[n].name == n && 0 < c[n].rv <= rv
  }

  /** What an export that is about to update has read still is what that version holds. */
  ghost predicate ReadOk(c: Cluster, rv: nat, e: Exporter) {
    && (e.Probing? ==> e.vc.configMap == "" && e.k <= 1)
    && (e.Ready? ==>
      && (if e.vc.configMap == "" then e.name in {BaseName(e.vc), LongName(e.vc)} else e.name == e.vc.configMap)
      && (e.existing.Some? ==>
        var cm := e.existing.value;
        && IsRuntime(cm) && 0 < cm.rv <= rv
        && (e.vc.configMap == "" ==> OwnExport(cm, e.vc.id))
        && (e.name in c && c[e.name].rv == cm.rv ==> c[e.name] == cm)))
  }

  /** A committed write is the export of some vCenter to its own name, over nothing, over a
      ConfigMap labelled runtime at that moment, or over that vCenter's earlier export. */
  ghost predicate WriteOk(w: Write) {
    && OwnedWrite(w)
    && exists vc ::
         && w.after.(rv := 0) == Render(vc, w.name, ExportRef(vc, w.name))
         && (if vc.configMap == ""
             then w.name in {BaseName(vc), LongName(vc)} && (w.before.Some? ==> OwnExport(w.before.value, vc.id))
             else w.name == vc.configMap)
  }

  ghost predicate WorldOk(w: World) {
    && ClusterOk(w.cms, w.rv)
    && (forall i :: 0 <= i < |w.exporters| ==> ReadOk(w.cms, w.rv, w.exporters[i]))
    && (forall i :: 0 <= i < |w.writes| ==> WriteOk(w.writes[i]))
  }

  lemma StoredKeepsReads(w: World, name: string, cm: ConfigMap, e: Exporter)
    requires ClusterOk(w.cms, w.rv) && ReadOk(w.cms, w.rv, e)
    ensures var x := Stored(w, name, cm); ClusterOk(x.cms, x.rv) && ReadOk(x.cms, x.rv, e)
  {
  }

  lemma CommitIsOk(w: World, i: nat)
    requires WorldOk(w) && i < |w.exporters| && w.exporters[i].Ready?
    requires Accepted(w.cms, w.exporters[i].name, w.exporters[i].existing)
    ensures var x := Next(w, Commit(i)); |x.writes| == |w.writes| + 1 && WriteOk(x.writes[|w.writes|])
  {
    var Ready(vc, name, existing) := w.exporters[i];
    assert ReadOk(w.cms, w.rv, w.exporters[i]);
    var x := Next(w, Commit(i));
    var wr := x.writes[|w.writes|];
    var cm := Render(vc, name, ExportRef(vc, name));
    assert wr.after == cm.(name := name, rv := w.rv + 1);
    assert wr.after.(rv := 0) == Render(vc, wr.name, ExportRef(vc, wr.name));
  }

  lemma AfterReadOk(c: Cluster, rv: nat, e: Exporter)
    requires ClusterOk(c, rv) && ReadOk(c, rv, e)
    ensures ReadOk(c, rv, AfterRead(c, e))
  {
  }

  lemma ExporterKept(w: World, a: Action, i: nat)
    requires WorldOk(w) && i < |Next(w, a).exporters|
    ensures var x := Next(w, a); ReadOk(x.cms, x.rv, x.exporters[i])
  {
    var x := Next(w, a);
    if i < |w.exporters| {
      var e := w.exporters[i];
      assert ReadOk(w.cms, w.rv, e);
      if a.Read? {
        AfterReadOk(w.cms, w.rv, e);
      } else if a.Commit? && a.i < |w.exporters| && w.exporters[a.i].Ready? {
        var r := w.exporters[a.i];
        StoredKeepsReads(w, r.name, Render(r.vc, r.name, ExportRef(r.vc, r.name)), e);
      } else if a.OutsidePut? {
        StoredKeepsReads(w, a.name, a.cm, e);
      }
    }
  }

  lemma WritesKept(w: World, a: Action)
    requires WorldOk(w)
    ensures var x := Next(w, a); ClusterOk(x.cms, x.rv) && forall i :: 0 <= i < |x.writes| ==> WriteOk(x.writes[i])
  {
    if a.Commit? && a.i < |w.exporters| && w.exporters[a.i].Ready?
        && Accepted(w.cms, w.exporters[a.i].name, w.exporters[a.i].existing) {
      CommitIsOk(w, a.i);
    }
  }

  lemma NextKeepsWorldOk(w: World, a: Action)
    requires WorldOk(w)
    ensures WorldOk(Next(w, a))
  {
    WritesKept(w, a);
    forall i | 0 <= i < |Next(w, a).exporters|
      ensures ReadOk(Next(w, a).cms, Next(w, a).rv, Next(w, a).exporters[i])
    {
      ExporterKept(w, a, i);
    }
  }

  /** However exports, deletions and outside writers interleave, every committed write of
      the gateway is an owned one. */
  lemma {:induction false} EveryWriteOwned(w: World, actions: seq<Action>)
    requires WorldOk(w)
    ensures WorldOk(RunOf(w, actions))
  {
    if actions != [] {
      EveryWriteOwned(w, actions[..|actions| - 1]);
      NextKeepsWorldOk(RunOf(w, actions[..|actions| - 1]), actions[|actions| - 1]);
    }
  }

  /** An export that nobody disturbs: three lookups at most, then the write. */
  function Undisturbed(vc: VCenter, i: nat): seq<Action> {
    [Begin(vc), Read(i), Read(i), Read(i), Commit(i)]
  }

  lemma RunOfFive(w: World, a: Action, b: Action, c: Action, d: Action, e: Action)
    ensures RunOf(w, [a, b, c, d, e]) == Next(Next(Next(Next(Next(w, a), b), c), d), e)
  {
    var all := [a, b, c, d, e];
    assert all[..4] == [a, b, c, d] && all[..4][..3] == [a, b, c] && [a, b, c][..2] == [a, b] && [a, b][..1] == [a];
    assert [a][..0] == [];
    assert RunOf(w, [a]) == Next(w, a);
    assert RunOf(w, [a, b]) == Next(RunOf(w, [a]), b);
    assert RunOf(w, [a, b, c]) == Next(RunOf(w, [a, b]), c);
    assert RunOf(w, [a, b, c, d]) == Next(RunOf(w, [a, b, c]), d);
  }

  /** It ends with the ConfigMap written under the name export picks, and nothing else changed; or with
      nothing changed when there is no name to write to. */
  lemma UndisturbedExports(w: World, vc: VCenter)
    ensures var x := RunOf(w, Undisturbed(vc, |w.exporters|));
            && x.exporters == w.exporters + [Finished]
            && match ExportName(w.cms, vc)
               case None => x.cms == w.cms && x.writes == w.writes
               case Some(name) =>
                 && x.cms == w.cms[name := Render(vc, name, ExportRef(vc, name)).(rv := w.rv + 1)]
                 && |x.writes| == |w.writes| + 1 && x.writes[..|w.writes|] == w.writes
                 && x.writes[|w.writes|].name == name
  {
    hide BaseName, LongName, ExportRef, Render, RunOf, AfterRead, ExportName, FreeName, LookedUp, OwnedWrite, IsRuntime;
    var i := |w.exporters|;
    RunOfFive(w, Begin(vc), Read(i), Read(i), Read(i), Commit(i));
    ThreeReads(w, vc);
    LookedUpIs(w.cms, vc);
    NameOfRender(vc);
  }

  lemma ThreeReads(w: World, vc: VCenter)
    ensures var i := |w.exporters|;
            Next(Next(Next(Next(w, Begin(vc)), Read(i)), Read(i)), Read(i)) ==
            w.(exporters := w.exporters + [LookedUp(w.cms, vc)])
  {
    hide AfterRead;
  }

  lemma LookedUpIs(c: Cluster, vc: VCenter)
    ensures match ExportName(c, vc)
            case None => LookedUp(c, vc) == Finished
            case Some(name) => LookedUp(c, vc) == Ready(vc, name, if name in c then Some(c[name]) else None)
  {
    hide BaseName, LongName;
  }

  /** What three lookups find. */
  function LookedUp(c: Cluster, vc: VCenter): Exporter {
    AfterRead(c, AfterRead(c, AfterRead(c, Starting(vc))))
  }

  lemma NameOfRender(vc: VCenter)
    ensures forall name, ref :: Render(vc, name, ref).name == name
  {
  }

  predicate ByGateway(a: Action) {
    !a.OutsidePut? && !a.OutsideDelete?
  }

  /** The gateway touches a ConfigMap that is not labelled runtime exactly when it deletes
      the ConfigMap a deleted vCenter had on record: deletion looks at the record's origin,
      not at the label. */
  lemma WhenGitOpsIsTouched(w: World, a: Action, n: string)
    requires WorldOk(w) && ByGateway(a) && n in w.cms && !IsRuntime(w.cms[n])
    ensures var x := Next(w, a);
            (n in x.cms && x.cms[n] == w.cms[n]) <==>
                !(a.Remove? && a.vc.configOrigin == Runtime && a.vc.configMap == n != "")
  {
    if a.Commit? && a.i < |w.exporters| && w.exporters[a.i].Ready? {
      assert ReadOk(w.cms, w.rv, w.exporters[a.i]);
    }
  }

  /** The header of vcsync.go promises that GitOps ConfigMaps are never deleted. An export
      that is relabelled in Git before its vCenter is deleted in the UI is deleted. */
  lemma DeleteIgnoresLabel(vc: VCenter)
    requires vc.configMap != "" && vc.configOrigin == Runtime
    ensures var w := World(map[], 0, [], []);
            var exported := RunOf(w, [Begin(vc), Read(0), Commit(0)]);
            var n := vc.configMap;
            && n in exported.cms && IsRuntime(exported.cms[n])
            && var relabelled := exported.cms[n].(labels := map[LABEL_VCENTER := "true", LABEL_ORIGIN := "gitops"]);
               var x := RunOf(exported, [OutsidePut(n, relabelled), Remove(vc)]);
               n !in x.cms && !IsRuntime(relabelled)
  {
    var w := World(map[], 0, [], []);
    var n := vc.configMap;
    var w1 := Next(w, Begin(vc));
    var w2 := Next(w1, Read(0));
    var w3 := Next(w2, Commit(0));
    assert w2.exporters == [Ready(vc, n, None)];
    assert w3 == Committed(w2.(exporters := [Finished]), n, Render(vc, n, ExportRef(vc, n)));
    assert RunOf(w, [Begin(vc), Read(0), Commit(0)]) == w3 by {
      RunOfSnoc(w, [], Begin(vc));
      RunOfSnoc(w, [Begin(vc)], Read(0));
      RunOfSnoc(w, [Begin(vc), Read(0)], Commit(0));
      assert [Begin(vc)] + [Read(0)] == [Begin(vc), Read(0)];
      assert [Begin(vc), Read(0)] + [Commit(0)] == [Begin(vc), Read(0), Commit(0)];
    }
    var cm := w3.cms[n].(labels := map[LABEL_VCENTER := "true", LABEL_ORIGIN := "gitops"]);
    RunOfSnoc(w3, [], OutsidePut(n, cm));
    RunOfSnoc(w3, [OutsidePut(n, cm)], Remove(vc));
    assert [OutsidePut(n, cm)] + [Remove(vc)] == [OutsidePut(n, cm), Remove(vc)];
    assert cm.labels[LABEL_ORIGIN] == "gitops";
    assert Render(vc, n, ExportRef(vc, n)).labels[LABEL_ORIGIN] == "runtime";
  }

  lemma RunOfSnoc(w: World, actions: seq<Action>, a: Action)
    ensures RunOf(w, actions + [a]) == Next(RunOf(w, actions), a)
  {
    assert (actions + [a])[..|actions|] == actions;
  }
}
