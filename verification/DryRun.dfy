/** Dry-run gating: handlers that read the flag, resolve a vCenter and act, in any interleaving with store edits. */
module DryRun {
  import opened Text
  import opened Records
  import opened StoreSpec

  datatype Request =
    | ResetSystem(id: string, resetType: string)
    | PatchBoot(id: string, target: string, enabled: string)
    | InsertMedia(id: string, image: string)
    | EjectMedia(id: string)
    | AdminPower(id: string, resetType: string)

  /** What a handler asks of vSphere. */
  datatype Action = Power(resetType: string) | BootCd | BootDisk | Attach(image: string) | Detach

  /** What a request that gets past its own checks asks for; None is answered without touching a VM. */
  function Wanted(r: Request): Option<Action> {
    match r
    case ResetSystem(_, resetType) => Some(Power(resetType))
    case PatchBoot(_, target, enabled) =>
      if Lower(target) in {"cd", "cdrom", "usb", "usbcd"} then Some(BootCd)
      else if Lower(enabled) == "disabled" || Lower(target) in {"", "none", "hdd", "disk", "pxe", "diags"}
          then Some(BootDisk)
      else None
    case InsertMedia(id, image) => if id == "" || image == "" then None else Some(Attach(image))
    case EjectMedia(id) => if id == "" then None else Some(Detach)
    case AdminPower(_, resetType) =>
      if Trim(resetType) in {"On", "ForceOff"} then Some(Power(Trim(resetType))) else None
  }

  /** How far a handler is. */
  datatype Phase =
    | Waiting(r: Request)
    | Passed(r: Request)                 // read the flag, and it was off
    | Mapped(r: Request, vcId: string)   // looked the UUID up
    | Ready(r: Request, vc: VCenter)     // holds a client made for this record
    | Running(r: Request, vc: VCenter)   // is changing the VM or its datastore: uploads, power, edits
    | Finished

  /** One call to vSphere that may change something: by which handler, for which request, with the
      client of which record. A request may take any number of them, over any time. */
  datatype Sent = Sent(t: nat, r: Request, vc: VCenter)

  datatype World = World(store: StoreState, handlers: map<nat, Phase>, sent: seq<Sent>)

  datatype Event =
    | Arrive(t: nat, r: Request)
    | Gate(t: nat)
    | Lookup(t: nat)
    | Fetch(t: nat)
    | Call(t: nat)
    | End(t: nat)
    | Edit(op: Op)

  predicate InFlight(w: World, t: nat) {
    t in w.handlers && !w.handlers[t].Waiting? && !w.handlers[t].Finished?
  }

  function Move(w: World, t: nat, p: Phase): World {
    w.(handlers := w.handlers[t := p])
  }

  predicate At(w: World, t: nat, p: Phase) {
    t in w.handlers && w.handlers[t] == p
  }

  /** The handler may call vSphere: it holds a client of this record. */
  predicate Acts(w: World, t: nat, r: Request, vc: VCenter) {
    t in w.handlers && (w.handlers[t] == Ready(r, vc) || w.handlers[t] == Running(r, vc))
  }

  ghost predicate Next(w: World, e: Event, v: World) {
    match e
    case Arrive(t, r) => t !in w.handlers && v == Move(w, t, if Wanted(r).None? then Finished else Waiting(r))
    case Gate(t) =>
      && t in w.handlers && w.handlers[t].Waiting?
      && v == Move(w, t, if DryFor(w.store, w.handlers[t].r.id) then Finished else Passed(w.handlers[t].r))
    case Lookup(t) =>
      && t in w.handlers && w.handlers[t].Passed?
      && var r := w.handlers[t].r;
      var u := NormalizeUuid(r.id);
      v == Move(w, t, if u in w.store.byUUID && MapsTo(w.store, r.id, w.store.byUUID[u].vcenterId)
                      then Mapped(r, w.store.byUUID[u].vcenterId) else Finished)
    case Fetch(t) =>
      && t in w.handlers && w.handlers[t].Mapped?
      && var h := w.handlers[t];
      (v == Move(w, t, Finished) || (h.vcId in w.store.vcenters
          && v == Move(w, t, Ready(h.r, w.store.vcenters[h.vcId]))))
    case Call(t) =>
      && t in w.handlers && (w.handlers[t].Ready? || w.handlers[t].Running?)
      && var h := w.handlers[t];
      v == Move(w, t, Running(h.r, h.vc)).(sent := w.sent + [Sent(t, h.r, h.vc)])
    case End(t) =>
      && t in w.handlers && (w.handlers[t].Ready? || w.handlers[t].Running?)
      && v == Move(w, t, Finished)
    case Edit(op) => Step(w.store, op, v.store) && v.handlers == w.handlers && v.sent == w.sent
  }

  ghost predicate Runs(ws: seq<World>, es: seq<Event>) {
    |ws| == |es| + 1 && forall i :: 0 <= i < |es| ==> Next(ws[i], es[i], ws[i + 1])
  }

  // ---------------------------------------------------------------- what a step does

  predicate OneOf(x: string, words: seq<string>) {
    exists i :: 0 <= i < |words| && SameLetters(words[i], x)
  }

  /** What a request asks for, in whatever case it is written. */
  lemma WantedIs(r: Request)
    ensures Wanted(r) ==
            match r
            case ResetSystem(_, resetType) => Some(Power(resetType))
            case PatchBoot(_, target, enabled) =>
              if OneOf(target, ["cd", "cdrom", "usb", "usbcd"]) then Some(BootCd)
              else if OneOf(enabled, ["disabled"]) || OneOf(target, ["", "none", "hdd", "disk", "pxe", "diags"])
              then Some(BootDisk) else None
            case InsertMedia(id, image) => if id != "" && image != "" then Some(Attach(image)) else None
            case EjectMedia(id) => if id != "" then Some(Detach) else None
            case AdminPower(_, resetType) =>
              if Trim(resetType) == "On" || Trim(resetType) == "ForceOff" then Some(Power(Trim(resetType))) else None
  {
    if r.PatchBoot? {
      WordIs(r.target, ["cd", "cdrom", "usb", "usbcd"]);
      WordIs(r.enabled, ["disabled"]);
      WordIs(r.target, ["", "none", "hdd", "disk", "pxe", "diags"]);
      hide OneOf;
    }
  }

  lemma WordIs(x: string, words: seq<string>)
    requires forall i :: 0 <= i < |words| ==> Lower(words[i]) == words[i]
    ensures OneOf(x, words) <==> Lower(x) in words
  {
    hide SameLetters;
    forall i | 0 <= i < |words| ensures SameLetters(words[i], x) <==> Lower(x) == words[i] {
      LowerIff(words[i], x);
    }
  }

  /** The gate lets a request pass exactly when its UUID is not dry; the lookup finds the vCenter exactly
      when the UUID is mapped to one that is stored. */
  lemma HandlerStepIs(w: World, t: nat, v: World)
    ensures Next(w, Gate(t), v) ==>
              && t in w.handlers && t in v.handlers && v.store == w.store && v.sent == w.sent
              && v.handlers[t] == if DryFor(w.store, w.handlers[t].r.id) then Finished else Passed(w.handlers[t].r)
    ensures Next(w, Lookup(t), v) ==>
              && t in w.handlers && t in v.handlers && v.store == w.store && v.sent == w.sent
              && (forall id :: MapsTo(w.store, w.handlers[t].r.id, id) ==> v.handlers[t] == Mapped(w.handlers[t].r, id))
              && ((forall id :: !MapsTo(w.store, w.handlers[t].r.id, id)) ==> v.handlers[t] == Finished)
  {
    hide NormalizeUuid, DryFor, Wanted;
  }

  /** A request for a UUID that is mapped and not dry can go all the way to a call. */
  lemma RequestGoesThrough(w: World, t: nat, r: Request, id: string) returns (ws: seq<World>)
    requires t !in w.handlers && Wanted(r).Some? && !DryFor(w.store, r.id) && MapsTo(w.store, r.id, id)
    ensures Runs(ws, [Arrive(t, r), Gate(t), Lookup(t), Fetch(t), Call(t)]) && ws[0] == w && ws[5].store == w.store
    ensures id in w.store.vcenters && ws[5].sent == w.sent + [Sent(t, r, w.store.vcenters[id])]
  {
    var vc := w.store.vcenters[id];
    var es := [Arrive(t, r), Gate(t), Lookup(t), Fetch(t), Call(t)];
    ws := [w, Move(w, t, Waiting(r)), Move(w, t, Passed(r)), Move(w, t, Mapped(r, id)), Move(w, t, Ready(r, vc)),
      Move(w, t, Running(r, vc)).(sent := w.sent + [Sent(t, r, vc)])];
    hide Wanted, DryFor, NormalizeUuid, Step, InFlight;
    MoveTwice(w, t, Waiting(r), Passed(r));
    MoveTwice(w, t, Passed(r), Mapped(r, id));
    MoveTwice(w, t, Mapped(r, id), Ready(r, vc));
    MoveTwice(w, t, Ready(r, vc), Running(r, vc));
    assert Next(ws[0], es[0], ws[1]) && Next(ws[1], es[1], ws[2]) && Next(ws[2], es[2], ws[3]);
    assert Next(ws[3], es[3], ws[4]) && Next(ws[4], es[4], ws[5]);
  }

  // ---------------------------------------------------------------- the global flag

  ghost function Flying(w: World): set<nat> {
    set t | t in w.handlers && InFlight(w, t)
  }

  /** The handlers behind a list of actions. */
  function Senders(sent: seq<Sent>): set<nat> {
    set k | 0 <= k < |sent| :: sent[k].t
  }

  /** Under global dry-run nothing new takes off, and only a handler that was flying sends anything. */
  lemma DryStep(w: World, e: Event, v: World)
    requires Next(w, e, v) && w.store.settings.dryRun
    ensures Flying(v) <= Flying(w)
    ensures v.sent == w.sent || (e.Call? && e.t in Flying(w)
              && v.sent == w.sent + [Sent(e.t, w.handlers[e.t].r, w.handlers[e.t].vc)])
  {
    forall t | t in Flying(v) ensures t in Flying(w) {
      if !e.Edit? && t == e.t {
      }
    }
  }

  /** While global dry-run stays on, all that is sent comes from handlers already past their
      gate, or already at work, when the run began; and there are ever fewer of them. */
  lemma {:induction false} DryRunDrains(ws: seq<World>, es: seq<Event>)
    requires Runs(ws, es)
    requires forall i :: 0 <= i < |ws| ==> ws[i].store.settings.dryRun
    ensures var first, last := ws[0], ws[|es|];
            && first.sent <= last.sent
            && var added := last.sent[|first.sent|..];
            && Senders(added) <= Flying(first)
    ensures Flying(ws[|es|]) <= Flying(ws[0])
  {
    if es != [] {
      var n := |es| - 1;
      DryRunDrains(ws[..n + 1], es[..n]);
      var first, w, v := ws[0], ws[n], ws[n + 1];
      DryStep(w, es[n], v);
      var added := w.sent[|first.sent|..];
      if v.sent != w.sent {
        var s := v.sent[|w.sent|];
        assert v.sent[|first.sent|..] == added + [s];
        assert Senders(added + [s]) <= Senders(added) + {s.t};
      }
    }
  }

  lemma SomeSender(sent: seq<Sent>)
    requires sent != []
    ensures Senders(sent) != {}
  {
    assert sent[0].t in Senders(sent);
  }

  /** Non-interference: with no handler past its gate or at work, global dry-run lets nothing through in any run. */
  lemma NothingIsSentInDryRun(ws: seq<World>, es: seq<Event>)
    requires Runs(ws, es)
    requires forall i :: 0 <= i < |ws| ==> ws[i].store.settings.dryRun
    requires Flying(ws[0]) == {}
    ensures ws[|es|].sent == ws[0].sent
  {
    DryRunDrains(ws, es);
    var added := ws[|es|].sent[|ws[0].sent|..];
    if added != [] {
      SomeSender(added);
    }
  }

  // ---------------------------------------------------------------- one UUID

  predicate About(r: Request, uuid: string) {
    NormalizeUuid(r.id) == NormalizeUuid(uuid)
  }

  /** No handler past its gate or at work is about the UUID. */
  ghost predicate CalmFor(w: World, uuid: string) {
    forall t :: t in w.handlers && InFlight(w, t) ==> !About(w.handlers[t].r, uuid)
  }

  ghost predicate NoneFor(sent: seq<Sent>, uuid: string) {
    forall k :: 0 <= k < |sent| ==> !About(sent[k].r, uuid)
  }

  lemma CalmStep(w: World, e: Event, v: World, uuid: string)
    requires Next(w, e, v) && DryFor(w.store, uuid) && CalmFor(w, uuid)
    ensures CalmFor(v, uuid)
    ensures v.sent == w.sent || exists x :: v.sent == w.sent + [x] && !About(x.r, uuid)
  {
    hide Step, Wanted, NormalizeUuid;
  }

  /** While a UUID is dry in every world of a run, by the global flag or by that of the vCenter it is
      mapped to at the time, no call is made for it, unless a handler for it was in flight before. */
  lemma {:induction false} NothingIsSentFor(ws: seq<World>, es: seq<Event>, uuid: string)
    requires Runs(ws, es) && CalmFor(ws[0], uuid)
    requires forall i :: 0 <= i < |ws| ==> DryFor(ws[i].store, uuid)
    ensures ws[0].sent <= ws[|es|].sent && NoneFor(ws[|es|].sent[|ws[0].sent|..], uuid)
    ensures CalmFor(ws[|es|], uuid)
  {
    hide Next, DryFor, CalmFor, About;
    if es != [] {
      var n := |es| - 1;
      NothingIsSentFor(ws[..n + 1], es[..n], uuid);
      CalmStep(ws[n], es[n], ws[n + 1], uuid);
    }
  }

  // ---------------------------------------------------------------- where an action's leave came from

  /** At step g the handler read the flag for r, and found it off. */
  ghost predicate GateOpen(ws: seq<World>, es: seq<Event>, t: nat, r: Request, g: nat) {
    g < |es| && |ws| == |es| + 1 && es[g] == Gate(t) && At(ws[g], t, Waiting(r)) && !DryFor(ws[g].store, r.id)
  }

  /** It passed at g, and at l the UUID was mapped to id. */
  ghost predicate Resolved(ws: seq<World>, es: seq<Event>, t: nat, r: Request, id: string, g: nat, l: nat) {
    GateOpen(ws, es, t, r, g) && g < l < |es| && es[l] == Lookup(t) && MapsTo(ws[l].store, r.id, id)
  }

  /** The record was read at f, after the lookup. */
  ghost predicate Held(ws: seq<World>, es: seq<Event>, t: nat, r: Request, vc: VCenter, g: nat, l: nat, f: nat) {
    && Resolved(ws, es, t, r, vc.id, g, l) && l < f < |es| && es[f] == Fetch(t)
    && vc.id in ws[f].store.vcenters && ws[f].store.vcenters[vc.id] == vc
  }

  ghost predicate Explained(ws: seq<World>, es: seq<Event>, t: nat, h: Phase) {
    match h
    case Passed(r) => exists g :: GateOpen(ws, es, t, r, g)
    case Mapped(r, id) => exists g, l :: Resolved(ws, es, t, r, id, g, l)
    case Ready(r, vc) => exists g, l, f :: Held(ws, es, t, r, vc, g, l, f)
    case Running(r, vc) => exists g, l, f :: Held(ws, es, t, r, vc, g, l, f)
    case _ => true
  }

  lemma {:induction false} InvAlong(ws: seq<World>, es: seq<Event>)
    requires Runs(ws, es) && Inv(ws[0].store)
    ensures forall i :: 0 <= i < |ws| ==> Inv(ws[i].store)
  {
    hide Step, Inv, MapsTo, DryFor, Wanted;
    if es != [] {
      var n := |es| - 1;
      InvAlong(ws[..n + 1], es[..n]);
      if es[n].Edit? {
        StepKeepsInv(ws[n].store, es[n].op, ws[n + 1].store);
      }
      forall i | 0 <= i < |ws| ensures Inv(ws[i].store) {
        if i <= n {
          assert ws[..n + 1][i] == ws[i];
        }
      }
    }
  }

  lemma ExplainedLater(ws: seq<World>, es: seq<Event>, n: nat, t: nat, h: Phase)
    requires n < |es| && |ws| == |es| + 1 && Explained(ws[..n + 1], es[..n], t, h)
    ensures Explained(ws, es, t, h)
  {
    hide Inv, MapsTo, DryFor, Step, Wanted, NormalizeUuid;
    match h
    case Passed(r) =>
      var g :| GateOpen(ws[..n + 1], es[..n], t, r, g);
      assert GateOpen(ws, es, t, r, g);
    case Mapped(r, id) =>
      var g, l :| Resolved(ws[..n + 1], es[..n], t, r, id, g, l);
      assert Resolved(ws, es, t, r, id, g, l);
    case Ready(r, vc) =>
      var g, l, f :| Held(ws[..n + 1], es[..n], t, r, vc, g, l, f);
      assert Held(ws, es, t, r, vc, g, l, f);
    case Running(r, vc) =>
      var g, l, f :| Held(ws[..n + 1], es[..n], t, r, vc, g, l, f);
      assert Held(ws, es, t, r, vc, g, l, f);
    case _ =>
  }

  lemma {:induction false} EveryPhaseIsExplained(ws: seq<World>, es: seq<Event>, t: nat)
    requires Runs(ws, es) && Inv(ws[0].store) && !InFlight(ws[0], t)
    ensures t in ws[|es|].handlers ==> Explained(ws, es, t, ws[|es|].handlers[t])
  {
    if es != [] {
      var n := |es| - 1;
      var w, e, v := ws[n], es[n], ws[n + 1];
      EveryPhaseIsExplained(ws[..n + 1], es[..n], t);
      if t in v.handlers {
        if t in w.handlers {
          ExplainedLater(ws, es, n, t, w.handlers[t]);
        }
        if t in w.handlers && v.handlers[t] != w.handlers[t] {
          InvAlong(ws, es);
          PhaseExplained(ws, es, t);
        }
      }
    }
  }

  lemma StoredUnderItsId(s: StoreState, id: string)
    requires Inv(s)
    ensures id in s.vcenters ==> s.vcenters[id].id == id
  {
    hide MappingOk;
    assert id in s.vcenters ==> RecordOk(id, s.vcenters[id]);
  }

  lemma PhaseExplained(ws: seq<World>, es: seq<Event>, t: nat)
    requires Runs(ws, es) && es != [] && Inv(ws[|es| - 1].store)
    requires t in ws[|es| - 1].handlers && t in ws[|es|].handlers
    requires Explained(ws, es, t, ws[|es| - 1].handlers[t])
    requires ws[|es| - 1].handlers[t] != ws[|es|].handlers[t]
    ensures Explained(ws, es, t, ws[|es|].handlers[t])
  {
    hide Step, DryFor, Wanted, NormalizeUuid, Inv;
    var n := |es| - 1;
    var h, k := ws[n].handlers[t], ws[n + 1].handlers[t];
    match k
    case Passed(r) =>
      assert GateOpen(ws, es, t, r, n);
    case Mapped(r, id) =>
      var g :| GateOpen(ws, es, t, r, g);
      assert Resolved(ws, es, t, r, id, g, n);
    case Ready(r, vc) =>
      StoredUnderItsId(ws[n].store, h.vcId);
      var g, l :| Resolved(ws, es, t, r, h.vcId, g, l);
      assert Held(ws, es, t, r, vc, g, l, n);
    case _ =>
  }

  // ---------------------------------------------------------------- a vCenter's own flag

  /** The edit that maps the UUID of r to id. */
  predicate Remaps(e: Event, r: Request, id: string) {
    e.Edit? && e.op.UpsertMapping? && NormalizeUuid(e.op.m.uuid) == NormalizeUuid(r.id) && e.op.m.vcenterId == id
  }

  lemma StepMaps(s: StoreState, op: Op, s2: StoreState, uuid: string, id: string)
    requires Step(s, op, s2) && Inv(s) && !MapsTo(s, uuid, id) && MapsTo(s2, uuid, id)
    ensures op.UpsertMapping? && NormalizeUuid(op.m.uuid) == NormalizeUuid(uuid) && op.m.vcenterId == id
  {
    hide NormalizeUuid, RecordOk, UpsertRecord, Merged, Matches, ConfigValid, WithConfigMap, NormalizeDatastore;
    var u := NormalizeUuid(uuid);
    assert u in s.byUUID ==> MappingOk(u, s.byUUID[u], s.vcenters.Keys);
  }

  lemma MappedByAnEdit(w: World, e: Event, v: World, r: Request, id: string)
    requires Next(w, e, v) && Inv(w.store) && !MapsTo(w.store, r.id, id) && MapsTo(v.store, r.id, id)
    ensures Remaps(e, r, id)
  {
    hide Step, Inv, MapsTo, DryFor, Wanted, NormalizeUuid;
    if e.Edit? {
      StepMaps(w.store, e.op, v.store, r.id, id);
    }
  }

  lemma {:induction false} RemappedInBetween(ws: seq<World>, es: seq<Event>, r: Request, id: string, g: nat, l: nat)
    returns (m: nat)
    requires Runs(ws, es) && Inv(ws[0].store) && g <= l <= |es|
    requires !MapsTo(ws[g].store, r.id, id) && MapsTo(ws[l].store, r.id, id)
    ensures g <= m < l && Remaps(es[m], r, id)
    decreases l - g
  {
    hide Step, Inv, MapsTo, DryFor, Wanted, NormalizeUuid, Remaps, Next;
    InvAlong(ws, es);
    if MapsTo(ws[g + 1].store, r.id, id) {
      MappedByAnEdit(ws[g], es[g], ws[g + 1], r, id);
      m := g;
    } else {
      m := RemappedInBetween(ws, es, r, id, g + 1, l);
    }
  }

  /** In any run, an action sent to a vCenter was let through by a reading of the flag, then
      resolved to that vCenter, then given its record. */
  lemma EveryActionIsExplained(ws: seq<World>, es: seq<Event>, k: nat, vc: VCenter, r: Request)
    returns (g: nat, l: nat, f: nat)
    requires Runs(ws, es) && Inv(ws[0].store) && Flying(ws[0]) == {}
    requires k < |es| && es[k].Call? && Acts(ws[k], es[k].t, r, vc)
    ensures Held(ws, es, es[k].t, r, vc, g, l, f) && f < k
  {
    hide Step, Inv, Wanted, NormalizeUuid, Next, DryFor, MapsTo;
    var t := es[k].t;
    assert !InFlight(ws[0], t) by {
      assert t !in Flying(ws[0]);
    }
    EveryPhaseIsExplained(ws[..k + 1], es[..k], t);
    g, l, f :| Held(ws[..k + 1], es[..k], t, r, vc, g, l, f);
  }

  /** The vCenter's own flag is on in every world of the run in which it is stored. */
  ghost predicate AlwaysDry(ws: seq<World>, id: string) {
    forall i :: 0 <= i < |ws| ==> id in ws[i].store.vcenters ==> ws[i].store.vcenters[id].dryRun
  }

  lemma GateMeansElsewhere(s: StoreState, uuid: string, id: string)
    requires !DryFor(s, uuid) && (id in s.vcenters ==> s.vcenters[id].dryRun)
    ensures !MapsTo(s, uuid, id)
  {
  }

  /** An action reaches a vCenter that was dry throughout only if an edit moved the UUID to it
      between the reading of the flag and the lookup. */
  lemma DryVCenterNeedsRemap(ws: seq<World>, es: seq<Event>, k: nat, vc: VCenter, r: Request)
    returns (g: nat, l: nat, m: nat)
    requires Runs(ws, es) && Inv(ws[0].store) && Flying(ws[0]) == {} && AlwaysDry(ws, vc.id)
    requires k < |es| && es[k].Call? && Acts(ws[k], es[k].t, r, vc)
    ensures Resolved(ws, es, es[k].t, r, vc.id, g, l) && g < m < l < k && Remaps(es[m], r, vc.id)
  {
    hide Step, Inv, Wanted, NormalizeUuid, Next, DryFor, MapsTo;
    var f;
    g, l, f := EveryActionIsExplained(ws, es, k, vc, r);
    GateMeansElsewhere(ws[g].store, r.id, vc.id);
    m := RemappedInBetween(ws, es, r, vc.id, g, l);
    assert es[g] == Gate(es[k].t);
  }

  function Remapped(s: StoreState, m: Mapping): StoreState {
    s.(byUUID := s.byUUID[NormalizeUuid(m.uuid) := m.(uuid := NormalizeUuid(m.uuid))])
  }

  /** A handler whose UUID is moved by m between its gate and its lookup. */
  function Race(w: World, t: nat, r: Request, m: Mapping, vc: VCenter): seq<World> {
    var passed := Move(w, t, Passed(r));
    var moved := passed.(store := Remapped(w.store, m));
    [w, Move(w, t, Waiting(r)), passed, moved, Move(moved, t, Mapped(r, m.vcenterId)), Move(moved, t, Ready(r, vc)),
    Move(moved, t, Running(r, vc)).(sent := w.sent + [Sent(t, r, vc)])]
  }

  function RaceEvents(t: nat, r: Request, m: Mapping): seq<Event> {
    [Arrive(t, r), Gate(t), Edit(UpsertMapping(m)), Lookup(t), Fetch(t), Call(t)]
  }

  predicate MayRace(w: World, t: nat, r: Request, m: Mapping) {
    && t !in w.handlers && Wanted(r).Some? && !DryFor(w.store, r.id)
    && NormalizeUuid(m.uuid) == NormalizeUuid(r.id) && NormalizeUuid(r.id) != "" && m.vcenterId in w.store.vcenters
  }

  lemma MoveTwice(w: World, t: nat, p: Phase, q: Phase)
    ensures Move(Move(w, t, p), t, q) == Move(w, t, q)
  {
    assert w.handlers[t := p][t := q] == w.handlers[t := q];
  }

  lemma RaceTakesOff(w: World, t: nat, r: Request, m: Mapping)
    requires MayRace(w, t, r, m)
    ensures Next(w, Arrive(t, r), Move(w, t, Waiting(r)))
    ensures Next(Move(w, t, Waiting(r)), Gate(t), Move(w, t, Passed(r)))
    ensures Step(w.store, UpsertMapping(m), Remapped(w.store, m))
    ensures MapsTo(Remapped(w.store, m), r.id, m.vcenterId)
  {
    hide Wanted, NormalizeUuid;
    MoveTwice(w, t, Waiting(r), Passed(r));
  }

  lemma RaceLands(moved: World, t: nat, r: Request, id: string, vc: VCenter)
    requires MapsTo(moved.store, r.id, id) && moved.store.vcenters[id] == vc
    ensures Next(Move(moved, t, Passed(r)), Lookup(t), Move(moved, t, Mapped(r, id)))
    ensures Next(Move(moved, t, Mapped(r, id)), Fetch(t), Move(moved, t, Ready(r, vc)))
    ensures Next(Move(moved, t, Ready(r, vc)), Call(t),
              Move(moved, t, Running(r, vc)).(sent := moved.sent + [Sent(t, r, vc)]))
  {
    hide Wanted, NormalizeUuid, Step;
    MoveTwice(moved, t, Passed(r), Mapped(r, id));
    MoveTwice(moved, t, Mapped(r, id), Ready(r, vc));
    MoveTwice(moved, t, Ready(r, vc), Running(r, vc));
  }

  lemma RaceRuns(w: World, t: nat, r: Request, m: Mapping, vc: VCenter)
    requires MayRace(w, t, r, m) && vc == w.store.vcenters[m.vcenterId]
    ensures Runs(Race(w, t, r, m, vc), RaceEvents(t, r, m))
  {
    hide Wanted, NormalizeUuid, Step, MapsTo, DryFor;
    var ws, es := Race(w, t, r, m, vc), RaceEvents(t, r, m);
    RaceTakesOff(w, t, r, m);
    var moved := w.(store := Remapped(w.store, m));
    assert Move(moved, t, Passed(r)) == ws[3] && Move(moved, t, Mapped(r, m.vcenterId)) == ws[4];
    RaceLands(moved, t, r, m.vcenterId, vc);
    assert Next(ws[2], es[2], ws[3]);
  }

  /** And such an edit is enough: in any world with the UUID not dry, moving it to a dry vCenter
      after the flag was read sends the action to the dry one. */
  lemma RemapRace(w: World, t: nat, r: Request, m: Mapping)
    requires MayRace(w, t, r, m)
    ensures var vc := w.store.vcenters[m.vcenterId];
            var ws, es := Race(w, t, r, m, vc), RaceEvents(t, r, m);
            && Runs(ws, es) && ws[0] == w && ws[6].sent == w.sent + [Sent(t, r, vc)]
            && Remaps(es[2], r, m.vcenterId) && forall i :: 0 <= i < 7 ==> ws[i].store.vcenters == w.store.vcenters
  {
    hide Wanted, Runs, DryFor, NormalizeUuid;
    RaceRuns(w, t, r, m, w.store.vcenters[m.vcenterId]);
  }
}
