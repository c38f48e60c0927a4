/** InsertMedia and EjectMedia: what the gateway does to one virtual machine. */
module Media {
  import opened Text
  import opened Records
  import opened Vm
  import opened Protocols

  datatype Fault = LookupFailed | NotAllowed | StagingFailed | VmFault | Unsupported

  type Done = Result<(), Fault>

  // ---------------------------------------------------------------- what the runs look like

  /** Lock-type detach failures among the first n events. */
  function LockedDetaches(log: seq<Event>, n: nat): nat
    requires n <= |log|
  {
    if n == 0 then 0 else LockedDetaches(log, n - 1) + if log[n - 1] == CdEdit(Detach, Locked) then 1 else 0
  }

  /** A shutdown or power-off is in place: hard power-off only after the soft way was given up. */
  ghost predicate SoftBeforeHard(run: seq<Event>) {
    forall k :: 0 <= k < |run| && run[k] == HardOff ==> SoftFailed in run[..k]
  }

  predicate OnlyAttachOrBoot(run: seq<Event>) {
    forall k :: 0 <= k < |run| ==> run[k].Boot? || (run[k].CdEdit? && run[k].kind == Attach)
  }

  predicate CutsOff(e: Event) {
    e == HardOff || e.Shutdown?
  }

  /** Power is only cut after two lock-type detach failures. */
  ghost predicate CutsPowerLate(run: seq<Event>) {
    forall k :: 0 <= k < |run| && CutsOff(run[k]) ==> LockedDetaches(run, k) >= 2
  }

  lemma {:induction false} LockedDetachesOf(a: seq<Event>, b: seq<Event>, n: nat)
    requires |a| <= n <= |a| + |b|
    ensures LockedDetaches(a + b, n) == LockedDetaches(a, |a|) + LockedDetaches(b, n - |a|)
    decreases n
  {
    if n > |a| {
      LockedDetachesOf(a, b, n - 1);
    } else {
      LockedDetachesPrefix(a, b, n);
    }
  }

  lemma {:induction false} LockedDetachesPrefix(a: seq<Event>, b: seq<Event>, n: nat)
    requires n <= |a|
    ensures LockedDetaches(a + b, n) == LockedDetaches(a, n)
  {
    if n > 0 {
      LockedDetachesPrefix(a, b, n - 1);
    }
  }

  lemma LockedInBoth(a: seq<Event>, b: seq<Event>)
    ensures LockedDetaches(a + b, |a + b|) == LockedDetaches(a, |a|) + LockedDetaches(b, |b|)
  {
    LockedDetachesOf(a, b, |a + b|);
  }

  /** The drive was locked at least twice when it was to be detached. */
  predicate LockedTwice(run: seq<Event>) {
    LockedDetaches(run, |run|) >= 2
  }

  predicate Calm(run: seq<Event>) {
    forall k :: 0 <= k < |run| ==> !CutsOff(run[k])
  }

  lemma CutsLateConcat(a: seq<Event>, b: seq<Event>)
    requires CutsPowerLate(a) && (Calm(b) || LockedDetaches(a, |a|) >= 2)
    ensures CutsPowerLate(a + b)
    ensures LockedDetaches(a + b, |a + b|) == LockedDetaches(a, |a|) + LockedDetaches(b, |b|)
  {
    LockedDetachesOf(a, b, |a + b|);
    forall k | 0 <= k < |a + b| && CutsOff((a + b)[k])
      ensures LockedDetaches(a + b, k) >= 2
    {
      if k < |a| {
        LockedDetachesPrefix(a, b, k);
      } else {
        assert (a + b)[k] == b[k - |a|] && b[k - |a|] in b;
        LockedDetachesOf(a, b, k);
      }
    }
  }

  lemma SoftBeforeHardConcat(a: seq<Event>, b: seq<Event>)
    requires SoftBeforeHard(a) && SoftBeforeHard(b)
    ensures SoftBeforeHard(a + b)
  {
    forall k | 0 <= k < |a + b| && (a + b)[k] == HardOff
      ensures SoftFailed in (a + b)[..k]
    {
      if k < |a| {
        assert (a + b)[..k] == a[..k];
      } else {
        assert b[k - |a|] == HardOff;
        assert (a + b)[..k] == a + b[..k - |a|];
      }
    }
  }

  predicate NoEdits(run: seq<Event>) {
    forall k :: 0 <= k < |run| ==> !run[k].CdEdit?
  }

  lemma {:induction false} NoEditsNoLocks(run: seq<Event>, n: nat)
    requires NoEdits(run) && n <= |run|
    ensures LockedDetaches(run, n) == 0
  {
    if n > 0 {
      NoEditsNoLocks(run, n - 1);
    }
  }

  lemma NoEditsConcat(a: seq<Event>, b: seq<Event>)
    requires NoEdits(a) && NoEdits(b)
    ensures NoEdits(a + b)
  {
  }

  /** A run without edits, followed by at most one disconnect. */
  lemma LockedIn(a: seq<Event>, b: seq<Event>)
    requires NoEdits(a)
    ensures CdEdit(Disconnect, Locked) in a + b <==> CdEdit(Disconnect, Locked) in b
  {
    if CdEdit(Disconnect, Locked) in a + b {
      var k :| 0 <= k < |a + b| && (a + b)[k] == CdEdit(Disconnect, Locked);
      assert k >= |a|;
      assert b[k - |a|] == CdEdit(Disconnect, Locked);
    }
  }

  lemma TwoLocks(a: seq<Event>, b: seq<Event>)
    requires a == [CdEdit(Detach, Locked)] == b
    ensures SoftBeforeHard(a + b) && CutsPowerLate(a + b) && LockedDetaches(a + b, |a + b|) == 2
  {
    assert a + b == [CdEdit(Detach, Locked), CdEdit(Detach, Locked)];
    assert LockedDetaches(a + b, 1) == 1;
  }

  lemma ReadThen(state: Option<Power>, run: seq<Event>)
    requires SoftBeforeHard(run) && CutsPowerLate(run)
    ensures SoftBeforeHard([PowerRead(state)] + run) && CutsPowerLate([PowerRead(state)] + run)
  {
    SoftBeforeHardConcat([PowerRead(state)], run);
    hide SoftBeforeHard, LockedDetaches;
    forall k | 0 <= k < |[PowerRead(state)] + run| && CutsOff(([PowerRead(state)] + run)[k])
      ensures LockedDetaches([PowerRead(state)] + run, k) >= 2
    {
      assert CutsOff(run[k - 1]);
      LockedDetachesOf([PowerRead(state)], run, k);
    }
  }

  lemma SoftThenHard(soft: seq<Event>, hard: seq<Event>)
    requires HardOff !in soft && SoftFailed in soft
    ensures SoftBeforeHard(soft + hard)
  {
    forall k | 0 <= k < |soft + hard| && (soft + hard)[k] == HardOff
      ensures SoftFailed in (soft + hard)[..k]
    {
      assert k >= |soft|;
      assert (soft + hard)[..k] == soft + hard[..k - |soft|];
    }
  }

  ghost predicate GoodRun(run: seq<Event>) {
    SoftBeforeHard(run) && CutsPowerLate(run)
  }

  lemma CalmIsGood(run: seq<Event>)
    requires Calm(run)
    ensures SoftBeforeHard(run) && CutsPowerLate(run)
  {
  }

  lemma OneEditIsGood(run: seq<Event>)
    requires run == [] || (|run| == 1 && run[0].CdEdit?)
    ensures GoodRun(run) && Calm(run)
  {
    CalmIsGood(run);
  }

  lemma StillLockedTwice(run: seq<Event>, longer: seq<Event>)
    requires LockedTwice(run) && run <= longer
    ensures LockedTwice(longer)
  {
    assert longer == run + longer[|run|..];
    LockedInBoth(run, longer[|run|..]);
  }

  lemma GoodConcat(a: seq<Event>, b: seq<Event>)
    requires GoodRun(a) && SoftBeforeHard(b) && (Calm(b) || LockedDetaches(a, |a|) >= 2)
    ensures GoodRun(a + b)
  {
    SoftBeforeHardConcat(a, b);
    CutsLateConcat(a, b);
  }

  lemma {:induction false} FirstCdKept(a: seq<Device>, b: seq<Device>)
    requires SameKinds(a, b)
    ensures FirstCd(a) == FirstCd(b)
  {
    if a != [] {
      FirstCdKept(a[1..], b[1..]);
    }
  }

  lemma {:induction false} FirstCdAppended(a: seq<Device>, d: Device)
    requires FirstCd(a) == |a| && d.Cdrom?
    ensures FirstCd(a + [d]) == |a|
  {
    if a != [] {
      assert (a + [d])[1..] == a[1..] + [d];
      FirstCdAppended(a[1..], d);
    }
  }

  /** The first drive, if there is one, is disconnected and stays so at the next start. */
  predicate CdFree(ds: seq<Device>) {
    var k := FirstCd(ds);
    k < |ds| ==> !Connected(ds[k]) && !StartConnected(ds[k])
  }

  predicate CdHolds(ds: seq<Device>, file: string) {
    var k := FirstCd(ds);
    k < |ds| && ds[k].backing == Iso(file) && StartConnected(ds[k])
  }

  /** There is a drive, or a place for one. */
  predicate CanHold(ds: seq<Device>) {
    FirstCd(ds) < |ds| || IdeController in ds
  }

  /** What one edit leaves in the first drive. */
  lemma EditedCd(m: VmState, k: nat, backing: Backing, conn: Conn, r: Outcome, n: VmState)
    requires k == FirstCd(m.devices) < |m.devices| && EditsCd(m, k, backing, conn, r, n)
    ensures SameKinds(m.devices, n.devices)
    ensures r == Applied && conn == Conn(false, false) ==> CdFree(n.devices)
    ensures r == Applied && CdFree(m.devices) && backing.Iso? && conn.startConnected ==>
              CdHolds(n.devices, backing.file)
  {
    FirstCdKept(m.devices, n.devices);
  }

  lemma RestartedKeepsCd(a: seq<Device>, b: seq<Device>, file: string)
    requires Restarted(a, b)
    ensures CdFree(a) ==> CdFree(b)
    ensures CdHolds(a, file) ==> CdHolds(b, file)
  {
    FirstCdKept(a, b);
  }

  lemma RestartedKeepsDisks(a: seq<Device>, b: seq<Device>)
    requires Restarted(a, b)
    ensures forall key :: Disk(key) in a <==> Disk(key) in b
  {
    forall key
      ensures Disk(key) in a <==> Disk(key) in b
    {
      if i :| 0 <= i < |a| && a[i] == Disk(key) {
        assert b[i] == Disk(key);
      }
      if i :| 0 <= i < |b| && b[i] == Disk(key) {
        assert a[i] == Disk(key);
      }
    }
  }

  lemma GrownTwice(a: seq<Event>, b: seq<Event>, c: seq<Event>)
    requires a <= b <= c
    ensures c[|a|..] == b[|a|..] + c[|b|..]
  {
  }

  class Client {
    const vm: Machine
    const datastore: string
    /** The image recorded for each UUID. */
    var mediaISO: map<string, string>
    /** Milliseconds. */
    var now: nat

    constructor (vm: Machine, datastore: string)
      ensures this.vm == vm && this.datastore == datastore && mediaISO == map[]
    {
      this.vm, this.datastore := vm, datastore;
      mediaISO, now := map[], 0;
    }

    /** Since the old state only the machine's clock moved and the log grew by a run. */
    twostate predicate Quiet()
      reads vm
    {
      && vm.Valid() && vm.devices == old(vm.devices) && vm.bootOrder == old(vm.bootOrder)
      && old(vm.log) <= vm.log
    }

    ghost function RunSince(n: nat): seq<Event>
      requires n <= |vm.log|
      reads vm
    {
      vm.log[n..]
    }

    /** A pending shutdown is all that may have changed the power. */
    twostate predicate PowerKept()
      reads vm
    {
      && (vm.power == old(vm.power) || (old(vm.shutdownPending) && vm.power == Off))
      && (vm.shutdownPending ==> old(vm.shutdownPending))
    }

    method PowerOn() returns (ok: bool)
      requires vm.Valid()
      modifies vm
      ensures vm.Valid() && old(vm.log) <= vm.log && vm.bootOrder == old(vm.bootOrder)
      ensures exists seen :: RunSince(|old(vm.log)|) == [PowerRead(seen)] + if seen in {None, Some(On)} then []
                else [HardOn]
      ensures Restarted(old(vm.devices), vm.devices)
      ensures (ok ==> vm.power == On) && (vm.healthy ==> ok)
      ensures PowersOn(old(vm.V()), ok, vm.V())
    {
      var state := vm.PowerState();
      assert RunSince(|old(vm.log)|) == [PowerRead(state)];
      if state.None? {
        return false;
      }
      if state.value == On {
        return true;
      }
      ok := vm.PowerOn();
      assert RunSince(|old(vm.log)|) == [PowerRead(state), HardOn];
    }

    method PowerOff() returns (ok: bool)
      requires vm.Valid()
      modifies vm
      ensures Quiet()
      ensures vm.power == old(vm.power) || vm.power == Off
      ensures (ok ==> vm.power == Off) && (vm.healthy ==> ok)
      ensures exists seen :: RunSince(|old(vm.log)|) == [PowerRead(seen)] + if seen in {None, Some(Off)} then []
                else [HardOff]
    {
      var state := vm.PowerState();
      assert RunSince(|old(vm.log)|) == [PowerRead(state)];
      if state.None? {
        return false;
      }
      if state.value == Off {
        return true;
      }
      vm.Nudge();
      vm.Nudge();
      ok := vm.PowerOff();
      assert RunSince(|old(vm.log)|) == [PowerRead(state), HardOff];
    }

    /** Asks the guest to shut down and polls every two seconds until the deadline. */
    method SoftPowerOff(timeout: nat) returns (ok: bool)
      requires vm.Valid()
      modifies vm, this`now
      ensures Quiet() && now >= old(now)
      ensures vm.power == old(vm.power) || vm.power == Off
      ensures ok ==> vm.power == Off
      ensures var run := RunSince(|old(vm.log)|);
              && (forall k :: 0 <= k < |run| ==> run[k].PowerRead? || run[k].Shutdown? || run[k] == SoftFailed)
              && (!ok ==> SoftFailed in run)
              && (vm.healthy && !ok ==> Shutdown(false) in run || now > old(now) + timeout)
    {
      var state := vm.PowerState();
      ok := state == Some(Off);
      if state.Some? && !ok {
        var asked := vm.ShutdownGuest();
        var deadline := now + timeout;
        ghost var refused := !asked;
        assert RunSince(|old(vm.log)|) == [PowerRead(state), Shutdown(asked)];
        while asked && !ok
          invariant Quiet() && now >= old(now)
          invariant vm.healthy && !asked ==> refused || now > deadline
          invariant refused ==> Shutdown(false) in RunSince(|old(vm.log)|)
          invariant vm.power == old(vm.power) || vm.power == Off
          invariant ok ==> vm.power == Off
          invariant var run := RunSince(|old(vm.log)|); forall k :: 0 <= k < |run| ==>
                run[k].PowerRead? || run[k].Shutdown?
          decreases !ok, asked, if now <= deadline then deadline - now + 1 else 0
        {
          ghost var run := RunSince(|old(vm.log)|);
          state := vm.PowerState();
          assert RunSince(|old(vm.log)|) == run + [PowerRead(state)];
          if state.None? {
            asked := false;
          } else if state.value == Off {
            ok := true;
          } else if now > deadline {
            asked := false;
          } else {
            var cancelled: bool, late: nat := *, *;
            asked := !cancelled || vm.healthy;
            now := now + 2000 + late;
          }
        }
      }
      if !ok {
        ghost var run := RunSince(|old(vm.log)|);
        vm.log := vm.log + [SoftFailed];
        assert RunSince(|old(vm.log)|) == run + [SoftFailed];
      }
    }

    method PowerOffForMedia() returns (ok: bool)
      requires vm.Valid()
      modifies vm, this`now
      ensures Quiet()
      ensures vm.power == old(vm.power) || vm.power == Off
      ensures (ok ==> vm.power == Off) && (vm.healthy ==> ok)
      ensures SoftBeforeHard(RunSince(|old(vm.log)|)) && NoEdits(RunSince(|old(vm.log)|))
      ensures CutsPower(old(vm.V()), ok, vm.V())
    {
      ok := SoftPowerOff(45000);
      if !ok {
        ghost var soft := RunSince(|old(vm.log)|);
        ghost var n := |vm.log|;
        ok := PowerOff();
        SoftThenHard(soft, RunSince(n));
        assert RunSince(|old(vm.log)|) == soft + RunSince(n);
      }
    }

    /** One edit of the first drive. */
    method EditDrive(kind: EditKind, k: nat, backing: Backing, conn: Conn) returns (r: Outcome)
      requires vm.Valid() && k == FirstCd(vm.devices) < |vm.devices|
      modifies vm
      ensures vm.Valid() && vm.log == old(vm.log) + [CdEdit(kind, r)] && vm.bootOrder == old(vm.bootOrder)
      ensures PowerKept()
      ensures EditsCd(old(vm.V()), k, backing, conn, r, vm.V())
      ensures r == Locked ==> vm.devices == old(vm.devices)
      ensures vm.healthy ==> r != Failed && (old(vm.power) == Off || !InUse(old(vm.devices)[k]) ==> r == Applied)
    {
      hide FirstCd, Connected;
      ghost var ds := vm.devices;
      r := vm.EditCd(kind, k, backing, conn);
      assert forall running, out :: vm.devices[k] == Edited(ds[k], backing, conn, running, out) ==>
          vm.devices == ds[k := Edited(ds[k], backing, conn, running, out)];
    }

    /** Drops the tray without changing the backing. */
    method DisconnectCd() returns (r: Outcome)
      requires vm.Valid()
      modifies vm
      ensures vm.Valid() && old(vm.log) <= vm.log && vm.bootOrder == old(vm.bootOrder) && PowerKept()
      ensures var run := RunSince(|old(vm.log)|); run == [] || run == [CdEdit(Disconnect, r)]
      ensures DisconnectsCd(old(vm.V()), r, vm.V())
      ensures SameKinds(old(vm.devices), vm.devices)
      ensures r == Applied ==> CdFree(vm.devices)
      ensures r == Locked ==> vm.devices == old(vm.devices) && RunSince(|old(vm.log)|) == [CdEdit(Disconnect, Locked)]
      ensures vm.healthy ==> r != Failed && (old(vm.power) == Off ==> r == Applied)
      ensures CanHold(vm.devices) <==> CanHold(old(vm.devices))
    {
      hide Took;
      vm.Nudge();
      vm.Nudge();
      var ds := vm.Devices();
      if ds.None? {
        return Failed;
      }
      var k := FirstCd(ds.value);
      if k == |ds.value| || (!Connected(ds.value[k]) && !StartConnected(ds.value[k])) {
        return Applied;
      }
      ghost var m := vm.V();
      r := EditDrive(Disconnect, k, ds.value[k].backing, Conn(false, false));
      EditedCd(m, k, ds.value[k].backing, Conn(false, false), r, vm.V());
    }

    /** A drive is added, when there is a controller with a free slot. */
    method AddDrive(file: string, ds: seq<Device>) returns (r: Outcome)
      requires vm.Valid() && ds == vm.devices && FirstCd(ds) == |ds|
      modifies vm
      ensures vm.Valid() && vm.bootOrder == old(vm.bootOrder) && PowerKept()
      ensures vm.log == old(vm.log) || vm.log == old(vm.log) + [CdEdit(Attach, r)]
      ensures r == Applied ==> CdHolds(vm.devices, file)
      ensures AttachesCd(old(vm.V()), file, r, vm.V())
      ensures vm.healthy ==> (r == Applied <==> IdeController in ds)
    {
      var slot: bool := *;
      if IdeController !in ds || !(slot || vm.healthy) {
        return Failed;
      }
      r := vm.AddCd(Iso(file), Conn(true, true));
      if r == Applied {
        FirstCdAppended(ds, vm.devices[|ds|]);
        assert vm.devices == ds + [vm.devices[|ds|]];
      }
    }

    /** Sets the backing and connects the first drive, adding one when there is none. */
    method AttachCd(file: string) returns (r: Outcome)
      requires vm.Valid()
      modifies vm
      ensures vm.Valid() && old(vm.log) <= vm.log && vm.bootOrder == old(vm.bootOrder) && PowerKept()
      ensures var run := RunSince(|old(vm.log)|); run == [] || run == [CdEdit(Attach, r)]
      ensures r == Applied && CdFree(old(vm.devices)) ==> CdHolds(vm.devices, file)
      ensures AttachesCd(old(vm.V()), file, r, vm.V())
      ensures vm.healthy && CdFree(old(vm.devices)) ==> (r == Applied <==> CanHold(old(vm.devices)))
    {
      hide Took, CdHolds, SameKinds;
      vm.Nudge();
      vm.Nudge();
      var ds := vm.Devices();
      if ds.None? {
        return Failed;
      }
      var k := FirstCd(ds.value);
      if k == |ds.value| {
        r := AddDrive(file, ds.value);
      } else {
        ghost var m := vm.V();
        r := EditDrive(Attach, k, Iso(file), Conn(true, true));
        EditedCd(m, k, Iso(file), Conn(true, true), r, vm.V());
      }
    }

    method DetachCd() returns (r: Outcome)
      requires vm.Valid()
      modifies vm
      ensures vm.Valid() && old(vm.log) <= vm.log && vm.bootOrder == old(vm.bootOrder) && PowerKept()
      ensures var run := RunSince(|old(vm.log)|); run == [] || run == [CdEdit(Detach, r)]
      ensures DetachesCd(old(vm.V()), r, vm.V())
      ensures r == Applied ==> CdFree(vm.devices)
      ensures r == Locked ==> vm.devices == old(vm.devices) && RunSince(|old(vm.log)|) == [CdEdit(Detach, Locked)]
      ensures vm.healthy ==> r != Failed && (old(vm.power) == Off ==> r == Applied)
    {
      hide Took;
      vm.Nudge();
      vm.Nudge();
      var ds := vm.Devices();
      if ds.None? {
        return Failed;
      }
      var k := FirstCd(ds.value);
      if k == |ds.value| {
        return Applied;
      }
      ghost var m := vm.V();
      r := EditDrive(Detach, k, Passthrough, Conn(false, false));
      EditedCd(m, k, Passthrough, Conn(false, false), r, vm.V());
    }

    method SetBootOrder(prefer: seq<BootKind>) returns (ok: bool)
      requires vm.Valid()
      modifies vm
      ensures vm.Valid() && old(vm.log) <= vm.log && vm.devices == old(vm.devices) && PowerKept()
      ensures (ok ==> vm.bootOrder == RequestedOrder(vm.devices, prefer)) && (vm.healthy ==> ok)
      ensures BootsFrom(old(vm.V()), prefer, ok, vm.V())
      ensures var run := RunSince(|old(vm.log)|); forall k :: 0 <= k < |run| ==> run[k].Boot?
    {
      var ds := vm.Devices();
      if ds.None? {
        return false;
      }
      ok := vm.SetBootOptions(RequestedOrder(ds.value, prefer));
      assert RunSince(|old(vm.log)|) == [Boot(RequestedOrder(ds.value, prefer))];
    }

    /** The power part and the disconnect part of InsertMedia: soft-then-hard power off when
        the machine was read as on, and once more when the drive is still locked. */
    method FreeCd() returns (ok: bool, wasOn: bool, ghost readOn: bool, ghost locked: bool)
      requires vm.Valid()
      modifies vm, this`now
      ensures vm.Valid() && old(vm.log) <= vm.log && vm.bootOrder == old(vm.bootOrder)
      ensures var run := RunSince(|old(vm.log)|);
              && SoftBeforeHard(run) && run != [] && run[0].PowerRead? && (readOn <==> run[0].seen == Some(On))
              && (locked <==> CdEdit(Disconnect, Locked) in run)
      ensures ok ==> CdFree(vm.devices) && (wasOn <==> readOn || locked)
      ensures ok && !wasOn ==> PowerKept()
      ensures FreesCd(old(vm.V()), readOn, locked, ok, vm.V())
      ensures (vm.healthy ==> ok) && (CanHold(vm.devices) <==> CanHold(old(vm.devices)))
    {
      hide SoftBeforeHard, DisconnectsCd, CutsPower, UnlocksForInsert;
      var state := vm.PowerState();
      wasOn := state == Some(On);
      readOn, locked, ok := wasOn, false, true;
      ghost var run, a := RunSince(|old(vm.log)|), vm.V();
      assert run == [PowerRead(state)] && ReadsPower(old(vm.V()), state, a);
      CalmIsGood(run);
      if wasOn {
        ghost var n := |vm.log|;
        ok := PowerOffForMedia();
        assert RunSince(|old(vm.log)|) == run + RunSince(n);
        NoEditsConcat(run, RunSince(n));
        SoftBeforeHardConcat(run, RunSince(n));
        run := run + RunSince(n);
        if !ok {
          assert FreesCdFrom(a, readOn, locked, ok, vm.V());
          return;
        }
      }
      assert CutsIf(a, readOn, true, vm.V());
      ghost var b := vm.V();
      var cdLocked;
      ok, cdLocked := FreeOnce(run, |old(vm.log)|);
      locked := cdLocked;
      assert FreesCdFrom(a, readOn, locked, ok, vm.V());
      wasOn := wasOn || cdLocked;
    }

    /** Disconnect; when the drive is locked, power off and disconnect once more. */
    method FreeOnce(ghost run: seq<Event>, ghost n: nat) returns (ok: bool, locked: bool)
      requires vm.Valid() && n <= |vm.log| && RunSince(n) == run && SoftBeforeHard(run) && NoEdits(run)
      modifies vm, this`now
      ensures vm.Valid() && old(vm.log) <= vm.log && vm.bootOrder == old(vm.bootOrder)
      ensures SoftBeforeHard(RunSince(n)) && run <= RunSince(n)
      ensures locked <==> CdEdit(Disconnect, Locked) in RunSince(n)
      ensures (ok ==> CdFree(vm.devices)) && (!locked ==> PowerKept())
      ensures FreesForInsert(old(vm.V()), locked, ok, vm.V())
      ensures (vm.healthy ==> ok) && (CanHold(vm.devices) <==> CanHold(old(vm.devices)))
    {
      hide SoftBeforeHard, DisconnectsCd, UnlocksForInsert;
      ghost var m := |vm.log|;
      var r := DisconnectCd();
      assert RunSince(n) == run + RunSince(m);
      SoftBeforeHardConcat(run, RunSince(m));
      LockedIn(run, RunSince(m));
      locked := r == Locked;
      if locked {
        ok := RetryFree(run + RunSince(m), n);
      } else {
        ok := r == Applied;
      }
    }

    /** Still locked: power off, then disconnect once more. */
    method RetryFree(ghost run: seq<Event>, ghost n: nat) returns (ok: bool)
      requires vm.Valid() && n <= |vm.log| && RunSince(n) == run && SoftBeforeHard(run)
      modifies vm, this`now
      ensures vm.Valid() && old(vm.log) <= vm.log && vm.bootOrder == old(vm.bootOrder)
      ensures SoftBeforeHard(RunSince(n)) && run <= RunSince(n)
      ensures ok ==> CdFree(vm.devices)
      ensures UnlocksForInsert(old(vm.V()), ok, vm.V())
      ensures (vm.healthy ==> ok) && (CanHold(vm.devices) <==> CanHold(old(vm.devices)))
    {
      ghost var m := |vm.log|;
      ok := PowerOffForMedia();
      assert RunSince(n) == run + RunSince(m);
      SoftBeforeHardConcat(run, RunSince(m));
      if ok {
        ghost var longer, l := RunSince(n), |vm.log|;
        var r := DisconnectCd();
        assert RunSince(n) == longer + RunSince(l);
        SoftBeforeHardConcat(longer, RunSince(l));
        ok := r == Applied;
      }
    }

    /** Looking the VM up again; the uuid cache, search index and folder walk are abstract. */
    method FindByUuid() returns (ok: bool)
      ensures vm.healthy ==> ok
    {
      ok := *;
      ok := ok || vm.healthy;
    }

    /** The replacing path of InsertMedia, up to recording the image. */
    method ReplaceMedia(want: string) returns (ok: bool, ghost readOn: bool, ghost locked: bool)
      requires vm.Valid()
      modifies vm, this`now
      ensures vm.Valid() && old(vm.log) <= vm.log
      ensures var run := RunSince(|old(vm.log)|);
              && SoftBeforeHard(run) && run != [] && run[0].PowerRead? && (readOn <==> run[0].seen == Some(On))
              && (locked <==> CdEdit(Disconnect, Locked) in run)
      ensures ok ==>
                && CdHolds(vm.devices, want)
                && vm.bootOrder != [] && vm.bootOrder[0] == BootCd
                && (forall key :: BootDisk(key) in vm.bootOrder <==> Disk(key) in vm.devices)
                && if readOn || locked then vm.power == On else PowerKept()
      ensures Inserts(old(vm.V()), want, readOn, locked, ok, vm.V())
      ensures vm.healthy ==> (ok <==> CanHold(old(vm.devices)))
    {
      hide CdHolds, CdFree, FreesCd, AttachesAndStarts;
      var wasOn;
      ok, wasOn, readOn, locked := FreeCd();
      ghost var run, n := RunSince(|old(vm.log)|), |vm.log|;
      if ok {
        ok := AttachAndStart(want, wasOn);
        assert RunSince(|old(vm.log)|) == run + RunSince(n);
        SoftBeforeHardConcat(run, RunSince(n));
      }
    }

    /** Attach, and ask for CD-first boot. */
    method AttachAndBoot(want: string) returns (ok: bool)
      requires vm.Valid() && CdFree(vm.devices)
      modifies vm
      ensures vm.Valid() && old(vm.log) <= vm.log && PowerKept() && OnlyAttachOrBoot(RunSince(|old(vm.log)|))
      ensures ok ==>
                && CdHolds(vm.devices, want)
                && vm.bootOrder != [] && vm.bootOrder[0] == BootCd
                && (forall key :: BootDisk(key) in vm.bootOrder <==> Disk(key) in vm.devices)
      ensures AttachesAndBoots(old(vm.V()), want, ok, vm.V())
      ensures vm.healthy ==> (ok <==> CanHold(old(vm.devices)))
    {
      hide CdFree, AttachesCd;
      var r := AttachCd(want);
      ok := r == Applied;
      ghost var run := RunSince(|old(vm.log)|);
      assert OnlyAttachOrBoot(run);
      if ok {
        ghost var log := vm.log;
        ok := FindByUuid();
        if ok {
          ok := SetBootOrder(CD_THEN_DISK);
          CdFirst(vm.devices);
        }
        GrownTwice(old(vm.log), log, vm.log);
        assert RunSince(|old(vm.log)|) == run + RunSince(|log|);
      }
    }

    /** The same, and start the machine again when it was on. */
    method AttachAndStart(want: string, wasOn: bool) returns (ok: bool)
      requires vm.Valid() && CdFree(vm.devices)
      modifies vm
      ensures vm.Valid() && old(vm.log) <= vm.log
      ensures SoftBeforeHard(RunSince(|old(vm.log)|)) && CdEdit(Disconnect, Locked) !in RunSince(|old(vm.log)|)
      ensures ok ==>
                && CdHolds(vm.devices, want)
                && vm.bootOrder != [] && vm.bootOrder[0] == BootCd
                && (forall key :: BootDisk(key) in vm.bootOrder <==> Disk(key) in vm.devices)
                && if wasOn then vm.power == On else PowerKept()
      ensures AttachesAndStarts(old(vm.V()), want, wasOn, ok, vm.V())
      ensures vm.healthy ==> (ok <==> CanHold(old(vm.devices)))
    {
      hide CdHolds, CdFree, Restarted, AttachesAndBoots;
      ok := AttachAndBoot(want);
      ghost var run := RunSince(|old(vm.log)|);
      if ok && wasOn {
        ghost var log, ds := vm.log, vm.devices;
        ok := PowerOn();
        RestartedKeepsCd(ds, vm.devices, want);
        RestartedKeepsDisks(ds, vm.devices);
        GrownTwice(old(vm.log), log, vm.log);
        assert RunSince(|old(vm.log)|) == run + RunSince(|log|);
      }
    }

    /** InsertMedia. allowed is the verdict of the name filter on the VM,
        staged is the datastore path the image was uploaded to, if that worked; noop
        says that the drive already had it, readOn that the machine was first read as on, locked
        that the drive was locked when it was to be disconnected. */
    method InsertMedia(uuid: string, imageURL: string, allowed: bool, staged: Option<string>)
      returns (r: Done, ghost noop: bool, ghost readOn: bool, ghost locked: bool)
      requires vm.Valid()
      modifies vm, this`now, this`mediaISO
      ensures vm.Valid() && old(vm.log) <= vm.log && SoftBeforeHard(RunSince(|old(vm.log)|))
      ensures mediaISO == if r.Ok? then old(mediaISO)[Lower(uuid) := imageURL] else old(mediaISO)
      ensures r.Ok? ==> staged.Some? && (noop <==> AlreadyHas(old(vm.V()), DatastorePath(datastore, staged.value)))
      ensures noop ==> r.Ok? && RunSince(|old(vm.log)|) == [] && Quiet() && PowerKept()
      ensures noop ==>
                var k := FirstCd(old(vm.devices));
                && k < |old(vm.devices)| && Connected(old(vm.devices)[k]) && old(vm.devices)[k].backing.Iso?
                && staged.Some? && SameFile(old(vm.devices)[k].backing.file, DatastorePath(datastore, staged.value))
      ensures r.Ok? && !noop ==>
                && CdHolds(vm.devices, DatastorePath(datastore, staged.value))
                && vm.bootOrder != [] && vm.bootOrder[0] == BootCd
                && (forall key :: BootDisk(key) in vm.bootOrder <==> Disk(key) in vm.devices)
      ensures r.Ok? && !noop ==>
                var run := RunSince(|old(vm.log)|);
                && run != [] && run[0].PowerRead? && (readOn <==> run[0].seen == Some(On))
                && (locked <==> CdEdit(Disconnect, Locked) in run)
                && if readOn || locked then vm.power == On else PowerKept()
      ensures if staged.Some?
              then InsertRun(old(vm.V()), DatastorePath(datastore, staged.value), readOn, locked, r.Ok?, vm.V())
              else r.Err? && vm.V() == old(vm.V())
      ensures vm.healthy ==>
                r == if !allowed then Err(NotAllowed) else if staged.None? then Err(StagingFailed)
                     else if CanHold(old(vm.devices)) then Ok(()) else Err(VmFault)
    {
      hide CdHolds, Inserts, IsoPathsEqual, FirstCd;
      noop, readOn, locked := false, false, false;
      var found := FindByUuid();
      var infoRead := FindByUuid();
      if !found || !infoRead {
        return Err(LookupFailed), noop, readOn, locked;
      }
      if !allowed {
        return Err(NotAllowed), noop, readOn, locked;
      }
      if staged.None? {
        return Err(StagingFailed), noop, readOn, locked;
      }
      var target := DatastorePath(datastore, staged.value);
      AlreadyHasIff(vm.V(), target);
      var ds := vm.Devices();
      if ds.None? {
        return Err(VmFault), noop, readOn, locked;
      }
      ghost var a := vm.V();
      var (prev, connected) := CdState(ds.value);
      if connected && IsoPathsEqual(prev, target) {
        noop := true;
        mediaISO := mediaISO[Lower(uuid) := imageURL];
        return Ok(()), noop, readOn, locked;
      }
      var ok;
      ok, readOn, locked := ReplaceMedia(target);
      PassThenInsert(old(vm.V()), a, target, readOn, locked, ok, vm.V());
      if !ok {
        return Err(VmFault), noop, readOn, locked;
      }
      mediaISO := mediaISO[Lower(uuid) := imageURL];
      r := Ok(());
    }

    /** The detach part of EjectMedia: twice as the machine is, and a third time powered off. */
    method FreeForEject() returns (ok: bool, ghost cut: bool)
      requires vm.Valid()
      modifies vm, this`now
      ensures vm.Valid() && old(vm.log) <= vm.log && vm.bootOrder == old(vm.bootOrder)
      ensures GoodRun(RunSince(|old(vm.log)|))
      ensures ok ==> CdFree(vm.devices)
      ensures if cut then vm.power in {old(vm.power), Off} && (ok ==> vm.power == Off) else PowerKept()
      ensures FreesForEject(old(vm.V()), ok, cut, vm.V())
      ensures cut ==> LockedTwice(RunSince(|old(vm.log)|))
      ensures vm.healthy ==> ok
    {
      hide DetachesCd, DetachOrCut, GoodRun, LockedDetaches;
      cut := false;
      var r := DetachCd();
      ghost var run, a := RunSince(|old(vm.log)|), vm.V();
      OneEditIsGood(run);
      if r != Locked {
        return r == Applied, cut;
      }
      ok, cut := DetachOrCutPower(run, |old(vm.log)|);
      assert DetachesCd(old(vm.V()), Locked, a) && DetachOrCut(a, ok, cut, vm.V());
    }

    /** The drive was locked: try again, and if it is locked again cut the power. */
    method DetachOrCutPower(ghost run: seq<Event>, ghost n: nat) returns (ok: bool, ghost cut: bool)
      requires vm.Valid() && n <= |vm.log| && RunSince(n) == run == [CdEdit(Detach, Locked)]
      modifies vm, this`now
      ensures vm.Valid() && old(vm.log) <= vm.log && vm.bootOrder == old(vm.bootOrder)
      ensures GoodRun(RunSince(n)) && (cut ==> LockedTwice(RunSince(n)))
      ensures ok ==> CdFree(vm.devices)
      ensures if cut then vm.power in {old(vm.power), Off} && (ok ==> vm.power == Off) else PowerKept()
      ensures DetachOrCut(old(vm.V()), ok, cut, vm.V())
      ensures vm.healthy ==> ok
    {
      hide DetachesCd, Protocols.CutAndDetach;
      cut := false;
      ghost var m := |vm.log|;
      vm.Nudge();
      vm.Nudge();
      ghost var b := vm.V();
      var r := DetachCd();
      PassThenDetach(old(vm.V()), b, r, vm.V());
      ghost var longer := run + RunSince(m);
      assert RunSince(n) == longer;
      if r != Locked {
        OneEditIsGood(RunSince(m));
        GoodConcat(run, RunSince(m));
        return r == Applied, cut;
      }
      cut := true;
      TwoLocks(run, RunSince(m));
      ok := CutAndDetach(longer, n);
      StillLockedTwice(longer, RunSince(n));
    }

    /** Power off, then detach; run is what the protocol did so far. */
    method CutAndDetach(ghost run: seq<Event>, ghost n: nat) returns (ok: bool)
      requires vm.Valid() && n <= |vm.log| && RunSince(n) == run
      requires GoodRun(run) && LockedDetaches(run, |run|) >= 2
      modifies vm, this`now
      ensures vm.Valid() && old(vm.log) <= vm.log && vm.bootOrder == old(vm.bootOrder)
      ensures GoodRun(RunSince(n)) && run <= RunSince(n)
      ensures vm.power in {old(vm.power), Off} && (ok ==> vm.power == Off && CdFree(vm.devices))
      ensures Protocols.CutAndDetach(old(vm.V()), ok, vm.V())
      ensures vm.healthy ==> ok
    {
      ghost var m := |vm.log|;
      ok := PowerOffForMedia();
      assert RunSince(n) == run + RunSince(m);
      GoodConcat(run, RunSince(m));
      if ok {
        ok := DetachAgain(run + RunSince(m), n);
      }
    }

    method DetachAgain(ghost run: seq<Event>, ghost n: nat) returns (ok: bool)
      requires vm.Valid() && n <= |vm.log| && RunSince(n) == run && GoodRun(run)
      modifies vm
      ensures vm.Valid() && old(vm.log) <= vm.log && vm.bootOrder == old(vm.bootOrder) && PowerKept()
      ensures GoodRun(RunSince(n)) && run <= RunSince(n) && (ok ==> CdFree(vm.devices))
      ensures LastDetach(old(vm.V()), ok, vm.V())
      ensures vm.healthy && old(vm.power) == Off ==> ok
    {
      ghost var m := |vm.log|;
      var r := DetachCd();
      assert RunSince(n) == run + RunSince(m);
      GoodConcat(run, RunSince(m));
      ok := r == Applied;
    }

    /** The end of EjectMedia: disk-only boot order, no recorded image, power as it was read. */
    method FinishEject(uuid: string, wasOn: bool) returns (ok: bool)
      requires vm.Valid() && CdFree(vm.devices)
      modifies vm, this`mediaISO
      ensures vm.Valid() && old(vm.log) <= vm.log
      ensures var run := RunSince(|old(vm.log)|); SoftBeforeHard(run) && Calm(run)
      ensures mediaISO in {old(mediaISO), old(mediaISO) - {Lower(uuid)}}
      ensures ok ==>
                && CdFree(vm.devices) && BootCd !in vm.bootOrder
                && (forall key :: BootDisk(key) in vm.bootOrder <==> Disk(key) in vm.devices)
                && mediaISO == old(mediaISO) - {Lower(uuid)}
                && if wasOn then vm.power == On else PowerKept()
      ensures FinishesEject(old(vm.V()), wasOn, ok, vm.V())
      ensures vm.healthy ==> ok
    {
      ok := SetBootOrder(DISK_ONLY);
      DiskOnly(vm.devices);
      if ok {
        mediaISO := mediaISO - {Lower(uuid)};
        if wasOn {
          ghost var ds, run, n := vm.devices, RunSince(|old(vm.log)|), |vm.log|;
          ok := PowerOn();
          RestartedKeepsCd(ds, vm.devices, "");
          RestartedKeepsDisks(ds, vm.devices);
          assert RunSince(|old(vm.log)|) == run + RunSince(n);
        }
      }
    }

    /** EjectMedia, once the power was read. */
    method EjectRead(uuid: string, wasOn: bool) returns (ok: bool, ghost cut: bool)
      requires vm.Valid()
      modifies vm, this`now, this`mediaISO
      ensures vm.Valid() && old(vm.log) <= vm.log && GoodRun(RunSince(|old(vm.log)|))
      ensures cut ==> LockedTwice(RunSince(|old(vm.log)|))
      ensures mediaISO in {old(mediaISO), old(mediaISO) - {Lower(uuid)}}
      ensures ok ==>
                && CdFree(vm.devices) && BootCd !in vm.bootOrder
                && (forall key :: BootDisk(key) in vm.bootOrder <==> Disk(key) in vm.devices)
                && mediaISO == old(mediaISO) - {Lower(uuid)}
                && (wasOn ==> vm.power == On) && (!wasOn && old(vm.power) == Off ==> vm.power == Off)
      ensures EjectsFrom(old(vm.V()), wasOn, ok, cut, vm.V())
      ensures vm.healthy ==> ok
    {
      hide GoodRun, LockedDetaches, FreesForEject, FinishesEject, CdFree;
      ok, cut := FreeForEject();
      if ok {
        ghost var run, n := RunSince(|old(vm.log)|), |vm.log|;
        ok := FinishEject(uuid, wasOn);
        assert RunSince(|old(vm.log)|) == run + RunSince(n);
        GoodConcat(run, RunSince(n));
        LockedInBoth(run, RunSince(n));
      }
    }

    /** EjectMedia. first is the power as it was read; cut says whether power was cut, or a cut was
        tried, to free the drive. */
    method EjectMedia(uuid: string) returns (r: Done, ghost first: Option<Power>, ghost cut: bool)
      requires vm.Valid()
      modifies vm, this`now, this`mediaISO
      ensures vm.Valid() && old(vm.log) <= vm.log
      ensures var run := RunSince(|old(vm.log)|);
              && SoftBeforeHard(run) && CutsPowerLate(run) && (cut ==> LockedTwice(run))
              && (run != [] ==> run[0] == PowerRead(first))
      ensures r.Ok? ==>
                && CdFree(vm.devices) && BootCd !in vm.bootOrder
                && (forall key :: BootDisk(key) in vm.bootOrder <==> Disk(key) in vm.devices)
                && mediaISO == old(mediaISO) - {Lower(uuid)}
                && (first == Some(On) ==> vm.power == On)
                && (first == Some(Off) ==> vm.power == Off)
      ensures (vm.V() == old(vm.V()) && r.Err? && first.None? && !cut) || Ejects(old(vm.V()), first, r.Ok?, cut, vm.V())
      ensures !old(vm.shutdownPending) ==>
                && (first.Some? ==> first.value == old(vm.power)) && vm.power in {old(vm.power), Off}
                && (vm.power != old(vm.power) ==> cut && old(vm.power) != Off)
                && (r.Ok? ==> (vm.power == old(vm.power) <==> !cut || old(vm.power) == Off || first == Some(On)))
      ensures mediaISO in {old(mediaISO), old(mediaISO) - {Lower(uuid)}}
      ensures vm.healthy ==> r.Ok?
    {
      hide LockedDetaches, SoftBeforeHard, CutsPowerLate, EjectsFrom, CdFree;
      first, cut := None, false;
      var found := FindByUuid();
      if !found {
        CalmIsGood(RunSince(|old(vm.log)|));
        return Err(LookupFailed), first, cut;
      }
      var state := vm.PowerState();
      first := state;
      ghost var n, a := |vm.log|, vm.V();
      assert RunSince(|old(vm.log)|) == [PowerRead(state)] && ReadsPower(old(vm.V()), state, a);
      var ok;
      ok, cut := EjectRead(uuid, state == Some(On));
      assert RunSince(|old(vm.log)|) == [PowerRead(state)] + RunSince(n);
      ReadThen(state, RunSince(n));
      LockedInBoth([PowerRead(state)], RunSince(n));
      assert Ejects(old(vm.V()), first, ok, cut, vm.V());
      if !old(vm.shutdownPending) {
        EjectKeepsPower(old(vm.V()), first, ok, cut, vm.V());
      }
      r := if ok then Ok(()) else Err(VmFault);
    }
  }
}
