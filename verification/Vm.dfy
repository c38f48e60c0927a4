/** A virtual machine as vSphere presents it to the media protocols. */
module Vm {
  import opened Records

  datatype Power = On | Off | Suspended

  datatype Backing = Iso(file: string) | Passthrough | OtherBacking

  datatype Conn = Conn(connected: bool, startConnected: bool)

  datatype Device = Cdrom(backing: Backing, conn: Option<Conn>) | Disk(key: int) | IdeController | OtherDevice

  datatype BootDevice = BootCd | BootDisk(key: int)

  datatype BootKind = CdKind | DiskKind

  // ---------------------------------------------------------------- devices

  /** The first CD drive, the only one the gateway touches; |ds| when there is none. */
  function FirstCd(ds: seq<Device>): (k: nat)
    ensures k <= |ds| && (k < |ds| ==> ds[k].Cdrom?)
    ensures forall i :: 0 <= i < k ==> !ds[i].Cdrom?
  {
    if ds == [] then 0 else if ds[0].Cdrom? then 0 else 1 + FirstCd(ds[1..])
  }

  predicate Connected(d: Device) {
    d.Cdrom? && d.conn.Some? && d.conn.value.connected
  }

  predicate StartConnected(d: Device) {
    d.Cdrom? && d.conn.Some? && d.conn.value.startConnected
  }

  predicate InUse(d: Device) {
    Connected(d) || StartConnected(d)
  }

  /** The effect of one accepted edit: the backing of a drive that is connected at the time
      is kept, the connection flags are taken. A drive of a VM that is not running may come
      out disconnected whatever was asked for. */
  function Edited(d: Device, backing: Backing, conn: Conn, running: bool, comesOut: bool): Device
    requires d.Cdrom?
  {
    Cdrom(if Connected(d) then d.backing else backing,
          Some(if running then conn else conn.(connected := conn.connected && comesOut)))
  }

  /** Why a connected drive has to be disconnected first: one edit changes the backing
      exactly when the drive was not connected, or already had that backing. */
  lemma OneEditChangesBackingIff(d: Device, backing: Backing, conn: Conn, running: bool, comesOut: bool)
    requires d.Cdrom?
    ensures Edited(d, backing, conn, running, comesOut).backing == backing <==> !Connected(d) || d.backing == backing
    ensures var e := Edited(d, backing, conn, running, comesOut);
            && (StartConnected(e) <==> conn.startConnected)
            && (Connected(e) <==> conn.connected && (running || comesOut))
  {
  }

  /** Two edits always do: whatever the drive was doing, disconnecting it and then setting
      the backing leaves the new backing, set to connect at start. */
  lemma TwoEditsChangeBacking(d: Device, backing: Backing, running: bool, b1: bool, b2: bool)
    requires d.Cdrom?
    ensures var free := Edited(d, d.backing, Conn(false, false), running, b1);
            var x := Edited(free, backing, Conn(true, true), running, b2);
            x.backing == backing && StartConnected(x)
  {
  }

  predicate SameKinds(a: seq<Device>, b: seq<Device>) {
    |a| == |b| && forall i :: 0 <= i < |a| ==> (a[i].Cdrom? <==> b[i].Cdrom?)
  }

  /** Starting the machine changes nothing but the connected flags. */
  predicate Restarted(a: seq<Device>, b: seq<Device>) {
    && SameKinds(a, b)
    && forall i :: 0 <= i < |a| ==>
         if a[i].Cdrom? then
           && b[i].backing == a[i].backing && (StartConnected(b[i]) <==> StartConnected(a[i]))
           && (Connected(b[i]) ==> Connected(a[i]) || StartConnected(a[i]))
         else b[i] == a[i]
  }

  // ---------------------------------------------------------------- boot order

  function BootEntry(d: Device, kind: BootKind): seq<BootDevice> {
    if kind == CdKind && d.Cdrom? then [BootCd]
    else if kind == DiskKind && d.Disk? then [BootDisk(d.key)]
    else []
  }

  function EntriesOf(ds: seq<Device>, kind: BootKind): seq<BootDevice> {
    if ds == [] then [] else BootEntry(ds[0], kind) + EntriesOf(ds[1..], kind)
  }

  /** devices.BootOrder: for each preferred kind, the devices of that kind. */
  function BootOrder(ds: seq<Device>, prefer: seq<BootKind>): seq<BootDevice> {
    if prefer == [] then [] else EntriesOf(ds, prefer[0]) + BootOrder(ds, prefer[1..])
  }

  /** setBootOrderVM asks for the CD even when there is no drive yet. */
  function RequestedOrder(ds: seq<Device>, prefer: seq<BootKind>): seq<BootDevice> {
    var order := BootOrder(ds, prefer);
    if order == [] && prefer != [] && prefer[0] == CdKind then [BootCd] else order
  }

  const CD_THEN_DISK := [CdKind, DiskKind]
  const DISK_ONLY := [DiskKind]

  lemma {:induction false} EntriesOfKind(ds: seq<Device>, kind: BootKind)
    ensures forall e :: e in EntriesOf(ds, kind) ==> (e == BootCd <==> kind == CdKind)
    ensures kind == CdKind ==> (EntriesOf(ds, kind) != [] <==> FirstCd(ds) < |ds|)
    ensures kind == DiskKind ==> forall key :: BootDisk(key) in EntriesOf(ds, kind) <==> Disk(key) in ds
  {
    if ds != [] {
      EntriesOfKind(ds[1..], kind);
      assert ds == [ds[0]] + ds[1..];
    }
  }

  lemma {:induction false} EntriesConcat(a: seq<Device>, b: seq<Device>, kind: BootKind)
    ensures EntriesOf(a + b, kind) == EntriesOf(a, kind) + EntriesOf(b, kind)
  {
    if a == [] {
      assert a + b == b;
    } else {
      assert (a + b)[1..] == a[1..] + b;
      EntriesConcat(a[1..], b, kind);
    }
  }

  lemma EntriesOfOne(d: Device, kind: BootKind)
    ensures EntriesOf([d], kind) == if kind == CdKind && d.Cdrom? then [BootCd]
                                    else if kind == DiskKind && d.Disk? then [BootDisk(d.key)] else []
  {
    assert [d][1..] == [];
  }

  /** The disks are asked for in the order of the devices. */
  lemma DisksInOrder(a: seq<Device>, x: int, b: seq<Device>, y: int, c: seq<Device>)
    returns (before: seq<BootDevice>, between: seq<BootDevice>, after: seq<BootDevice>)
    ensures EntriesOf(a + [Disk(x)] + b + [Disk(y)] + c, DiskKind) ==
            before + [BootDisk(x)] + between + [BootDisk(y)] + after
  {
    before, between, after := EntriesOf(a, DiskKind), EntriesOf(b, DiskKind), EntriesOf(c, DiskKind);
    EntriesConcat(a + [Disk(x)] + b + [Disk(y)], c, DiskKind);
    EntriesConcat(a + [Disk(x)] + b, [Disk(y)], DiskKind);
    EntriesConcat(a + [Disk(x)], b, DiskKind);
    EntriesConcat(a, [Disk(x)], DiskKind);
    EntriesOfOne(Disk(x), DiskKind);
    EntriesOfOne(Disk(y), DiskKind);
  }

  /** What is asked for: the drives, then the disks; the CD alone when there is neither. */
  lemma RequestIs(ds: seq<Device>)
    ensures RequestedOrder(ds, DISK_ONLY) == EntriesOf(ds, DiskKind)
    ensures var all := EntriesOf(ds, CdKind) + EntriesOf(ds, DiskKind);
            RequestedOrder(ds, CD_THEN_DISK) == if all == [] then [BootCd] else all
  {
    BootOrderOfTwo(ds, CdKind, DiskKind);
    BootOrderOfTwo(ds, DiskKind, DiskKind);
  }

  lemma BootOrderOfTwo(ds: seq<Device>, a: BootKind, b: BootKind)
    ensures BootOrder(ds, [a, b]) == EntriesOf(ds, a) + EntriesOf(ds, b)
    ensures BootOrder(ds, [a]) == EntriesOf(ds, a)
  {
    assert [a, b][1..] == [b] && [b][1..] == [] && [a][1..] == [];
    assert BootOrder(ds, [b]) == EntriesOf(ds, b) + BootOrder(ds, []);
    assert BootOrder(ds, [a]) == EntriesOf(ds, a) + BootOrder(ds, []);
  }

  /** With a drive present the CD comes first and every disk is still there; without a
      drive the CD is asked for only when there is no disk to boot from either. */
  lemma CdFirst(ds: seq<Device>)
    ensures var order := RequestedOrder(ds, CD_THEN_DISK);
            && (order != [] && order[0] == BootCd <==> FirstCd(ds) < |ds| || forall key :: Disk(key) !in ds)
            && (forall key :: BootDisk(key) in order <==> Disk(key) in ds)
  {
    hide EntriesOf, BootOrder, FirstCd;
    BootOrderOfTwo(ds, CdKind, DiskKind);
    EntriesOfKind(ds, CdKind);
    EntriesOfKind(ds, DiskKind);
    var cds, disks := EntriesOf(ds, CdKind), EntriesOf(ds, DiskKind);
    assert forall e :: e in cds + disks <==> e in cds || e in disks;
    if cds != [] {
      assert cds[0] in cds && (cds + disks)[0] == cds[0];
    } else if disks != [] {
      var e := disks[0];
      assert e in disks && e == BootDisk(e.key) && (cds + disks)[0] == e;
    } else {
      assert forall key :: BootDisk(key) !in disks;
    }
  }

  /** Disk-only order: all the disks and nothing else. */
  lemma DiskOnly(ds: seq<Device>)
    ensures var order := RequestedOrder(ds, DISK_ONLY);
            && BootCd !in order && (forall key :: BootDisk(key) in order <==> Disk(key) in ds)
  {
    BootOrderOfTwo(ds, DiskKind, DiskKind);
    EntriesOfKind(ds, DiskKind);
  }

  // ---------------------------------------------------------------- the machine

  datatype EditKind = Disconnect | Attach | Detach

  datatype Outcome = Applied | Locked | Failed

  /** What the gateway did to the machine, in order. SoftFailed is its own verdict that a
      guest shutdown did not work out. */
  datatype Event =
    | PowerRead(seen: Option<Power>)
    | Shutdown(accepted: bool)
    | SoftFailed
    | HardOff
    | HardOn
    | CdEdit(kind: EditKind, outcome: Outcome)
    | Boot(order: seq<BootDevice>)

  /** The machine as a value. */
  datatype VmState = VmState(power: Power, devices: seq<Device>, bootOrder: seq<BootDevice>, shutdownPending: bool)

  class Machine {
    /** Nothing fails but what the guest may refuse: a shutdown, and the control of a drive it uses. */
    const healthy: bool
    var power: Power
    var devices: seq<Device>
    var bootOrder: seq<BootDevice>
    /** A guest shutdown was asked for and may complete at any moment. */
    var shutdownPending: bool
    ghost var log: seq<Event>

    ghost predicate Valid()
      reads this
    {
      shutdownPending ==> power == On
    }

    ghost function V(): VmState
      reads this
    {
      VmState(power, devices, bootOrder, shutdownPending)
    }

    /** Only a pending shutdown may have completed. */
    twostate predicate OnlyTime()
      reads this
    {
      && Valid() && devices == old(devices) && bootOrder == old(bootOrder)
      && (power == old(power) || (old(shutdownPending) && power == Off))
      && (shutdownPending ==> old(shutdownPending))
    }

    method Tick()
      requires Valid()
      modifies this`power, this`shutdownPending
      ensures OnlyTime()
    {
      var completes: bool := *;
      if shutdownPending && completes {
        power, shutdownPending := Off, false;
      }
    }

    method PowerState() returns (r: Option<Power>)
      requires Valid()
      modifies this`power, this`shutdownPending, this`log
      ensures OnlyTime() && log == old(log) + [PowerRead(r)]
      ensures (r.Some? ==> r.value == power) && (healthy ==> r.Some?)
    {
      Tick();
      var fails: bool := *;
      r := if fails && !healthy then None else Some(power);
      log := log + [PowerRead(r)];
    }

    method Devices() returns (r: Option<seq<Device>>)
      requires Valid()
      modifies this`power, this`shutdownPending
      ensures OnlyTime()
      ensures (r.Some? ==> r.value == devices) && (healthy ==> r.Some?)
    {
      Tick();
      var fails: bool := *;
      r := if fails && !healthy then None else Some(devices);
    }

    /** A change of ExtraConfig, or an answer to a pending question. */
    method Nudge()
      requires Valid()
      modifies this`power, this`shutdownPending
      ensures OnlyTime()
    {
      Tick();
    }

    method ShutdownGuest() returns (ok: bool)
      requires Valid()
      modifies this`power, this`shutdownPending, this`log
      ensures Valid() && devices == old(devices) && bootOrder == old(bootOrder) && log == old(log) + [Shutdown(ok)]
      ensures power == old(power) || (old(power) == On && power == Off)
    {
      Tick();
      ok := *;
      ok := ok && power == On;
      if ok {
        shutdownPending := true;
      }
      log := log + [Shutdown(ok)];
    }

    /** An error does not say that the machine is still on. */
    method PowerOff() returns (ok: bool)
      requires Valid()
      modifies this`power, this`shutdownPending, this`log
      ensures Valid() && devices == old(devices) && bootOrder == old(bootOrder) && log == old(log) + [HardOff]
      ensures (ok ==> power == Off) && (healthy ==> ok)
      ensures power == old(power) || power == Off
    {
      Tick();
      ok := *;
      ok := ok || healthy;
      var anyway: bool := *;
      if ok || anyway {
        power, shutdownPending := Off, false;
      }
      log := log + [HardOff];
    }

    /** Powering on connects the drives that are set to start connected. */
    method PowerOn() returns (ok: bool)
      requires Valid()
      modifies this`power, this`shutdownPending, this`devices, this`log
      ensures Valid() && bootOrder == old(bootOrder) && log == old(log) + [HardOn]
      ensures (ok ==> power == On && !shutdownPending) && (healthy ==> ok)
      ensures power == On || power == old(power) || (old(shutdownPending) && power == Off)
      ensures shutdownPending ==> old(shutdownPending)
      ensures |devices| == |old(devices)|
      ensures forall i :: 0 <= i < |devices| ==>
                if devices[i].Cdrom? && devices[i].conn.Some?
                then old(devices)[i].Cdrom? && devices[i].backing == old(devices)[i].backing
                && old(devices)[i].conn.Some?
                     && devices[i].conn.value.startConnected == old(devices)[i].conn.value.startConnected
                     && (devices[i] == old(devices)[i] || devices[i].conn.value.connected ==
                         devices[i].conn.value.startConnected)
                else devices[i] == old(devices)[i]
    {
      Tick();
      ok := *;
      ok := ok || healthy;
      var anyway: bool := *;
      if ok || anyway {
        power, shutdownPending := On, false;
        devices := seq(|devices|, i requires 0 <= i < |devices| reads this`devices =>
          if devices[i].Cdrom? && devices[i].conn.Some?
          then devices[i].(conn := Some(Conn(devices[i].conn.value.startConnected,
              devices[i].conn.value.startConnected)))
          else devices[i]);
      }
      log := log + [HardOn];
    }

    /** Reconfigure of drive k. A locked drive is left alone; another error may come after
        the edit took effect. */
    method EditCd(kind: EditKind, k: nat, backing: Backing, conn: Conn) returns (r: Outcome)
      requires Valid() && k < |devices| && devices[k].Cdrom?
      modifies this`power, this`shutdownPending, this`devices, this`log
      ensures Valid() && bootOrder == old(bootOrder) && log == old(log) + [CdEdit(kind, r)]
      ensures power == old(power) || (old(shutdownPending) && power == Off)
      ensures shutdownPending ==> old(shutdownPending)
      ensures r == Locked ==> devices == old(devices)
      ensures |devices| == |old(devices)| && forall i :: 0 <= i < |devices| && i != k ==> devices[i] == old(devices)[i]
      ensures r == Applied ==> exists running, out :: devices[k] == Edited(old(devices)[k], backing, conn, running, out)
      ensures devices == old(devices) || exists running, out ::
                devices[k] == Edited(old(devices)[k], backing, conn, running, out)
      ensures devices[k].Cdrom?
      ensures healthy ==> r != Failed && (old(power) == Off || !InUse(old(devices)[k]) ==> r == Applied)
    {
      var refusable := power != Off && InUse(devices[k]);
      Tick();
      r := *;
      if healthy && (r == Failed || !refusable) {
        r := Applied;
      }
      var anyway: bool, out: bool := *, *;
      if r == Applied || (r == Failed && anyway) {
        devices := devices[k := Edited(devices[k], backing, conn, power == On, out)];
      }
      log := log + [CdEdit(kind, r)];
    }

    /** Reconfigure that adds a drive on a free IDE slot. */
    method AddCd(backing: Backing, conn: Conn) returns (r: Outcome)
      requires Valid()
      modifies this`power, this`shutdownPending, this`devices, this`log
      ensures Valid() && bootOrder == old(bootOrder) && log == old(log) + [CdEdit(Attach, r)]
      ensures power == old(power) || (old(shutdownPending) && power == Off)
      ensures shutdownPending ==> old(shutdownPending)
      ensures r == Locked ==> devices == old(devices)
      ensures r == Applied ==>
                exists connected :: devices == old(devices) + [Cdrom(backing, Some(conn.(connected := connected)))]
      ensures devices == old(devices) || (|devices| == |old(devices)| + 1 && devices[..|old(devices)|] == old(devices))
      ensures healthy ==> r == Applied
    {
      Tick();
      r := *;
      if healthy {
        r := Applied;
      }
      var anyway: bool, connected: bool := *, *;
      if r == Applied || (r == Failed && anyway) {
        devices := devices + [Cdrom(backing, Some(conn.(connected := connected)))];
      }
      log := log + [CdEdit(Attach, r)];
    }

    method SetBootOptions(order: seq<BootDevice>) returns (ok: bool)
      requires Valid()
      modifies this`power, this`shutdownPending, this`bootOrder, this`log
      ensures Valid() && devices == old(devices) && log == old(log) + [Boot(order)]
      ensures power == old(power) || (old(shutdownPending) && power == Off)
      ensures shutdownPending ==> old(shutdownPending)
      ensures (ok ==> bootOrder == order) && (healthy ==> ok)
      ensures bootOrder in {old(bootOrder), order}
    {
      Tick();
      ok := *;
      ok := ok || healthy;
      var anyway: bool := *;
      if ok || anyway {
        bootOrder := order;
      }
      log := log + [Boot(order)];
    }
  }
}
