/** InsertMedia and EjectMedia as relations on the machine: what each call may do, and which
    calls follow one another. */
module Protocols {
  import opened Text
  import opened Records
  import opened Vm

  // ---------------------------------------------------------------- paths

  function Squeeze(s: string): string {
    if s == "" then "" else if IsSpace(s[0]) then Squeeze(s[1..]) else [LowerChar(s[0])] + Squeeze(s[1..])
  }

  /** Datastore paths equal up to case and white space; an empty path equals nothing. */
  predicate IsoPathsEqual(a: string, b: string) {
    Squeeze(a) != "" && Squeeze(a) == Squeeze(b)
  }

  /** Datastore.Path. */
  function DatastorePath(datastore: string, p: string): string {
    "[" + datastore + "] " + p
  }

  /** The file and the state of the first drive. */
  function CdState(ds: seq<Device>): (string, bool) {
    var k := FirstCd(ds);
    if k == |ds| then ("", false)
    else (if ds[k].backing.Iso? then ds[k].backing.file else "", Connected(ds[k]))
  }

  lemma {:induction false} SqueezeConcat(a: string, b: string)
    ensures Squeeze(a + b) == Squeeze(a) + Squeeze(b)
  {
    if a == "" {
      assert a + b == b;
    } else {
      assert (a + b)[1..] == a[1..] + b;
      SqueezeConcat(a[1..], b);
    }
  }

  lemma SqueezeOne(c: char)
    ensures Squeeze([c]) == if IsSpace(c) then "" else [LowerChar(c)]
  {
    assert [c][1..] == "";
  }

  /** The string without its white space. */
  function Packed(s: string): string {
    if s == "" then "" else
    var n := |s| - 1;
    Packed(s[..n]) + if IsSpace(s[n]) then "" else [s[n]]
  }

  lemma PackedMore(s: string, c: char)
    requires Squeeze(s) == Lower(Packed(s))
    ensures Squeeze(s + [c]) == Lower(Packed(s + [c]))
  {
    hide Squeeze;
    SqueezeConcat(s, [c]);
    SqueezeOne(c);
    assert (s + [c])[..|s|] == s;
    assert Lower(Packed(s) + [c]) == Lower(Packed(s)) + [LowerChar(c)];
    assert Packed(s) + "" == Packed(s);
  }

  lemma {:induction false} SqueezeIs(s: string)
    ensures Squeeze(s) == Lower(Packed(s))
  {
    if s != "" {
      var n := |s| - 1;
      SqueezeIs(s[..n]);
      assert s == s[..n] + [s[n]];
      PackedMore(s[..n], s[n]);
    }
  }

  lemma {:induction false} PackedPlain(s: string)
    requires forall i :: 0 <= i < |s| ==> !IsSpace(s[i])
    ensures Packed(s) == s
  {
    if s != "" {
      PackedPlain(s[..|s| - 1]);
    }
  }

  /** Equal character by character, up to case and white space, and not blank. */
  predicate SameFile(a: string, b: string) {
    Packed(b) != "" && SameLetters(Packed(a), Packed(b))
  }

  lemma PathsEqualIff(a: string, b: string)
    ensures IsoPathsEqual(a, b) <==> SameFile(a, b)
  {
    SqueezeIs(a);
    SqueezeIs(b);
    LowerIff(Packed(a), Packed(b));
  }

  /** Two paths without white space and upper case are equal only when they are the same. */
  lemma PlainPathsEqualIff(a: string, b: string)
    requires forall i :: 0 <= i < |a| ==> !IsSpace(a[i]) && a[i] !in UPPER
    requires forall i :: 0 <= i < |b| ==> !IsSpace(b[i]) && b[i] !in UPPER
    ensures IsoPathsEqual(a, b) <==> a == b != ""
  {
    PathsEqualIff(a, b);
    PackedPlain(a);
    PackedPlain(b);
    forall i | 0 <= i < |a| ensures LowerChar(a[i]) == a[i] {
      LowerCharIs(a[i]);
    }
    forall i | 0 <= i < |b| ensures LowerChar(b[i]) == b[i] {
      LowerCharIs(b[i]);
    }
  }

  /** Two images are at one place exactly when they are the same file of the same datastore. */
  lemma DatastorePathIs(datastore: string, p: string)
    ensures var r := DatastorePath(datastore, p);
            && |r| == |datastore| + |p| + 3
            && r[0] == '[' && r[1..|datastore| + 1] == datastore
            && r[|datastore| + 1] == ']' && r[|datastore| + 2] == ' ' && r[|datastore| + 3..] == p
  {
  }

  // ---------------------------------------------------------------- single calls

  /** Only a pending shutdown may have completed. */
  predicate Aged(m: VmState, n: VmState) {
    && (n.power == m.power || (m.shutdownPending && n.power == Off))
    && (n.shutdownPending ==> m.shutdownPending && n.power == On)
  }

  predicate Passes(m: VmState, n: VmState) {
    Aged(m, n) && n.devices == m.devices && n.bootOrder == m.bootOrder
  }

  predicate ReadsPower(m: VmState, seen: Option<Power>, n: VmState) {
    Passes(m, n) && (seen.Some? ==> seen.value == n.power)
  }

  /** One accepted edit of drive k. */
  ghost predicate Took(ds: seq<Device>, k: nat, backing: Backing, conn: Conn, es: seq<Device>)
    requires k < |ds| && ds[k].Cdrom?
  {
    exists running, out :: es == ds[k := Edited(ds[k], backing, conn, running, out)]
  }

  /** A locked drive is left alone; another error may come after the edit took effect. */
  ghost predicate EditsCd(m: VmState, k: nat, backing: Backing, conn: Conn, r: Outcome, n: VmState)
    requires k < |m.devices| && m.devices[k].Cdrom?
  {
    && Aged(m, n) && n.bootOrder == m.bootOrder
    && (n.devices == m.devices || Took(m.devices, k, backing, conn, n.devices))
    && (r == Locked ==> n.devices == m.devices)
    && (r == Applied ==> Took(m.devices, k, backing, conn, n.devices))
  }

  ghost predicate DetachesCd(m: VmState, r: Outcome, n: VmState) {
    var k := FirstCd(m.devices);
    if k < |m.devices| then (r == Failed && Passes(m, n)) || EditsCd(m, k, Passthrough, Conn(false, false), r, n)
    else Passes(m, n) && r in {Applied, Failed}
  }

  ghost predicate DisconnectsCd(m: VmState, r: Outcome, n: VmState) {
    var k := FirstCd(m.devices);
    if k < |m.devices| && InUse(m.devices[k])
    then (r == Failed && Passes(m, n)) || EditsCd(m, k, m.devices[k].backing, Conn(false, false), r, n)
    else Passes(m, n) && r in {Applied, Failed}
  }

  /** Without a drive one is added, where there is a controller with a free slot. */
  ghost predicate AttachesCd(m: VmState, file: string, r: Outcome, n: VmState) {
    var k := FirstCd(m.devices);
    if k < |m.devices| then (r == Failed && Passes(m, n)) || EditsCd(m, k, Iso(file), Conn(true, true), r, n)
    else
      && Aged(m, n) && n.bootOrder == m.bootOrder && m.devices <= n.devices
      && (r == Applied ==>
        IdeController in m.devices && exists connected ::
            n.devices == m.devices + [Cdrom(Iso(file), Some(Conn(connected, true)))])
  }

  predicate BootsFrom(m: VmState, prefer: seq<BootKind>, ok: bool, n: VmState) {
    && Aged(m, n) && n.devices == m.devices && n.bootOrder in {m.bootOrder, RequestedOrder(m.devices, prefer)}
    && (ok ==> n.bootOrder == RequestedOrder(m.devices, prefer))
  }

  /** powerOffForMedia: soft, then hard; a failure does not say that the machine is still on. */
  predicate CutsPower(m: VmState, ok: bool, n: VmState) {
    && n.devices == m.devices && n.bootOrder == m.bootOrder
    && n.power in {m.power, Off} && (ok ==> n.power == Off) && (n.shutdownPending ==> n.power == On)
  }

  /** powerOn leaves a running machine alone. */
  predicate PowersOn(m: VmState, ok: bool, n: VmState) {
    && Restarted(m.devices, n.devices) && n.bootOrder == m.bootOrder
    && (n.power == On || Aged(m, n)) && (ok ==> n.power == On) && (n.shutdownPending ==> n.power == On)
  }

  // ---------------------------------------------------------------- EjectMedia

  ghost predicate LastDetach(m: VmState, ok: bool, n: VmState) {
    exists r :: DetachesCd(m, r, n) && (ok <==> r == Applied)
  }

  ghost predicate CutAndDetach(m: VmState, ok: bool, n: VmState) {
    (!ok && CutsPower(m, false, n)) || exists c :: CutsPower(m, true, c) && LastDetach(c, ok, n)
  }

  /** The second try; a lock now means that power is cut. */
  ghost predicate DetachOrCut(m: VmState, ok: bool, cut: bool, n: VmState) {
    if cut then exists b :: DetachesCd(m, Locked, b) && CutAndDetach(b, ok, n)
    else exists r :: r != Locked && DetachesCd(m, r, n) && (ok <==> r == Applied)
  }

  ghost predicate FreesForEject(m: VmState, ok: bool, cut: bool, n: VmState) {
    || (!cut && exists r :: r != Locked && DetachesCd(m, r, n) && (ok <==> r == Applied))
    || (exists a :: DetachesCd(m, Locked, a) && DetachOrCut(a, ok, cut, n))
  }

  ghost predicate FinishesEject(m: VmState, wasOn: bool, ok: bool, n: VmState) {
    || (!ok && BootsFrom(m, DISK_ONLY, false, n))
    || (!wasOn && ok && BootsFrom(m, DISK_ONLY, true, n))
    || (wasOn && exists c :: BootsFrom(m, DISK_ONLY, true, c) && PowersOn(c, ok, n))
  }

  ghost predicate EjectsFrom(m: VmState, wasOn: bool, ok: bool, cut: bool, n: VmState) {
    || (!ok && FreesForEject(m, false, cut, n))
    || (exists b :: FreesForEject(m, true, cut, b) && FinishesEject(b, wasOn, ok, n))
  }

  /** EjectMedia, once the VM was found: first is the power as it was read, cut says whether
      power was cut to free the drive. */
  ghost predicate Ejects(m: VmState, first: Option<Power>, ok: bool, cut: bool, n: VmState) {
    exists a :: ReadsPower(m, first, a) && EjectsFrom(a, first == Some(On), ok, cut, n)
  }

  /** What becomes of the machine's own power. Only a cut changes it, and never for a VM that was
      off. After a success it is back exactly when there was no cut, or the VM was off anyway, or
      the first reading saw it on: a reading that failed counts as not on. */
  lemma EjectKeepsPower(m: VmState, first: Option<Power>, ok: bool, cut: bool, n: VmState)
    requires Ejects(m, first, ok, cut, n) && !m.shutdownPending
    ensures first.Some? ==> first.value == m.power
    ensures n.power != m.power ==> cut && m.power != Off
    ensures ok ==> (n.power == m.power <==> !cut || m.power == Off || first == Some(On))
    ensures n.power in {m.power, Off}
  {
  }

  predicate HasCd(m: VmState) {
    FirstCd(m.devices) < |m.devices|
  }

  /** Locked, locked again, power cut, and the last detach fails: the call fails with the VM off. */
  lemma LosingEject(m: VmState) returns (n: VmState)
    requires m.power != Off && !m.shutdownPending && HasCd(m)
    ensures Ejects(m, Some(m.power), false, true, n) && n.power == Off
  {
    n := m.(power := Off);
    assert DetachesCd(m, Locked, m);
    assert DetachesCd(n, Failed, n) && LastDetach(n, false, n);
    assert CutsPower(m, true, n) && CutAndDetach(m, false, n);
    assert DetachOrCut(m, false, true, n) && FreesForEject(m, false, true, n);
    assert ReadsPower(m, Some(m.power), m) && EjectsFrom(m, m.power == On, false, true, n);
  }

  /** The same with a first reading that failed, or that saw the VM suspended, and every later
      step done: the call succeeds and leaves the VM off. */
  lemma SilentEject(m: VmState, first: Option<Power>) returns (n: VmState)
    requires m.power != Off && !m.shutdownPending && HasCd(m)
    requires first == None || (first == Some(m.power) && m.power == Suspended)
    ensures Ejects(m, first, true, true, n) && n.power == Off
  {
    var k := FirstCd(m.devices);
    var off := m.(power := Off);
    var freed := off.(devices := off.devices[k := Edited(m.devices[k], Passthrough, Conn(false, false), false, false)]);
    n := freed.(bootOrder := RequestedOrder(freed.devices, DISK_ONLY));
    assert DetachesCd(m, Locked, m);
    assert Took(off.devices, k, Passthrough, Conn(false, false), freed.devices);
    assert DetachesCd(off, Applied, freed) && LastDetach(off, true, freed);
    assert CutsPower(m, true, off) && CutAndDetach(m, true, freed);
    assert DetachOrCut(m, true, true, freed) && FreesForEject(m, true, true, freed);
    assert FinishesEject(freed, false, true, n);
    assert ReadsPower(m, first, m) && EjectsFrom(m, false, true, true, n);
  }

  ghost predicate CanLose(m: VmState, ok: bool) {
    exists first, cut, n :: Ejects(m, first, ok, cut, n) && n.power != m.power
  }

  /** EjectMedia can end with another power than it found exactly for a VM that is not off and has
      a drive, and then it can do so failing as well as succeeding. */
  lemma EjectCanLoseIff(m: VmState, ok: bool)
    requires !m.shutdownPending
    ensures CanLose(m, ok) <==> m.power != Off && HasCd(m)
  {
    if m.power != Off && HasCd(m) {
      if ok {
        var n := SilentEject(m, None);
      } else {
        var n := LosingEject(m);
      }
    }
    forall first, cut, n | Ejects(m, first, ok, cut, n) && n.power != m.power
      ensures m.power != Off && HasCd(m)
    {
      EjectKeepsPower(m, first, ok, cut, n);
      var a :| ReadsPower(m, first, a) && EjectsFrom(a, first == Some(On), ok, cut, n);
      NoDriveNoCut(a, first == Some(On), ok, cut, n);
    }
  }

  lemma NoDriveNoCut(a: VmState, wasOn: bool, ok: bool, cut: bool, n: VmState)
    requires EjectsFrom(a, wasOn, ok, cut, n) && cut
    ensures HasCd(a)
  {
  }

  // ---------------------------------------------------------------- InsertMedia

  ghost predicate Starts(m: VmState, wasOn: bool, ok: bool, n: VmState) {
    if wasOn then PowersOn(m, ok, n) else n == m && ok
  }

  ghost predicate AttachesAndBoots(m: VmState, file: string, ok: bool, n: VmState) {
    || (!ok && exists r :: r != Applied && AttachesCd(m, file, r, n))
    || exists b :: AttachesCd(m, file, Applied, b) && ((!ok && n == b) || BootsFrom(b, CD_THEN_DISK, ok, n))
  }

  ghost predicate AttachesAndStarts(m: VmState, file: string, wasOn: bool, ok: bool, n: VmState) {
    || (!ok && AttachesAndBoots(m, file, false, n))
    || exists c :: AttachesAndBoots(m, file, true, c) && Starts(c, wasOn, ok, n)
  }

  ghost predicate CutsIf(m: VmState, cut: bool, ok: bool, n: VmState) {
    if cut then CutsPower(m, ok, n) else n == m && ok
  }

  /** The drive is free, after one lock and a power cut when locked. */
  ghost predicate FreesForInsert(m: VmState, locked: bool, ok: bool, n: VmState) {
    if !locked then exists r :: r != Locked && DisconnectsCd(m, r, n) && (ok <==> r == Applied)
    else exists b :: DisconnectsCd(m, Locked, b) && UnlocksForInsert(b, ok, n)
  }

  ghost predicate UnlocksForInsert(m: VmState, ok: bool, n: VmState) {
    || (!ok && CutsPower(m, false, n))
    || (exists c, r :: CutsPower(m, true, c) && DisconnectsCd(c, r, n) && (ok <==> r == Applied))
  }

  /** The power part and the disconnect part: readOn says that the power was read as on. */
  ghost predicate FreesCd(m: VmState, readOn: bool, locked: bool, ok: bool, n: VmState) {
    exists seen, a :: ReadsPower(m, seen, a) && (readOn <==> seen == Some(On)) && FreesCdFrom(a, readOn, locked, ok, n)
  }

  ghost predicate FreesCdFrom(m: VmState, readOn: bool, locked: bool, ok: bool, n: VmState) {
    || (readOn && !locked && !ok && CutsPower(m, false, n))
    || (exists b :: CutsIf(m, readOn, true, b) && FreesForInsert(b, locked, ok, n))
  }

  /** The replacing path of InsertMedia: the VM is started at the end when it was read as on, or
      its drive was locked. */
  ghost predicate Inserts(m: VmState, file: string, readOn: bool, locked: bool, ok: bool, n: VmState) {
    || (!ok && FreesCd(m, readOn, locked, false, n))
    || (exists b :: FreesCd(m, readOn, locked, true, b) && AttachesAndStarts(b, file, readOn || locked, ok, n))
  }

  /** The drive is connected to the file already. */
  predicate AlreadyHas(m: VmState, file: string) {
    CdState(m.devices).1 && IsoPathsEqual(CdState(m.devices).0, file)
  }

  /** The no-op test: the first drive is connected, and to that very file. */
  lemma AlreadyHasIff(m: VmState, file: string)
    ensures AlreadyHas(m, file) <==>
              var k := FirstCd(m.devices);
              k < |m.devices| && Connected(m.devices[k]) && m.devices[k].backing.Iso?
              && SameFile(m.devices[k].backing.file, file)
  {
    PathsEqualIff(CdState(m.devices).0, file);
    assert Packed("") == "";
  }

  /** InsertMedia, once the image is at file: nothing to do, or the replacing path. Reading the
      devices may fail. */
  ghost predicate InsertRun(m: VmState, file: string, readOn: bool, locked: bool, ok: bool, n: VmState) {
    if AlreadyHas(m, file) then !readOn && !locked && Passes(m, n)
    else (!readOn && !locked && !ok && Passes(m, n)) || Inserts(m, file, readOn, locked, ok, n)
  }

  /** A VM that was not running, but whose drive is in use and reported as locked, is switched on
      by a successful InsertMedia. */
  lemma InsertSwitchesOn(m: VmState, file: string) returns (n: VmState)
    requires m.power != On && !m.shutdownPending && CanBeLocked(m, file)
    ensures InsertRun(m, file, false, true, true, n) && n.power == On
  {
    var k := FirstCd(m.devices);
    var off := m.(power := Off);
    var from := m.devices[k];
    var freed := off.(devices := off.devices[k := Edited(from, from.backing, Conn(false, false), false, false)]);
    var now := freed.devices[k];
    var held := freed.(devices := freed.devices[k := Edited(now, Iso(file), Conn(true, true), false, false)]);
    var booted := held.(bootOrder := RequestedOrder(held.devices, CD_THEN_DISK));
    n := booted.(power := On);
    FirstCdStays(m.devices, k, freed.devices[k]);
    FirstCdStays(freed.devices, k, held.devices[k]);
    assert Took(off.devices, k, m.devices[k].backing, Conn(false, false), freed.devices);
    assert Took(freed.devices, k, Iso(file), Conn(true, true), held.devices);
    assert DisconnectsCd(m, Locked, m) && CutsPower(m, true, off) && DisconnectsCd(off, Applied, freed);
    assert UnlocksForInsert(m, true, freed) && FreesForInsert(m, true, true, freed);
    assert AttachesCd(freed, file, Applied, held) && BootsFrom(held, CD_THEN_DISK, true, booted);
    assert AttachesAndBoots(freed, file, true, booted) && Starts(booted, true, true, n);
    assert AttachesAndStarts(freed, file, true, true, n);
    assert CutsIf(m, false, true, m) && FreesCdFrom(m, false, true, true, freed);
    assert ReadsPower(m, Some(m.power), m) && FreesCd(m, false, true, true, freed);
  }

  lemma {:induction false} FirstCdStays(ds: seq<Device>, k: nat, d: Device)
    requires k == FirstCd(ds) && k < |ds| && d.Cdrom?
    ensures FirstCd(ds[k := d]) == k
  {
    if k > 0 {
      assert ds[k := d][1..] == ds[1..][k - 1 := d];
      FirstCdStays(ds[1..], k - 1, d);
    }
  }

  /** The drive is in use, and not by being connected to the file already. */
  predicate CanBeLocked(m: VmState, file: string) {
    HasCd(m) && InUse(m.devices[FirstCd(m.devices)]) && !AlreadyHas(m, file)
  }

  /** InsertMedia can switch on a VM that was not running if and only if the VM has a drive in
      use that is not connected to the file already; and it takes a lock to do so. */
  lemma InsertCanSwitchOnIff(m: VmState, file: string)
    requires m.power != On && !m.shutdownPending
    ensures (exists readOn, locked, n :: InsertRun(m, file, readOn, locked, true, n) && n.power == On)
            <==> CanBeLocked(m, file)
    ensures forall readOn, locked, ok, n :: InsertRun(m, file, readOn, locked, ok, n) && n.power != m.power ==>
              !readOn && locked && CanBeLocked(m, file)
  {
    hide Inserts;
    if CanBeLocked(m, file) {
      var n := InsertSwitchesOn(m, file);
    }
    forall readOn, locked, ok, n | InsertRun(m, file, readOn, locked, ok, n) && n.power != m.power
      ensures !readOn && locked && CanBeLocked(m, file)
    {
      assert Inserts(m, file, readOn, locked, ok, n);
      NotReadOn(m, file, readOn, locked, ok, n);
      if locked {
        LockedInsert(m, file, ok, n);
      } else {
        UnlockedKeepsPower(m, file, ok, n);
      }
    }
  }

  /** A VM that was on is on after every success; any other VM exactly when its drive was locked. */
  lemma InsertedPower(m: VmState, file: string, readOn: bool, locked: bool, n: VmState)
    requires InsertRun(m, file, readOn, locked, true, n) && !m.shutdownPending
    ensures n.power == if locked then On else m.power
    ensures readOn ==> m.power == On
  {
    hide AttachesAndBoots, FreesCd, AlreadyHas;
    if !AlreadyHas(m, file) {
      var b :| FreesCd(m, readOn, locked, true, b) && AttachesAndStarts(b, file, readOn || locked, true, n);
      FreedPower(m, readOn, locked, b);
      if !(readOn || locked) {
        AttachedPower(b, file, n);
      }
    }
  }

  lemma FreedPower(m: VmState, readOn: bool, locked: bool, n: VmState)
    requires FreesCd(m, readOn, locked, true, n) && !m.shutdownPending
    ensures readOn ==> m.power == On
    ensures !readOn && !locked ==> n.power == m.power && !n.shutdownPending
  {
    hide Took, UnlocksForInsert;
  }

  lemma AttachedPower(m: VmState, file: string, n: VmState)
    requires AttachesAndStarts(m, file, false, true, n) && !m.shutdownPending
    ensures n.power == m.power
  {
    hide Took, RequestedOrder;
  }

  lemma ReadOnIsOn(m: VmState, locked: bool, ok: bool, n: VmState)
    requires FreesCd(m, true, locked, ok, n)
    ensures m.power == On
  {
    hide FreesCdFrom;
  }

  lemma NotReadOn(m: VmState, file: string, readOn: bool, locked: bool, ok: bool, n: VmState)
    requires Inserts(m, file, readOn, locked, ok, n) && m.power != On
    ensures !readOn
  {
    hide FreesCd, AttachesAndStarts;
    var ok1, b :| FreesCd(m, readOn, locked, ok1, b);
    if readOn {
      ReadOnIsOn(m, locked, ok1, b);
    }
  }

  lemma LockedInsert(m: VmState, file: string, ok: bool, n: VmState)
    requires Inserts(m, file, false, true, ok, n)
    ensures HasCd(m) && InUse(m.devices[FirstCd(m.devices)])
  {
    hide FreesCd, AttachesAndStarts, HasCd, InUse;
    var ok1, b :| FreesCd(m, false, true, ok1, b);
    LockNeedsUse(m, ok1, b);
  }

  lemma NothingToCut(m: VmState, locked: bool, ok: bool, n: VmState)
    requires FreesCd(m, false, locked, ok, n)
    ensures exists a :: Passes(m, a) && FreesForInsert(a, locked, ok, n)
  {
    hide FreesForInsert, Passes;
    var seen, a :| ReadsPower(m, seen, a) && FreesCdFrom(a, false, locked, ok, n);
  }

  lemma LockNeedsUse(m: VmState, ok: bool, n: VmState)
    requires FreesCd(m, false, true, ok, n)
    ensures HasCd(m) && InUse(m.devices[FirstCd(m.devices)])
  {
    NothingToCut(m, true, ok, n);
    hide UnlocksForInsert, Took, FreesCd;
    var a :| Passes(m, a) && FreesForInsert(a, true, ok, n);
  }

  lemma UnlockedFreeing(m: VmState, ok: bool, n: VmState)
    requires m.power != On && !m.shutdownPending && FreesCd(m, false, false, ok, n)
    ensures n.power == m.power && !n.shutdownPending
  {
    NothingToCut(m, false, ok, n);
    hide Took, FreesCd;
    var a :| Passes(m, a) && FreesForInsert(a, false, ok, n);
  }

  lemma UnlockedKeepsPower(m: VmState, file: string, ok: bool, n: VmState)
    requires m.power != On && !m.shutdownPending && Inserts(m, file, false, false, ok, n)
    ensures n.power == m.power
  {
    hide FreesCd, Took;
    if !ok && FreesCd(m, false, false, false, n) {
      UnlockedFreeing(m, false, n);
    } else {
      var b :| FreesCd(m, false, false, true, b) && AttachesAndStarts(b, file, false, ok, n);
      UnlockedFreeing(m, true, b);
    }
  }

  // ---------------------------------------------------------------- time between calls

  lemma PassThenFree(m: VmState, a: VmState, readOn: bool, locked: bool, ok: bool, n: VmState)
    requires Passes(m, a) && FreesCd(a, readOn, locked, ok, n)
    ensures FreesCd(m, readOn, locked, ok, n)
  {
    hide FreesCdFrom;
    var seen, b :| ReadsPower(a, seen, b) && (readOn <==> seen == Some(On)) && FreesCdFrom(b, readOn, locked, ok, n);
    assert ReadsPower(m, seen, b);
  }

  lemma PassThenInsert(m: VmState, a: VmState, file: string, readOn: bool, locked: bool, ok: bool, n: VmState)
    requires Passes(m, a) && Inserts(a, file, readOn, locked, ok, n)
    ensures Inserts(m, file, readOn, locked, ok, n)
  {
    hide FreesCd, AttachesAndStarts, Passes;
    if !ok && FreesCd(a, readOn, locked, false, n) {
      PassThenFree(m, a, readOn, locked, false, n);
    } else {
      var b :| FreesCd(a, readOn, locked, true, b) && AttachesAndStarts(b, file, readOn || locked, ok, n);
      PassThenFree(m, a, readOn, locked, true, b);
    }
  }

  lemma PassThenDetach(m: VmState, a: VmState, r: Outcome, n: VmState)
    requires Passes(m, a) && DetachesCd(a, r, n)
    ensures DetachesCd(m, r, n)
  {
    hide Took;
  }
}
