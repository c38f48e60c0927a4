/** uploadISOIfNeeded as a protocol between any number of threads on one client: one upload
    in flight per datastore path, one PUT at a time, and waiters that follow a leader. */
module Upload {
  import opened Records

  const MAX_ATTEMPTS := 4

  /** What a call returned: an error, or nil and whether this thread uploaded. */
  datatype Outcome = Failure | Success(uploaded: bool)

  /** Where a thread is. A leader carries its entry of the in-flight table. */
  datatype Pc =
    | FirstCheck
    | Enter
    | Wait(call: nat)
    | TakeSerial(call: nat)
    | Recheck(call: nat)
    | Prepare(call: nat)
    | Putting(call: nat, attempt: nat)
    | Backoff(call: nat, attempt: nat)
    | Confirm(call: nat)
    | DropSerial(call: nat, out: Outcome)
    | Publish(call: nat, out: Outcome)
    | Withdraw(call: nat, out: Outcome)
    | Done(out: Outcome, followed: Option<nat>)

  datatype Thread = Thread(path: string, pc: Pc)

  /** One uploadCall: result is set when its done channel closes. */
  datatype Call = Call(path: string, leader: nat, result: Option<Outcome>)

  datatype State = State(
    threads: seq<Thread>,
    inFlight: map<string, nat>,
    calls: seq<Call>,
    serial: Option<nat>,
    files: set<string>,
    puts: seq<string>,     // paths of PUTs that returned ok
    seen: set<string>)     // paths some check has found on the datastore

  /** How the next operation of a thread turns out. */
  datatype Event = Normal | Error | Transient | Cancelled

  datatype Action = Act(i: nat, event: Event) | Appear(path: string) | Vanish(path: string)

  function Leads(pc: Pc): Option<nat> {
    match pc
    case TakeSerial(c) => Some(c)
    case Recheck(c) => Some(c)
    case Prepare(c) => Some(c)
    case Putting(c, _) => Some(c)
    case Backoff(c, _) => Some(c)
    case Confirm(c) => Some(c)
    case DropSerial(c, _) => Some(c)
    case Publish(c, _) => Some(c)
    case Withdraw(c, _) => Some(c)
    case _ => None
  }

  /** Between taking and releasing uploadSerial. */
  predicate HoldsSerial(pc: Pc) {
    pc.Recheck? || pc.Prepare? || pc.Putting? || pc.Backoff? || pc.Confirm? || pc.DropSerial?
  }

  // ---------------------------------------------------------------- the protocol

  predicate Enabled(s: State, i: nat, event: Event) {
    && i < |s.threads|
    && match s.threads[i].pc
       case Done(_, _) => false
       case Wait(c) => event == Cancelled || (c < |s.calls| && s.calls[c].result.Some?)
       case TakeSerial(_) => s.serial == None
       case _ => true
  }

  function At(s: State, i: nat, pc: Pc): State
    requires i < |s.threads|
  {
    s.(threads := s.threads[i := s.threads[i].(pc := pc)])
  }

  function Saw(s: State, path: string): State {
    s.(seen := s.seen + {path})
  }

  /** One check of the datastore. */
  function Check(s: State, i: nat, event: Event, present: Pc, absent: Pc, failed: Pc): State
    requires i < |s.threads|
  {
    var path := s.threads[i].path;
    if event != Normal then At(s, i, failed)
    else if path in s.files then At(Saw(s, path), i, present)
    else At(s, i, absent)
  }

  function ThreadStep(s: State, i: nat, event: Event): State
    requires Enabled(s, i, event)
  {
    var path := s.threads[i].path;
    match s.threads[i].pc
    case FirstCheck => Check(s, i, event, Done(Success(false), None), Enter, Done(Failure, None))
    case Enter =>
      if path in s.inFlight then At(s, i, Wait(s.inFlight[path])) else
      At(s, i, TakeSerial(|s.calls|)).(
      calls := s.calls + [Call(path, i, None)], inFlight := s.inFlight[path := |s.calls|])
    case Wait(c) =>
      if event == Cancelled then At(s, i, Done(Failure, None))
      else if s.calls[c].result == Some(Failure) then At(s, i, Done(Failure, Some(c)))
      else At(s, i, Done(Success(false), Some(c)))
    case TakeSerial(c) => At(s, i, Recheck(c)).(serial := Some(i))
    case Recheck(c) => Check(s, i, event, DropSerial(c, Success(false)), Prepare(c), DropSerial(c, Failure))
    case Prepare(c) => At(s, i, if event == Normal then Putting(c, 1) else DropSerial(c, Failure))
    case Putting(c, k) =>
      if event == Normal then At(s, i, Confirm(c)).(files := s.files + {path}, puts := s.puts + [path])
      else if event == Transient && k < MAX_ATTEMPTS then At(s, i, Backoff(c, k))
      else At(s, i, DropSerial(c, Failure))
    case Backoff(c, k) => At(s, i, if event == Cancelled then DropSerial(c, Failure) else Putting(c, k + 1))
    case Confirm(c) => Check(s, i, event, DropSerial(c, Success(true)), DropSerial(c, Failure), DropSerial(c, Failure))
    case DropSerial(c, out) => At(s, i, Publish(c, out)).(serial := None)
    case Publish(c, out) =>
      At(s, i, Withdraw(c, out)).(calls := if c < |s.calls| then s.calls[c := s.calls[c].(result := Some(out))]
          else s.calls)
    case Withdraw(c, out) => At(s, i, Done(out, None)).(inFlight := s.inFlight - {path})
  }

  predicate Possible(s: State, a: Action) {
    a.Act? ==> Enabled(s, a.i, a.event)
  }

  function Next(s: State, a: Action): State
    requires Possible(s, a)
  {
    match a
    case Act(i, event) => ThreadStep(s, i, event)
    case Appear(path) => s.(files := s.files + {path})
    case Vanish(path) => s.(files := s.files - {path})
  }

  predicate Initial(s: State) {
    && (forall i :: 0 <= i < |s.threads| ==> s.threads[i].pc == FirstCheck)
    && s.inFlight == map[] && s.calls == [] && s.serial == None && s.puts == [] && s.seen == {}
  }

  /** A run: from an initial state, one possible action after the other. */
  ghost predicate Run(states: seq<State>, actions: seq<Action>) {
    && |states| == |actions| + 1 && Initial(states[0])
    && forall k :: 0 <= k < |actions| ==>
        Possible(states[k], actions[k]) && states[k + 1] == Next(states[k], actions[k])
  }

  // ---------------------------------------------------------------- single flight

  /** An entry of the table belongs to exactly one leader. */
  ghost predicate LeaderOk(s: State, i: nat)
    requires i < |s.threads|
  {
    var t := s.threads[i];
    && (Leads(t.pc).Some? ==>
      var c := Leads(t.pc).value;
      && c < |s.calls| && s.calls[c].leader == i && s.calls[c].path == t.path
      && t.path in s.inFlight && s.inFlight[t.path] == c)
    && (HoldsSerial(t.pc) <==> s.serial == Some(i))
    && (t.pc.Putting? ==> 1 <= t.pc.attempt <= MAX_ATTEMPTS)
    && (t.pc.Backoff? ==> 1 <= t.pc.attempt < MAX_ATTEMPTS)
  }

  ghost predicate EntryOk(s: State, p: string)
    requires p in s.inFlight
  {
    var c := s.inFlight[p];
    && c < |s.calls| && s.calls[c].path == p
    && s.calls[c].leader < |s.threads| && Leads(s.threads[s.calls[c].leader].pc) == Some(c)
  }

  /** An open call has a live leader that has yet to publish; a closed one carries what its
      leader is returning. */
  ghost predicate CallOk(s: State, c: nat)
    requires c < |s.calls|
  {
    var call := s.calls[c];
    && call.leader < |s.threads| && s.threads[call.leader].path == call.path
    && var pc := s.threads[call.leader].pc;
       match call.result
       case None => Leads(pc) == Some(c) && !pc.Withdraw?
       case Some(out) => (pc == Withdraw(c, out) || pc == Done(out, None)) && (out.Success? ==> call.path in s.seen)
  }

  /** A nil result means the file was seen; a follower's result is its leader's. */
  ghost predicate ResultOk(s: State, i: nat)
    requires i < |s.threads|
  {
    var t := s.threads[i];
    match t.pc
    case Wait(c) => c < |s.calls| && s.calls[c].path == t.path
    case DropSerial(_, out) => out.Success? ==> t.path in s.seen
    case Publish(_, out) => out.Success? ==> t.path in s.seen
    case Withdraw(_, out) => out.Success? ==> t.path in s.seen
    case Done(out, followed) =>
      && (out.Success? ==> t.path in s.seen)
      && (followed.Some? ==>
        var c := followed.value;
        && c < |s.calls| && s.calls[c].path == t.path && s.calls[c].result.Some?
        && (out.Success? <==> s.calls[c].result.value.Success?))
    case _ => true
  }

  ghost predicate Inv(s: State) {
    && (s.serial.Some? ==> s.serial.value < |s.threads|)
    && (forall i :: 0 <= i < |s.threads| ==> LeaderOk(s, i))
    && (forall i :: 0 <= i < |s.threads| ==> ResultOk(s, i))
    && (forall p :: p in s.inFlight ==> EntryOk(s, p))
    && (forall c :: 0 <= c < |s.calls| ==> CallOk(s, c))
  }

  lemma InitialInv(s: State)
    requires Initial(s)
    ensures Inv(s)
  {
  }

  /** Only files, puts and (growing) seen may differ. */
  predicate SameTables(s: State, t: State) {
    t == s.(files := t.files, puts := t.puts, seen := t.seen) && s.seen <= t.seen
  }

  lemma TablesKeepInv(s: State, t: State)
    requires Inv(s) && SameTables(s, t)
    ensures Inv(t)
  {
    forall i | 0 <= i < |t.threads| ensures LeaderOk(t, i) && ResultOk(t, i) {
      assert LeaderOk(s, i) && ResultOk(s, i);
    }
    forall p | p in t.inFlight ensures EntryOk(t, p) {
      assert EntryOk(s, p);
    }
    forall c | 0 <= c < |t.calls| ensures CallOk(t, c) {
      assert CallOk(s, c);
    }
  }

  /** Moves that touch no table: same call led, same lock held, nothing published. */
  predicate LocalMove(pc: Pc, to: Pc) {
    && Leads(to) == Leads(pc) && (HoldsSerial(to) <==> HoldsSerial(pc))
    && !pc.Withdraw? && !to.Withdraw? && !pc.Done?
    && (to.Putting? ==> 1 <= to.attempt <= MAX_ATTEMPTS)
    && (to.Backoff? ==> 1 <= to.attempt < MAX_ATTEMPTS)
  }

  lemma LocalMoveKeepsInv(s: State, i: nat, to: Pc)
    requires Inv(s) && i < |s.threads| && LocalMove(s.threads[i].pc, to) && ResultOk(At(s, i, to), i)
    ensures Inv(At(s, i, to))
  {
    var t := At(s, i, to);
    forall j | 0 <= j < |t.threads| ensures LeaderOk(t, j) && ResultOk(t, j) {
      assert LeaderOk(s, j) && ResultOk(s, j);
    }
    forall p | p in t.inFlight ensures EntryOk(t, p) {
      assert EntryOk(s, p);
    }
    forall c | 0 <= c < |t.calls| ensures CallOk(t, c) {
      assert CallOk(s, c);
    }
  }

  lemma EnterKeepsInv(s: State, i: nat)
    requires Inv(s) && i < |s.threads| && s.threads[i].pc == Enter && s.threads[i].path !in s.inFlight
    ensures Inv(ThreadStep(s, i, Normal))
  {
    var t := ThreadStep(s, i, Normal);
    var p := s.threads[i].path;
    assert t.calls[|s.calls|] == Call(p, i, None);
    forall j | 0 <= j < |t.threads| ensures LeaderOk(t, j) && ResultOk(t, j) {
      assert LeaderOk(s, j) && ResultOk(s, j);
    }
    forall q | q in t.inFlight ensures EntryOk(t, q) {
      if q != p {
        assert EntryOk(s, q);
      }
    }
    forall c | 0 <= c < |t.calls| ensures CallOk(t, c) {
      if c < |s.calls| {
        assert CallOk(s, c);
      }
    }
  }

  /** Taking or dropping the serial lock. */
  lemma SerialMoveKeepsInv(s: State, i: nat, to: Pc, serial: Option<nat>)
    requires Inv(s) && i < |s.threads| && Leads(s.threads[i].pc).Some? && Leads(to) == Leads(s.threads[i].pc)
    requires !s.threads[i].pc.Withdraw? && !to.Withdraw? && !to.Putting? && !to.Backoff?
    requires if HoldsSerial(to) then s.serial == None && serial == Some(i) else s.serial == Some(i) && serial == None
    requires ResultOk(At(s, i, to), i)
    ensures Inv(At(s, i, to).(serial := serial))
  {
    var t := At(s, i, to).(serial := serial);
    forall j | 0 <= j < |t.threads| ensures LeaderOk(t, j) && ResultOk(t, j) {
      assert LeaderOk(s, j) && ResultOk(s, j);
    }
    forall p | p in t.inFlight ensures EntryOk(t, p) {
      assert EntryOk(s, p);
    }
    forall c | 0 <= c < |t.calls| ensures CallOk(t, c) {
      assert CallOk(s, c);
    }
  }

  lemma PublishKeepsInv(s: State, i: nat, event: Event)
    requires Inv(s) && i < |s.threads| && s.threads[i].pc.Publish?
    ensures Inv(ThreadStep(s, i, event))
  {
    hide BeforePut;
    var t := ThreadStep(s, i, event);
    var c0 := s.threads[i].pc.call;
    assert LeaderOk(s, i) && ResultOk(s, i);
    forall j | 0 <= j < |t.threads| ensures LeaderOk(t, j) && ResultOk(t, j) {
      assert LeaderOk(s, j) && ResultOk(s, j);
      assert CallOk(s, c0);
    }
    forall p | p in t.inFlight ensures EntryOk(t, p) {
      assert EntryOk(s, p);
    }
    forall c | 0 <= c < |t.calls| ensures CallOk(t, c) {
      assert CallOk(s, c);
    }
  }

  /** The leader removes its own entry and no other. */
  lemma WithdrawKeepsInv(s: State, i: nat, event: Event)
    requires Inv(s) && i < |s.threads| && s.threads[i].pc.Withdraw?
    ensures Inv(ThreadStep(s, i, event))
  {
    hide BeforePut;
    var t := ThreadStep(s, i, event);
    var p0 := s.threads[i].path;
    assert LeaderOk(s, i) && ResultOk(s, i) && EntryOk(s, p0);
    forall j | 0 <= j < |t.threads| ensures LeaderOk(t, j) && ResultOk(t, j) {
      assert LeaderOk(s, j) && ResultOk(s, j);
    }
    forall p | p in t.inFlight ensures EntryOk(t, p) {
      assert EntryOk(s, p);
    }
    forall c | 0 <= c < |t.calls| ensures CallOk(t, c) {
      assert CallOk(s, c);
    }
  }

  lemma CheckKeepsInv(s: State, i: nat, event: Event, present: Pc, absent: Pc, failed: Pc)
    requires Inv(s) && i < |s.threads|
    requires LocalMove(s.threads[i].pc, present) && LocalMove(s.threads[i].pc, absent)
    requires LocalMove(s.threads[i].pc, failed)
    requires var x := Saw(s, s.threads[i].path); ResultOk(At(x, i, present), i)
    requires ResultOk(At(s, i, absent), i) && ResultOk(At(s, i, failed), i)
    ensures Inv(Check(s, i, event, present, absent, failed))
  {
    if event != Normal {
      LocalMoveKeepsInv(s, i, failed);
    } else if s.threads[i].path in s.files {
      TablesKeepInv(s, Saw(s, s.threads[i].path));
      LocalMoveKeepsInv(Saw(s, s.threads[i].path), i, present);
    } else {
      LocalMoveKeepsInv(s, i, absent);
    }
  }

  lemma WaitKeepsInv(s: State, i: nat, event: Event)
    requires Inv(s) && Enabled(s, i, event) && (s.threads[i].pc.Wait? || s.threads[i].pc.Enter?)
    ensures Inv(ThreadStep(s, i, event))
  {
    assert ResultOk(s, i);
    if s.threads[i].pc.Wait? {
      if event != Cancelled {
        assert CallOk(s, s.threads[i].pc.call);
      }
      var to := ThreadStep(s, i, event).threads[i].pc;
      LocalMoveKeepsInv(s, i, to);
    } else if s.threads[i].path in s.inFlight {
      assert EntryOk(s, s.threads[i].path);
      LocalMoveKeepsInv(s, i, Wait(s.inFlight[s.threads[i].path]));
    } else {
      EnterKeepsInv(s, i);
    }
  }

  lemma PutKeepsInv(s: State, i: nat, event: Event)
    requires Inv(s) && Enabled(s, i, event)
    requires s.threads[i].pc.Prepare? || s.threads[i].pc.Putting? || s.threads[i].pc.Backoff?
    ensures Inv(ThreadStep(s, i, event))
  {
    assert LeaderOk(s, i);
    var t := ThreadStep(s, i, event);
    LocalMoveKeepsInv(s, i, t.threads[i].pc);
    TablesKeepInv(At(s, i, t.threads[i].pc), t);
  }

  lemma ThreadOk(s: State, i: nat)
    requires Inv(s) && i < |s.threads|
    ensures LeaderOk(s, i) && ResultOk(s, i)
  {
  }

  lemma ThreadStepKeepsInv(s: State, i: nat, event: Event)
    requires Inv(s) && Enabled(s, i, event)
    ensures Inv(ThreadStep(s, i, event))
  {
    hide Inv;
    ThreadOk(s, i);
    match s.threads[i].pc
    case FirstCheck => CheckKeepsInv(s, i, event, Done(Success(false), None), Enter, Done(Failure, None));
    case Enter => WaitKeepsInv(s, i, event);
    case Wait(c) => WaitKeepsInv(s, i, event);
    case TakeSerial(c) => SerialMoveKeepsInv(s, i, Recheck(c), Some(i));
    case Recheck(c) => CheckKeepsInv(s, i, event, DropSerial(c, Success(false)), Prepare(c), DropSerial(c, Failure));
    case Prepare(c) => PutKeepsInv(s, i, event);
    case Putting(c, k) => PutKeepsInv(s, i, event);
    case Backoff(c, k) => PutKeepsInv(s, i, event);
    case Confirm(c) => CheckKeepsInv(s, i, event, DropSerial(c, Success(true)), DropSerial(c, Failure),
        DropSerial(c, Failure));
    case DropSerial(c, out) => SerialMoveKeepsInv(s, i, Publish(c, out), None);
    case Publish(c, out) => PublishKeepsInv(s, i, event);
    case Withdraw(c, out) => WithdrawKeepsInv(s, i, event);
  }

  /** In every run of any number of threads the single-flight invariant holds throughout. */
  lemma {:induction false} AlwaysInv(states: seq<State>, actions: seq<Action>, n: nat)
    requires Run(states, actions) && n < |states|
    ensures Inv(states[n])
  {
    if n == 0 {
      InitialInv(states[0]);
    } else {
      AlwaysInv(states, actions, n - 1);
      if actions[n - 1].Act? {
        ThreadStepKeepsInv(states[n - 1], actions[n - 1].i, actions[n - 1].event);
      } else {
        TablesKeepInv(states[n - 1], states[n]);
      }
    }
  }

  /** What the invariant means: the entry of a path is there exactly while one thread leads
      it, nobody else leads that path, and at most one thread is between taking and
      releasing the serial lock. */
  lemma SingleFlight(s: State, i: nat, j: nat)
    requires Inv(s) && i < |s.threads| && j < |s.threads|
    ensures Leads(s.threads[i].pc).Some? ==>
              s.threads[i].path in s.inFlight && s.inFlight[s.threads[i].path] == Leads(s.threads[i].pc).value
    ensures Leads(s.threads[i].pc).Some? && Leads(s.threads[j].pc).Some? && s.threads[i].path == s.threads[j].path ==>
              i == j
    ensures HoldsSerial(s.threads[i].pc) && HoldsSerial(s.threads[j].pc) ==> i == j
    ensures forall p :: p in s.inFlight ==>
              exists l :: 0 <= l < |s.threads| && s.threads[l].path == p
                  && Leads(s.threads[l].pc) == Some(s.inFlight[p])
  {
    assert LeaderOk(s, i) && LeaderOk(s, j);
    forall p | p in s.inFlight
      ensures exists l :: 0 <= l < |s.threads| && s.threads[l].path == p
                && Leads(s.threads[l].pc) == Some(s.inFlight[p])
    {
      assert EntryOk(s, p);
      var l := s.calls[s.inFlight[p]].leader;
      assert LeaderOk(s, l);
      assert s.threads[l].path == p;
    }
  }

  /** A thread that returned nil did so after the file was seen; one that followed a leader
      got nil exactly when that leader, on the same path, returned nil. */
  lemma NilMeansSeen(s: State, i: nat)
    requires Inv(s) && i < |s.threads| && s.threads[i].pc.Done?
    ensures s.threads[i].pc.out.Success? ==> s.threads[i].path in s.seen
    ensures s.threads[i].pc.followed.Some? ==>
              var c := s.threads[i].pc.followed.value;
              && c < |s.calls| && s.calls[c].leader < |s.threads|
              && s.threads[s.calls[c].leader].path == s.threads[i].path
              && exists out :: s.threads[s.calls[c].leader].pc in {Withdraw(c, out), Done(out, None)}
                               && (out.Success? <==> s.threads[i].pc.out.Success?)
  {
    assert ResultOk(s, i);
    if s.threads[i].pc.followed.Some? {
      var c := s.threads[i].pc.followed.value;
      assert CallOk(s, c);
    }
  }

  // ---------------------------------------------------------------- no path is PUT twice

  predicate BeforePut(pc: Pc) {
    pc.Prepare? || pc.Putting? || pc.Backoff?
  }

  ghost predicate PutOnce(s: State) {
    && (forall k :: 0 <= k < |s.puts| ==> s.puts[k] in s.files)
    && (forall k, l :: 0 <= k < l < |s.puts| ==> s.puts[k] != s.puts[l])
    && (forall i :: 0 <= i < |s.threads| && BeforePut(s.threads[i].pc) ==> s.threads[i].path !in s.puts)
  }

  /** What a step does to the files and to the record of PUTs. */
  lemma StepPuts(s: State, i: nat, event: Event)
    requires Enabled(s, i, event)
    ensures var t := ThreadStep(s, i, event);
            && |t.threads| == |s.threads| && t.threads[i].path == s.threads[i].path && s.files <= t.files
            && (forall j :: 0 <= j < |s.threads| && j != i ==> t.threads[j] == s.threads[j])
            && (t.puts == s.puts || (s.threads[i].pc.Putting? && !BeforePut(t.threads[i].pc)
                                     && t.puts == s.puts + [s.threads[i].path] && s.threads[i].path in t.files))
            && (BeforePut(t.threads[i].pc) && !BeforePut(s.threads[i].pc) ==>
                s.threads[i].path !in s.files && t.puts == s.puts)
  {
  }

  /** Two threads between their check and their PUT cannot both hold the serial lock. */
  lemma OnePutter(s: State, i: nat, j: nat)
    requires Inv(s) && i < |s.threads| && j < |s.threads| && i != j
    ensures !(BeforePut(s.threads[i].pc) && BeforePut(s.threads[j].pc))
  {
    assert LeaderOk(s, i) && LeaderOk(s, j);
  }

  lemma StepKeepsPutOnce(s: State, i: nat, event: Event)
    requires Inv(s) && PutOnce(s) && Enabled(s, i, event)
    ensures PutOnce(ThreadStep(s, i, event))
  {
    hide Inv, ThreadStep;
    var t := ThreadStep(s, i, event);
    StepPuts(s, i, event);
    forall j | 0 <= j < |t.threads| && BeforePut(t.threads[j].pc)
      ensures t.threads[j].path !in t.puts
    {
      if j != i && BeforePut(s.threads[i].pc) {
        OnePutter(s, i, j);
      }
    }
  }

  /** As long as nobody else removes files, no datastore path is successfully PUT twice,
      however first checks, retries and leaders interleave. */
  lemma {:induction false} NoPathPutTwice(states: seq<State>, actions: seq<Action>, n: nat)
    requires Run(states, actions) && n < |states|
    requires forall k :: 0 <= k < |actions| ==> !actions[k].Vanish?
    ensures PutOnce(states[n])
  {
    if n > 0 {
      NoPathPutTwice(states, actions, n - 1);
      AlwaysInv(states, actions, n - 1);
      if actions[n - 1].Act? {
        StepKeepsPutOnce(states[n - 1], actions[n - 1].i, actions[n - 1].event);
      }
    }
  }

  // ---------------------------------------------------------------- progress

  predicate Unfinished(s: State, i: nat) {
    i < |s.threads| && !s.threads[i].pc.Done?
  }

  /** No deadlock: while a thread is unfinished, some thread can step, without anybody
      giving up. */
  lemma SomeThreadCanStep(s: State, i: nat) returns (j: nat)
    requires Inv(s) && Unfinished(s, i)
    ensures Unfinished(s, j) && Enabled(s, j, Normal)
  {
    j := i;
    assert LeaderOk(s, i) && ResultOk(s, i);
    if s.threads[i].pc.Wait? {
      var c := s.threads[i].pc.call;
      assert CallOk(s, c);
      if s.calls[c].result.None? {
        j := s.calls[c].leader;
      }
    }
    if s.threads[j].pc.TakeSerial? && s.serial.Some? {
      j := s.serial.value;
      assert LeaderOk(s, j);
    }
  }

  /** Steps a thread has left at most. */
  function Rank(pc: Pc): nat {
    match pc
    case FirstCheck => 19
    case Enter => 18
    case TakeSerial(_) => 17
    case Recheck(_) => 16
    case Prepare(_) => 15
    case Putting(_, k) => if k <= MAX_ATTEMPTS then 6 + 2 * (MAX_ATTEMPTS - k) + 1 else 7
    case Backoff(_, k) => if k <= MAX_ATTEMPTS then 6 + 2 * (MAX_ATTEMPTS - k) else 6
    case Confirm(_) => 5
    case DropSerial(_, _) => 4
    case Publish(_, _) => 3
    case Withdraw(_, _) => 2
    case Wait(_) => 1
    case Done(_, _) => 0
  }

  function TotalRank(threads: seq<Thread>): nat {
    if threads == [] then 0 else Rank(threads[0].pc) + TotalRank(threads[1..])
  }

  lemma {:induction false} TotalRankUpdate(threads: seq<Thread>, i: nat, t: Thread)
    requires i < |threads|
    ensures TotalRank(threads[i := t]) == TotalRank(threads) - Rank(threads[i].pc) + Rank(t.pc)
  {
    if i == 0 {
      assert threads[0 := t][1..] == threads[1..];
    } else {
      TotalRankUpdate(threads[1..], i - 1, t);
      assert threads[i := t][1..] == threads[1..][i - 1 := t];
    }
  }

  lemma StepMovesOneThread(s: State, i: nat, event: Event)
    requires Enabled(s, i, event)
    ensures var t := ThreadStep(s, i, event); i < |t.threads| && t.threads == s.threads[i := t.threads[i]]
  {
  }

  lemma ThreadRankDrops(s: State, i: nat, event: Event)
    requires Enabled(s, i, event) && LeaderOk(s, i)
    ensures i < |ThreadStep(s, i, event).threads|
    ensures Rank(ThreadStep(s, i, event).threads[i].pc) < Rank(s.threads[i].pc)
  {
  }

  lemma StepLowersRank(s: State, i: nat, event: Event)
    requires Inv(s) && Enabled(s, i, event)
    ensures TotalRank(ThreadStep(s, i, event).threads) < TotalRank(s.threads)
  {
    ThreadRankDrops(s, i, event);
    StepMovesOneThread(s, i, event);
    TotalRankUpdate(s.threads, i, ThreadStep(s, i, event).threads[i]);
  }

  function ThreadSteps(actions: seq<Action>): nat {
    if actions == [] then 0 else
    ThreadSteps(actions[..|actions| - 1]) + if actions[|actions| - 1].Act? then 1 else 0
  }

  lemma {:induction false} InitialRank(threads: seq<Thread>)
    requires forall i :: 0 <= i < |threads| ==> threads[i].pc == FirstCheck
    ensures TotalRank(threads) == 19 * |threads|
  {
    if threads != [] {
      InitialRank(threads[1..]);
    }
  }

  /** Every run is finite in thread steps: at most 19 for each thread. With no deadlock,
      every run that is carried on ends with all threads done, whatever the scheduler. */
  lemma {:induction false} RunsAreBounded(states: seq<State>, actions: seq<Action>)
    requires Run(states, actions)
    ensures ThreadSteps(actions) + TotalRank(states[|actions|].threads) <= 19 * |states[0].threads|
    ensures ThreadSteps(actions) <= 19 * |states[0].threads|
  {
    var n := |actions|;
    if n == 0 {
      InitialRank(states[0].threads);
    } else {
      var a := actions[n - 1];
      assert Run(states[..n], actions[..n - 1]);
      RunsAreBounded(states[..n], actions[..n - 1]);
      AlwaysInv(states, actions, n - 1);
      assert states[n] == Next(states[n - 1], a);
      if a.Act? {
        StepLowersRank(states[n - 1], a.i, a.event);
      }
    }
  }
}
