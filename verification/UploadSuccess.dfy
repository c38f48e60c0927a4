/** What the upload protocol achieves: who succeeds, and that a missing file is uploaded once. */
module UploadSuccess {
  import opened Records
  import opened Upload

  // ---------------------------------------------------------------- one thread

  /** How often the thread was told to try again later. */
  function Transients(actions: seq<Action>, i: nat): nat {
    if actions == [] then 0 else
    var n := |actions| - 1;
    Transients(actions[..n], i) + if actions[n].Act? && actions[n].i == i && actions[n].event == Transient then 1 else 0
  }

  /** Nothing goes wrong for the thread but at most three transient answers to its PUTs. */
  ghost predicate Lucky(states: seq<State>, actions: seq<Action>, i: nat)
    requires |states| == |actions| + 1
  {
    && Transients(actions, i) <= 3
    && forall k :: 0 <= k < |actions| && actions[k].Act? && actions[k].i == i ==>
         || actions[k].event == Normal
         || (actions[k].event == Transient && i < |states[k].threads| && states[k].threads[i].pc.Putting?)
  }

  ghost predicate NobodyRemoves(actions: seq<Action>) {
    forall k :: 0 <= k < |actions| ==> !actions[k].Vanish?
  }

  /** Where a lucky thread can be after so many transient answers. */
  predicate OnCourse(s: State, i: nat, transients: nat)
    requires i < |s.threads|
  {
    var here := s.threads[i].path in s.files;
    match s.threads[i].pc
    case Putting(_, k) => k == transients + 1
    case Backoff(_, k) => k == transients
    case Confirm(_) => here
    case DropSerial(_, out) => out.Success? && here
    case Publish(_, out) => out.Success? && here
    case Withdraw(_, out) => out.Success? && here
    case Done(out, followed) => followed.None? ==> out.Success? && here
    case _ => transients == 0
  }

  lemma StepOnCourse(s: State, i: nat, event: Event, transients: nat)
    requires Enabled(s, i, event) && OnCourse(s, i, transients) && !s.threads[i].pc.Done?
    requires event == Normal || (event == Transient && s.threads[i].pc.Putting? && transients < 3)
    ensures var t := ThreadStep(s, i, event);
            i < |t.threads| && OnCourse(t, i, transients + if event == Transient then 1 else 0)
  {
  }

  /** What others do neither moves the thread nor takes its file away. */
  lemma OthersKeepCourse(s: State, a: Action, i: nat, transients: nat)
    requires Possible(s, a) && i < |s.threads| && OnCourse(s, i, transients)
    requires !a.Vanish? && !(a.Act? && a.i == i)
    ensures i < |Next(s, a).threads| && OnCourse(Next(s, a), i, transients)
    ensures Next(s, a).threads[i] == s.threads[i]
  {
    if a.Act? {
      StepPuts(s, a.i, a.event);
    }
  }

  lemma RunPart(states: seq<State>, actions: seq<Action>, n: nat)
    requires Run(states, actions) && n <= |actions|
    ensures Run(states[..n + 1], actions[..n])
  {
    hide Next;
  }

  lemma LuckyPart(states: seq<State>, actions: seq<Action>, i: nat)
    requires |states| == |actions| + 1 && actions != [] && Lucky(states, actions, i)
    ensures Lucky(states[..|actions|], actions[..|actions| - 1], i)
  {
  }

  lemma {:induction false} SameThreads(states: seq<State>, actions: seq<Action>)
    requires Run(states, actions)
    ensures |states[|actions|].threads| == |states[0].threads|
    ensures forall i :: 0 <= i < |states[0].threads| ==> states[|actions|].threads[i].path == states[0].threads[i].path
  {
    if actions != [] {
      var n := |actions| - 1;
      RunPart(states, actions, n);
      SameThreads(states[..n + 1], actions[..n]);
      if actions[n].Act? {
        StepPuts(states[n], actions[n].i, actions[n].event);
      }
    }
  }

  lemma {:induction false} LuckyStaysOnCourse(states: seq<State>, actions: seq<Action>, i: nat)
    requires Run(states, actions) && NobodyRemoves(actions) && Lucky(states, actions, i) && i < |states[0].threads|
    ensures i < |states[|actions|].threads| && OnCourse(states[|actions|], i, Transients(actions, i))
  {
    SameThreads(states, actions);
    if actions != [] {
      var n := |actions| - 1;
      var s, a := states[n], actions[n];
      RunPart(states, actions, n);
      LuckyPart(states, actions, i);
      LuckyStaysOnCourse(states[..n + 1], actions[..n], i);
      hide OnCourse, ThreadStep, Run;
      if a.Act? && a.i == i {
        StepOnCourse(s, i, a.event, Transients(actions[..n], i));
      } else {
        OthersKeepCourse(s, a, i, Transients(actions[..n], i));
      }
    }
  }

  /** A thread that does the work itself succeeds, whatever happens to the others, when its own
      calls go well; up to three transient answers to its PUTs are overcome. */
  lemma LeaderSucceeds(states: seq<State>, actions: seq<Action>, i: nat)
    requires Run(states, actions) && NobodyRemoves(actions) && Lucky(states, actions, i) && i < |states[0].threads|
    ensures var s := states[|actions|];
            && i < |s.threads|
            && (s.threads[i].pc.Done? && s.threads[i].pc.followed.None? ==>
              s.threads[i].pc.out.Success? && s.threads[i].path in s.files)
  {
    LuckyStaysOnCourse(states, actions, i);
  }

  // ---------------------------------------------------------------- all threads of one path

  ghost predicate AllLucky(states: seq<State>, actions: seq<Action>, path: string)
    requires |states| == |actions| + 1
  {
    forall i :: 0 <= i < |states[0].threads| && states[0].threads[i].path == path ==> Lucky(states, actions, i)
  }

  /** When all goes well for the threads of a path, each of them that is done succeeded, leader or
      follower, and the file is on the datastore. */
  lemma EveryoneSucceeds(states: seq<State>, actions: seq<Action>, i: nat)
    requires Run(states, actions) && NobodyRemoves(actions) && i < |states[0].threads|
    requires AllLucky(states, actions, states[0].threads[i].path)
    ensures var s := states[|actions|];
            && i < |s.threads|
            && (s.threads[i].pc.Done? ==> s.threads[i].pc.out.Success? && s.threads[i].path in s.files)
  {
    var s := states[|actions|];
    SameThreads(states, actions);
    LeaderSucceeds(states, actions, i);
    AlwaysInv(states, actions, |actions|);
    if s.threads[i].pc.Done? && s.threads[i].pc.followed.Some? {
      NilMeansSeen(s, i);
      var c := s.threads[i].pc.followed.value;
      LuckyStaysOnCourse(states, actions, s.calls[c].leader);
    }
  }

  // ---------------------------------------------------------------- exactly one upload

  /** The thread's own PUT went through. */
  predicate Uploaded(pc: Pc) {
    match pc
    case Confirm(_) => true
    case DropSerial(_, out) => out == Success(true)
    case Publish(_, out) => out == Success(true)
    case Withdraw(_, out) => out == Success(true)
    case Done(out, _) => out == Success(true)
    case _ => false
  }

  ghost predicate OneUploader(s: State) {
    && (forall i :: 0 <= i < |s.threads| && Uploaded(s.threads[i].pc) ==> s.threads[i].path in s.puts)
    && (forall i, j :: 0 <= i < j < |s.threads| && Uploaded(s.threads[i].pc) && Uploaded(s.threads[j].pc) ==>
         s.threads[i].path != s.threads[j].path)
  }

  /** A thread is credited with an upload only by its PUT. */
  lemma StepUploads(s: State, i: nat, event: Event)
    requires Enabled(s, i, event)
    ensures var t := ThreadStep(s, i, event);
            && i < |t.threads| && s.puts <= t.puts
            && (Uploaded(t.threads[i].pc) && !Uploaded(s.threads[i].pc) ==>
              BeforePut(s.threads[i].pc) && t.puts == s.puts + [s.threads[i].path])
            && (t.puts != s.puts ==> t.puts == s.puts + [s.threads[i].path] && Uploaded(t.threads[i].pc))
  {
  }

  lemma StepKeepsOneUploader(s: State, i: nat, event: Event)
    requires PutOnce(s) && OneUploader(s) && Enabled(s, i, event)
    ensures OneUploader(ThreadStep(s, i, event))
  {
    hide ThreadStep;
    StepUploads(s, i, event);
    StepPuts(s, i, event);
  }

  /** As long as nobody removes files, at most one thread for each path reports an upload, and what
      it reports was PUT. */
  lemma {:induction false} AtMostOneUploads(states: seq<State>, actions: seq<Action>)
    requires Run(states, actions) && NobodyRemoves(actions)
    ensures OneUploader(states[|actions|])
  {
    if actions != [] {
      var n := |actions| - 1;
      RunPart(states, actions, n);
      AtMostOneUploads(states[..n + 1], actions[..n]);
      NoPathPutTwice(states, actions, n);
      hide PutOnce, ThreadStep;
      if actions[n].Act? {
        StepKeepsOneUploader(states[n], actions[n].i, actions[n].event);
      }
    }
  }

  /** Some thread of the path is credited with the upload. */
  ghost predicate Credited(s: State, path: string) {
    exists i :: 0 <= i < |s.threads| && s.threads[i].path == path && Uploaded(s.threads[i].pc)
  }

  ghost predicate NobodyElseUploads(actions: seq<Action>, path: string) {
    forall k :: 0 <= k < |actions| ==> actions[k] != Appear(path)
  }

  /** What is on the datastore under the path came from a PUT that somebody is credited with. */
  lemma {:induction false} FileIsCredited(states: seq<State>, actions: seq<Action>, path: string)
    requires Run(states, actions) && NobodyRemoves(actions) && NobodyElseUploads(actions, path)
    requires AllLucky(states, actions, path) && path !in states[0].files
    ensures path in states[|actions|].files ==> Credited(states[|actions|], path)
  {
    if actions != [] {
      var n := |actions| - 1;
      var s, a := states[n], actions[n];
      RunPart(states, actions, n);
      forall i | 0 <= i < |states[0].threads| && states[0].threads[i].path == path
        ensures Lucky(states[..n + 1], actions[..n], i)
      {
        LuckyPart(states, actions, i);
      }
      FileIsCredited(states[..n + 1], actions[..n], path);
      SameThreads(states[..n + 1], actions[..n]);
      if a.Act? && s.threads[a.i].path == path {
        LuckyStaysOnCourse(states[..n + 1], actions[..n], a.i);
        StepKeepsCredit(s, a.i, a.event, path, Transients(actions[..n], a.i));
      } else {
        OthersKeepCredit(s, a, path);
      }
    }
  }

  lemma StepKeepsCredit(s: State, i: nat, event: Event, path: string, transients: nat)
    requires Enabled(s, i, event) && s.threads[i].path == path && OnCourse(s, i, transients)
    requires event == Normal || (event == Transient && s.threads[i].pc.Putting?)
    requires path in s.files ==> Credited(s, path)
    ensures path in ThreadStep(s, i, event).files ==> Credited(ThreadStep(s, i, event), path)
  {
    var t := ThreadStep(s, i, event);
    StepPuts(s, i, event);
    if path in s.files {
      var j :| 0 <= j < |s.threads| && s.threads[j].path == path && Uploaded(s.threads[j].pc);
      assert t.threads[j].path == path && Uploaded(t.threads[j].pc);
    } else if path in t.files {
      assert t.threads[i].path == path && Uploaded(t.threads[i].pc);
    }
  }

  lemma OthersKeepCredit(s: State, a: Action, path: string)
    requires Possible(s, a) && !a.Vanish? && a != Appear(path) && (a.Act? ==> s.threads[a.i].path != path)
    requires path in s.files ==> Credited(s, path)
    ensures path in Next(s, a).files ==> Credited(Next(s, a), path)
  {
    var t := Next(s, a);
    if path in s.files {
      var j :| 0 <= j < |s.threads| && s.threads[j].path == path && Uploaded(s.threads[j].pc);
      if a.Act? {
        StepPuts(s, a.i, a.event);
      }
      assert t.threads[j] == s.threads[j];
    }
  }

  /** A file that is missing at the start and that somebody asks for is uploaded, by exactly one
      of the threads that ask for it; the others are told that it is there. */
  lemma ExactlyOneUploads(states: seq<State>, actions: seq<Action>, path: string, asking: nat) returns (one: nat)
    requires Run(states, actions) && NobodyRemoves(actions) && NobodyElseUploads(actions, path)
    requires AllLucky(states, actions, path) && path !in states[0].files
    requires asking < |states[0].threads| && states[0].threads[asking].path == path
    requires forall i :: 0 <= i < |states[|actions|].threads| ==> states[|actions|].threads[i].pc.Done?
    ensures var s := states[|actions|];
            && path in s.files && path in s.puts && one < |s.threads| && s.threads[one].path == path
            && forall i :: 0 <= i < |s.threads| && s.threads[i].path == path ==>
                 s.threads[i].pc.out == Success(i == one)
  {
    var s := states[|actions|];
    SameThreads(states, actions);
    EveryoneSucceeds(states, actions, asking);
    FileIsCredited(states, actions, path);
    AtMostOneUploads(states, actions);
    one :| 0 <= one < |s.threads| && s.threads[one].path == path && Uploaded(s.threads[one].pc);
    forall i | 0 <= i < |s.threads| && s.threads[i].path == path
      ensures s.threads[i].pc.out == Success(i == one)
    {
      EveryoneSucceeds(states, actions, i);
    }
  }

  /** A file that is there from the start is never PUT. */
  lemma {:induction false} PresentIsNotPut(states: seq<State>, actions: seq<Action>, path: string)
    requires Run(states, actions) && NobodyRemoves(actions) && path in states[0].files
    ensures var s := states[|actions|];
            && path in s.files && path !in s.puts
            && forall i :: 0 <= i < |s.threads| && s.threads[i].path == path ==> !BeforePut(s.threads[i].pc)
  {
    if actions != [] {
      var n := |actions| - 1;
      RunPart(states, actions, n);
      PresentIsNotPut(states[..n + 1], actions[..n], path);
      hide ThreadStep;
      if actions[n].Act? {
        StepPuts(states[n], actions[n].i, actions[n].event);
      }
    }
  }

  // ---------------------------------------------------------------- every run can be finished

  /** From wherever a run is, there is a way on, with nothing going wrong, to all threads being done. */
  lemma {:induction false} CanFinish(states: seq<State>, actions: seq<Action>)
    returns (longer: seq<State>, more: seq<Action>)
    requires Run(states, actions)
    ensures Run(longer, actions + more) && states <= longer
    ensures forall k :: 0 <= k < |more| ==> more[k].Act? && more[k].event == Normal
    ensures var s := longer[|actions + more|]; forall i :: 0 <= i < |s.threads| ==> s.threads[i].pc.Done?
    decreases TotalRank(states[|actions|].threads)
  {
    var s := states[|actions|];
    longer, more := states, [];
    assert actions + [] == actions;
    AlwaysInv(states, actions, |actions|);
    if i :| 0 <= i < |s.threads| && !s.threads[i].pc.Done? {
      hide Inv, ThreadStep;
      var j := SomeThreadCanStep(s, i);
      StepLowersRank(s, j, Normal);
      var a := Act(j, Normal);
      longer, more := CanFinish(states + [Next(s, a)], actions + [a]);
      assert actions + [a] + more == actions + ([a] + more);
      more := [a] + more;
    }
  }
}
