/** The activity bus: a ring shifted in place, and a client polling it by cursor. */
module Bus {

  datatype Event = Event(id: int, channel: string, level: string, op: string, message: string, dryRun: bool)

  // ---------------------------------------------------------------- the unbounded log

  /** Events are numbered from 1 in the order they were emitted. */
  ghost predicate Numbered(log: seq<Event>) {
    forall i :: 0 <= i < |log| ==> log[i].id == i + 1
  }

  ghost predicate Increasing(s: seq<Event>) {
    forall i, j :: 0 <= i < j < |s| ==> s[i].id < s[j].id
  }

  function Evicted(log: seq<Event>, cap: nat): seq<Event> {
    log[..if |log| <= cap then 0 else |log| - cap]
  }

  /** What a ring of the given capacity holds of the log. */
  function Kept(log: seq<Event>, cap: nat): seq<Event> {
    log[if |log| <= cap then 0 else |log| - cap..]
  }

  predicate Wanted(e: Event, a: int, b: int, ch: string) {
    a < e.id <= b && (ch == "" || e.channel == ch)
  }

  /** The events of a channel with ids above a and up to b. */
  function Pick(s: seq<Event>, a: int, b: int, ch: string): (r: seq<Event>) {
    if s == [] then [] else
    var e := s[|s| - 1];
    Pick(s[..|s| - 1], a, b, ch) + if Wanted(e, a, b, ch) then [e] else []
  }

  function First(s: seq<Event>, n: nat): seq<Event> {
    if |s| <= n then s else s[..n]
  }

  function Newest(s: seq<Event>, n: nat): seq<Event> {
    if |s| <= n then s else s[|s| - n..]
  }

  function SinceLimit(limit: int, cap: nat): nat {
    if limit <= 0 || limit > cap then cap else limit
  }

  function SnapshotLimit(limit: int): nat {
    if limit <= 0 then 200 else limit
  }

  lemma {:induction false} PickConcat(s: seq<Event>, t: seq<Event>, a: int, b: int, ch: string)
    ensures Pick(s + t, a, b, ch) == Pick(s, a, b, ch) + Pick(t, a, b, ch)
  {
    if t == [] {
      assert s + t == s;
    } else {
      assert (s + t)[..|s + t| - 1] == s + t[..|t| - 1];
      PickConcat(s, t[..|t| - 1], a, b, ch);
    }
  }

  lemma {:induction false} PickSound(s: seq<Event>, a: int, b: int, ch: string)
    ensures forall e :: e in Pick(s, a, b, ch) <==> e in s && Wanted(e, a, b, ch)
  {
    if s != [] {
      var t, e := s[..|s| - 1], s[|s| - 1];
      PickSound(t, a, b, ch);
      assert s == t + [e];
    }
  }

  lemma {:induction false} PickIncreasing(s: seq<Event>, a: int, b: int, ch: string)
    requires Increasing(s)
    ensures Increasing(Pick(s, a, b, ch))
  {
    if s != [] {
      var t, e, r := s[..|s| - 1], s[|s| - 1], Pick(s, a, b, ch);
      PickIncreasing(t, a, b, ch);
      PickSound(t, a, b, ch);
      var p := Pick(t, a, b, ch);
      forall i | 0 <= i < |p| ensures p[i].id < e.id {
        assert p[i] in p;
      }
    }
  }

  lemma PickNone(s: seq<Event>, a: int, b: int, ch: string)
    requires forall e :: e in s ==> !Wanted(e, a, b, ch)
    ensures Pick(s, a, b, ch) == []
  {
    PickSound(s, a, b, ch);
    var r := Pick(s, a, b, ch);
    assert forall i :: 0 <= i < |r| ==> r[i] in r;
  }

  /** One event after another: split a range of ids anywhere. */
  lemma {:induction false} PickSplit(s: seq<Event>, a: int, m: int, b: int, ch: string)
    requires Increasing(s) && a <= m <= b
    ensures Pick(s, a, b, ch) == Pick(s, a, m, ch) + Pick(s, m, b, ch)
  {
    if s != [] {
      var t, e := s[..|s| - 1], s[|s| - 1];
      PickSplit(t, a, m, b, ch);
      if e.id <= m {
        PickNone(t, m, b, ch);
      }
    }
  }

  lemma AllUpToLast(s: seq<Event>, a: int, b: int, ch: string)
    requires Increasing(s)
    ensures var r := Pick(s, a, b, ch);
            r != [] ==> a < r[|r| - 1].id <= b && r == Pick(s, a, r[|r| - 1].id, ch)
  {
    hide Pick, Increasing;
    var r := Pick(s, a, b, ch);
    if r != [] {
      PickSound(s, a, b, ch);
      assert r[|r| - 1] in r;
      PickSplit(s, a, r[|r| - 1].id, b, ch);
      NoneAfterLast(s, a, r[|r| - 1].id, b, ch);
    }
  }

  lemma FirstOfShorter(s: seq<Event>, a: int, b: int, ch: string, n: nat)
    requires |Pick(s, a, b, ch)| > n
    ensures s != [] && First(Pick(s, a, b, ch), n) == First(Pick(s[..|s| - 1], a, b, ch), n)
  {
  }

  lemma PickBelow(s: seq<Event>, a: int, m: int, ch: string)
    requires s != [] && s[|s| - 1].id > m
    ensures Pick(s, a, m, ch) == Pick(s[..|s| - 1], a, m, ch)
  {
  }

  /** The first n of a channel are all of it up to the last of them. */
  lemma {:induction false} FirstIsAllUpTo(s: seq<Event>, a: int, b: int, ch: string, n: nat)
    requires Increasing(s) && n >= 1
    ensures var r := First(Pick(s, a, b, ch), n);
            if r == [] then Pick(s, a, b, ch) == [] else
            a < r[|r| - 1].id <= b && r == Pick(s, a, r[|r| - 1].id, ch)
  {
    hide Pick;
    AllUpToLast(s, a, b, ch);
    if |Pick(s, a, b, ch)| > n {
      FirstOfShorter(s, a, b, ch, n);
      var t := s[..|s| - 1];
      FirstIsAllUpTo(t, a, b, ch, n);
      PickSound(t, a, b, ch);
      var r := First(Pick(t, a, b, ch), n);
      assert r[|r| - 1] == Pick(t, a, b, ch)[|r| - 1];
      assert r[|r| - 1] in t;
      PickBelow(s, a, r[|r| - 1].id, ch);
    }
  }

  lemma NoneAfterLast(s: seq<Event>, a: int, m: int, b: int, ch: string)
    requires Increasing(s) && Pick(s, a, b, ch) != [] && m == Pick(s, a, b, ch)[|Pick(s, a, b, ch)| - 1].id
    ensures Pick(s, m, b, ch) == []
  {
    var all := Pick(s, a, b, ch);
    PickSound(s, a, b, ch);
    PickIncreasing(s, a, b, ch);
    assert all[|all| - 1] in all;
    forall e | e in s
      ensures !Wanted(e, m, b, ch)
    {
      if Wanted(e, a, b, ch) {
        var i :| 0 <= i < |all| && all[i] == e;
      }
    }
    PickNone(s, m, b, ch);
  }

  // ---------------------------------------------------------------- a polling client

  /** One request: the log as it was, the limit asked for, and whether it is a full reload, which
      replaces what was shown instead of adding to it. */
  datatype Poll = Poll(log: seq<Event>, limit: int, full: bool)

  function SinceAnswer(log: seq<Event>, limit: int, cap: nat, cursor: int, ch: string): seq<Event> {
    First(Pick(Kept(log, cap), cursor, |log|, ch), SinceLimit(limit, cap))
  }

  function SnapshotAnswer(log: seq<Event>, limit: int, cap: nat, ch: string): seq<Event> {
    Newest(Pick(Kept(log, cap), 0, |log|, ch), SnapshotLimit(limit))
  }

  /** What the API answers to a cursor: the oldest events past it, but the newest events of all
      when there is no cursor yet. */
  function ApiAnswer(log: seq<Event>, limit: int, cap: nat, cursor: int, ch: string): seq<Event> {
    if cursor > 0 then SinceAnswer(log, limit, cap, cursor, ch) else SnapshotAnswer(log, limit, cap, ch)
  }

  /** A full reload sends no cursor. */
  function Answer(p: Poll, cap: nat, cursor: int, ch: string): seq<Event> {
    ApiAnswer(p.log, p.limit, cap, if p.full then 0 else cursor, ch)
  }

  /** The cursor after some requests: the last id seen. */
  function Cursor(polls: seq<Poll>, cap: nat, start: int, ch: string): int {
    if polls == [] then start else
    var before := Cursor(polls[..|polls| - 1], cap, start, ch);
    var r := Answer(polls[|polls| - 1], cap, before, ch);
    if r == [] then before else r[|r| - 1].id
  }

  /** All that is shown, in order. */
  function Shown(polls: seq<Poll>, cap: nat, start: int, ch: string): seq<Event> {
    if polls == [] then [] else
    var earlier, p := polls[..|polls| - 1], polls[|polls| - 1];
    (if p.full then [] else Shown(earlier, cap, start, ch)) + Answer(p, cap, Cursor(earlier, cap, start, ch), ch)
  }

  /** Where what is shown begins: past the first cursor, or with the first event of the last reload. */
  function Base(polls: seq<Poll>, cap: nat, start: int, ch: string): int {
    if polls == [] then start else
    var earlier, p := polls[..|polls| - 1], polls[|polls| - 1];
    var r := Answer(p, cap, Cursor(earlier, cap, start, ch), ch);
    if !p.full then Base(earlier, cap, start, ch)
    else if r == [] then Cursor(earlier, cap, start, ch)
    else r[0].id - 1
  }

  /** The last poll came back empty; or nothing past its cursor had been evicted and, when it was
      sent without a cursor, what the ring still had fitted the limit. */
  predicate LostNothing(polls: seq<Poll>, cap: nat, start: int, ch: string)
    requires polls != []
  {
    var p, cursor := polls[|polls| - 1], Cursor(polls[..|polls| - 1], cap, start, ch);
    Answer(p, cap, cursor, ch) == [] || NothingMissing(p.log, p.limit, cap, cursor, ch)
  }

  predicate NothingMissing(log: seq<Event>, limit: int, cap: nat, cursor: int, ch: string) {
    && Pick(Evicted(log, cap), cursor, |log|, ch) == []
    && (cursor <= 0 ==> |Pick(Kept(log, cap), 0, |log|, ch)| <= SnapshotLimit(limit))
  }

  /** No poll since the last full reload lost anything. */
  predicate NeverLost(polls: seq<Poll>, cap: nat, start: int, ch: string) {
    || polls == []
    || polls[|polls| - 1].full
    || (NeverLost(polls[..|polls| - 1], cap, start, ch) && LostNothing(polls, cap, start, ch))
  }

  /** The log only grows between polls. */
  ghost predicate Growing(polls: seq<Poll>) {
    && (forall i :: 0 <= i < |polls| ==> Numbered(polls[i].log))
    && (forall i :: 0 < i < |polls| ==> polls[i - 1].log <= polls[i].log)
  }

  lemma NumberedIncreases(log: seq<Event>)
    requires Numbered(log)
    ensures Increasing(log)
  {
  }

  lemma KeptAndEvicted(log: seq<Event>, cap: nat)
    ensures Evicted(log, cap) + Kept(log, cap) == log
    ensures Numbered(log) ==> Increasing(Kept(log, cap)) && Increasing(Evicted(log, cap))
  {
  }

  /** Events emitted later do not change what is in a range of ids already handed out. */
  lemma LaterEventsAreAbove(log: seq<Event>, more: seq<Event>, a: int, b: int, ch: string)
    requires Numbered(more) && log <= more && b <= |log|
    ensures Pick(more, a, b, ch) == Pick(log, a, b, ch)
  {
    var rest := more[|log|..];
    assert more == log + rest;
    PickConcat(log, rest, a, b, ch);
    forall e | e in rest ensures !Wanted(e, a, b, ch) {
      var i :| 0 <= i < |rest| && rest[i] == e;
      assert more[|log| + i].id == |log| + i + 1;
    }
    PickNone(rest, a, b, ch);
  }

  lemma FirstIn(s: seq<Event>, a: int, b: int, ch: string, n: nat)
    ensures forall e :: e in First(Pick(s, a, b, ch), n) ==> e in s
  {
    PickSound(s, a, b, ch);
  }

  /** The answer of Since: the first events of the channel past the id, as many as the limit; a limit
      that makes no sense is none. */
  lemma SinceIs(log: seq<Event>, limit: int, cap: nat, after: int, ch: string)
    ensures var r, all := SinceAnswer(log, limit, cap, after, ch), Pick(Kept(log, cap), after, |log|, ch);
            && r <= all && |r| <= cap
            && (0 < limit <= cap ==> |r| == if |all| <= limit then |all| else limit)
            && (limit <= 0 || limit > cap ==> r == all)
  {
    PickIsPart(Kept(log, cap), after, |log|, ch);
  }

  lemma {:induction false} PickIsPart(s: seq<Event>, a: int, b: int, ch: string)
    ensures |Pick(s, a, b, ch)| <= |s|
  {
    if s != [] {
      PickIsPart(s[..|s| - 1], a, b, ch);
    }
  }

  /** The answer of Snapshot: the last events of the channel, as many as the limit, or 200. */
  lemma SnapshotIs(log: seq<Event>, limit: int, cap: nat, ch: string)
    ensures var r, all := SnapshotAnswer(log, limit, cap, ch), Pick(Kept(log, cap), 0, |log|, ch);
            var n: nat := if limit > 0 then limit else 200;
            if |all| <= n then r == all else r == all[|all| - n..]
  {
  }

  /** What an answer skips of the events past the cursor: what the ring has lost and, without a
      cursor, what the limit cuts off the old end. */
  function Missing(log: seq<Event>, limit: int, cap: nat, cursor: int, ch: string): seq<Event> {
    Pick(Evicted(log, cap), cursor, |log|, ch) +
    if cursor > 0 then [] else
    var kept := Pick(Kept(log, cap), 0, |log|, ch);
    kept[..|kept| - |Newest(kept, SnapshotLimit(limit))|]
  }

  lemma MissingNothing(log: seq<Event>, limit: int, cap: nat, cursor: int, ch: string)
    ensures Missing(log, limit, cap, cursor, ch) == [] <==> NothingMissing(log, limit, cap, cursor, ch)
  {
    hide Pick, Kept, Evicted;
  }

  lemma AnswerOfKept(log: seq<Event>, limit: int, cap: nat, c: int, ch: string)
    requires Numbered(log) && cap >= 1
    ensures var r := SinceAnswer(log, limit, cap, c, ch);
            r != [] ==>
              && r[|r| - 1] in Kept(log, cap) && c < r[|r| - 1].id <= |log|
              && r == Pick(Kept(log, cap), c, r[|r| - 1].id, ch)
  {
    hide Pick, First;
    var r := SinceAnswer(log, limit, cap, c, ch);
    KeptAndEvicted(log, cap);
    FirstIsAllUpTo(Kept(log, cap), c, |log|, ch, SinceLimit(limit, cap));
    FirstIn(Kept(log, cap), c, |log|, ch, SinceLimit(limit, cap));
    assert r != [] ==> r[|r| - 1] in r;
  }

  /** Since answers with exactly the kept part of what lies between the old and the new cursor: the
      evicted part is what it misses. */
  lemma SinceAnswerOf(log: seq<Event>, limit: int, cap: nat, c: int, ch: string)
    requires Numbered(log) && cap >= 1
    ensures var r := SinceAnswer(log, limit, cap, c, ch);
            r != [] ==>
              var d := r[|r| - 1].id;
              && c < d <= |log|
              && Pick(log, c, d, ch) == Pick(Evicted(log, cap), c, |log|, ch) + r
  {
    hide Pick, First, SinceAnswer, Evicted, Kept;
    var r := SinceAnswer(log, limit, cap, c, ch);
    AnswerOfKept(log, limit, cap, c, ch);
    if r != [] {
      var d := r[|r| - 1].id;
      KeptAndEvicted(log, cap);
      PickConcat(Evicted(log, cap), Kept(log, cap), c, d, ch);
      PickSplit(Evicted(log, cap), c, d, |log|, ch);
      EvictedBelow(log, cap, d, ch);
    }
  }

  lemma EvictedBelow(log: seq<Event>, cap: nat, d: int, ch: string)
    requires Numbered(log) && exists e :: e in Kept(log, cap) && e.id == d
    ensures Pick(Evicted(log, cap), d, |log|, ch) == []
  {
    PickNone(Evicted(log, cap), d, |log|, ch);
  }

  /** A channel up to the last event the ring holds of it: what is evicted and what is kept. */
  lemma UpToLastKept(log: seq<Event>, cap: nat, ch: string)
    requires Numbered(log) && cap >= 1
    ensures var kept := Pick(Kept(log, cap), 0, |log|, ch);
            kept != [] ==>
              var d := kept[|kept| - 1].id;
              && 0 < d <= |log|
              && Pick(log, 0, d, ch) == Pick(Evicted(log, cap), 0, |log|, ch) + kept
  {
    hide Pick, Evicted, Kept;
    var kept := Pick(Kept(log, cap), 0, |log|, ch);
    if kept != [] {
      var d := kept[|kept| - 1].id;
      KeptAndEvicted(log, cap);
      AllUpToLast(Kept(log, cap), 0, |log|, ch);
      PickSound(Kept(log, cap), 0, |log|, ch);
      assert kept[|kept| - 1] in kept;
      PickConcat(Evicted(log, cap), Kept(log, cap), 0, d, ch);
      PickSplit(Evicted(log, cap), 0, d, |log|, ch);
      EvictedBelow(log, cap, d, ch);
    }
  }

  lemma NewestIsLast(s: seq<Event>, n: nat)
    requires n >= 1
    ensures var r := Newest(s, n);
            && (r == [] <==> s == []) && s == s[..|s| - |r|] + r
            && (s != [] ==> r[|r| - 1] == s[|s| - 1])
  {
    if |s| <= n {
      assert s[..0] == [] && s == s[..0] + s;
    } else {
      assert s == s[..|s| - n] + s[|s| - n..];
    }
  }

  lemma SnapshotAnswerOf(log: seq<Event>, limit: int, cap: nat, ch: string)
    requires Numbered(log) && cap >= 1
    ensures var r := SnapshotAnswer(log, limit, cap, ch);
            r != [] ==>
              var d := r[|r| - 1].id;
              && 0 < d <= |log|
              && Pick(log, 0, d, ch) == Missing(log, limit, cap, 0, ch) + r
  {
    hide Pick, Evicted, Kept, Newest, Numbered;
    UpToLastKept(log, cap, ch);
    NewestIsLast(Pick(Kept(log, cap), 0, |log|, ch), SnapshotLimit(limit));
  }

  lemma AnswerOf(log: seq<Event>, limit: int, cap: nat, c: int, ch: string)
    requires Numbered(log) && cap >= 1 && c >= 0
    ensures var r := ApiAnswer(log, limit, cap, c, ch);
            r != [] ==>
              var d := r[|r| - 1].id;
              && c < d <= |log|
              && Pick(log, c, d, ch) == Missing(log, limit, cap, c, ch) + r
  {
    hide Pick, SinceAnswer, SnapshotAnswer, Evicted, Kept;
    SinceAnswerOf(log, limit, cap, c, ch);
    SnapshotAnswerOf(log, limit, cap, ch);
  }

  /** A full reload shows its channel without a gap, from the first event shown. */
  lemma ReloadIsExact(log: seq<Event>, limit: int, cap: nat, ch: string)
    requires Numbered(log) && cap >= 1
    ensures var r := SnapshotAnswer(log, limit, cap, ch);
            r != [] ==> 0 < r[0].id <= r[|r| - 1].id && r == Pick(log, r[0].id - 1, r[|r| - 1].id, ch)
  {
    hide Pick, SnapshotAnswer, Missing;
    var r := SnapshotAnswer(log, limit, cap, ch);
    SnapshotAnswerOf(log, limit, cap, ch);
    if r != [] {
      NumberedIncreases(log);
      SuffixOfPick(log, 0, r[|r| - 1].id, ch, Missing(log, limit, cap, 0, ch), r);
    }
  }

  lemma WhereSumsAgree(x: seq<Event>, r: seq<Event>, low: seq<Event>, high: seq<Event>)
    requires x + r == low + high && |low| < |x|
    ensures x[|low|] in x && x[|low|] in high
  {
    assert x[|low|] == (x + r)[|low|];
    assert (low + high)[|low|] == high[0];
  }

  /** There is one place to cut between the ids up to m and those above. */
  lemma OneCut(x: seq<Event>, r: seq<Event>, low: seq<Event>, high: seq<Event>, m: int)
    requires x + r == low + high && r != [] && r[0].id > m
    requires (forall e :: e in low ==> e.id <= m) && (forall e :: e in high ==> e.id > m)
    requires forall e :: e in x ==> e.id <= m
    ensures low == x && high == r
  {
    assert (x + r)[|x|] == r[0];
    if |x| < |low| {
      assert false;
    }
    if |low| < |x| {
      WhereSumsAgree(x, r, low, high);
      assert false;
    }
    assert (x + r)[..|x|] == x && (low + high)[..|low|] == low;
    assert (x + r)[|x|..] == r && (low + high)[|low|..] == high;
  }

  /** The last part of what was picked is what is picked from its first event on. */
  lemma SuffixOfPick(s: seq<Event>, a: int, b: int, ch: string, x: seq<Event>, r: seq<Event>)
    requires Increasing(s) && Pick(s, a, b, ch) == x + r && r != []
    ensures a < r[0].id <= r[|r| - 1].id <= b && r == Pick(s, r[0].id - 1, b, ch)
  {
    hide Pick;
    var m, all := r[0].id - 1, x + r;
    PickSound(s, a, b, ch);
    PickIncreasing(s, a, b, ch);
    assert r[0] == all[|x|] && r[0] in all && r[|r| - 1] == all[|all| - 1] && r[|r| - 1] in all;
    forall e | e in x ensures e.id <= m {
      var k :| 0 <= k < |x| && x[k] == e;
      assert all[k] == e;
    }
    PickSplit(s, a, m, b, ch);
    PickSound(s, a, m, ch);
    PickSound(s, m, b, ch);
    hide Increasing;
    OneCut(x, r, Pick(s, a, m, ch), Pick(s, m, b, ch), m);
  }

  lemma {:induction false} CursorStays(polls: seq<Poll>, cap: nat, start: int, ch: string)
    requires cap >= 1 && Growing(polls) && start >= 0
    ensures var c, b := Cursor(polls, cap, start, ch), Base(polls, cap, start, ch);
            0 <= b <= c && (c == b || (polls != [] && c <= |polls[|polls| - 1].log|))
  {
    hide Pick, SinceAnswer, SnapshotAnswer, Missing;
    if polls != [] {
      var earlier, p := polls[..|polls| - 1], polls[|polls| - 1];
      CursorStays(earlier, cap, start, ch);
      AnswerOf(p.log, p.limit, cap, Cursor(earlier, cap, start, ch), ch);
      ReloadIsExact(p.log, p.limit, cap, ch);
      SnapshotAnswerOf(p.log, p.limit, cap, ch);
    }
  }

  /** The events shown so far, seen in a log that has grown since. */
  lemma SameSoFar(polls: seq<Poll>, cap: nat, start: int, ch: string)
    requires cap >= 1 && Growing(polls) && |polls| >= 2 && start >= 0
    ensures var c, b := Cursor(polls[..|polls| - 1], cap, start, ch), Base(polls[..|polls| - 1], cap, start, ch);
            Pick(polls[|polls| - 1].log, b, c, ch) == Pick(polls[|polls| - 2].log, b, c, ch)
  {
    hide Cursor, Base, Pick;
    var n := |polls| - 1;
    var c, b := Cursor(polls[..n], cap, start, ch), Base(polls[..n], cap, start, ch);
    CursorStays(polls[..n], cap, start, ch);
    if c == b {
      PickNone(polls[n].log, b, c, ch);
      PickNone(polls[n - 1].log, b, c, ch);
    } else {
      LaterEventsAreAbove(polls[n - 1].log, polls[n].log, b, c, ch);
    }
  }

  lemma Compare(got: seq<Event>, all: seq<Event>, missed: seq<Event>, r: seq<Event>)
    requires |got| <= |all| && (got == all || |got| < |all|)
    ensures |got + r| <= |all + (missed + r)| && (got + r == all + (missed + r) || |got + r| < |all + (missed + r)|)
    ensures got + r == all + (missed + r) <==> got == all && missed == []
  {
  }

  /** got is all of it, or less of it. */
  predicate Exactly(got: seq<Event>, all: seq<Event>, exact: bool) {
    |got| <= |all| && (got == all <==> exact) && (got == all || |got| < |all|)
  }

  /** A client that polls and reloads with any limits shows each event of its channel between
      where it began and its cursor exactly once and in order if and only if, since the last
      reload, no poll that answered something came after an event past its cursor had been
      evicted, or was sent without a cursor and could not hold what the ring still had. */
  lemma {:induction false} PollingIsExact(polls: seq<Poll>, cap: nat, start: int, ch: string)
    requires cap >= 1 && Growing(polls) && polls != [] && start >= 0
    ensures var all := Pick(polls[|polls| - 1].log, Base(polls, cap, start, ch), Cursor(polls, cap, start, ch), ch);
            Exactly(Shown(polls, cap, start, ch), all, NeverLost(polls, cap, start, ch))
  {
    hide Pick, SinceAnswer, SnapshotAnswer, Evicted, Kept, Missing, NothingMissing, Growing;
    var earlier, p := polls[..|polls| - 1], polls[|polls| - 1];
    GrowingEarlier(polls);
    var c := Cursor(earlier, cap, start, ch);
    if p.full {
      ReloadIsExact(p.log, p.limit, cap, ch);
      PickNone(p.log, c, c, ch);
    } else {
      if earlier == [] {
        PickNone(p.log, start, c, ch);
      } else {
        PollingIsExact(earlier, cap, start, ch);
        SameSoFar(polls, cap, start, ch);
      }
      OnePoll(polls, cap, start, ch);
    }
  }

  lemma GrowingEarlier(polls: seq<Poll>)
    requires Growing(polls) && polls != []
    ensures Growing(polls[..|polls| - 1]) && Numbered(polls[|polls| - 1].log)
  {
  }

  /** One poll adds to what is shown, and what it misses is missing from then on. */
  lemma OnePoll(polls: seq<Poll>, cap: nat, start: int, ch: string)
    requires cap >= 1 && Growing(polls) && polls != [] && start >= 0 && !polls[|polls| - 1].full
    requires var earlier, log := polls[..|polls| - 1], polls[|polls| - 1].log;
             var all := Pick(log, Base(earlier, cap, start, ch), Cursor(earlier, cap, start, ch), ch);
             Exactly(Shown(earlier, cap, start, ch), all, NeverLost(earlier, cap, start, ch))
    ensures var all := Pick(polls[|polls| - 1].log, Base(polls, cap, start, ch), Cursor(polls, cap, start, ch), ch);
            Exactly(Shown(polls, cap, start, ch), all, NeverLost(polls, cap, start, ch))
  {
    hide Pick, ApiAnswer, Missing, NothingMissing;
    var earlier, p := polls[..|polls| - 1], polls[|polls| - 1];
    var c, b := Cursor(earlier, cap, start, ch), Base(earlier, cap, start, ch);
    var r, got := ApiAnswer(p.log, p.limit, cap, c, ch), Shown(earlier, cap, start, ch);
    assert Shown(polls, cap, start, ch) == got + r;
    CursorStays(earlier, cap, start, ch);
    AnswerOf(p.log, p.limit, cap, c, ch);
    if r == [] {
      assert got + r == got;
    } else {
      var d := r[|r| - 1].id;
      NumberedIncreases(p.log);
      PickSplit(p.log, b, c, d, ch);
      MissingNothing(p.log, p.limit, cap, c, ch);
      Compare(got, Pick(p.log, b, c, ch), Missing(p.log, p.limit, cap, c, ch), r);
    }
  }

  /** A burst on a quiet channel: more events than the limit since a client found it empty. Nothing
      has been evicted, and yet the first poll loses all but the newest of them. */
  lemma BurstIsLost(log: seq<Event>, limit: int, cap: nat, ch: string)
    requires Numbered(log) && 1 <= |log| <= cap && 0 < limit < |Pick(log, 0, |log|, ch)|
    ensures var polls, all := [Poll(log, limit, false)], Pick(log, 0, |log|, ch);
            && Evicted(log, cap) == [] && !NeverLost(polls, cap, 0, ch)
            && Shown(polls, cap, 0, ch) == all[|all| - limit..]
            && Missing(log, limit, cap, 0, ch) == all[..|all| - limit]
  {
    hide Pick;
    var polls := [Poll(log, limit, false)];
    assert polls[..0] == [] && Kept(log, cap) == log && Evicted(log, cap) == [];
    PickNone([], 0, |log|, ch);
  }

  /** The same poll answered by Since would lose nothing. */
  lemma SinceWouldNot(log: seq<Event>, limit: int, cap: nat, ch: string)
    requires Numbered(log) && 1 <= |log| <= cap
    ensures var r := SinceAnswer(log, limit, cap, 0, ch);
            r != [] ==> r == Pick(log, 0, r[|r| - 1].id, ch)
  {
    hide Pick, SinceAnswer;
    SinceAnswerOf(log, limit, cap, 0, ch);
    assert Evicted(log, cap) == [];
    PickNone([], 0, |log|, ch);
  }

  // ---------------------------------------------------------------- the ring

  lemma EvictOne(log: seq<Event>, e: Event, cap: nat)
    requires cap >= 1
    ensures Kept(log + [e], cap) == if |Kept(log, cap)| < cap then Kept(log, cap) + [e] else Kept(log, cap)[1..] + [e]
  {
  }

  lemma PickNext(s: seq<Event>, i: nat, a: int, b: int, ch: string)
    requires i < |s|
    ensures Pick(s[..i + 1], a, b, ch) == if Wanted(s[i], a, b, ch) then Pick(s[..i], a, b, ch) + [s[i]]
              else Pick(s[..i], a, b, ch)
    ensures Pick(s[..i + 1], a, b, ch) <= Pick(s, a, b, ch)
  {
    assert s[..i + 1][..i] == s[..i];
    assert s == s[..i + 1] + s[i + 1..];
    PickConcat(s[..i + 1], s[i + 1..], a, b, ch);
  }

  class Bus {
    const cap: nat
    const ring: array<Event>
    var len: nat
    var seqNo: nat
    /** Everything ever emitted. */
    ghost var log: seq<Event>

    constructor (capacity: int)
      ensures Valid() && log == [] && cap == if capacity < 4 then 4 else capacity
      ensures fresh(ring)
    {
      cap := if capacity < 4 then 4 else capacity;
      ring := new Event[if capacity < 4 then 4 else capacity];
      len, seqNo, log := 0, 0, [];
    }

    /** The ring holds the newest events of the log, oldest first. */
    ghost predicate Valid()
      reads this, ring
    {
      && ring.Length == cap >= 4 && len <= cap && seqNo == |log|
      && Numbered(log) && ring[..len] == Kept(log, cap)
    }

    /** copy(ring[0:], ring[1:]), then the last slot. */
    method Shift(e: Event)
      requires ring.Length >= 1
      modifies ring
      ensures ring[..] == old(ring[..])[1..] + [e]
    {
      var n := ring.Length - 1;
      forall i | 0 <= i < n {
        ring[i] := ring[i + 1];
      }
      ring[n] := e;
    }

    method Emit(ch: string, level: string, op: string, message: string) returns (e: Event)
      requires Valid()
      modifies this, ring
      ensures Valid() && log == old(log) + [e]
      ensures e == Event(|old(log)| + 1, ch, if level == "" then "info" else level, op, message, level == "dryrun")
    {
      hide Kept;
      seqNo := seqNo + 1;
      var lv := if level == "" then "info" else level;
      e := Event(seqNo, ch, lv, op, message, lv == "dryrun");
      EvictOne(log, e, cap);
      ghost var kept := ring[..len];
      log := log + [e];
      if len >= cap {
        assert kept == ring[..] == ring[..cap];
        Shift(e);
        assert ring[..len] == ring[..];
      } else {
        ring[len] := e;
        len := len + 1;
        assert ring[..len] == kept + [e];
      }
    }

    /** The first events of a channel past an id, as far as the ring still has them. */
    method Since(after: int, ch: string, limit: int) returns (out: seq<Event>)
      requires Valid()
      ensures out == SinceAnswer(log, limit, cap, after, ch)
    {
      hide Pick, Kept, Numbered;
      var max := if limit <= 0 || limit > cap then cap else limit;
      out := [];
      ghost var kept := ring[..len];
      AllBelow(log, cap);
      PickNone(kept[..0], after, |log|, ch);
      for i := 0 to len
        invariant out == Pick(kept[..i], after, |log|, ch) && |out| < max
      {
        var e := ring[i];
        PickNext(kept, i, after, |log|, ch);
        assert kept[i] == e && e in kept;
        if e.id > after && (ch == "" || e.channel == ch) {
          out := out + [e];
          if |out| >= max {
            return;
          }
        }
      }
      assert kept[..len] == kept;
    }

    /** The newest events of a channel. */
    method Snapshot(ch: string, limit: int) returns (out: seq<Event>)
      requires Valid()
      ensures out == SnapshotAnswer(log, limit, cap, ch)
    {
      hide Pick, Kept, Numbered;
      var max := if limit <= 0 then 200 else limit;
      out := [];
      ghost var kept := ring[..len];
      AllBelow(log, cap);
      PickNone(kept[..0], 0, |log|, ch);
      for i := 0 to len
        invariant out == Pick(kept[..i], 0, |log|, ch)
      {
        var e := ring[i];
        PickNext(kept, i, 0, |log|, ch);
        assert kept[i] == e && e in kept;
        if ch == "" || e.channel == ch {
          out := out + [e];
        }
      }
      assert kept[..len] == kept;
      if |out| > max {
        out := out[|out| - max..];
      }
    }

    /** The activity page of the API. */
    method Activity(after: int, ch: string, limit: int) returns (out: seq<Event>)
      requires Valid()
      ensures out == ApiAnswer(log, limit, cap, after, ch)
    {
      if after > 0 {
        out := Since(after, ch, limit);
      } else {
        out := Snapshot(ch, limit);
      }
    }
  }

  lemma AllBelow(log: seq<Event>, cap: nat)
    requires Numbered(log)
    ensures forall e :: e in Kept(log, cap) ==> 0 < e.id <= |log|
  {
  }
}
