/** The depth-bounded walk of a folder graph that may have cycles. */
module FolderWalk {
  import opened Records

  datatype Child = Vm(vm: string) | Folder(folder: string) | Other

  /** The children of every folder that can be listed. */
  type Graph = map<string, seq<Child>>

  const MAX_DEPTH := 32

  // ---------------------------------------------------------------- positions

  /** The folder at a position: the indices of the children that lead to it. */
  function FolderAt(g: Graph, f: string, pos: seq<nat>): Option<string>
    decreases |pos|
  {
    if pos == [] then Some(f)
    else if f in g && pos[0] < |g[f]| && g[f][pos[0]].Folder? then FolderAt(g, g[f][pos[0]].folder, pos[1..])
    else None
  }

  /** The VM at a position among some children. */
  function VmIn(g: Graph, cs: seq<Child>, pos: seq<nat>): Option<string>
    decreases |pos|
  {
    if pos == [] || pos[0] >= |cs| then None
    else
      match cs[pos[0]]
      case Vm(id) => if |pos| == 1 then Some(id) else None
      case Folder(h) => if h in g then VmIn(g, g[h], pos[1..]) else None
      case Other => None
  }

  /** Pre-order: a position comes before those below it and those of later siblings. */
  predicate Before(a: seq<nat>, b: seq<nat>) {
    b != [] && (a == [] || a[0] < b[0] || (a[0] == b[0] && Before(a[1..], b[1..])))
  }

  ghost predicate InOrder(at: seq<seq<nat>>) {
    forall i, j :: 0 <= i < j < |at| ==> Before(at[i], at[j])
  }

  /** vms lists every VM at or below some children, in pre-order: at tells where each one is. */
  ghost predicate ListsIn(g: Graph, cs: seq<Child>, at: seq<seq<nat>>, vms: seq<string>) {
    && |at| == |vms| && InOrder(at)
    && (forall k :: 0 <= k < |at| ==> VmIn(g, cs, at[k]) == Some(vms[k]))
    && (forall pos :: VmIn(g, cs, pos).Some? ==> pos in at)
  }

  ghost predicate Lists(g: Graph, f: string, at: seq<seq<nat>>, vms: seq<string>) {
    f in g && ListsIn(g, g[f], at, vms)
  }

  /** Every folder below f can be listed and is not too deep. */
  ghost predicate Walkable(g: Graph, f: string, depth: nat) {
    forall pos :: FolderAt(g, f, pos).Some? ==> depth + |pos| <= 32 && FolderAt(g, f, pos).value in g
  }

  // ---------------------------------------------------------------- the walk

  /** The VMs found below f, or None when the walk fails. */
  function Found(g: Graph, f: string, depth: nat): Option<seq<string>>
    decreases MAX_DEPTH + 1 - depth, 1, 0
  {
    if depth > MAX_DEPTH || f !in g then None else FoundIn(g, g[f], depth)
  }

  function FoundIn(g: Graph, cs: seq<Child>, depth: nat): Option<seq<string>>
    requires depth <= MAX_DEPTH
    decreases MAX_DEPTH + 1 - depth, 0, |cs|
  {
    if cs == [] then Some([]) else
    var n := |cs| - 1;
    var out := FoundIn(g, cs[..n], depth);
    if out.None? then None else
    match cs[n]
    case Vm(id) => Some(out.value + [id])
    case Folder(h) =>
      var sub := Found(g, h, depth + 1);
      if sub.None? then None else Some(out.value + sub.value)
    case Other => out
  }

  lemma {:induction false} FailsEarly(g: Graph, cs: seq<Child>, depth: nat, i: nat)
    requires depth <= MAX_DEPTH && i <= |cs| && FoundIn(g, cs[..i], depth).None?
    ensures FoundIn(g, cs, depth).None?
    decreases |cs| - i
  {
    if i < |cs| {
      assert cs[..i + 1][..i] == cs[..i];
      FailsEarly(g, cs, depth, i + 1);
    } else {
      assert cs[..i] == cs;
    }
  }

  method CollectVms(g: Graph, f: string, depth: nat) returns (r: Option<seq<string>>)
    ensures r == Found(g, f, depth)
    decreases MAX_DEPTH + 1 - depth
  {
    if depth > MAX_DEPTH || f !in g {
      return None;
    }
    var children := g[f];
    var out := [];
    for i := 0 to |children|
      invariant FoundIn(g, children[..i], depth) == Some(out)
    {
      assert children[..i + 1][..i] == children[..i];
      match children[i] {
        case Vm(id) => out := out + [id];
        case Folder(h) =>
          var sub := CollectVms(g, h, depth + 1);
          if sub.None? {
            FailsEarly(g, children, depth, i + 1);
            return None;
          }
          out := out + sub.value;
        case Other =>
      }
    }
    assert children[..|children|] == children;
    r := Some(out);
  }

  // ---------------------------------------------------------------- when the walk succeeds

  ghost predicate WalkableIn(g: Graph, cs: seq<Child>, depth: nat) {
    forall i :: 0 <= i < |cs| && cs[i].Folder? ==> Walkable(g, cs[i].folder, depth + 1)
  }

  lemma WalkableStep(g: Graph, f: string, depth: nat)
    requires depth <= MAX_DEPTH && f in g
    ensures Walkable(g, f, depth) <==> WalkableIn(g, g[f], depth)
  {
    if Walkable(g, f, depth) {
      forall i, pos | 0 <= i < |g[f]| && g[f][i].Folder? && FolderAt(g, g[f][i].folder, pos).Some?
        ensures depth + 1 + |pos| <= MAX_DEPTH && FolderAt(g, g[f][i].folder, pos).value in g
      {
        assert ([i] + pos)[1..] == pos;
        assert FolderAt(g, f, [i] + pos) == FolderAt(g, g[f][i].folder, pos);
      }
    }
    if WalkableIn(g, g[f], depth) {
      forall pos | FolderAt(g, f, pos).Some?
        ensures depth + |pos| <= MAX_DEPTH && FolderAt(g, f, pos).value in g
      {
        if pos != [] {
          assert Walkable(g, g[f][pos[0]].folder, depth + 1);
          assert FolderAt(g, g[f][pos[0]].folder, pos[1..]).Some?;
        }
      }
    }
  }

  /** The walk succeeds exactly when no folder is reachable below depth 32 and every reachable
      one can be listed. */
  lemma {:induction false} SucceedsIff(g: Graph, f: string, depth: nat)
    ensures Found(g, f, depth).Some? <==> Walkable(g, f, depth)
    decreases MAX_DEPTH + 1 - depth, 1, 0
  {
    if depth <= MAX_DEPTH && f in g {
      WalkableStep(g, f, depth);
      SucceedsInIff(g, g[f], depth);
    } else {
      assert FolderAt(g, f, []) == Some(f);
    }
  }

  lemma {:induction false} SucceedsInIff(g: Graph, cs: seq<Child>, depth: nat)
    requires depth <= MAX_DEPTH
    ensures FoundIn(g, cs, depth).Some? <==> WalkableIn(g, cs, depth)
    decreases MAX_DEPTH + 1 - depth, 0, |cs|
  {
    if cs != [] {
      var n := |cs| - 1;
      SucceedsInIff(g, cs[..n], depth);
      if cs[n].Folder? {
        SucceedsIff(g, cs[n].folder, depth + 1);
      }
      assert WalkableIn(g, cs, depth) <==>
          WalkableIn(g, cs[..n], depth) && (cs[n].Folder? ==> Walkable(g, cs[n].folder, depth + 1));
    }
  }

  lemma {:induction false} FolderAtConcat(g: Graph, f: string, a: seq<nat>, b: seq<nat>)
    requires FolderAt(g, f, a).Some?
    ensures FolderAt(g, f, a + b) == FolderAt(g, FolderAt(g, f, a).value, b)
    decreases |a|
  {
    if a == [] {
      assert a + b == b;
    } else {
      assert (a + b)[1..] == a[1..] + b;
      FolderAtConcat(g, g[f][a[0]].folder, a[1..], b);
    }
  }

  function Times(loop: seq<nat>, n: nat): (r: seq<nat>)
    ensures |r| == |loop| * n
  {
    if n == 0 then [] else loop + Times(loop, n - 1)
  }

  lemma {:induction false} AroundTheLoop(g: Graph, f: string, loop: seq<nat>, n: nat)
    requires FolderAt(g, f, loop) == Some(f)
    ensures FolderAt(g, f, Times(loop, n)) == Some(f)
  {
    if n > 0 {
      AroundTheLoop(g, f, loop, n - 1);
      FolderAtConcat(g, f, loop, Times(loop, n - 1));
    }
  }

  /** A folder reachable from itself makes the walk fail instead of running forever. */
  lemma CyclesFail(g: Graph, f: string, depth: nat, pos: seq<nat>, loop: seq<nat>)
    requires FolderAt(g, f, pos).Some? && loop != []
    requires FolderAt(g, FolderAt(g, f, pos).value, loop) == FolderAt(g, f, pos)
    ensures Found(g, f, depth).None?
  {
    var around := Times(loop, MAX_DEPTH + 1);
    AroundTheLoop(g, FolderAt(g, f, pos).value, loop, MAX_DEPTH + 1);
    FolderAtConcat(g, f, pos, around);
    assert FolderAt(g, f, pos + around).Some?;
    assert |around| >= MAX_DEPTH + 1;
    SucceedsIff(g, f, depth);
  }

  // ---------------------------------------------------------------- what the walk finds

  ghost function Under(n: nat, at: seq<seq<nat>>): (r: seq<seq<nat>>)
    ensures |r| == |at| && forall k :: 0 <= k < |at| ==> r[k] == [n] + at[k]
  {
    seq(|at|, k requires 0 <= k < |at| => [n] + at[k])
  }

  lemma EarlierChildren(g: Graph, cs: seq<Child>, n: nat, pos: seq<nat>)
    requires n <= |cs|
    ensures VmIn(g, cs[..n], pos) == if pos != [] && pos[0] < n then VmIn(g, cs, pos) else None
  {
  }

  lemma ChildAt(g: Graph, cs: seq<Child>, n: nat, h: string, pos: seq<nat>)
    requires n < |cs| && cs[n] == Folder(h) && h in g
    ensures VmIn(g, cs, [n] + pos) == VmIn(g, g[h], pos)
  {
    assert ([n] + pos)[1..] == pos;
  }

  lemma UnderInOrder(n: nat, at: seq<seq<nat>>)
    requires InOrder(at)
    ensures InOrder(Under(n, at))
  {
    forall i, j | 0 <= i < j < |at|
      ensures Before([n] + at[i], [n] + at[j])
    {
      assert ([n] + at[i])[1..] == at[i] && ([n] + at[j])[1..] == at[j];
    }
  }

  lemma FirstChildren(g: Graph, cs: seq<Child>, n: nat, at: seq<seq<nat>>, vms: seq<string>)
    requires n <= |cs| && ListsIn(g, cs[..n], at, vms)
    ensures forall k :: 0 <= k < |at| ==> at[k] != [] && at[k][0] < n && VmIn(g, cs, at[k]) == Some(vms[k])
    ensures forall pos: seq<nat> :: pos != [] && pos[0] < n && VmIn(g, cs, pos).Some? ==> pos in at
  {
    forall k | 0 <= k < |at|
      ensures at[k] != [] && at[k][0] < n && VmIn(g, cs, at[k]) == Some(vms[k])
    {
      EarlierChildren(g, cs, n, at[k]);
    }
    forall pos: seq<nat> | pos != [] && pos[0] < n && VmIn(g, cs, pos).Some?
      ensures pos in at
    {
      EarlierChildren(g, cs, n, pos);
    }
  }

  /** The spots of the last child: a VM itself, a folder's, or none. */
  ghost predicate LastSpots(g: Graph, c: Child, n: nat, at: seq<seq<nat>>, vms: seq<string>) {
    match c
    case Vm(id) => at == [[n]] && vms == [id]
    case Folder(h) => exists sub :: at == Under(n, sub) && Lists(g, h, sub, vms)
    case Other => at == [] && vms == []
  }

  lemma LastChild(g: Graph, cs: seq<Child>, at: seq<seq<nat>>, vms: seq<string>)
    requires cs != [] && LastSpots(g, cs[|cs| - 1], |cs| - 1, at, vms)
    ensures |at| == |vms| && InOrder(at)
    ensures forall k :: 0 <= k < |at| ==> at[k] != [] && at[k][0] == |cs| - 1 && VmIn(g, cs, at[k]) == Some(vms[k])
    ensures forall pos: seq<nat> :: pos != [] && pos[0] == |cs| - 1 && VmIn(g, cs, pos).Some? ==> pos in at
  {
    var n := |cs| - 1;
    match cs[n]
    case Vm(id) =>
      forall pos: seq<nat> | pos != [] && pos[0] == n && VmIn(g, cs, pos).Some?
        ensures pos in at
      {
        assert pos == [n];
      }
    case Folder(h) =>
      var sub :| at == Under(n, sub) && Lists(g, h, sub, vms);
      LastFolder(g, cs, h, sub, vms);
    case Other =>
  }

  lemma LastFolder(g: Graph, cs: seq<Child>, h: string, sub: seq<seq<nat>>, vms: seq<string>)
    requires cs != [] && cs[|cs| - 1] == Folder(h) && Lists(g, h, sub, vms)
    ensures var n, at := |cs| - 1, Under(|cs| - 1, sub);
            && InOrder(at)
            && (forall k :: 0 <= k < |at| ==> at[k] != [] && at[k][0] == n && VmIn(g, cs, at[k]) == Some(vms[k]))
            && (forall pos: seq<nat> :: pos != [] && pos[0] == n && VmIn(g, cs, pos).Some? ==> pos in at)
  {
    var n, at := |cs| - 1, Under(|cs| - 1, sub);
    UnderInOrder(n, sub);
    forall k | 0 <= k < |at|
      ensures VmIn(g, cs, at[k]) == Some(vms[k])
    {
      ChildAt(g, cs, n, h, sub[k]);
    }
    forall pos: seq<nat> | pos != [] && pos[0] == n && VmIn(g, cs, pos).Some?
      ensures pos in at
    {
      ChildAt(g, cs, n, h, pos[1..]);
      assert pos == [n] + pos[1..];
      var k :| 0 <= k < |sub| && sub[k] == pos[1..];
      assert at[k] == pos;
    }
  }

  /** One child more: its spots follow those of the earlier ones. */
  lemma ListsOneMore(g: Graph, cs: seq<Child>, at: seq<seq<nat>>, vms: seq<string>, last: seq<seq<nat>>,
                     more: seq<string>)
    requires cs != [] && ListsIn(g, cs[..|cs| - 1], at, vms) && LastSpots(g, cs[|cs| - 1], |cs| - 1, last, more)
    ensures ListsIn(g, cs, at + last, vms + more)
  {
    hide LastSpots, VmIn;
    var n := |cs| - 1;
    FirstChildren(g, cs, n, at, vms);
    LastChild(g, cs, last, more);
    var all, found := at + last, vms + more;
    forall pos | VmIn(g, cs, pos).Some?
      ensures pos in all
    {
      VmInBounds(g, cs, pos);
      if pos[0] < n {
        assert pos in at;
      } else {
        assert pos in last;
      }
    }
  }

  lemma VmInBounds(g: Graph, cs: seq<Child>, pos: seq<nat>)
    requires VmIn(g, cs, pos).Some?
    ensures pos != [] && pos[0] < |cs|
  {
  }

  /** A successful walk returns exactly the pre-order listing of all VMs below the root. */
  lemma {:induction false} FoundIsPreOrder(g: Graph, f: string, depth: nat) returns (at: seq<seq<nat>>)
    requires Found(g, f, depth).Some?
    ensures Lists(g, f, at, Found(g, f, depth).value)
    decreases MAX_DEPTH + 1 - depth, 1, 0
  {
    at := FoundInIsPreOrder(g, g[f], depth);
  }

  lemma {:induction false} FoundInIsPreOrder(g: Graph, cs: seq<Child>, depth: nat) returns (at: seq<seq<nat>>)
    requires depth <= MAX_DEPTH && FoundIn(g, cs, depth).Some?
    ensures ListsIn(g, cs, at, FoundIn(g, cs, depth).value)
    decreases MAX_DEPTH + 1 - depth, 0, |cs|
  {
    hide ListsIn, Lists, VmIn;
    if cs == [] {
      at := [];
      NothingListed(g);
    } else {
      var n := |cs| - 1;
      var before := FoundInIsPreOrder(g, cs[..n], depth);
      var vms := FoundIn(g, cs[..n], depth).value;
      match cs[n]
      case Vm(id) =>
        at := before + [[n]];
        ListsOneMore(g, cs, before, vms, [[n]], [id]);
      case Folder(h) =>
        var sub := FoundIsPreOrder(g, h, depth + 1);
        at := before + Under(n, sub);
        ListsOneMore(g, cs, before, vms, Under(n, sub), Found(g, h, depth + 1).value);
      case Other =>
        at := before + [];
        ListsOneMore(g, cs, before, vms, [], []);
        assert vms + [] == vms;
    }
  }

  lemma NothingListed(g: Graph)
    ensures ListsIn(g, [], [], [])
  {
  }

  lemma {:induction false} BeforeIsStrict(a: seq<nat>, b: seq<nat>)
    ensures !(Before(a, b) && Before(b, a))
  {
    if a != [] && b != [] && a[0] == b[0] {
      BeforeIsStrict(a[1..], b[1..]);
    }
  }

  ghost predicate AllIn(a: seq<seq<nat>>, b: seq<seq<nat>>) {
    forall x <- a :: x in b
  }

  lemma LastOfOrdered(a: seq<seq<nat>>, b: seq<seq<nat>>)
    requires InOrder(a) && InOrder(b) && a != [] && b != [] && AllIn(a, b) && AllIn(b, a)
    ensures a[|a| - 1] == b[|b| - 1]
  {
    var x, y := a[|a| - 1], b[|b| - 1];
    assert x in b && y in a;
    BeforeIsStrict(x, y);
  }

  lemma NothingIn(a: seq<seq<nat>>, b: seq<seq<nat>>)
    requires AllIn(a, b) && AllIn(b, a)
    ensures a == [] <==> b == []
  {
    if a != [] {
      assert a[0] in a;
    }
    if b != [] {
      assert b[0] in b;
    }
  }

  lemma EarlierIn(c: seq<seq<nat>>, d: seq<seq<nat>>, x: seq<nat>)
    requires InOrder(c + [x]) && AllIn(c + [x], d + [x])
    ensures InOrder(c) && AllIn(c, d)
  {
    BeforeIsStrict(x, x);
    forall i, j | 0 <= i < j < |c| ensures Before(c[i], c[j]) {
      assert Before((c + [x])[i], (c + [x])[j]);
    }
    forall y <- c ensures y in d {
      var k :| 0 <= k < |c| && c[k] == y;
      assert Before((c + [x])[k], (c + [x])[|c|]);
      assert y in c + [x];
    }
  }

  lemma {:induction false} OrderedOnce(a: seq<seq<nat>>, b: seq<seq<nat>>)
    requires InOrder(a) && InOrder(b) && AllIn(a, b) && AllIn(b, a)
    ensures a == b
  {
    hide AllIn, InOrder;
    NothingIn(a, b);
    if a != [] {
      LastOfOrdered(a, b);
      var c, d, x := a[..|a| - 1], b[..|b| - 1], a[|a| - 1];
      assert a == c + [x] && b == d + [x];
      EarlierIn(c, d, x);
      EarlierIn(d, c, x);
      OrderedOnce(c, d);
    }
  }

  /** There is only one such listing. */
  lemma ListingIsUnique(g: Graph, f: string, at1: seq<seq<nat>>, vms1: seq<string>, at2: seq<seq<nat>>,
                        vms2: seq<string>)
    requires Lists(g, f, at1, vms1) && Lists(g, f, at2, vms2)
    ensures vms1 == vms2
  {
    forall x <- at1 ensures x in at2 {
      var k :| 0 <= k < |at1| && at1[k] == x;
      assert VmIn(g, g[f], at1[k]).Some?;
    }
    forall x <- at2 ensures x in at1 {
      var k :| 0 <= k < |at2| && at2[k] == x;
      assert VmIn(g, g[f], at2[k]).Some?;
    }
    OrderedOnce(at1, at2);
    forall k | 0 <= k < |at1| ensures vms1[k] == vms2[k] {
      assert Some(vms1[k]) == Some(vms2[k]);
    }
  }
}
