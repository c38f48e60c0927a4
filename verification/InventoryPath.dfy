/** The folder gate: inventory paths in a common form, compared segment by segment. */
module InventoryPath {
  import opened Text

  predicate HasDouble(s: string) {
    exists i :: 0 <= i < |s| - 1 && s[i] == '/' && s[i + 1] == '/'
  }

  /** Every run of slashes as one. */
  function Collapse(s: string): string {
    if |s| < 2 then s
    else if s[0] == '/' && s[1] == '/' then Collapse(s[1..])
    else [s[0]] + Collapse(s[1..])
  }

  /** strings.ReplaceAll(s, "//", "/"). */
  function HalveDoubles(s: string): string {
    if |s| < 2 then s
    else if s[0] == '/' && s[1] == '/' then "/" + HalveDoubles(s[2..])
    else [s[0]] + HalveDoubles(s[1..])
  }

  function ForwardSlashes(s: string): (r: string)
    ensures |r| == |s| && forall i :: 0 <= i < |s| ==> r[i] == if s[i] == '\\' then '/' else s[i]
  {
    seq(|s|, i requires 0 <= i < |s| => if s[i] == '\\' then '/' else s[i])
  }

  /** The common form: no surrounding space, slashes forward and single, none at the end, lower case. */
  function Normal(p: string): string {
    Lower(TrimSuffix(Collapse(ForwardSlashes(Trim(p))), "/"))
  }

  // ---------------------------------------------------------------- the collapse loop

  predicate SameStart(a: string, b: string) {
    (a == "" <==> b == "") && (a != "" ==> a[0] == b[0])
  }

  lemma {:induction false} CollapseKeepsStart(s: string)
    ensures SameStart(Collapse(s), s)
  {
    if |s| >= 2 && s[0] == '/' && s[1] == '/' {
      CollapseKeepsStart(s[1..]);
    }
  }

  lemma CollapseCons(c: char, s: string, t: string)
    requires Collapse(s) == Collapse(t)
    ensures Collapse([c] + s) == Collapse([c] + t)
  {
    CollapseKeepsStart(s);
    CollapseKeepsStart(t);
    assert ([c] + s)[1..] == s && ([c] + t)[1..] == t;
  }

  lemma {:induction false} HalvingKeepsCollapse(s: string)
    ensures Collapse(HalveDoubles(s)) == Collapse(s)
  {
    if |s| >= 2 {
      if s[0] == '/' && s[1] == '/' {
        HalvingKeepsCollapse(s[2..]);
        CollapseCons('/', HalveDoubles(s[2..]), s[2..]);
        assert s[1..] == ['/'] + s[2..];
      } else {
        HalvingKeepsCollapse(s[1..]);
        CollapseCons(s[0], HalveDoubles(s[1..]), s[1..]);
        assert s == [s[0]] + s[1..];
      }
    }
  }

  lemma {:induction false} HalvingShortens(s: string)
    ensures |HalveDoubles(s)| <= |s|
    ensures HasDouble(s) ==> |HalveDoubles(s)| < |s|
  {
    if |s| >= 2 {
      if s[0] == '/' && s[1] == '/' {
        HalvingShortens(s[2..]);
      } else {
        HalvingShortens(s[1..]);
        if i :| 0 <= i < |s| - 1 && s[i] == '/' && s[i + 1] == '/' {
          assert s[1..][i - 1] == '/' && s[1..][i] == '/';
        }
      }
    }
  }

  lemma DoubleInPart(after: string, s: string, before: string)
    ensures HasDouble(s) ==> HasDouble(before + s + after)
  {
    if i :| 0 <= i < |s| - 1 && s[i] == '/' && s[i + 1] == '/' {
      var j := |before| + i;
      assert (before + s + after)[j] == '/' && (before + s + after)[j + 1] == '/';
    }
  }

  lemma {:induction false} CollapseOfSingle(s: string)
    requires !HasDouble(s)
    ensures Collapse(s) == s
  {
    if |s| >= 2 {
      DoubleInPart("", s[1..], [s[0]]);
      assert s == [s[0]] + s[1..] + "";
      CollapseOfSingle(s[1..]);
    }
  }

  /** normalizeInventoryPath: its loop ends, and reaches the common form. */
  method NormalizeInventoryPath(p: string) returns (r: string)
    ensures r == Normal(p)
  {
    r := ForwardSlashes(Trim(p));
    while HasDouble(r)
      invariant Collapse(r) == Collapse(ForwardSlashes(Trim(p)))
      decreases |r|
    {
      HalvingKeepsCollapse(r);
      HalvingShortens(r);
      r := HalveDoubles(r);
    }
    CollapseOfSingle(r);
    r := Lower(TrimSuffix(r, "/"));
  }

  lemma {:induction false} CollapseIsSingle(s: string)
    ensures !HasDouble(Collapse(s))
    ensures '\\' !in s ==> '\\' !in Collapse(s)
  {
    if |s| >= 2 {
      CollapseIsSingle(s[1..]);
      CollapseKeepsStart(s[1..]);
      assert s == [s[0]] + s[1..];
    }
  }

  lemma LowerKeeps(s: string)
    ensures HasDouble(Lower(s)) ==> HasDouble(s)
    ensures '\\' in Lower(s) ==> '\\' in s
    ensures s != "" && Lower(s)[|s| - 1] == '/' ==> s[|s| - 1] == '/'
  {
    if i :| 0 <= i < |s| - 1 && Lower(s)[i] == '/' && Lower(s)[i + 1] == '/' {
      assert s[i] == '/' && s[i + 1] == '/';
    }
  }

  /** No backslash, no "//", no slash at the end and no upper case is left. */
  lemma NormalIsClean(p: string)
    ensures var r := Normal(p); '\\' !in r && !HasDouble(r) && (r == "" || r[|r| - 1] != '/') && Lower(r) == r
  {
    var s := Collapse(ForwardSlashes(Trim(p)));
    var t := TrimSuffix(s, "/");
    CollapseIsSingle(ForwardSlashes(Trim(p)));
    TrimmedIsClean(s);
    LowerKeeps(t);
    LowerTwice(t);
  }

  lemma TrimmedIsClean(s: string)
    requires !HasDouble(s)
    ensures var t := TrimSuffix(s, "/"); !HasDouble(t) && t <= s && (t == "" || t[|t| - 1] != '/')
  {
    var t := TrimSuffix(s, "/");
    assert t <= s;
    DoubleInPart(s[|t|..], t, "");
    assert s == "" + t + s[|t|..];
    if t != "" {
      if HasSuffix(s, "/") {
        NoDoubleAtEnd(s);
      } else {
        assert s[|s| - 1..] == [s[|s| - 1]];
      }
    }
  }

  lemma NoDoubleAtEnd(s: string)
    requires |s| >= 2 && !HasDouble(s) && HasSuffix(s, "/")
    ensures s[|s| - 2] != '/'
  {
    assert s[|s| - 1..][0] == s[|s| - 1];
    assert s[|s| - 2 + 1] == '/';
  }

  // ---------------------------------------------------------------- segments

  /** strings.Split(s, "/"). */
  function Segments(s: string): (r: seq<string>)
    ensures r != []
  {
    if s == "" then [""] else
    var rest := Segments(s[1..]);
    if s[0] == '/' then [""] + rest else [[s[0]] + rest[0]] + rest[1..]
  }

  /** The comparison the gate makes. */
  predicate Inside(want: string, got: string) {
    got == want || HasPrefix(got, want + "/")
  }

  lemma {:induction false} OnlyEmptyHasOneEmptySegment(s: string)
    ensures Segments(s) == [""] <==> s == ""
    ensures Segments(s)[0] == "" <==> s == "" || s[0] == '/'
  {
  }

  /** The folder gate lets in exactly the paths that begin with the folder's segments. */
  lemma {:induction false} InsideIff(want: string, got: string)
    ensures Inside(want, got) <==> Segments(want) <= Segments(got)
  {
    OnlyEmptyHasOneEmptySegment(got);
    OnlyEmptyHasOneEmptySegment(want);
    if want == "" {
      InsideTheRoot(got);
    } else if got != "" && want[0] == got[0] {
      var c, w, g := want[0], want[1..], got[1..];
      assert want == [c] + w && got == [c] + g;
      InsideIff(w, g);
      InsideCons(c, w, g);
      SegmentsCons(c, w, g);
    } else if got != "" {
      if want[0] != '/' {
        FirstSegment(want);
      }
      if got[0] != '/' {
        FirstSegment(got);
      }
      assert Segments(want)[0] != Segments(got)[0];
    }
  }

  lemma InsideTheRoot(got: string)
    ensures Inside("", got) <==> got == "" || got[0] == '/'
  {
    assert "" + "/" == "/";
    assert got != "" ==> got[..1] == [got[0]];
  }

  lemma InsideCons(c: char, w: string, g: string)
    ensures Inside([c] + w, [c] + g) <==> Inside(w, g)
  {
    var want, got := [c] + w, [c] + g;
    assert want[1..] == w && got[1..] == g;
    assert want + "/" == [c] + (w + "/");
    PrefixCons(c, w + "/", g);
  }

  lemma PrefixCons(c: char, x: string, g: string)
    ensures HasPrefix([c] + g, [c] + x) <==> HasPrefix(g, x)
  {
    if |x| <= |g| {
      assert ([c] + g)[..|x| + 1] == [c] + g[..|x|];
      assert ([c] + g[..|x|])[1..] == g[..|x|] && ([c] + x)[1..] == x;
    }
  }

  function Grown(c: char, r: seq<string>): seq<string>
    requires r != []
  {
    [[c] + r[0]] + r[1..]
  }

  lemma GrownPrefix(c: char, w: seq<string>, g: seq<string>)
    requires w != [] && g != []
    ensures Grown(c, w) <= Grown(c, g) <==> w <= g
  {
    var x, y := Grown(c, w), Grown(c, g);
    assert x[0][1..] == w[0] && y[0][1..] == g[0];
    if x <= y {
      forall k | 0 <= k < |w| ensures w[k] == g[k] {
        assert x[k] == y[k];
      }
    }
  }

  lemma PutFirst(a: string, w: seq<string>, g: seq<string>)
    ensures [a] + w <= [a] + g <==> w <= g
  {
    var x, y := [a] + w, [a] + g;
    if x <= y {
      forall k | 0 <= k < |w| ensures w[k] == g[k] {
        assert x[k + 1] == y[k + 1];
      }
    }
  }

  lemma SegmentsCons(c: char, w: string, g: string)
    ensures Segments([c] + w) <= Segments([c] + g) <==> Segments(w) <= Segments(g)
  {
    assert ([c] + w)[1..] == w && ([c] + g)[1..] == g;
    if c == '/' {
      PutFirst("", Segments(w), Segments(g));
    } else {
      GrownPrefix(c, Segments(w), Segments(g));
      assert Segments([c] + w) == Grown(c, Segments(w)) && Segments([c] + g) == Grown(c, Segments(g));
    }
  }

  lemma FirstSegment(s: string)
    requires s != "" && s[0] != '/'
    ensures Segments(s)[0] != "" && Segments(s)[0][0] == s[0]
  {
  }

  // ---------------------------------------------------------------- what the common form keeps of a path

  predicate IsSlash(c: char) {
    c == '/' || c == '\\'
  }

  predicate Rooted(s: string) {
    s != "" && IsSlash(s[0])
  }

  /** The stretches between slashes of either kind, in lower case. */
  function Parts(s: string): (r: seq<string>)
    ensures s != "" && !IsSlash(s[0]) ==> r != []
    ensures forall i :: 0 <= i < |r| ==> r[i] != ""
  {
    if s == "" then [] else
    var rest, c := Parts(s[1..]), LowerChar(s[0]);
    if IsSlash(s[0]) then rest
    else if |s| == 1 || IsSlash(s[1]) then [[c]] + rest
    else [[c] + rest[0]] + rest[1..]
  }

  /** Before lower-casing. */
  function Single(s: string): string {
    TrimSuffix(Collapse(ForwardSlashes(s)), "/")
  }

  lemma SingleCons(c: char, s: string)
    ensures Single([c] + s) ==
            if s == "" then (if IsSlash(c) then "" else [c])
            else if IsSlash(c) && IsSlash(s[0]) then Single(s)
            else [if IsSlash(c) then '/' else c] + Single(s)
  {
    var d := if IsSlash(c) then '/' else c;
    assert ForwardSlashes([c] + s) == [d] + ForwardSlashes(s);
    if s != "" {
      assert ([d] + ForwardSlashes(s))[1..] == ForwardSlashes(s);
      CollapseKeepsStart(ForwardSlashes(s));
      SuffixCons(d, Collapse(ForwardSlashes(s)));
    } else {
      assert [c] + s == [c] && [d][..0] == "" && [d][0..] == [d];
      assert Collapse([d]) == [d];
    }
  }

  lemma SuffixCons(d: char, x: string)
    requires x != ""
    ensures TrimSuffix([d] + x, "/") == [d] + TrimSuffix(x, "/")
  {
    assert ([d] + x)[|x|..] == [x[|x| - 1]] == x[|x| - 1..];
    assert ([d] + x)[..|x|] == [d] + x[..|x| - 1];
  }

  lemma LowerSlash(c: char)
    ensures LowerChar(c) == '/' <==> c == '/'
  {
  }

  lemma SegmentsOfCons(c: char, x: string)
    ensures Segments([c] + x) == if c == '/' then [""] + Segments(x) else [[c] + Segments(x)[0]] + Segments(x)[1..]
  {
    assert ([c] + x)[1..] == x;
  }

  /** The parts of a path as segments, after an empty one when the path is rooted. */
  function AsSegments(parts: seq<string>, rooted: bool): seq<string> {
    if parts == [] then [""] else if rooted then [""] + parts else parts
  }

  lemma PartsCons(c: char, s: string)
    ensures Parts([c] + s) ==
            if IsSlash(c) then Parts(s)
            else if s == "" || IsSlash(s[0]) then [[LowerChar(c)]] + Parts(s)
            else [[LowerChar(c)] + Parts(s)[0]] + Parts(s)[1..]
  {
    assert ([c] + s)[1..] == s;
  }

  lemma {:induction false} SegmentsAreParts(s: string)
    ensures Segments(Lower(Single(s))) == AsSegments(Parts(s), Rooted(s))
  {
    if s == "" {
      assert ForwardSlashes("") == "" && Lower("") == "";
    } else {
      var c, rest := s[0], s[1..];
      assert s == [c] + rest;
      SegmentsAreParts(rest);
      OnePartMore(c, rest);
    }
  }

  lemma OnePartMore(c: char, s: string)
    requires Segments(Lower(Single(s))) == AsSegments(Parts(s), Rooted(s))
    ensures Segments(Lower(Single([c] + s))) == AsSegments(Parts([c] + s), Rooted([c] + s))
  {
    hide Single, Segments, Parts;
    SingleCons(c, s);
    PartsCons(c, s);
    var d := if IsSlash(c) then '/' else c;
    if s == "" {
      LoneCharacter(c);
      assert [c] + s == [c];
    } else if !(IsSlash(c) && IsSlash(s[0])) {
      assert Lower([d] + Single(s)) == [LowerChar(d)] + Lower(Single(s));
      LowerSlash(d);
      SegmentsOfCons(LowerChar(d), Lower(Single(s)));
      assert [LowerChar(c)] + "" == [LowerChar(c)];
    }
  }

  lemma LoneCharacter(c: char)
    ensures Segments(Lower(if IsSlash(c) then "" else [c])) == AsSegments(Parts([c]), Rooted([c]))
  {
    assert Lower("") == "" && Lower([c]) == [LowerChar(c)] + "";
    LowerSlash(c);
    SegmentsOfCons(LowerChar(c), "");
    assert [LowerChar(c)] + "" == [LowerChar(c)];
    assert [c][1..] == "";
  }

  /** The path lies at or below the folder: both rooted or both not, and the folder's parts come
      first. A folder without parts holds the rooted paths. */
  predicate Below(folder: string, path: string) {
    if Parts(folder) == [] then Rooted(path) || Parts(path) == []
    else (Rooted(folder) <==> Rooted(path)) && Parts(folder) <= Parts(path)
  }

  /** Which segments begin which. */
  lemma PartsPrefix(a: seq<string>, rootedA: bool, b: seq<string>, rootedB: bool)
    requires (forall i :: 0 <= i < |a| ==> a[i] != "") && (forall i :: 0 <= i < |b| ==> b[i] != "")
    ensures AsSegments(a, rootedA) <= AsSegments(b, rootedB) <==>
              if a == [] then rootedB || b == [] else (rootedA <==> rootedB) && a <= b
  {
    var x, y := AsSegments(a, rootedA), AsSegments(b, rootedB);
    PutFirst("", a, b);
    if a == [] {
      assert b != [] ==> y[0] == if rootedB then "" else b[0];
    } else if b != [] && rootedA != rootedB {
      assert x[0] == if rootedA then "" else a[0];
      assert y[0] == if rootedB then "" else b[0];
      assert x[0] != y[0];
    } else if b == [] {
      assert rootedA ==> |x| > |y|;
      assert !rootedA ==> x[0] != y[0];
    }
  }

  /** So the gate compares the parts, whatever the slashes, the case and the space around. */
  lemma InsideIsBelow(folder: string, path: string)
    ensures Inside(Normal(folder), Normal(path)) <==> Below(Trim(folder), Trim(path))
  {
    var f, g := Trim(folder), Trim(path);
    InsideIff(Normal(folder), Normal(path));
    SegmentsAreParts(f);
    SegmentsAreParts(g);
    PartsPrefix(Parts(f), Rooted(f), Parts(g), Rooted(g));
    hide Inside, Segments, AsSegments;
  }

  // ---------------------------------------------------------------- the gate

  predicate Contains(s: string, part: string) {
    exists i :: 0 <= i <= |s| && HasPrefix(s[i..], part)
  }

  lemma ContainsIff(s: string, part: string)
    ensures Contains(s, part) <==> exists a, b :: s == a + part + b
  {
    if i :| 0 <= i <= |s| && HasPrefix(s[i..], part) {
      assert s == s[..i] + part + s[i..][|part|..];
    }
    if a, b :| s == a + part + b {
      assert s[|a|..] == part + b;
      assert HasPrefix(s[|a|..], part);
    }
  }

  /** What looking a VM's inventory path up gives. */
  datatype Looked = At(path: string) | Failed(message: string)

  predicate PermissionDenied(message: string) {
    Contains(Lower(message), "permission") && Contains(Lower(message), "denied")
  }

  ghost predicate HasWord(message: string, word: string) {
    exists a, w, b :: message == a + w + b && SameLetters(w, word)
  }

  lemma ContainsWordIff(message: string, word: string)
    requires Lower(word) == word
    ensures Contains(Lower(message), word) <==> HasWord(message, word)
  {
    if i :| 0 <= i <= |message| && HasPrefix(Lower(message)[i..], word) {
      var w := message[i..i + |word|];
      assert message == message[..i] + w + message[i + |word|..];
      assert Lower(w) == Lower(message)[i..i + |word|] == Lower(message)[i..][..|word|];
      LowerIff(w, word);
    }
    if a, w, b :| message == a + w + b && SameLetters(w, word) {
      LowerIff(w, word);
      assert Lower(message)[|a|..] == Lower(w) + Lower(b);
      assert HasPrefix(Lower(message)[|a|..], word);
    }
  }

  /** A message that speaks of permission and of denied, in any case. */
  lemma PermissionDeniedIff(message: string)
    ensures PermissionDenied(message) <==> HasWord(message, "permission") && HasWord(message, "denied")
  {
    ContainsWordIff(message, "permission");
    ContainsWordIff(message, "denied");
  }

  /** Whether a VM may be used, and the path known of it from now on. */
  method CheckFolder(folder: string, known: string, looked: Looked) returns (ok: bool, path: string)
    ensures path == if known == "" && Trim(folder) != "" && looked.At? then looked.path else known
    ensures ok <==>
              || Trim(folder) == ""
              || (known == "" && looked.Failed? && PermissionDenied(looked.message))
              || ((known != "" || looked.At?) && Below(Trim(folder), Trim(path)))
  {
    var f := Trim(folder);
    path := known;
    if f == "" {
      return true, known;
    }
    if path == "" {
      if looked.Failed? {
        return PermissionDenied(looked.message), known;
      }
      path := looked.path;
    }
    var want := NormalizeInventoryPath(f);
    var got := NormalizeInventoryPath(path);
    InsideIsBelow(f, path);
    assert Trim(f) == f;
    ok := got == want || HasPrefix(got, want + "/");
  }
}
