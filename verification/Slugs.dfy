/** The label-safe form of a vCenter name. */
module Slugs {
  import opened Text

  predicate AlphaNum(c: char) {
    'a' <= c <= 'z' || '0' <= c <= '9'
  }

  predicate SlugChar(c: char) {
    AlphaNum(c) || c == '-'
  }

  /** First pass: every run of characters outside [a-z0-9-] becomes one dash. */
  function ReplaceRuns(s: string): (r: string)
    ensures forall i :: 0 <= i < |r| ==> SlugChar(r[i])
  {
    if s == "" then "" else
    var head, n := ReplaceRuns(s[..|s| - 1]), |s| - 1;
    if SlugChar(s[n]) then head + [s[n]]
    else if n > 0 && !SlugChar(s[n - 1]) then head
    else head + "-"
  }

  /** Second pass: every run of dashes becomes one dash. */
  function SquashDashes(s: string): (r: string)
    ensures forall i :: 0 < i < |r| ==> !(r[i - 1] == '-' && r[i] == '-')
    ensures (forall i :: 0 <= i < |s| ==> SlugChar(s[i])) ==> forall i :: 0 <= i < |r| ==> SlugChar(r[i])
    ensures s == "" <==> r == ""
    ensures s != "" ==> r[|r| - 1] == s[|s| - 1]
  {
    if s == "" then "" else
    var head, n := SquashDashes(s[..|s| - 1]), |s| - 1;
    if s[n] == '-' && n > 0 && s[n - 1] == '-' then head else head + [s[n]]
  }

  /** Only characters a label may have, and no doubled dash. */
  predicate Clean(s: string) {
    && (forall i :: 0 <= i < |s| ==> SlugChar(s[i]))
    && (forall i :: 0 < i < |s| ==> !(s[i - 1] == '-' && s[i] == '-'))
  }

  function Dashed(s: string): (r: string)
    ensures Clean(r)
  {
    SquashDashes(ReplaceRuns(s))
  }

  function DropDashesLeft(s: string): (r: string)
    ensures r == "" || r[0] != '-'
    ensures Clean(s) ==> Clean(r)
  {
    if s != "" && s[0] == '-' then DropDashesLeft(s[1..]) else s
  }

  function DropDashesRight(s: string): (r: string)
    ensures r == "" || r[|r| - 1] != '-'
    ensures r <= s
    ensures Clean(s) ==> Clean(r)
  {
    if s != "" && s[|s| - 1] == '-' then DropDashesRight(s[..|s| - 1]) else s
  }

  /** What may stand in a DNS label: no dash at either end, none doubled. */
  predicate LabelPart(s: string) {
    s != "" && Clean(s) && s[0] != '-' && s[|s| - 1] != '-'
  }

  /** Before the cut to 40 characters. */
  function WholeSlug(name: string): (r: string)
    ensures Clean(r) && (r == "" || (r[0] != '-' && r[|r| - 1] != '-'))
  {
    DropDashesRight(DropDashesLeft(Dashed(Lower(Trim(name)))))
  }

  /** A label of at most 40 characters, or the fallback when nothing of the name is left. */
  function Slug(name: string, fallback: string): (r: string)
    ensures r == fallback || (LabelPart(r) && |r| <= 40)
  {
    var s := WholeSlug(name);
    var cut := if |s| > 40 then DropDashesRight(s[..40]) else s;
    if cut == "" then fallback else cut
  }

  lemma {:induction false} ReplaceRunsFixed(s: string)
    requires forall i :: 0 <= i < |s| ==> SlugChar(s[i])
    ensures ReplaceRuns(s) == s
  {
    if s != "" {
      ReplaceRunsFixed(s[..|s| - 1]);
    }
  }

  lemma {:induction false} SquashDashesFixed(s: string)
    requires forall i :: 0 < i < |s| ==> !(s[i - 1] == '-' && s[i] == '-')
    ensures SquashDashes(s) == s
  {
    if s != "" {
      SquashDashesFixed(s[..|s| - 1]);
    }
  }

  lemma SlugCharsAreLower(s: string)
    requires forall i :: 0 <= i < |s| ==> SlugChar(s[i])
    ensures Lower(Trim(s)) == s
  {
    assert forall i :: 0 <= i < |s| ==> !IsSpace(s[i]);
    assert Trimmed(s);
    assert forall i :: 0 <= i < |s| ==> LowerChar(s[i]) == s[i];
  }

  lemma DashedFixed(s: string)
    requires LabelPart(s)
    ensures Dashed(s) == s
  {
    ReplaceRunsFixed(s);
    SquashDashesFixed(s);
  }

  /** A name that is already a short label is its own slug, so slugs are stable. */
  lemma SlugOfLabel(s: string, fallback: string)
    requires LabelPart(s) && |s| <= 40
    ensures Slug(s, fallback) == s
  {
    SlugCharsAreLower(s);
    DashedFixed(s);
    assert DropDashesLeft(s) == s;
    assert DropDashesRight(s) == s;
  }

  // ---------------------------------------------------------------- what a slug keeps of a name

  /** The letters and digits of a string, in order. */
  function Letters(s: string): string {
    if s == "" then "" else Letters(s[..|s| - 1]) + if AlphaNum(s[|s| - 1]) then [s[|s| - 1]] else ""
  }

  lemma {:induction false} LettersConcat(a: string, b: string)
    ensures Letters(a + b) == Letters(a) + Letters(b)
  {
    if b == "" {
      assert a + b == a;
    } else {
      assert (a + b)[..|a + b| - 1] == a + b[..|b| - 1];
      LettersConcat(a, b[..|b| - 1]);
    }
  }

  lemma LettersOfOne(c: char)
    ensures Letters([c]) == if AlphaNum(c) then [c] else ""
  {
    assert [c][..0] == "";
  }

  lemma LettersSnoc(s: string, c: char)
    ensures Letters(s + [c]) == Letters(s) + if AlphaNum(c) then [c] else ""
  {
    hide AlphaNum;
    LettersOfOne(c);
    LettersConcat(s, [c]);
  }

  lemma {:induction false} RunsKeepLetters(s: string)
    ensures Letters(ReplaceRuns(s)) == Letters(s)
  {
    if s != "" {
      var init, c := s[..|s| - 1], s[|s| - 1];
      RunsKeepLetters(init);
      LettersSnoc(ReplaceRuns(init), c);
      LettersSnoc(ReplaceRuns(init), '-');
    }
  }

  lemma {:induction false} SquashKeepsLetters(s: string)
    ensures Letters(SquashDashes(s)) == Letters(s)
  {
    if s != "" {
      var init, c := s[..|s| - 1], s[|s| - 1];
      SquashKeepsLetters(init);
      LettersSnoc(SquashDashes(init), c);
    }
  }

  lemma {:induction false} LeftDropKeepsLetters(s: string)
    ensures Letters(DropDashesLeft(s)) == Letters(s)
  {
    hide Lower;
    if s != "" && s[0] == '-' {
      LeftDropKeepsLetters(s[1..]);
      assert s == [s[0]] + s[1..];
      LettersConcat([s[0]], s[1..]);
      LettersOfOne(s[0]);
      assert Letters([s[0]]) == "" && Letters(s) == "" + Letters(s[1..]);
    }
  }

  lemma {:induction false} RightDropKeepsLetters(s: string)
    ensures Letters(DropDashesRight(s)) == Letters(s)
  {
    if s != "" && s[|s| - 1] == '-' {
      RightDropKeepsLetters(s[..|s| - 1]);
    }
  }

  lemma LowerConcat(a: string, b: string)
    ensures Lower(a + b) == Lower(a) + Lower(b)
  {
  }

  lemma SpaceHasNoLetters(c: char)
    requires IsSpace(c)
    ensures Letters(Lower([c])) == ""
  {
    assert Lower([c]) == [c];
    LettersOfOne(c);
  }

  lemma {:induction false} TrimsKeepLetters(s: string)
    ensures Letters(Lower(TrimLeft(s))) == Letters(Lower(s))
    ensures Letters(Lower(TrimRight(s))) == Letters(Lower(s))
    decreases |s|
  {
    if s != "" && IsSpace(s[0]) {
      assert s == [s[0]] + s[1..];
      LowerConcat([s[0]], s[1..]);
      LettersConcat(Lower([s[0]]), Lower(s[1..]));
      SpaceHasNoLetters(s[0]);
      TrimsKeepLetters(s[1..]);
    }
    if s != "" && IsSpace(s[|s| - 1]) {
      var init, c := s[..|s| - 1], s[|s| - 1];
      assert s == init + [c];
      LowerConcat(init, [c]);
      LettersConcat(Lower(init), Lower([c]));
      SpaceHasNoLetters(c);
      TrimsKeepLetters(init);
    }
  }

  lemma WholeSlugKeepsLetters(name: string)
    ensures Letters(WholeSlug(name)) == Letters(Lower(name))
  {
    var s := Lower(Trim(name));
    TrimsKeepLetters(name);
    TrimsKeepLetters(TrimLeft(name));
    RunsKeepLetters(s);
    SquashKeepsLetters(ReplaceRuns(s));
    LeftDropKeepsLetters(Dashed(s));
    RightDropKeepsLetters(DropDashesLeft(Dashed(s)));
  }

  /** Whatever is left starts with a letter or digit. */
  lemma StartsWithLetter(s: string)
    requires Clean(s) && s != "" && s[0] != '-'
    ensures Letters(s) != ""
  {
    assert s == [s[0]] + s[1..];
    LettersConcat([s[0]], s[1..]);
    LettersOfOne(s[0]);
  }

  /** The cut loses at most one dash more. */
  lemma CutIsLong(s: string)
    requires Clean(s) && |s| > 40
    ensures |DropDashesRight(s[..40])| >= 39
  {
    assert !(s[38] == '-' && s[39] == '-');
    var t := s[..40];
    assert t[39] == s[39] && t[..39][38] == s[38];
  }

  /** A slug is made of the name's letters and digits, in order: all of them, or as many as fit
      into 40 characters; the fallback is used exactly for names without any. */
  lemma SlugKeepsLetters(name: string, fallback: string)
    ensures var r, all := Slug(name, fallback), Letters(Lower(name));
            if all == "" then r == fallback
            else Letters(r) != "" && Letters(r) <= all && (Letters(r) == all || |r| >= 39)
  {
    var s := WholeSlug(name);
    WholeSlugKeepsLetters(name);
    if s != "" {
      StartsWithLetter(s);
      if |s| > 40 {
        var cut := DropDashesRight(s[..40]);
        CutIsLong(s);
        RightDropKeepsLetters(s[..40]);
        assert s == s[..40] + s[40..];
        LettersConcat(s[..40], s[40..]);
        StartsWithLetter(cut);
      }
    }
  }

  // ---------------------------------------------------------------- what a slug is

  /** The letters and digits of a string, with one dash wherever something else stood between two of
      them. */
  function Joined(s: string): string {
    if s == "" then "" else
    var n := |s| - 1;
    var before := Joined(s[..n]);
    if !AlphaNum(s[n]) then before
    else if before != "" && !AlphaNum(s[n - 1]) then before + "-" + [s[n]]
    else before + [s[n]]
  }

  lemma {:induction false} RunsEnd(s: string)
    requires s != ""
    ensures var r := ReplaceRuns(s); r != "" && r[|r| - 1] == if SlugChar(s[|s| - 1]) then s[|s| - 1] else '-'
  {
    var n := |s| - 1;
    if n > 0 && !SlugChar(s[n]) && !SlugChar(s[n - 1]) {
      RunsEnd(s[..n]);
    }
  }

  lemma ReplaceSnoc(s: string, c: char)
    ensures ReplaceRuns(s + [c]) ==
            if SlugChar(c) then ReplaceRuns(s) + [c]
            else if s != "" && !SlugChar(s[|s| - 1]) then ReplaceRuns(s)
            else ReplaceRuns(s) + "-"
  {
    hide SlugChar;
    assert (s + [c])[..|s|] == s;
  }

  lemma SquashSnoc(r: string, c: char)
    ensures SquashDashes(r + [c]) ==
            if c == '-' && r != "" && r[|r| - 1] == '-' then SquashDashes(r) else SquashDashes(r) + [c]
  {
    assert (r + [c])[..|r|] == r;
  }

  /** Both passes over one more character. */
  lemma DashedSnoc(s: string, c: char)
    ensures Dashed(s + [c]) ==
            if AlphaNum(c) then Dashed(s) + [c]
            else if s != "" && !AlphaNum(s[|s| - 1]) then Dashed(s)
            else Dashed(s) + "-"
  {
    hide ReplaceRuns, SquashDashes;
    ReplaceSnoc(s, c);
    SquashSnoc(ReplaceRuns(s), c);
    SquashSnoc(ReplaceRuns(s), '-');
    if s != "" {
      RunsEnd(s);
    } else {
      assert ReplaceRuns("") == "" by {
        ReplaceRunsFixed("");
      }
    }
  }

  lemma {:induction false} DropLeftSnoc(x: string, c: char)
    ensures DropDashesLeft(x + [c]) ==
            if DropDashesLeft(x) == "" && c == '-' then "" else DropDashesLeft(x) + [c]
  {
    if x == "" {
      assert x + [c] == [c] && [c][1..] == "";
    } else {
      assert (x + [c])[1..] == x[1..] + [c];
      if x[0] == '-' {
        DropLeftSnoc(x[1..], c);
      }
    }
  }

  lemma {:induction false} JoinedEnds(s: string)
    ensures var r := Joined(s); r != "" ==> AlphaNum(r[|r| - 1])
  {
    if s != "" {
      JoinedEnds(s[..|s| - 1]);
    }
  }

  lemma JoinedSnoc(s: string, c: char)
    ensures Joined(s + [c]) ==
            if !AlphaNum(c) then Joined(s)
            else if Joined(s) != "" && !AlphaNum(s[|s| - 1]) then Joined(s) + "-" + [c]
            else Joined(s) + [c]
  {
    assert (s + [c])[..|s|] == s;
  }

  /** A dash that waits for the next letter or digit. */
  function Pending(s: string): string {
    if Joined(s) != "" && !AlphaNum(s[|s| - 1]) then "-" else ""
  }

  lemma {:induction false} DashedIsJoined(s: string)
    ensures DropDashesLeft(Dashed(s)) == Joined(s) + Pending(s)
  {
    if s != "" {
      var init, c := s[..|s| - 1], s[|s| - 1];
      assert s == init + [c];
      DashedIsJoined(init);
      OneMoreJoined(init, c);
    }
  }

  lemma OneMoreJoined(s: string, c: char)
    requires DropDashesLeft(Dashed(s)) == Joined(s) + Pending(s)
    ensures DropDashesLeft(Dashed(s + [c])) == Joined(s + [c]) + Pending(s + [c])
  {
    hide Dashed, DropDashesLeft, Joined;
    DashedSnoc(s, c);
    JoinedSnoc(s, c);
    DropLeftSnoc(Dashed(s), c);
    DropLeftSnoc(Dashed(s), '-');
    if s == "" {
      NothingJoined(s);
    }
  }

  lemma {:induction false} NothingJoined(b: string)
    requires forall i :: 0 <= i < |b| ==> !AlphaNum(b[i])
    ensures Joined(b) == ""
  {
    if b != "" {
      NothingJoined(b[..|b| - 1]);
    }
  }

  /** What is neither letter nor digit does not count at the ends. */
  lemma {:induction false} JoinedAfter(b: string, s: string)
    requires forall i :: 0 <= i < |b| ==> !AlphaNum(b[i])
    ensures Joined(b + s) == Joined(s)
  {
    NothingJoined(b);
    if s == "" {
      assert b + s == b;
    } else {
      var n := |s| - 1;
      assert (b + s)[..|b + s| - 1] == b + s[..n];
      JoinedAfter(b, s[..n]);
    }
  }

  lemma {:induction false} JoinedBefore(s: string, a: string)
    requires forall i :: 0 <= i < |a| ==> !AlphaNum(a[i])
    ensures Joined(s + a) == Joined(s)
  {
    if a == "" {
      assert s + a == s;
    } else {
      assert (s + a)[..|s + a| - 1] == s + a[..|a| - 1];
      JoinedBefore(s, a[..|a| - 1]);
    }
  }

  lemma TrimDoesNotMatter(name: string)
    ensures Joined(Lower(Trim(name))) == Joined(Lower(name))
  {
    var before, after := TrimParts(name);
    var mid := Trim(name);
    assert Lower(name) == Lower(before) + Lower(mid) + Lower(after);
    JoinedAfter(Lower(before), Lower(mid));
    JoinedBefore(Lower(before) + Lower(mid), Lower(after));
  }

  lemma WholeSlugIs(name: string)
    ensures WholeSlug(name) == Joined(Lower(name))
  {
    var s := Lower(Trim(name));
    DashedIsJoined(s);
    TrimDoesNotMatter(name);
    JoinedEnds(s);
    var r := Joined(s);
    assert (r + "-")[..|r|] == r;
    if r != "" {
      assert DropDashesRight(r) == r;
    }
  }

  /** The slug of any name: its lower-case letters and digits, one dash for what stands between two
      of them, cut to 40 characters without a dash at the end; the fallback when there are none. */
  lemma SlugIs(name: string, fallback: string)
    ensures var w := Joined(Lower(name));
            Slug(name, fallback) == if w == "" then fallback
                                    else if |w| <= 40 then w
                                    else if w[39] == '-' then w[..39] else w[..40]
  {
    WholeSlugIs(name);
    var w := Joined(Lower(name));
    hide DropDashesRight;
    if |w| > 40 {
      CutIs(w);
    }
  }

  lemma CutIs(w: string)
    requires Clean(w) && |w| > 40
    ensures DropDashesRight(w[..40]) == if w[39] == '-' then w[..39] else w[..40]
  {
    var cut := w[..40];
    assert cut[39] == w[39] && cut[..39] == w[..39] && w[..39][38] == w[38];
    assert !(w[38] == '-' && w[39] == '-');
    assert DropDashesRight(cut) == if w[39] == '-' then DropDashesRight(cut[..39]) else cut;
  }
}
