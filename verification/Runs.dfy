/** Cutting a list of entries into runs, and why the runs determine the cut. */
module Runs {
  import opened Transactions

  /** Whether an entry starts a new run after the current one. */
  type Break = (seq<Entry>, Entry) -> bool

  /** One run: nothing inside breaks it. */
  ghost predicate Run(brk: Break, g: seq<Entry>) {
    g != [] && forall i :: 0 < i < |g| ==> !brk(g[..i], g[i])
  }

  /** Runs, each broken by the next one's first entry. */
  ghost predicate InRuns(brk: Break, groups: seq<seq<Entry>>) {
    (forall g <- groups :: Run(brk, g)) &&
    (forall k :: 0 < k < |groups| ==> groups[k] != [] && brk(groups[k - 1], groups[k][0]))
  }

  /** An entry joins the last run or starts the next one. */
  function Extend(brk: Break, groups: seq<seq<Entry>>, e: Entry): seq<seq<Entry>> {
    var n := |groups| - 1;
    if n < 0 || brk(groups[n], e) then groups + [[e]] else groups[..n] + [groups[n] + [e]]
  }

  function CutInto(brk: Break, s: seq<Entry>): seq<seq<Entry>> {
    if |s| == 0 then [] else Extend(brk, CutInto(brk, s[..|s| - 1]), s[|s| - 1])
  }

  lemma CutSnoc(brk: Break, s: seq<Entry>, e: Entry)
    ensures CutInto(brk, s + [e]) == Extend(brk, CutInto(brk, s), e)
  {
    assert (s + [e])[..|s|] == s;
  }

  lemma RunsSnoc(brk: Break, before: seq<seq<Entry>>, g: seq<Entry>)
    requires InRuns(brk, before) && Run(brk, g) && (before == [] || brk(before[|before| - 1], g[0]))
    ensures InRuns(brk, before + [g])
  {
    var all := before + [g];
    forall k | 0 < k < |all| ensures all[k] != [] && brk(all[k - 1], all[k][0]) {
      if k < |before| { assert all[k] == before[k]; }
    }
  }

  lemma RunsInit(brk: Break, all: seq<seq<Entry>>)
    requires InRuns(brk, all) && |all| > 0
    ensures var n := |all| - 1;
      InRuns(brk, all[..n]) && Run(brk, all[n]) && (n > 0 ==> brk(all[n - 1], all[n][0]))
  {
    var n := |all| - 1;
    assert forall g <- all[..n] :: g in all;
    forall k | 0 < k < n ensures all[..n][k] != [] && brk(all[..n][k - 1], all[..n][k][0]) {
      assert all[..n][k] == all[k] && all[..n][k - 1] == all[k - 1];
    }
  }

  lemma LastGrown(before: seq<Entry>, g: seq<Entry>, e: Entry)
    ensures before + (g + [e]) == (before + g) + [e]
  {
  }

  lemma ExtendRuns(brk: Break, before: seq<seq<Entry>>, e: Entry)
    requires InRuns(brk, before)
    ensures InRuns(brk, Extend(brk, before, e)) && Concat(Extend(brk, before, e)) == Concat(before) + [e]
  {
    var n := |before| - 1;
    if n < 0 || brk(before[n], e) {
      RunsSnoc(brk, before, [e]);
      ConcatSnoc(before, [e]);
    } else {
      RunsInit(brk, before);
      GrownRun(brk, before[n], e);
      RunsSnoc(brk, before[..n], before[n] + [e]);
      ConcatSnoc(before[..n], before[n] + [e]);
      LastGrown(Concat(before[..n]), before[n], e);
    }
  }

  /** The cut is into runs and loses nothing. */
  lemma {:induction false} CutIsRuns(brk: Break, s: seq<Entry>)
    ensures InRuns(brk, CutInto(brk, s)) && Concat(CutInto(brk, s)) == s
    decreases |s|
  {
    if |s| > 0 {
      CutIsRuns(brk, s[..|s| - 1]);
      ExtendRuns(brk, CutInto(brk, s[..|s| - 1]), s[|s| - 1]);
    }
  }

  lemma GrownRun(brk: Break, g: seq<Entry>, e: Entry)
    requires Run(brk, g) && !brk(g, e)
    ensures Run(brk, g + [e])
  {
    var h := g + [e];
    forall i | 0 < i < |h| ensures !brk(h[..i], h[i]) {
      if i < |g| { assert h[..i] == g[..i] && h[i] == g[i]; } else { assert h[..i] == g; }
    }
  }

  /** Runs without their last entry are runs that the entry extends back. */
  lemma RunsShorten(brk: Break, a: seq<seq<Entry>>) returns (b: seq<seq<Entry>>, e: Entry)
    requires InRuns(brk, a) && |a| > 0
    ensures InRuns(brk, b) && Extend(brk, b, e) == a && Concat(a) == Concat(b) + [e]
  {
    var n := |a| - 1;
    RunsInit(brk, a);
    var shorter := a[n][..|a[n]| - 1];
    e := a[n][|a[n]| - 1];
    assert a[n] == shorter + [e];
    if shorter == [] {
      b := a[..n];
      AloneExtends(brk, a, e);
    } else {
      b := a[..n] + [shorter];
      ShorterRun(brk, a[n]);
      RunsSnoc(brk, a[..n], shorter);
      ShorterExtends(brk, a, shorter, e);
    }
    ExtendRuns(brk, b, e);
  }

  lemma AloneExtends(brk: Break, a: seq<seq<Entry>>, e: Entry)
    requires |a| > 0 && a[|a| - 1] == [e] && (|a| > 1 ==> brk(a[|a| - 2], e))
    ensures Extend(brk, a[..|a| - 1], e) == a
  {
  }

  lemma ShorterExtends(brk: Break, a: seq<seq<Entry>>, shorter: seq<Entry>, e: Entry)
    requires |a| > 0 && a[|a| - 1] == shorter + [e] && !brk(shorter, e)
    ensures Extend(brk, a[..|a| - 1] + [shorter], e) == a
  {
    assert (a[..|a| - 1] + [shorter])[..|a| - 1] == a[..|a| - 1];
  }

  /** A list has only one cut into runs. */
  lemma {:induction false} RunsUnique(brk: Break, a: seq<seq<Entry>>)
    requires InRuns(brk, a)
    ensures a == CutInto(brk, Concat(a))
    decreases |Concat(a)|
  {
    if |a| > 0 {
      var b, e := RunsShorten(brk, a);
      RunsUnique(brk, b);
      CutSnoc(brk, Concat(b), e);
    }
  }

  lemma ShorterRun(brk: Break, g: seq<Entry>)
    requires Run(brk, g) && |g| > 1
    ensures Run(brk, g[..|g| - 1]) && !brk(g[..|g| - 1], g[|g| - 1])
  {
    var h := g[..|g| - 1];
    forall i | 0 < i < |h| ensures !brk(h[..i], h[i]) { assert h[..i] == g[..i]; }
  }

  /** Every run of a cut is a stretch of the list. */
  lemma {:induction false} RunIsStretch(groups: seq<seq<Entry>>, k: nat) returns (from: nat)
    requires k < |groups|
    ensures from + |groups[k]| <= |Concat(groups)| && Concat(groups)[from..from + |groups[k]|] == groups[k]
    decreases |groups|
  {
    var n := |groups| - 1;
    if k == n {
      from := |Concat(groups[..n])|;
    } else {
      from := RunIsStretch(groups[..n], k);
      assert Concat(groups)[from..from + |groups[k]|] == Concat(groups[..n])[from..from + |groups[k]|];
    }
  }

  // ----- The cut as a loop builds it: finished runs and the current one -----

  function Pending(groups: seq<seq<Entry>>, current: seq<Entry>): seq<seq<Entry>> {
    if current == [] then groups else groups + [current]
  }

  /** The state of such a loop after the entries of `done`. */
  ghost predicate CutSoFar(brk: Break, done: seq<Entry>, groups: seq<seq<Entry>>, current: seq<Entry>) {
    Pending(groups, current) == CutInto(brk, done) && (current == [] ==> groups == [] && done == [])
  }

  /** At the end, what is under way is the last run. */
  lemma CutDone(brk: Break, done: seq<Entry>, groups: seq<seq<Entry>>, current: seq<Entry>)
    requires CutSoFar(brk, done, groups, current)
    ensures CutInto(brk, done) == if current == [] then groups else groups + [current]
  {
  }

  lemma CutNext(brk: Break, done: seq<Entry>, groups: seq<seq<Entry>>, current: seq<Entry>, e: Entry)
    requires CutSoFar(brk, done, groups, current)
    ensures current != [] && brk(current, e) ==> CutSoFar(brk, done + [e], groups + [current], [e])
    ensures current == [] || !brk(current, e) ==> CutSoFar(brk, done + [e], groups, current + [e])
  {
    CutSnoc(brk, done, e);
    assert (groups + [current])[..|groups|] == groups;
    assert [] + [e] == [e];
  }
}
