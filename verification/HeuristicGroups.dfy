/**
  The fallback of session grouping for entries no id could be found for: runs
  split at long pauses, each placed with the session it overlaps longest or
  under a heuristic key. Loops over a map visit its keys in any order, and
  `sort.Slice` may return any sorted arrangement.
 */
module HeuristicGroups {
  import opened Common
  import opened Sorting
  import opened SessionKeys
  import opened Transactions
  import opened Runs
  import opened SessionInference

  const GAP := FIVE_MINUTES

  // ----- Time gaps -----

  /** More than five minutes lie between the last entry and the next, both times being readable. */
  function FarApart(parse: TimeParser): Break {
    (current: seq<Entry>, e: Entry) =>
      current != [] &&
      var prev, curr := parse(current[|current| - 1].timestamp), parse(e.timestamp);
      prev.Some? && curr.Some? && curr.value - prev.value > GAP
  }

  /** The time-gap loop. */
  method CutByGap(parse: TimeParser, entries: seq<Entry>) returns (groups: seq<seq<Entry>>)
    ensures groups == CutInto(FarApart(parse), entries)
  {
    groups := [];
    var current: seq<Entry> := [];
    ghost var brk, done := FarApart(parse), [];
    var i := 0;
    while i < |entries|
      invariant 0 <= i <= |entries| && done == entries[..i] && CutSoFar(brk, done, groups, current)
    {
      var e := entries[i];
      CutNext(brk, done, groups, current, e);
      if |current| == 0 {
        current := current + [e];
      } else {
        var prev, curr := parse(current[|current| - 1].timestamp), parse(e.timestamp);
        if prev.None? || curr.None? {
          current := current + [e];
        } else if curr.value - prev.value > GAP {
          groups := groups + [current];
          current := [e];
        } else {
          current := current + [e];
        }
      }
      done := done + [e];
      assert done == entries[..i + 1];
      i := i + 1;
    }
    assert done == entries;
    CutDone(brk, done, groups, current);
    if |current| > 0 {
      groups := groups + [current];
    }
  }

  // ----- Placing a group by overlap -----

  function FakeKeyOf(group: seq<Entry>): string
    requires group != []
  {
    FakeKey(group[0].txnID, group[|group| - 1].txnID)
  }

  function Min(a: int, b: int): int { if a < b then a else b }

  function Max(a: int, b: int): int { if a > b then a else b }

  /** How long the two lists overlap, each end extended by the gap; 0 for unreadable ends or no overlap. */
  function Overlap(parse: TimeParser, s: seq<Entry>, start: int, end: int): int
    requires s != []
  {
    var a, b := parse(s[0].timestamp), parse(s[|s| - 1].timestamp);
    if a.None? || b.None? then 0
    else Max(0, Min(b.value + GAP, end + GAP) - Max(a.value, start))
  }

  /** A session that overlaps, and no session overlaps longer. */
  ghost predicate IsBest(parse: TimeParser, raw: Filed, start: int, end: int, sid: string)
    requires NoneEmpty(raw)
  {
    sid in raw && Overlap(parse, raw[sid], start, end) > 0 &&
    forall o <- raw :: Overlap(parse, raw[o], start, end) <= Overlap(parse, raw[sid], start, end)
  }

  /** The overlap loop over the sessions, in any order. */
  method BestSession(parse: TimeParser, raw: Filed, start: int, end: int) returns (best: string)
    requires NoneEmpty(raw) && "" !in raw
    ensures best != "" ==> IsBest(parse, raw, start, end, best)
    ensures best == "" ==> forall sid <- raw :: Overlap(parse, raw[sid], start, end) == 0
  {
    best := "";
    var bestOverlap := 0;
    var todo := raw.Keys;
    while todo != {}
      invariant todo <= raw.Keys && bestOverlap >= 0 && (best == "" <==> bestOverlap == 0)
      invariant best != "" ==> best in raw && Overlap(parse, raw[best], start, end) == bestOverlap
      invariant forall sid <- raw :: sid !in todo ==> Overlap(parse, raw[sid], start, end) <= bestOverlap
      decreases |todo|
    {
      var sid :| sid in todo;
      var entries := raw[sid];
      var a, b := parse(entries[0].timestamp), parse(entries[|entries| - 1].timestamp);
      if a.Some? && b.Some? {
        var overlapStart, overlapEnd := Max(a.value, start), Min(b.value + GAP, end + GAP);
        if overlapStart <= overlapEnd {
          var overlap := overlapEnd - overlapStart;
          if overlap > bestOverlap {
            bestOverlap, best := overlap, sid;
          }
        }
      }
      todo := todo - {sid};
    }
  }

  /** Both ends of the group have readable times. */
  predicate Readable(parse: TimeParser, group: seq<Entry>)
    requires group != []
  {
    parse(group[0].timestamp).Some? && parse(group[|group| - 1].timestamp).Some?
  }

  /** The group joins a best session, and nothing else changes. */
  ghost predicate Joined(parse: TimeParser, raw: Filed, group: seq<Entry>, out: Filed, best: string)
    requires group != [] && NoneEmpty(raw)
  {
    Readable(parse, group) &&
    IsBest(parse, raw, parse(group[0].timestamp).value, parse(group[|group| - 1].timestamp).value, best) &&
    out.Keys == raw.Keys && multiset(out[best]) == multiset(raw[best]) + multiset(group) && Sorted(ByTime, out[best]) &&
    forall k <- raw :: k != best ==> out[k] == raw[k]
  }

  /** The group gets a heuristic key of its own, replacing what was there. */
  ghost predicate FellBack(parse: TimeParser, raw: Filed, group: seq<Entry>, out: Filed)
    requires group != [] && NoneEmpty(raw)
  {
    out == raw[FakeKeyOf(group) := group] &&
    (Readable(parse, group) ==>
      forall sid <- raw :: Overlap(parse, raw[sid], parse(group[0].timestamp).value, parse(group[|group| - 1].timestamp).value) == 0)
  }

  /** One round of the placement loop. */
  method PlaceGroup(parse: TimeParser, raw: Filed, group: seq<Entry>) returns (out: Filed, best: string)
    requires group != [] && NoneEmpty(raw) && "" !in raw
    ensures if best != "" then Joined(parse, raw, group, out, best) else FellBack(parse, raw, group, out)
  {
    var a, b := parse(group[0].timestamp), parse(group[|group| - 1].timestamp);
    if a.None? || b.None? {
      return raw[FakeKeyOf(group) := group], "";
    }
    best := BestSession(parse, raw, a.value, b.value);
    if best != "" {
      ByTimeIsOrder();
      var sorted := SortSlice(raw[best] + group, ByTime);
      out := raw[best := sorted];
    } else {
      out := raw[FakeKeyOf(group) := group];
    }
  }

  /** Placing a group keeps every entry, except those its heuristic key replaces. */
  lemma PlacedTotal(parse: TimeParser, raw: Filed, group: seq<Entry>, out: Filed, best: string)
    requires group != [] && NoneEmpty(raw) && "" !in raw
    requires if best != "" then Joined(parse, raw, group, out, best) else FellBack(parse, raw, group, out)
    ensures NoneEmpty(out) && "" !in out
    ensures var lost := if best != "" then multiset{} else multiset(At(raw, FakeKeyOf(group)));
      Total(out) + lost == Total(raw) + multiset(group)
  {
    if best != "" {
      assert out == raw[best := out[best]];
      TotalPut(raw, best, out[best]);
      assert Total(out) + multiset(raw[best]) == (Total(raw) + multiset(group)) + multiset(raw[best]);
      Cancel(Total(out), Total(raw) + multiset(group), multiset(raw[best]));
      assert |multiset(out[best])| > 0;
    } else {
      TotalPut(raw, FakeKeyOf(group), group);
    }
  }

  ghost predicate KeysNever(fallbacks: seq<seq<Entry>>, start: Filed) {
    forall g <- fallbacks :: g != [] ==> FakeKeyOf(g) !in start
  }

  ghost predicate HasKey(fallbacks: seq<seq<Entry>>, key: string) {
    exists g <- fallbacks :: g != [] && FakeKeyOf(g) == key
  }

  /** A session of the start whose id a fallback group used as its heuristic key. */
  ghost predicate Replaced(start: Filed, fallbacks: seq<seq<Entry>>, key: string) {
    key in start && HasKey(fallbacks, key)
  }

  /** Everything that was ever filed under each key. */
  type Trail = map<string, multiset<Entry>>

  ghost function TrailOf(m: Filed): Trail { map k | k in m :: multiset(m[k]) }

  ghost function Longer(trail: Trail, key: string, group: seq<Entry>): Trail {
    trail[key := (if key in trail then trail[key] else multiset{}) + multiset(group)]
  }

  /** A key holds everything ever filed under it, unless its session was replaced. */
  ghost predicate HoldsAll(start: Filed, trail: Trail, out: Filed, fallbacks: seq<seq<Entry>>, k: string) {
    k in out && k in trail && multiset(out[k]) <= trail[k] && (Replaced(start, fallbacks, k) || multiset(out[k]) == trail[k])
  }

  /** Session by session: the lists of the start are on the trail, and no key but a replaced one gave anything up. */
  ghost predicate Kept(start: Filed, trail: Trail, out: Filed, fallbacks: seq<seq<Entry>>) {
    (forall k <- out :: HoldsAll(start, trail, out, fallbacks, k)) &&
    (forall k <- start :: k in trail && multiset(start[k]) <= trail[k])
  }

  /** What was lost had been filed under the id of a replaced session. */
  ghost predicate LostFrom(start: Filed, trail: Trail, lost: multiset<Entry>, fallbacks: seq<seq<Entry>>) {
    forall e <- lost :: exists k <- trail :: Replaced(start, fallbacks, k) && e in trail[k]
  }

  /** Where the placement loop stands: what it kept, what heuristic keys replaced, and by which groups. */
  ghost predicate PlacedSoFar(start: Filed, placed: multiset<Entry>, trail: Trail, out: Filed, lost: multiset<Entry>,
                              fallbacks: seq<seq<Entry>>) {
    NoneEmpty(out) && "" !in out &&
    Total(out) + lost == Total(start) + placed &&
    (forall k :: k in out <==> k in start || HasKey(fallbacks, k)) && (forall k :: k in trail <==> k in out) &&
    (lost == multiset{} <==> KeysNever(fallbacks, start)) &&
    Kept(start, trail, out, fallbacks) && LostFrom(start, trail, lost, fallbacks)
  }

  lemma NothingPlaced(start: Filed)
    requires NoneEmpty(start) && "" !in start
    ensures PlacedSoFar(start, multiset{}, TrailOf(start), start, multiset{}, [])
  {
    forall k <- start ensures HoldsAll(start, TrailOf(start), start, [], k) {}
  }

  lemma Rearrange(o: multiset<Entry>, more: multiset<Entry>, r: multiset<Entry>, g: multiset<Entry>,
                  lost: multiset<Entry>, s: multiset<Entry>, placed: multiset<Entry>)
    requires o + more == r + g && r + lost == s + placed
    ensures o + (lost + more) == s + (placed + g)
  {
    forall e ensures (o + (lost + more))[e] == (s + (placed + g))[e] {
      assert (o + more)[e] == (r + g)[e] && (r + lost)[e] == (s + placed)[e];
    }
  }

  lemma JoinedKeeps(parse: TimeParser, start: Filed, trail: Trail, raw: Filed, fallbacks: seq<seq<Entry>>,
                    group: seq<Entry>, out: Filed, best: string)
    requires NoneEmpty(raw) && group != [] && Kept(start, trail, raw, fallbacks) && Joined(parse, raw, group, out, best)
    ensures Kept(start, Longer(trail, best, group), out, fallbacks)
  {
    var more := Longer(trail, best, group);
    forall k <- out ensures HoldsAll(start, more, out, fallbacks, k) { assert HoldsAll(start, trail, raw, fallbacks, k); }
  }

  /** What is lost stays on a longer trail, with at least the same fallbacks. */
  lemma LostStays(start: Filed, trail: Trail, lost: multiset<Entry>, fallbacks: seq<seq<Entry>>, more: Trail,
                  all: seq<seq<Entry>>)
    requires LostFrom(start, trail, lost, fallbacks) && forall g <- fallbacks :: g in all
    requires forall k <- trail :: k in more && trail[k] <= more[k]
    ensures LostFrom(start, more, lost, all)
  {
    forall e <- lost ensures exists k <- more :: Replaced(start, all, k) && e in more[k] {
      var k :| k in trail && Replaced(start, fallbacks, k) && e in trail[k];
      var g: seq<Entry> :| g in fallbacks && g != [] && FakeKeyOf(g) == k;
      assert g in all && Replaced(start, all, k) && e in more[k];
    }
  }

  lemma JoinedNext(parse: TimeParser, start: Filed, placed: multiset<Entry>, trail: Trail, raw: Filed,
                   lost: multiset<Entry>, fallbacks: seq<seq<Entry>>, group: seq<Entry>, out: Filed, best: string)
    requires PlacedSoFar(start, placed, trail, raw, lost, fallbacks) && group != []
    requires best != "" && Joined(parse, raw, group, out, best)
    ensures PlacedSoFar(start, placed + multiset(group), Longer(trail, best, group), out, lost, fallbacks)
  {
    PlacedTotal(parse, raw, group, out, best);
    Rearrange(Total(out), multiset{}, Total(raw), multiset(group), lost, Total(start), placed);
    assert lost + multiset{} == lost;
    JoinedKeeps(parse, start, trail, raw, fallbacks, group, out, best);
    LostStays(start, trail, lost, fallbacks, Longer(trail, best, group), fallbacks);
  }

  lemma KeysSnoc(fallbacks: seq<seq<Entry>>, group: seq<Entry>, start: Filed)
    requires group != []
    ensures forall k :: HasKey(fallbacks + [group], k) <==> HasKey(fallbacks, k) || k == FakeKeyOf(group)
    ensures KeysNever(fallbacks + [group], start) <==> KeysNever(fallbacks, start) && FakeKeyOf(group) !in start
  {
    var all := fallbacks + [group];
    assert all[|all| - 1] == group;
    forall k ensures HasKey(all, k) <==> HasKey(fallbacks, k) || k == FakeKeyOf(group) {
      if HasKey(fallbacks, k) { var g :| g in fallbacks && g != [] && FakeKeyOf(g) == k; assert g in all; }
    }
  }

  lemma FellBackKeeps(parse: TimeParser, start: Filed, trail: Trail, raw: Filed, fallbacks: seq<seq<Entry>>,
                      group: seq<Entry>, out: Filed)
    requires NoneEmpty(raw) && group != [] && Kept(start, trail, raw, fallbacks) && FellBack(parse, raw, group, out)
    requires (forall k <- trail :: k in raw) && (FakeKeyOf(group) in raw ==> FakeKeyOf(group) in start)
    ensures Kept(start, Longer(trail, FakeKeyOf(group), group), out, fallbacks + [group])
  {
    var f, all := FakeKeyOf(group), fallbacks + [group];
    var more := Longer(trail, f, group);
    KeysSnoc(fallbacks, group, start);
    forall k <- out ensures HoldsAll(start, more, out, all, k) {
      if k != f { assert HoldsAll(start, trail, raw, fallbacks, k); }
    }
  }

  /** What a fallback loses had been filed under its key. */
  lemma FellBackLost(start: Filed, trail: Trail, raw: Filed, lost: multiset<Entry>, fallbacks: seq<seq<Entry>>,
                     group: seq<Entry>)
    requires group != [] && Kept(start, trail, raw, fallbacks) && LostFrom(start, trail, lost, fallbacks)
    requires FakeKeyOf(group) in raw ==> FakeKeyOf(group) in start
    ensures LostFrom(start, Longer(trail, FakeKeyOf(group), group), lost + multiset(At(raw, FakeKeyOf(group))), fallbacks + [group])
  {
    var f, all := FakeKeyOf(group), fallbacks + [group];
    var more := Longer(trail, f, group);
    LostStays(start, trail, lost, fallbacks, more, all);
    KeysSnoc(fallbacks, group, start);
    forall e | e in multiset(At(raw, f)) ensures f in more && Replaced(start, all, f) && e in more[f] {
      assert HoldsAll(start, trail, raw, fallbacks, f);
    }
  }

  lemma FellBackTotals(parse: TimeParser, start: Filed, placed: multiset<Entry>, raw: Filed, lost: multiset<Entry>,
                       fallbacks: seq<seq<Entry>>, group: seq<Entry>, out: Filed)
    requires group != [] && NoneEmpty(raw) && "" !in raw && FellBack(parse, raw, group, out)
    requires Total(raw) + lost == Total(start) + placed && (lost == multiset{} <==> KeysNever(fallbacks, start))
    requires FakeKeyOf(group) in raw <==> FakeKeyOf(group) in start
    ensures var all, gone := fallbacks + [group], lost + multiset(At(raw, FakeKeyOf(group)));
      NoneEmpty(out) && "" !in out && Total(out) + gone == Total(start) + (placed + multiset(group)) &&
      (gone == multiset{} <==> KeysNever(all, start))
  {
    var f := FakeKeyOf(group);
    PlacedTotal(parse, raw, group, out, "");
    KeysSnoc(fallbacks, group, start);
    var more := multiset(At(raw, f));
    Rearrange(Total(out), more, Total(raw), multiset(group), lost, Total(start), placed);
    ListEmpty(At(raw, f));
    BothEmpty(lost, more);
  }

  lemma ListEmpty(s: seq<Entry>)
    ensures multiset(s) == multiset{} <==> s == []
  {
    if s != [] { assert s[0] in multiset(s); }
  }

  lemma BothEmpty(a: multiset<Entry>, b: multiset<Entry>)
    ensures a + b == multiset{} <==> a == multiset{} && b == multiset{}
  {
    assert a <= a + b && b <= a + b;
  }

  /** A fresh heuristic key loses something exactly when an id of the start has it. */
  lemma FellBackNext(parse: TimeParser, start: Filed, placed: multiset<Entry>, trail: Trail, raw: Filed,
                     lost: multiset<Entry>, fallbacks: seq<seq<Entry>>, group: seq<Entry>, out: Filed)
    requires PlacedSoFar(start, placed, trail, raw, lost, fallbacks) && group != []
    requires FellBack(parse, raw, group, out) && !HasKey(fallbacks, FakeKeyOf(group))
    ensures PlacedSoFar(start, placed + multiset(group), Longer(trail, FakeKeyOf(group), group), out,
                        lost + multiset(At(raw, FakeKeyOf(group))), fallbacks + [group])
  {
    FellBackTotals(parse, start, placed, raw, lost, fallbacks, group, out);
    KeysSnoc(fallbacks, group, start);
    FellBackKeeps(parse, start, trail, raw, fallbacks, group, out);
    FellBackLost(start, trail, raw, lost, fallbacks, group);
  }

  // ----- Placing all groups -----

  /** One group joins a best session, or is filed under its heuristic key. */
  ghost predicate PlaceStep(parse: TimeParser, raw: Filed, group: seq<Entry>, out: Filed) {
    group != [] && NoneEmpty(raw) &&
    (FellBack(parse, raw, group, out) || exists best :: Joined(parse, raw, group, out, best))
  }

  /** The groups were placed one after the other. */
  ghost predicate PlacedBy(parse: TimeParser, start: Filed, groups: seq<seq<Entry>>, out: Filed)
    decreases |groups|
  {
    var n := |groups| - 1;
    if n < 0 then out == start
    else exists mid :: PlacedBy(parse, start, groups[..n], mid) && PlaceStep(parse, mid, groups[n], out)
  }

  lemma PlacedByNext(parse: TimeParser, start: Filed, groups: seq<seq<Entry>>, i: nat, mid: Filed, out: Filed)
    requires i < |groups| && PlacedBy(parse, start, groups[..i], mid) && PlaceStep(parse, mid, groups[i], out)
    ensures PlacedBy(parse, start, groups[..i + 1], out)
  {
    assert groups[..i + 1][..i] == groups[..i];
  }

  /** The groups of a list with unique ids have distinct heuristic keys. */
  lemma {:induction false} KeysDistinct(groups: seq<seq<Entry>>, i: nat, j: nat)
    requires UniqueIds(multiset(Concat(groups))) && i < j < |groups| && groups[i] != [] && groups[j] != []
    ensures FakeKeyOf(groups[i]) != FakeKeyOf(groups[j])
    decreases |groups|
  {
    var n := |groups| - 1;
    assert multiset(Concat(groups)) == multiset(Concat(groups[..n])) + multiset(groups[n]);
    if j < n {
      UniquePart(multiset(Concat(groups[..n])), multiset(Concat(groups)));
      KeysDistinct(groups[..n], i, j);
    } else {
      var from := RunIsStretch(groups[..n], i);
      assert groups[i][0] == Concat(groups[..n])[from..from + |groups[i]|][0];
      assert groups[i][0] in Concat(groups[..n]) && groups[n][0] in groups[n];
      UniqueApart(multiset(Concat(groups[..n])), multiset(groups[n]), groups[i][0], groups[n][0]);
      FakeKeysApart(groups[i], groups[j]);
    }
  }

  lemma FakeKeysApart(g: seq<Entry>, h: seq<Entry>)
    requires g != [] && h != [] && g[0].txnID != h[0].txnID
    ensures FakeKeyOf(g) != FakeKeyOf(h)
  {
    if FakeKeyOf(g) == FakeKeyOf(h) {
      FakeKeyInjective(g[0].txnID, g[|g| - 1].txnID, h[0].txnID, h[|h| - 1].txnID);
    }
  }

  /** One round of the placement loop, with what it leaves behind. */
  method PlaceNext(parse: TimeParser, ghost start: Filed, ghost placed: multiset<Entry>, ghost trailBefore: Trail,
                   raw: Filed, group: seq<Entry>, ghost lostBefore: multiset<Entry>,
                   ghost fallbacksBefore: seq<seq<Entry>>)
    returns (out: Filed, ghost trail: Trail, ghost lost: multiset<Entry>, ghost fallbacks: seq<seq<Entry>>)
    requires PlacedSoFar(start, placed, trailBefore, raw, lostBefore, fallbacksBefore)
    requires group != [] && !HasKey(fallbacksBefore, FakeKeyOf(group))
    ensures PlacedSoFar(start, placed + multiset(group), trail, out, lost, fallbacks)
    ensures forall g <- fallbacks :: g in fallbacksBefore || g == group
    ensures PlaceStep(parse, raw, group, out)
  {
    var best;
    out, best := PlaceGroup(parse, raw, group);
    lost, fallbacks := lostBefore, fallbacksBefore;
    if best != "" {
      trail := Longer(trailBefore, best, group);
      JoinedNext(parse, start, placed, trailBefore, raw, lost, fallbacks, group, out, best);
    } else {
      trail := Longer(trailBefore, FakeKeyOf(group), group);
      FellBackNext(parse, start, placed, trailBefore, raw, lost, fallbacks, group, out);
      lost, fallbacks := lost + multiset(At(raw, FakeKeyOf(group))), fallbacks + [group];
    }
  }

  /**
    The placement loop keeps everything ever filed under a key, unless a group's
    heuristic key is already the id of that session, whose list it then replaces;
    `fallbacks` are the groups that got a heuristic key.
   */
  method PlaceGroups(parse: TimeParser, start: Filed, groups: seq<seq<Entry>>)
    returns (out: Filed, ghost trail: Trail, ghost lost: multiset<Entry>, ghost fallbacks: seq<seq<Entry>>)
    requires NoneEmpty(start) && "" !in start && (forall g <- groups :: g != []) && UniqueIds(multiset(Concat(groups)))
    ensures PlacedSoFar(start, multiset(Concat(groups)), trail, out, lost, fallbacks)
    ensures PlacedBy(parse, start, groups, out) && forall g <- fallbacks :: g in groups
  {
    out, trail, lost, fallbacks := start, TrailOf(start), multiset{}, [];
    NothingPlaced(start);
    ghost var placed: multiset<Entry> := multiset{};
    ghost var done: seq<seq<Entry>> := [];
    var i := 0;
    while i < |groups|
      invariant 0 <= i <= |groups| && done == groups[..i] && placed == multiset(Concat(done))
      invariant PlacedSoFar(start, placed, trail, out, lost, fallbacks) && PlacedBy(parse, start, done, out)
      invariant forall g <- fallbacks :: g in done
    {
      NoKeyYet(groups, i, fallbacks);
      ConcatStep(groups, i);
      ghost var before := out;
      out, trail, lost, fallbacks := PlaceNext(parse, start, placed, trail, out, groups[i], lost, fallbacks);
      PlacedByNext(parse, start, groups, i, before, out);
      placed, done := placed + multiset(groups[i]), groups[..i + 1];
      i := i + 1;
    }
    assert groups[..i] == groups;
  }

  /** What a group holds comes from the list that was cut. */
  lemma GroupMember(groups: seq<seq<Entry>>, g: seq<Entry>, e: Entry)
    requires g in groups && e in g
    ensures e in Concat(groups)
  {
    var k :| 0 <= k < |groups| && groups[k] == g;
    var from := RunIsStretch(groups, k);
    var i :| 0 <= i < |g| && g[i] == e;
    assert Concat(groups)[from..from + |g|][i] == Concat(groups)[from + i];
  }

  lemma ConcatStep(groups: seq<seq<Entry>>, i: nat)
    requires i < |groups|
    ensures groups[..i + 1] == groups[..i] + [groups[i]]
    ensures multiset(Concat(groups[..i + 1])) == multiset(Concat(groups[..i])) + multiset(groups[i])
  {
    ConcatSnoc(groups[..i], groups[i]);
    assert groups[..i + 1] == groups[..i] + [groups[i]];
  }

  lemma NoKeyYet(groups: seq<seq<Entry>>, i: nat, fallbacks: seq<seq<Entry>>)
    requires i < |groups| && (forall g <- groups :: g != []) && UniqueIds(multiset(Concat(groups)))
    requires forall g <- fallbacks :: g in groups[..i]
    ensures groups[i] != [] && !HasKey(fallbacks, FakeKeyOf(groups[i]))
  {
    assert groups[i] in groups;
    forall g <- fallbacks ensures g == [] || FakeKeyOf(g) != FakeKeyOf(groups[i]) {
      var k :| 0 <= k < i && groups[..i][k] == g;
      assert groups[k] == g && g in groups;
      KeysDistinct(groups, k, i);
    }
  }

  // ----- A heuristic key that is already an id -----

  /** A session whose id looks like a heuristic key, and an hour later an entry without a session. */
  const NAMED := Entry(1, "2026-01-01T10:00:00Z", "heuristic_2_2", 0, None, [])
  const NAMELESS := Entry(2, "2026-01-01T11:00:00Z", "", 0, None, [])

  lemma HeuristicKeyExample()
    ensures FakeKeyOf([NAMELESS]) == NAMED.sessionID
  {
    assert Dec(2) == "2";
  }

  /** Placing the nameless entry drops the named session's entry from the result. */
  lemma HeuristicKeyReplaces(parse: TimeParser, ten: int, out: Filed, best: string)
    requires parse(NAMED.timestamp) == Some(ten) && parse(NAMELESS.timestamp) == Some(ten + 12 * GAP)
    requires var raw := map[NAMED.sessionID := [NAMED]];
      if best != "" then Joined(parse, raw, [NAMELESS], out, best) else FellBack(parse, raw, [NAMELESS], out)
    ensures Total(out) == multiset{NAMELESS}
  {
    HeuristicKeyExample();
    var k := NAMED.sessionID;
    var eleven := ten + 12 * GAP;
    assert Overlap(parse, [NAMED], eleven, eleven) == 0;
    assert out == map[k := [NAMELESS]];
    TotalTake(out, k);
    assert out - {k} == map[];
  }

  // ----- Gaps and overlaps in seconds -----

  /** A group ends exactly before an entry whose readable time is more than five minutes after that of the last one. */
  lemma LongPause(parse: TimeParser, current: seq<Entry>, e: Entry)
    requires current != []
    ensures FarApart(parse)(current, e) <==>
      parse(current[|current| - 1].timestamp).Some? && parse(e.timestamp).Some? &&
      parse(e.timestamp).value - parse(current[|current| - 1].timestamp).value > 5 * 60 * 1_000_000_000
  {
  }

  /** The moments both the session and the group span, each counted as lasting five minutes longer. */
  ghost predicate Shared(parse: TimeParser, s: seq<Entry>, start: int, end: int, t: int)
    requires s != [] && Readable(parse, s)
  {
    parse(s[0].timestamp).value <= t <= parse(s[|s| - 1].timestamp).value + 5 * 60 * 1_000_000_000 &&
    start <= t <= end + 5 * 60 * 1_000_000_000
  }

  /** The overlap is the length of the stretch of moments shared, and 0 when at most one is. */
  lemma OverlapIsShared(parse: TimeParser, s: seq<Entry>, start: int, end: int, lo: int, hi: int)
    requires s != [] && Readable(parse, s) && lo <= hi + 1
    requires forall t :: lo <= t <= hi <==> Shared(parse, s, start, end, t)
    ensures Overlap(parse, s, start, end) == if lo <= hi then hi - lo else 0
  {
    var a, b := parse(s[0].timestamp).value, parse(s[|s| - 1].timestamp).value;
    var x, y := Max(a, start), Min(b + GAP, end + GAP);
    if x <= y { assert Shared(parse, s, start, end, x) && Shared(parse, s, start, end, y); }
    if lo <= hi {
      assert Shared(parse, s, start, end, lo) && Shared(parse, s, start, end, hi);
    }
  }

  /** A session whose ends are unreadable overlaps nothing. */
  lemma UnreadableOverlapsNothing(parse: TimeParser, s: seq<Entry>, start: int, end: int)
    requires s != [] && !Readable(parse, s)
    ensures Overlap(parse, s, start, end) == 0
  {
  }
}
