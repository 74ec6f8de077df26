/** Session ids inferred for entries that carry none: session_strategy.go. */
module SessionInference {
  import opened Common
  import opened SessionKeys
  import opened Transactions

  /** `time.Parse(time.RFC3339, _)`, in nanoseconds since Go's zero time. */
  type TimeParser = string -> Option<int>

  /** `systemPromptFingerprint` of an entry's result: a hex digest or "nosystem". */
  type Fingerprint = Entry -> string

  ghost predicate GoodFingerprint(mark: Fingerprint) {
    forall e :: |mark(e)| >= 8 && SlashFree(mark(e))
  }

  datatype Inference = NoInference | Timing(gap: int) | Growth | Composite(strategies: seq<Inference>)

  const FIVE_MINUTES := 300_000_000_000

  ghost function Ids(s: seq<Entry>): set<nat> { set e <- s :: e.txnID }

  lemma IdsSnoc(s: seq<Entry>, i: nat)
    requires i < |s|
    ensures Ids(s[..i + 1]) == Ids(s[..i]) + {s[i].txnID}
  {
    assert s[..i + 1] == s[..i] + [s[i]];
  }

  // ----- Timing -----

  function TimingKey(id: nat): string { "timing_" + Dec(id) }

  /** The last time that parsed among the first `k` entries; 0, the zero time, when none did. */
  function LastTime(parse: TimeParser, s: seq<Entry>, k: nat): int
    requires k <= |s|
  {
    if k == 0 then 0
    else match parse(s[k - 1].timestamp)
      case Some(t) => t
      case None => LastTime(parse, s, k - 1)
  }

  /** Entry `k` comes more than `gap` after the last entry with a readable time. */
  predicate Opens(parse: TimeParser, gap: int, s: seq<Entry>, k: nat)
    requires k < |s|
  {
    var t := parse(s[k].timestamp);
    t.Some? && LastTime(parse, s, k) != 0 && t.value - LastTime(parse, s, k) > gap
  }

  /** The entry that opened the run of entry `k`. */
  function Opener(parse: TimeParser, gap: int, s: seq<Entry>, k: nat): (r: nat)
    requires k < |s|
    ensures r <= k
  {
    if k == 0 || Opens(parse, gap, s, k) then k else Opener(parse, gap, s, k - 1)
  }

  /** Entry `k` has the key of the entry that opened its run. */
  ghost predicate TimedAt(parse: TimeParser, gap: int, s: seq<Entry>, k: nat, result: map<nat, string>)
    requires k < |s|
  {
    s[k].txnID in result && result[s[k].txnID] == TimingKey(s[Opener(parse, gap, s, k)].txnID)
  }

  function Gap(gap: int): int { if gap == 0 then FIVE_MINUTES else gap }

  /** Exactly the first `n` entries are keyed. */
  ghost predicate TimedUpTo(parse: TimeParser, gap: int, s: seq<Entry>, n: nat, result: map<nat, string>)
    requires n <= |s|
  {
    result.Keys == Ids(s[..n]) && forall k :: 0 <= k < n ==> TimedAt(parse, gap, s, k, result)
  }

  lemma TimedStep(parse: TimeParser, gap: int, s: seq<Entry>, i: nat, before: map<nat, string>)
    requires DistinctIds(s) && i < |s| && TimedUpTo(parse, gap, s, i, before)
    ensures TimedUpTo(parse, gap, s, i + 1, before[s[i].txnID := TimingKey(s[Opener(parse, gap, s, i)].txnID)])
  {
    var result := before[s[i].txnID := TimingKey(s[Opener(parse, gap, s, i)].txnID)];
    IdsSnoc(s, i);
    forall k | 0 <= k < i ensures TimedAt(parse, gap, s, k, result) {
      assert TimedAt(parse, gap, s, k, before) && s[k].txnID != s[i].txnID;
    }
  }

  /** `TimingStrategy.InferSession`: every entry gets the key of the entry that opened its run. */
  method InferByTiming(parse: TimeParser, gap: int, s: seq<Entry>) returns (result: map<nat, string>)
    requires DistinctIds(s)
    ensures result.Keys == Ids(s)
    ensures forall k :: 0 <= k < |s| ==> TimedAt(parse, Gap(gap), s, k, result)
  {
    result := map[];
    if |s| == 0 { return; }
    var limit := Gap(gap);
    var prev := 0;
    var key := TimingKey(s[0].txnID);
    var i := 0;
    while i < |s|
      invariant 0 <= i <= |s| && prev == LastTime(parse, s, i)
      invariant key == TimingKey(s[if i == 0 then 0 else Opener(parse, limit, s, i - 1)].txnID)
      invariant TimedUpTo(parse, limit, s, i, result)
    {
      var e := s[i];
      var t := parse(e.timestamp);
      if t.Some? {
        if prev != 0 && t.value - prev > limit {
          key := TimingKey(e.txnID);
        }
        prev := t.value;
      }
      TimedStep(parse, limit, s, i, result);
      result := result[e.txnID := key];
      i := i + 1;
    }
    assert s[..i] == s;
  }

  lemma {:induction false} OpenerShared(parse: TimeParser, gap: int, s: seq<Entry>, i: nat, j: nat)
    requires i < j < |s|
    ensures Opener(parse, gap, s, i) == Opener(parse, gap, s, j) <==> (forall k :: i < k <= j ==> !Opens(parse, gap, s, k))
    decreases j
  {
    if !Opens(parse, gap, s, j) && i < j - 1 { OpenerShared(parse, gap, s, i, j - 1); }
  }

  /** Two entries get one timing key exactly when no long pause lies between them. */
  lemma TimingKeyShared(parse: TimeParser, gap: int, s: seq<Entry>, i: nat, j: nat)
    requires DistinctIds(s) && i < j < |s|
    ensures TimingKey(s[Opener(parse, gap, s, i)].txnID) == TimingKey(s[Opener(parse, gap, s, j)].txnID) <==>
            (forall k :: i < k <= j ==> !Opens(parse, gap, s, k))
  {
    OpenerShared(parse, gap, s, i, j);
    var a, b := Opener(parse, gap, s, i), Opener(parse, gap, s, j);
    if TimingKey(s[a].txnID) == TimingKey(s[b].txnID) {
      SamePrefixGone("timing_", Dec(s[a].txnID), Dec(s[b].txnID));
      DecInjective(s[a].txnID, s[b].txnID);
    }
  }

  // ----- Message growth -----

  function GrowthKey(fp: string, index: nat): string
    requires |fp| >= 8
  {
    "growth_" + fp[..8] + "_" + Dec(index)
  }

  predicate Drop(a: Entry, b: Entry) { a.msgCount >= 0 && b.msgCount < a.msgCount - 1 }

  /** How often the message count drops along a chain. */
  function Drops(s: seq<Entry>): nat {
    if |s| < 2 then 0 else Drops(s[..|s| - 1]) + if Drop(s[|s| - 2], s[|s| - 1]) then 1 else 0
  }

  lemma {:induction false} WhereMembers(key: Entry -> string, k: string, s: seq<Entry>)
    ensures forall e :: e in Where(key, k, s) <==> e in s && key(e) == k
    decreases |s|
  {
    if |s| > 0 {
      WhereMembers(key, k, s[..|s| - 1]);
      assert s == s[..|s| - 1] + [s[|s| - 1]];
    }
  }

  lemma {:induction false} WhereDistinct(key: Entry -> string, k: string, s: seq<Entry>)
    requires DistinctIds(s)
    ensures DistinctIds(Where(key, k, s))
    decreases |s|
  {
    if |s| > 0 {
      var n := |s| - 1;
      WhereDistinct(key, k, s[..n]);
      WhereMembers(key, k, s[..n]);
      var rest := Where(key, k, s[..n]);
      forall i | 0 <= i < |rest| ensures rest[i].txnID != s[n].txnID { assert rest[i] in s[..n]; }
    }
  }

  /** The matching entries of a prefix are a prefix of the matching entries. */
  lemma {:induction false} WherePrefix(key: Entry -> string, k: string, s: seq<Entry>, n: nat)
    requires n <= |s|
    ensures Where(key, k, s[..n]) <= Where(key, k, s)
    decreases |s|
  {
    if n < |s| {
      WherePrefix(key, k, s[..|s| - 1], n);
      assert s[..|s| - 1][..n] == s[..n];
    } else {
      assert s[..n] == s;
    }
  }

  /** The key of entry `k`: its fingerprint, and the drops up to it among the entries that share the fingerprint. */
  function GrowthKeyOf(mark: Fingerprint, s: seq<Entry>, k: nat): string
    requires k < |s| && |mark(s[k])| >= 8
  {
    GrowthKey(mark(s[k]), Drops(Where(mark, mark(s[k]), s[..k + 1])))
  }

  /** Position `j` of the chain has its key. */
  ghost predicate ChainAt(f: string, chain: seq<Entry>, j: nat, result: map<nat, string>)
    requires j < |chain| && |f| >= 8
  {
    chain[j].txnID in result && result[chain[j].txnID] == GrowthKey(f, Drops(chain[..j + 1]))
  }

  /** The first `n` positions of the chain were keyed, and nothing else changed. */
  ghost predicate ChainAssigned(f: string, chain: seq<Entry>, n: nat, before: map<nat, string>, result: map<nat, string>)
    requires n <= |chain| && |f| >= 8
  {
    result.Keys == before.Keys + Ids(chain[..n]) &&
    (forall j :: 0 <= j < n ==> ChainAt(f, chain, j, result)) &&
    (forall id :: id in before && id !in Ids(chain[..n]) ==> result[id] == before[id])
  }

  lemma ChainStep(f: string, chain: seq<Entry>, i: nat, before: map<nat, string>, m: map<nat, string>)
    requires |f| >= 8 && DistinctIds(chain) && i < |chain| && ChainAssigned(f, chain, i, before, m)
    ensures ChainAssigned(f, chain, i + 1, before, m[chain[i].txnID := GrowthKey(f, Drops(chain[..i + 1]))])
  {
    var result := m[chain[i].txnID := GrowthKey(f, Drops(chain[..i + 1]))];
    IdsSnoc(chain, i);
    assert result.Keys == before.Keys + Ids(chain[..i + 1]);
    assert ChainAt(f, chain, i, result);
    forall j | 0 <= j < i ensures ChainAt(f, chain, j, result) {
      assert ChainAt(f, chain, j, m) && chain[j].txnID != chain[i].txnID;
    }
  }

  lemma DropsSnoc(chain: seq<Entry>, i: nat)
    requires i < |chain|
    ensures Drops(chain[..i + 1]) == Drops(chain[..i]) + if i > 0 && Drop(chain[i - 1], chain[i]) then 1 else 0
  {
    assert chain[..i + 1][..i] == chain[..i];
  }

  /** One chain: each of its entries gets the key of its position. */
  method ChainKeys(f: string, chain: seq<Entry>, before: map<nat, string>) returns (result: map<nat, string>)
    requires |f| >= 8 && DistinctIds(chain)
    ensures ChainAssigned(f, chain, |chain|, before, result)
  {
    result := before;
    var index, prev := 0, -1;
    var key := GrowthKey(f, index);
    var i := 0;
    while i < |chain|
      invariant 0 <= i <= |chain| && index == Drops(chain[..i]) && key == GrowthKey(f, index)
      invariant prev == if i == 0 then -1 else chain[i - 1].msgCount
      invariant ChainAssigned(f, chain, i, before, result)
    {
      var count := chain[i].msgCount;
      DropsSnoc(chain, i);
      if prev >= 0 && count < prev - 1 {
        index := index + 1;
        key := GrowthKey(f, index);
      }
      ChainStep(f, chain, i, before, result);
      result := result[chain[i].txnID := key];
      prev := count;
      i := i + 1;
    }
  }

  predicate MarkedIn(mark: Fingerprint, s: seq<Entry>, done: set<string>, id: nat) {
    exists e <- s :: e.txnID == id && mark(e) in done
  }

  /** Entry `k` has its growth key. */
  ghost predicate GrownAt(mark: Fingerprint, s: seq<Entry>, k: nat, result: map<nat, string>)
    requires k < |s|
  {
    s[k].txnID in result && |mark(s[k])| >= 8 && result[s[k].txnID] == GrowthKeyOf(mark, s, k)
  }

  /** What the fingerprint loop has assigned once the chains of `done` are through. */
  ghost predicate GrowthAssigned(mark: Fingerprint, s: seq<Entry>, done: set<string>, result: map<nat, string>) {
    (forall id :: id in result <==> MarkedIn(mark, s, done, id)) &&
    (forall k :: 0 <= k < |s| && mark(s[k]) in done ==> GrownAt(mark, s, k, result))
  }

  /** Entry `k` stands in its chain right after the earlier entries with its fingerprint. */
  lemma ChainPosition(mark: Fingerprint, s: seq<Entry>, k: nat)
    requires k < |s|
    ensures var chain, before := Where(mark, mark(s[k]), s), Where(mark, mark(s[k]), s[..k]);
      |before| < |chain| && chain[|before|] == s[k] && chain[..|before| + 1] == Where(mark, mark(s[k]), s[..k + 1])
  {
    WherePrefix(mark, mark(s[k]), s, k + 1);
    assert s[..k + 1][..k] == s[..k];
  }

  lemma ChainIds(mark: Fingerprint, s: seq<Entry>, f: string, id: nat)
    ensures id in Ids(Where(mark, f, s)) <==> exists e <- s :: e.txnID == id && mark(e) == f
  {
    WhereMembers(mark, f, s);
  }

  lemma OneEntryPerId(s: seq<Entry>, k: nat, e: Entry)
    requires DistinctIds(s) && k < |s| && e in s && e.txnID == s[k].txnID
    ensures e == s[k]
  {
    var i :| 0 <= i < |s| && s[i] == e;
  }

  lemma ChainDone(mark: Fingerprint, s: seq<Entry>, done: set<string>, f: string, before: map<nat, string>,
                  result: map<nat, string>)
    requires DistinctIds(s) && f !in done && GrowthAssigned(mark, s, done, before)
    requires |f| >= 8 && ChainAssigned(f, Where(mark, f, s), |Where(mark, f, s)|, before, result)
    ensures GrowthAssigned(mark, s, done + {f}, result)
  {
    var chain := Where(mark, f, s);
    assert chain[..|chain|] == chain;
    forall id ensures id in result <==> MarkedIn(mark, s, done + {f}, id) { ChainIds(mark, s, f, id); }
    forall k | 0 <= k < |s| && mark(s[k]) in done + {f} ensures GrownAt(mark, s, k, result) {
      if mark(s[k]) == f {
        ChainPosition(mark, s, k);
        assert ChainAt(f, chain, |Where(mark, f, s[..k])|, result);
      } else {
        assert GrownAt(mark, s, k, before);
        ChainIds(mark, s, f, s[k].txnID);
        if s[k].txnID in Ids(chain) {
          var e :| e in s && e.txnID == s[k].txnID && mark(e) == f;
          OneEntryPerId(s, k, e);
        }
      }
    }
  }

  lemma ChainFiled(mark: Fingerprint, s: seq<Entry>, f: string)
    requires DistinctIds(s) && GoodFingerprint(mark) && f in Gather(map[], s, mark)
    ensures |f| >= 8 && DistinctIds(Where(mark, f, s)) && Gather(map[], s, mark)[f] == Where(mark, f, s)
  {
    GatherAt(map[], s, mark, f);
    WhereDistinct(mark, f, s);
    GatherKeys(map[], s, mark, f);
  }

  /** `MessageGrowthStrategy.InferSession`: the chains come in any order. */
  method InferByGrowth(mark: Fingerprint, s: seq<Entry>) returns (result: map<nat, string>)
    requires DistinctIds(s) && GoodFingerprint(mark)
    ensures result.Keys == Ids(s)
    ensures forall k :: 0 <= k < |s| ==> GrownAt(mark, s, k, result)
  {
    var chains := Gather(map[], s, mark);
    var todo := chains.Keys;
    ghost var done := {};
    result := map[];
    while todo != {}
      invariant todo <= chains.Keys && done == chains.Keys - todo && GrowthAssigned(mark, s, done, result)
      decreases |todo|
    {
      var f :| f in todo;
      ChainFiled(mark, s, f);
      var before := result;
      result := ChainKeys(f, chains[f], before);
      ChainDone(mark, s, done, f, before, result);
      todo, done := todo - {f}, done + {f};
    }
    forall k | 0 <= k < |s| ensures mark(s[k]) in chains { GatherKeys(map[], s, mark, mark(s[k])); }
  }

  lemma {:induction false} DropsShared(chain: seq<Entry>, i: nat, j: nat)
    requires i <= j < |chain|
    ensures Drops(chain[..i + 1]) <= Drops(chain[..j + 1])
    ensures Drops(chain[..i + 1]) == Drops(chain[..j + 1]) <==> (forall k :: i < k <= j ==> !Drop(chain[k - 1], chain[k]))
    decreases j
  {
    if i < j {
      DropsShared(chain, i, j - 1);
      DropsSnoc(chain, j);
    }
  }

  /** A key tells the first eight characters of the fingerprint and the index, and no more. */
  lemma GrowthKeyTells(f: string, a: nat, g: string, b: nat)
    requires |f| >= 8 && |g| >= 8
    ensures GrowthKey(f, a) == GrowthKey(g, b) <==> f[..8] == g[..8] && a == b
  {
    if GrowthKey(f, a) == GrowthKey(g, b) {
      var x, y := GrowthKey(f, a), GrowthKey(g, b);
      assert x[7..15] == f[..8] && y[7..15] == g[..8];
      SamePrefixGone("growth_" + f[..8] + "_", Dec(a), Dec(b));
      DecInjective(a, b);
    }
  }

  /** Two entries of one chain get one key exactly when the message count never drops between them. */
  lemma ChainKeyShared(f: string, chain: seq<Entry>, i: nat, j: nat)
    requires |f| >= 8 && i < j < |chain|
    ensures GrowthKey(f, Drops(chain[..i + 1])) == GrowthKey(f, Drops(chain[..j + 1])) <==>
            (forall k :: i < k <= j ==> !Drop(chain[k - 1], chain[k]))
  {
    DropsShared(chain, i, j);
    GrowthKeyTells(f, Drops(chain[..i + 1]), f, Drops(chain[..j + 1]));
  }

  /** The drops up to entry `k` among the entries that share its fingerprint. */
  function DropsUpTo(mark: Fingerprint, s: seq<Entry>, k: nat): nat
    requires k < |s|
  {
    Drops(Where(mark, mark(s[k]), s[..k + 1]))
  }

  /**
    Any two entries get one key exactly when their fingerprints agree in the first
    eight characters and their message counts dropped equally often: different
    fingerprints may share a key.
   */
  lemma GrowthKeyShared(mark: Fingerprint, s: seq<Entry>, i: nat, j: nat)
    requires i < |s| && j < |s| && |mark(s[i])| >= 8 && |mark(s[j])| >= 8
    ensures GrowthKeyOf(mark, s, i) == GrowthKeyOf(mark, s, j) <==>
            mark(s[i])[..8] == mark(s[j])[..8] && DropsUpTo(mark, s, i) == DropsUpTo(mark, s, j)
  {
    GrowthKeyTells(mark(s[i]), DropsUpTo(mark, s, i), mark(s[j]), DropsUpTo(mark, s, j));
  }

  // ----- Choosing a strategy -----

  /** An id that no later key is made from or mistaken for. */
  predicate PlainId(sid: string) { sid != "" && SlashFree(sid) && !(HEURISTIC <= sid) }

  /** Inferred ids name entries of the list and are plain. */
  ghost predicate GoodIds(s: seq<Entry>, result: map<nat, string>) {
    result.Keys <= Ids(s) && forall id <- result :: PlainId(result[id])
  }

  /** What a strategy infers: a composite what the first of its strategies that infers anything does. */
  ghost predicate Inferred(parse: TimeParser, mark: Fingerprint, how: Inference, s: seq<Entry>, result: map<nat, string>)
    decreases how
  {
    match how
    case NoInference => result == map[]
    case Timing(gap) => TimedUpTo(parse, Gap(gap), s, |s|, result)
    case Growth => result.Keys == Ids(s) && forall k :: 0 <= k < |s| ==> GrownAt(mark, s, k, result)
    case Composite(strategies) =>
      if result == map[] then forall j :: 0 <= j < |strategies| ==> Inferred(parse, mark, strategies[j], s, map[])
      else exists i :: 0 <= i < |strategies| && Inferred(parse, mark, strategies[i], s, result) &&
                       forall j :: 0 <= j < i ==> Inferred(parse, mark, strategies[j], s, map[])
  }

  /** `InferSession` of any strategy; a composite takes the first non-empty result. */
  method InferSession(parse: TimeParser, mark: Fingerprint, how: Inference, s: seq<Entry>)
    returns (result: map<nat, string>)
    requires DistinctIds(s) && GoodFingerprint(mark)
    ensures GoodIds(s, result) && Inferred(parse, mark, how, s, result)
    ensures how.Timing? || how.Growth? ==> result.Keys == Ids(s)
    decreases how
  {
    match how
    case NoInference => result := map[];
    case Timing(gap) =>
      result := InferByTiming(parse, gap, s);
      assert s[..|s|] == s;
      forall id <- result ensures PlainId(result[id]) {
        var k :| 0 <= k < |s| && s[k].txnID == id;
        assert TimedAt(parse, Gap(gap), s, k, result);
        TimingKeyPlain(s[Opener(parse, Gap(gap), s, k)].txnID);
      }
    case Growth =>
      result := InferByGrowth(mark, s);
      forall id <- result ensures PlainId(result[id]) {
        var k :| 0 <= k < |s| && s[k].txnID == id;
        assert GrownAt(mark, s, k, result);
        GrowthKeyPlain(mark(s[k]), Drops(Where(mark, mark(s[k]), s[..k + 1])));
      }
    case Composite(strategies) =>
      var i := 0;
      while i < |strategies|
        invariant 0 <= i <= |strategies|
        invariant forall j :: 0 <= j < i ==> Inferred(parse, mark, strategies[j], s, map[])
      {
        result := InferSession(parse, mark, strategies[i], s);
        if |result| > 0 { return; }
        assert result == map[];
        i := i + 1;
      }
      result := map[];
  }

  lemma TimingKeyPlain(id: nat)
    ensures PlainId(TimingKey(id))
  {
    assert TimingKey(id)[0] == 't';
  }

  lemma GrowthKeyPlain(f: string, index: nat)
    requires |f| >= 8 && SlashFree(f)
    ensures PlainId(GrowthKey(f, index))
  {
    assert GrowthKey(f, index)[0] == 'g';
  }

  // ----- Pauses and drops in the entries' own terms -----

  /** The last entry before `k` with a readable time; `k` stands for there being none. */
  ghost predicate LastReadable(parse: TimeParser, s: seq<Entry>, k: nat, j: nat) {
    j <= k < |s| && (j < k ==> parse(s[j].timestamp).Some?) &&
    forall i :: 0 <= i < k && (j == k || j < i) ==> parse(s[i].timestamp).None?
  }

  lemma {:induction false} LastTimeIs(parse: TimeParser, s: seq<Entry>, k: nat, j: nat, n: nat)
    requires LastReadable(parse, s, k, j) && n <= k && (j == k || j < n)
    ensures LastTime(parse, s, n) == if j < k then parse(s[j].timestamp).value else 0
    decreases n
  {
    if n > 0 && j != n - 1 { LastTimeIs(parse, s, k, j, n - 1); }
  }

  /**
    An entry opens a run exactly when its time is readable and more than the gap
    after the last readable one, the zero time counting as unreadable; the gap is
    five minutes unless set.
   */
  lemma PauseOpens(parse: TimeParser, gap: int, s: seq<Entry>, k: nat, j: nat)
    requires LastReadable(parse, s, k, j)
    ensures Opens(parse, Gap(gap), s, k) <==>
      j < k && parse(s[k].timestamp).Some? && parse(s[j].timestamp).value != 0 &&
      parse(s[k].timestamp).value - parse(s[j].timestamp).value > (if gap == 0 then 5 * 60 * 1_000_000_000 else gap)
  {
    LastTimeIs(parse, s, k, j, k);
  }

  predicate FallsAt(s: seq<Entry>, i: nat)
    requires i < |s|
  {
    i > 0 && s[i - 1].msgCount >= 0 && s[i].msgCount < s[i - 1].msgCount - 1
  }

  ghost function DropsAt(s: seq<Entry>): set<nat> { set i: nat | i < |s| && FallsAt(s, i) }

  lemma DropsAtSnoc(s: seq<Entry>)
    requires |s| > 0
    ensures var n := |s| - 1; DropsAt(s) == (if FallsAt(s, n) then DropsAt(s[..n]) + {n} else DropsAt(s[..n]))
    ensures |s| - 1 !in DropsAt(s[..|s| - 1])
  {
    var n := |s| - 1;
    forall i: nat | i < n ensures FallsAt(s[..n], i) <==> FallsAt(s, i) {}
  }

  /** A drop is a known message count followed by one lower by more than one. */
  lemma {:induction false} DropsCounted(s: seq<Entry>)
    ensures Drops(s) == |DropsAt(s)|
    decreases |s|
  {
    if |s| == 0 {
      assert DropsAt(s) == {};
    } else {
      DropsAtSnoc(s);
      DropsCounted(s[..|s| - 1]);
    }
  }

  /** The inferred ids as they are spelled; only the first eight characters of a fingerprint show. */
  lemma InferredIdsSpelled()
    ensures TimingKey(17) == "timing_17" && GrowthKey("0123456789abcdef", 3) == "growth_01234567_3"
  {
    assert Dec(1) == "1" && Dec(3) == "3" && Dec(17) == Dec(1) + [Digit(7)];
    assert "0123456789abcdef"[..8] == "01234567";
  }
}
