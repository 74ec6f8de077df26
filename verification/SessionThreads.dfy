/**
  One session into its output sessions: thread split, invocation split and
  the keys the pieces are filed under.
 */
module SessionThreads {
  import opened Common
  import opened Sorting
  import opened SessionKeys
  import opened Transactions
  import opened Runs
  import opened SessionInference

  datatype Splitter = Whole | ByMessageCount

  /** What grouping uses of a client adapter; `classify` is any function of the extraction. */
  datatype Adapter = Adapter(classify: Extraction -> string, inference: Inference, splitter: Splitter)

  // ----- Threads -----

  /** Threads that no output session shows. */
  predicate Hidden(thread: string) {
    thread == "utility" || thread == "mcp" || thread == "title-gen" || thread == "complexity-scorer"
  }

  function ThreadOf(a: Adapter, e: Entry): string {
    match e.result
    case None => "main"
    case Some(x) =>
      var t := a.classify(x);
      if t == "subagent" then ThreadKey(x.systemLength) else if Hidden(t) then t else "main"
  }

  function Threading(a: Adapter): Entry -> string { (e: Entry) => ThreadOf(a, e) }

  /** `splitSessionIntoThreads`: each thread holds its entries in order. */
  method SplitSessionIntoThreads(entries: seq<Entry>, a: Adapter) returns (threads: Filed)
    ensures threads == Gather(map[], entries, Threading(a))
  {
    threads := map[];
    var i := 0;
    while i < |entries|
      invariant 0 <= i <= |entries| && threads == Gather(map[], entries[..i], Threading(a))
    {
      var e := entries[i];
      assert entries[..i + 1][..i] == entries[..i];
      var key := "main";
      if e.result.Some? {
        var threadType := a.classify(e.result.value);
        if threadType == "subagent" {
          key := ThreadKey(e.result.value.systemLength);
        } else if Hidden(threadType) {
          key := threadType;
        }
      }
      threads := Append(threads, key, e);
      i := i + 1;
    }
    assert entries[..i] == entries;
  }

  /** Which thread an entry belongs to, told from its extraction. */
  lemma ThreadTold(a: Adapter, e: Entry)
    ensures e.result.None? ==> ThreadOf(a, e) == "main"
    ensures e.result.Some? ==> (var t := a.classify(e.result.value); var k := ThreadOf(a, e);
      (t == "subagent" ==> k == "subagent_" + Dec(e.result.value.systemLength)) &&
      (t == "utility" || t == "mcp" || t == "title-gen" || t == "complexity-scorer" ==> k == t && Hidden(k)) &&
      (t != "subagent" && t != "utility" && t != "mcp" && t != "title-gen" && t != "complexity-scorer" ==> k == "main"))
    ensures Hidden(ThreadOf(a, e)) ==> e.result.Some? && ThreadOf(a, e) == a.classify(e.result.value)
    ensures !Hidden("main") && forall n: nat :: !Hidden(ThreadKey(n)) && ThreadKey(n) != "main"
  {
    forall n: nat ensures !Hidden(ThreadKey(n)) && ThreadKey(n) != "main" { NotHidden(n); }
  }

  lemma ThreadKinds(a: Adapter, e: Entry)
    ensures var k := ThreadOf(a, e);
      k == "main" || Hidden(k) || exists n: nat :: k == ThreadKey(n)
  {
  }

  // ----- Invocations -----

  /** The last message count in the run that is known, else 999. */
  function LastCount(current: seq<Entry>): int {
    if |current| == 0 then 999
    else if current[|current| - 1].msgCount >= 0 then current[|current| - 1].msgCount
    else LastCount(current[..|current| - 1])
  }

  /** The message count fell by more than one. */
  predicate CountDrop(current: seq<Entry>, e: Entry) {
    current != [] && e.msgCount >= 0 && e.msgCount < LastCount(current) - 1
  }

  /**
    A new invocation starts at an entry whose message count is known and lower by
    more than one than the last known one before it, 999 standing for none.
   */
  lemma {:induction false} CountDropTold(current: seq<Entry>, e: Entry, j: nat)
    requires current != [] && j <= |current| && (j < |current| ==> current[j].msgCount >= 0)
    requires forall i :: 0 <= i < |current| && (j == |current| || j < i) ==> current[i].msgCount < 0
    ensures CountDrop(current, e) <==>
      e.msgCount >= 0 && e.msgCount < (if j < |current| then current[j].msgCount else 999) - 1
  {
    LastCountIs(current, j);
  }

  lemma {:induction false} LastCountIs(current: seq<Entry>, j: nat)
    requires j <= |current| && (j < |current| ==> current[j].msgCount >= 0)
    requires forall i :: 0 <= i < |current| && (j == |current| || j < i) ==> current[i].msgCount < 0
    ensures LastCount(current) == if j < |current| then current[j].msgCount else 999
    decreases |current|
  {
    if |current| > 0 && j != |current| - 1 { LastCountIs(current[..|current| - 1], if j == |current| then j - 1 else j); }
  }

  /** The backward scan for the previous count. */
  method PreviousCount(current: seq<Entry>) returns (prevCount: int)
    ensures prevCount == LastCount(current)
  {
    prevCount := -1;
    var i := |current| - 1;
    assert current[..i + 1] == current;
    while i >= 0
      invariant -1 <= i < |current| && prevCount == -1 && LastCount(current) == LastCount(current[..i + 1])
    {
      assert current[..i + 1][..i] == current[..i];
      if current[i].msgCount >= 0 {
        prevCount := current[i].msgCount;
        return;
      }
      i := i - 1;
    }
    prevCount := 999;
  }

  /** `splitSubagentInvocations`: in time order, a new invocation starts exactly where the message count drops. */
  method SplitSubagentInvocations(entries: seq<Entry>) returns (invocations: seq<seq<Entry>>)
    ensures multiset(Concat(invocations)) == multiset(entries) && Sorted(ByTimeThenId, Concat(invocations))
    ensures InRuns(CountDrop, invocations)
  {
    ByTimeThenIdIsOrder();
    var list := SortSlice(entries, ByTimeThenId);
    invocations := [];
    var current: seq<Entry> := [];
    ghost var done := [];
    var i := 0;
    while i < |list|
      invariant 0 <= i <= |list| && done == list[..i] && CutSoFar(CountDrop, done, invocations, current)
    {
      var e := list[i];
      CutNext(CountDrop, done, invocations, current, e);
      if |current| > 0 && e.msgCount >= 0 {
        var prevCount := PreviousCount(current);
        if e.msgCount < prevCount - 1 {
          invocations := invocations + [current];
          current := [];
        }
      }
      assert [] + [e] == [e];
      current := current + [e];
      done := done + [e];
      assert done == list[..i + 1];
      i := i + 1;
    }
    assert done == list;
    CutDone(CountDrop, done, invocations, current);
    if |current| > 0 {
      invocations := invocations + [current];
    }
    CutIsRuns(CountDrop, list);
  }

  /** A thread's invocations: non-empty, together the thread. */
  ghost predicate Pieces(entries: seq<Entry>, subs: seq<seq<Entry>>) {
    multiset(Concat(subs)) == multiset(entries) && forall s <- subs :: s != []
  }

  /** How a client's splitter cuts a thread: not at all, or in time order where the message count drops. */
  ghost predicate CutRight(how: Splitter, entries: seq<Entry>, subs: seq<seq<Entry>>) {
    Pieces(entries, subs) &&
    (how.Whole? && entries != [] ==> subs == [entries]) &&
    (how.ByMessageCount? ==> InRuns(CountDrop, subs) && Sorted(ByTimeThenId, Concat(subs)))
  }

  method SplitInvocations(how: Splitter, entries: seq<Entry>) returns (subs: seq<seq<Entry>>)
    ensures CutRight(how, entries, subs)
  {
    match how
    case Whole =>
      subs := if |entries| == 0 then [] else [entries];
      if |entries| > 0 { ConcatSnoc([], entries); assert [] + [entries] == [entries]; }
    case ByMessageCount =>
      subs := SplitSubagentInvocations(entries);
      assert forall s <- subs :: Run(CountDrop, s);
  }

  // ----- What a session shows -----

  /** The entries of the threads that are shown. */
  function Shown(a: Adapter, s: seq<Entry>): seq<Entry> {
    if |s| == 0 then []
    else
      var rest := Shown(a, s[..|s| - 1]);
      if Hidden(ThreadOf(a, s[|s| - 1])) then rest else rest + [s[|s| - 1]]
  }

  function ShownThreads(threads: Filed): Filed { map k | k in threads && !Hidden(k) :: threads[k] }

  /** The threads that are shown hold exactly the entries shown. */
  lemma {:induction false} ShownTotal(a: Adapter, s: seq<Entry>)
    ensures Total(ShownThreads(Gather(map[], s, Threading(a)))) == multiset(Shown(a, s))
    decreases |s|
  {
    if |s| == 0 {
      assert ShownThreads(map[]) == map[];
    } else {
      var n := |s| - 1;
      var before, k := Gather(map[], s[..n], Threading(a)), ThreadOf(a, s[n]);
      ShownTotal(a, s[..n]);
      ShownAppend(before, k, s[n]);
      TotalAppend(ShownThreads(before), k, s[n]);
    }
  }

  lemma ShownAppend(threads: Filed, k: string, e: Entry)
    ensures ShownThreads(Append(threads, k, e)) ==
            if Hidden(k) then ShownThreads(threads) else Append(ShownThreads(threads), k, e)
  {
  }

  // ----- Filing a session -----

  /** A thread's invocations, numbered from 1. */
  function Numbered(sid: string, thread: string, subs: seq<seq<Entry>>): (puts: seq<Put>)
    ensures |puts| == |subs| && forall i :: 0 <= i < |subs| ==> puts[i] == Put(ChildKey(sid, thread, i + 1), subs[i])
  {
    seq(|subs|, i requires 0 <= i < |subs| => Put(ChildKey(sid, thread, i + 1), subs[i]))
  }

  /** The loop over one thread's invocations. */
  method AddInvocations(sessions: Filed, sid: string, thread: string, subs: seq<seq<Entry>>) returns (out: Filed)
    ensures out == PutAll(sessions, Numbered(sid, thread, subs))
  {
    out := sessions;
    ghost var puts := Numbered(sid, thread, subs);
    var i := 0;
    while i < |subs|
      invariant 0 <= i <= |subs| && out == PutAll(sessions, puts[..i])
    {
      assert puts[..i + 1][..i] == puts[..i];
      out := out[ChildKey(sid, thread, i + 1) := subs[i]];
      i := i + 1;
    }
    assert puts[..i] == puts;
  }

  lemma {:induction false} NumberedBag(sid: string, thread: string, subs: seq<seq<Entry>>)
    ensures Bag(Numbered(sid, thread, subs)) == multiset(Concat(subs))
    decreases |subs|
  {
    var n := |subs| - 1;
    if n >= 0 {
      NumberedBag(sid, thread, subs[..n]);
      assert Numbered(sid, thread, subs)[..n] == Numbered(sid, thread, subs[..n]);
      assert multiset(Concat(subs)) == multiset(Concat(subs[..n])) + multiset(subs[n]);
    }
  }

  /** The key is the session's own id, for its main thread, or an invocation key of one of the threads. */
  ghost predicate MadeFrom(sid: string, threads: set<string>, key: string) {
    (key == sid && "main" in threads) || exists n: nat, i: nat :: ThreadKey(n) in threads && key == ChildKey(sid, ThreadKey(n), i)
  }

  lemma MadeIsOwn(sid: string, threads: set<string>, key: string)
    requires MadeFrom(sid, threads, key)
    ensures OwnKey(sid, key)
  {
  }

  lemma MadeWider(sid: string, threads: set<string>, more: set<string>, key: string)
    requires MadeFrom(sid, threads, key) && threads <= more
    ensures MadeFrom(sid, more, key)
  {
    if !(key == sid && "main" in threads) {
      var n: nat, i: nat :| ThreadKey(n) in threads && key == ChildKey(sid, ThreadKey(n), i);
      assert ThreadKey(n) in more;
    }
  }

  /** Different threads make different keys. */
  lemma MadeApart(sid: string, done: set<string>, k: string, x: string, y: string)
    requires k !in done && MadeFrom(sid, done, x) && MadeFrom(sid, {k}, y)
    ensures x != y
  {
    forall n: nat, i: nat ensures ChildKey(sid, ThreadKey(n), i) != sid { assert |ChildKey(sid, ThreadKey(n), i)| > |sid|; }
    if x != sid && y != sid {
      var n: nat, i: nat :| ThreadKey(n) in done && x == ChildKey(sid, ThreadKey(n), i);
      var m: nat, j: nat :| ThreadKey(m) in {k} && y == ChildKey(sid, ThreadKey(m), j);
      if x == y { ChildKeyInjective(sid, n, i, sid, m, j); }
    }
  }

  lemma NumberedDistinct(sid: string, n: nat, subs: seq<seq<Entry>>)
    ensures DistinctKeys(Numbered(sid, ThreadKey(n), subs))
    ensures forall p <- Numbered(sid, ThreadKey(n), subs) :: MadeFrom(sid, {ThreadKey(n)}, p.key)
  {
    var puts := Numbered(sid, ThreadKey(n), subs);
    forall i, j | 0 <= i < j < |puts| ensures puts[i].key != puts[j].key {
      if puts[i].key == puts[j].key { ChildKeyInjective(sid, n, i + 1, sid, n, j + 1); }
    }
    forall p <- puts ensures MadeFrom(sid, {ThreadKey(n)}, p.key) {
      var i :| 0 <= i < |puts| && puts[i] == p;
      assert ThreadKey(n) in {ThreadKey(n)} && p.key == ChildKey(sid, ThreadKey(n), i + 1);
    }
  }

  /** The puts file this thread: the main one under the id, any other as its numbered invocations. */
  ghost predicate Files(how: Splitter, sid: string, k: string, entries: seq<Entry>, puts: seq<Put>) {
    if k == "main" then Put(sid, entries) in puts
    else exists subs :: CutRight(how, entries, subs) && forall p <- Numbered(sid, k, subs) :: p in puts
  }

  /** The thread's entries go under this key: the main one's under the id, any other's under one of its invocations. */
  ghost predicate FiledKey(how: Splitter, sid: string, k: string, entries: seq<Entry>, key: string) {
    if k == "main" then key == sid
    else exists subs :: CutRight(how, entries, subs) && Keyed(Numbered(sid, k, subs), key)
  }

  ghost predicate FiledBy(how: Splitter, sid: string, shown: Filed, key: string) {
    exists k <- shown :: FiledKey(how, sid, k, shown[k], key)
  }

  function ShownIn(threads: Filed, done: set<string>): Filed {
    map k | k in threads && k in done && !Hidden(k) :: threads[k]
  }

  /** The puts of the threads of `done`: own keys, all different, filing exactly those threads. */
  ghost predicate ThreadPuts(how: Splitter, sid: string, threads: Filed, done: set<string>, puts: seq<Put>) {
    DistinctKeys(puts) && (forall p <- puts :: MadeFrom(sid, done, p.key)) &&
    (forall p <- puts :: p.list != [] && FiledBy(how, sid, ShownIn(threads, done), p.key)) &&
    Bag(puts) == Total(ShownIn(threads, done)) &&
    (forall k <- ShownIn(threads, done) :: Files(how, sid, k, threads[k], puts))
  }

  lemma ShownInNext(threads: Filed, done: set<string>, k: string)
    requires k in threads && k !in done
    ensures Hidden(k) ==> ShownIn(threads, done + {k}) == ShownIn(threads, done)
    ensures !Hidden(k) ==> ShownIn(threads, done + {k}) == ShownIn(threads, done)[k := threads[k]]
  {
  }

  lemma FilesMore(how: Splitter, sid: string, k: string, entries: seq<Entry>, puts: seq<Put>, all: seq<Put>)
    requires Files(how, sid, k, entries, puts) && forall p <- puts :: p in all
    ensures Files(how, sid, k, entries, all)
  {
    if k != "main" {
      var subs :| CutRight(how, entries, subs) && forall p <- Numbered(sid, k, subs) :: p in puts;
      assert forall p <- Numbered(sid, k, subs) :: p in all;
    }
  }

  lemma JoinedDistinct(sid: string, done: set<string>, puts: seq<Put>, k: string, more: seq<Put>)
    requires k !in done && DistinctKeys(puts) && DistinctKeys(more)
    requires (forall p <- puts :: MadeFrom(sid, done, p.key)) && (forall p <- more :: MadeFrom(sid, {k}, p.key))
    ensures DistinctKeys(puts + more) && forall p <- puts + more :: MadeFrom(sid, done + {k}, p.key)
  {
    var all := puts + more;
    forall i, j | 0 <= i < j < |all| ensures all[i].key != all[j].key {
      if i < |puts| <= j {
        assert all[i] in puts && all[j] in more;
        MadeApart(sid, done, k, all[i].key, all[j].key);
      }
    }
    forall p <- all ensures MadeFrom(sid, done + {k}, p.key) {
      if p in puts { MadeWider(sid, done, done + {k}, p.key); } else { MadeWider(sid, {k}, done + {k}, p.key); }
    }
  }

  lemma FiledByMore(how: Splitter, sid: string, shown: Filed, all: Filed, key: string)
    requires FiledBy(how, sid, shown, key) && forall k <- shown :: FiledAt(all, k, shown[k])
    ensures FiledBy(how, sid, all, key)
  {
    var k :| k in shown && FiledKey(how, sid, k, shown[k], key);
    assert FiledAt(all, k, shown[k]);
  }

  /** One more thread. */
  lemma ThreadPutsNext(how: Splitter, sid: string, threads: Filed, done: set<string>, puts: seq<Put>, k: string,
                       more: seq<Put>)
    requires ThreadPuts(how, sid, threads, done, puts) && k in threads && k !in done && !Hidden(k)
    requires DistinctKeys(more) && (forall p <- more :: MadeFrom(sid, {k}, p.key)) && Bag(more) == multiset(threads[k])
    requires Files(how, sid, k, threads[k], more)
    requires forall p <- more :: p.list != [] && FiledKey(how, sid, k, threads[k], p.key)
    ensures ThreadPuts(how, sid, threads, done + {k}, puts + more)
  {
    var all := puts + more;
    JoinedDistinct(sid, done, puts, k, more);
    ShownInNext(threads, done, k);
    PutAppend(map[], puts, more);
    TotalPutFresh(ShownIn(threads, done), k, threads[k]);
    forall p <- all ensures p.list != [] && FiledBy(how, sid, ShownIn(threads, done + {k}), p.key) {
      if p in puts {
        FiledByMore(how, sid, ShownIn(threads, done), ShownIn(threads, done + {k}), p.key);
      } else {
        assert FiledKey(how, sid, k, ShownIn(threads, done + {k})[k], p.key);
      }
    }
    forall q <- ShownIn(threads, done + {k}) ensures Files(how, sid, q, threads[q], all) {
      if q == k {
        FilesMore(how, sid, q, threads[q], more, all);
      } else {
        assert q in ShownIn(threads, done);
        FilesMore(how, sid, q, threads[q], puts, all);
      }
    }
  }

  lemma HiddenThread(how: Splitter, sid: string, threads: Filed, done: set<string>, puts: seq<Put>, k: string)
    requires ThreadPuts(how, sid, threads, done, puts) && k in threads && k !in done && Hidden(k)
    ensures ThreadPuts(how, sid, threads, done + {k}, puts)
  {
    ShownInNext(threads, done, k);
    forall p <- puts ensures MadeFrom(sid, done + {k}, p.key) { MadeWider(sid, done, done + {k}, p.key); }
  }

  lemma KindOfThread(a: Adapter, entries: seq<Entry>, k: string)
    requires k in Gather(map[], entries, Threading(a))
    ensures k == "main" || Hidden(k) || exists n: nat :: k == ThreadKey(n)
  {
    GatherKeys(map[], entries, Threading(a), k);
    var e :| e in entries && Threading(a)(e) == k;
    ThreadKinds(a, e);
  }

  lemma NumberedFiled(how: Splitter, sid: string, k: string, entries: seq<Entry>, subs: seq<seq<Entry>>)
    requires CutRight(how, entries, subs) && k != "main"
    ensures forall p <- Numbered(sid, k, subs) :: p.list != [] && FiledKey(how, sid, k, entries, p.key)
  {
    forall p <- Numbered(sid, k, subs) ensures p.list != [] && Keyed(Numbered(sid, k, subs), p.key) {
      var i :| 0 <= i < |subs| && Numbered(sid, k, subs)[i] == p;
      assert subs[i] in subs;
    }
  }

  /** One round of the thread loop. */
  method NextThread(ghost start: Filed, ghost done: set<string>, ghost puts: seq<Put>, before: Filed, sid: string,
                    threads: Filed, k: string, how: Splitter)
    returns (out: Filed, ghost after: seq<Put>)
    requires before == PutAll(start, puts) && ThreadPuts(how, sid, threads, done, puts)
    requires k in threads && k !in done && threads[k] != []
    requires k == "main" || Hidden(k) || exists n: nat :: k == ThreadKey(n)
    ensures out == PutAll(start, after) && ThreadPuts(how, sid, threads, done + {k}, after)
  {
    if |threads[k]| == 0 || Hidden(k) {
      HiddenThread(how, sid, threads, done, puts, k);
      return before, puts;
    }
    ghost var more;
    if k == "main" {
      more := [Put(sid, threads[k])];
      out := before[sid := threads[k]];
      assert more[..0] == [];
      assert Bag(more) == Bag([]) + multiset(threads[k]);
    } else {
      var subs := SplitInvocations(how, threads[k]);
      out := AddInvocations(before, sid, k, subs);
      more := Numbered(sid, k, subs);
      ghost var n: nat :| k == ThreadKey(n);
      NumberedDistinct(sid, n, subs);
      NumberedBag(sid, k, subs);
      NumberedFiled(how, sid, k, threads[k], subs);
    }
    PutAppend(start, puts, more);
    ThreadPutsNext(how, sid, threads, done, puts, k, more);
    after := puts + more;
  }

  /** The puts of a whole session: all its threads that are shown. */
  ghost predicate SessionPuts(a: Adapter, sid: string, entries: seq<Entry>, puts: seq<Put>) {
    var threads := Gather(map[], entries, Threading(a));
    ThreadPuts(a.splitter, sid, threads, threads.Keys, puts) && Bag(puts) == multiset(Shown(a, entries))
  }

  /** The session's shown threads were filed, in some order of the threads. */
  ghost predicate AddedBy(sessions: Filed, sid: string, entries: seq<Entry>, a: Adapter, out: Filed) {
    exists puts :: SessionPuts(a, sid, entries, puts) && out == PutAll(sessions, puts)
  }

  /** One session's threads, in any order. */
  method AddSession(sessions: Filed, sid: string, entries: seq<Entry>, a: Adapter) returns (out: Filed)
    ensures AddedBy(sessions, sid, entries, a, out)
  {
    var threads := SplitSessionIntoThreads(entries, a);
    ghost var puts, done := [], {};
    FirstRound(a, sid, entries);
    var todo := threads.Keys;
    out := sessions;
    while todo != {}
      invariant todo <= threads.Keys && done == threads.Keys - todo
      invariant out == PutAll(sessions, puts) && ThreadPuts(a.splitter, sid, threads, done, puts)
      decreases |todo|
    {
      var k :| k in todo;
      KindOfThread(a, entries, k);
      out, puts := NextThread(sessions, done, puts, out, sid, threads, k, a.splitter);
      todo, done := todo - {k}, done + {k};
    }
    assert done == threads.Keys;
    LastRound(a, sid, entries, puts);
  }

  lemma FirstRound(a: Adapter, sid: string, entries: seq<Entry>)
    ensures var threads := Gather(map[], entries, Threading(a));
      ThreadPuts(a.splitter, sid, threads, {}, []) && NoneEmpty(threads)
  {
    var threads := Gather(map[], entries, Threading(a));
    GatherNoneEmpty(map[], entries, Threading(a));
    assert ShownIn(threads, {}) == map[];
  }

  lemma LastRound(a: Adapter, sid: string, entries: seq<Entry>, puts: seq<Put>)
    requires var threads := Gather(map[], entries, Threading(a)); ThreadPuts(a.splitter, sid, threads, threads.Keys, puts)
    ensures SessionPuts(a, sid, entries, puts)
  {
    var threads := Gather(map[], entries, Threading(a));
    ShownTotal(a, entries);
    assert ShownIn(threads, threads.Keys) == ShownThreads(threads);
  }

  // ----- Which keys a session files under -----

  /** The invocations of a thread that is in time order. */
  function InvocationsOf(how: Splitter, thread: seq<Entry>): seq<seq<Entry>> {
    match how
    case Whole => if |thread| == 0 then [] else [thread]
    case ByMessageCount => CutInto(CountDrop, thread)
  }

  /** A thread in time order, whose entries have different ids, can be cut in that way only. */
  lemma CutIsInvocations(how: Splitter, thread: seq<Entry>, subs: seq<seq<Entry>>)
    requires CutRight(how, thread, subs) && Sorted(ByTimeThenId, thread) && UniqueIds(multiset(thread))
    ensures subs == InvocationsOf(how, thread)
  {
    if how.ByMessageCount? {
      IdsOrder(Concat(subs));
      SortedIsUnique(ByTimeThenId, Concat(subs), thread);
      RunsUnique(CountDrop, subs);
    } else if thread == [] {
      assert |multiset(Concat(subs))| == |Concat(subs)| == 0;
      if subs != [] { SomethingCut(subs); }
    }
  }

  lemma SomethingCut(subs: seq<seq<Entry>>)
    requires subs != [] && forall s <- subs :: s != []
    ensures |Concat(subs)| > 0
  {
    assert subs[|subs| - 1] in subs;
  }

  lemma IdsOrder(s: seq<Entry>)
    requires UniqueIds(multiset(s))
    ensures Ordered(ByTimeThenId, s)
  {
    forall x <- s, y <- s ensures x == y || ByTimeThenId(x, y) || ByTimeThenId(y, x) {
      assert x in multiset(s) && y in multiset(s);
      if x.timestamp != y.timestamp { StringLessTotal(x.timestamp, y.timestamp); }
    }
  }

  /** The session has a thread that is filed under this key, told from its entries alone. */
  ghost predicate FilesUnder(a: Adapter, sid: string, entries: seq<Entry>, key: string) {
    (key == sid && exists e <- entries :: ThreadOf(a, e) == "main") ||
    exists n: nat, i: nat :: InvocationKey(a, sid, entries, n, i, key)
  }

  predicate InvocationKey(a: Adapter, sid: string, entries: seq<Entry>, n: nat, i: nat, key: string) {
    1 <= i <= |InvocationsOf(a.splitter, Where(Threading(a), ThreadKey(n), entries))| && key == ChildKey(sid, ThreadKey(n), i)
  }

  lemma {:induction false} WhereSorted(less: (Entry, Entry) -> bool, key: Entry -> string, k: string, s: seq<Entry>)
    requires Sorted(less, s)
    ensures Sorted(less, Where(key, k, s)) && multiset(Where(key, k, s)) <= multiset(s)
    decreases |s|
  {
    if |s| > 0 {
      var n := |s| - 1;
      var before := s[..n];
      WhereSorted(less, key, k, before);
      BagSnoc(before, s[n], s);
      forall x <- Where(key, k, before) ensures !less(s[n], x) {
        assert x in multiset(before);
        var i :| 0 <= i < n && before[i] == x;
        assert s[i] == x;
      }
    }
  }

  /** What a thread of the session is, and how it is cut. */
  lemma ThreadCut(a: Adapter, entries: seq<Entry>, k: string)
    requires Sorted(ByTimeThenId, entries) && UniqueIds(multiset(entries)) && k in Gather(map[], entries, Threading(a))
    ensures var thread := Where(Threading(a), k, entries);
      Gather(map[], entries, Threading(a))[k] == thread &&
      forall subs :: CutRight(a.splitter, thread, subs) ==> subs == InvocationsOf(a.splitter, thread)
  {
    var thread := Where(Threading(a), k, entries);
    GatherAt(map[], entries, Threading(a), k);
    WhereSorted(ByTimeThenId, Threading(a), k, entries);
    UniquePart(multiset(thread), multiset(entries));
    forall subs | CutRight(a.splitter, thread, subs) ensures subs == InvocationsOf(a.splitter, thread) {
      CutIsInvocations(a.splitter, thread, subs);
    }
  }

  /** The keys in use are exactly those. */
  lemma PutKeys(a: Adapter, sid: string, entries: seq<Entry>, puts: seq<Put>, key: string)
    requires SessionPuts(a, sid, entries, puts) && Sorted(ByTimeThenId, entries) && UniqueIds(multiset(entries))
    ensures Keyed(puts, key) <==> FilesUnder(a, sid, entries, key)
  {
    if Keyed(puts, key) { PutKeyFiles(a, sid, entries, puts, key); }
    if FilesUnder(a, sid, entries, key) { FilesPutKey(a, sid, entries, puts, key); }
  }

  /** The puts of a session that hold what it shows, non-empty, under exactly those keys, once each. */
  ghost predicate PutsTold(a: Adapter, sid: string, entries: seq<Entry>, puts: seq<Put>) {
    DistinctKeys(puts) && (forall p <- puts :: p.list != []) && Bag(puts) == multiset(Shown(a, entries)) &&
    forall key :: Keyed(puts, key) <==> FilesUnder(a, sid, entries, key)
  }

  lemma SessionPutsTold(a: Adapter, sid: string, entries: seq<Entry>, puts: seq<Put>)
    requires SessionPuts(a, sid, entries, puts) && Sorted(ByTimeThenId, entries) && UniqueIds(multiset(entries))
    ensures PutsTold(a, sid, entries, puts)
  {
    forall key ensures Keyed(puts, key) <==> FilesUnder(a, sid, entries, key) { PutKeys(a, sid, entries, puts, key); }
  }

  lemma PutKeyFiles(a: Adapter, sid: string, entries: seq<Entry>, puts: seq<Put>, key: string)
    requires SessionPuts(a, sid, entries, puts) && Sorted(ByTimeThenId, entries) && UniqueIds(multiset(entries))
    requires Keyed(puts, key)
    ensures FilesUnder(a, sid, entries, key)
  {
    var threads := Gather(map[], entries, Threading(a));
    var shown := ShownIn(threads, threads.Keys);
    assert FiledBy(a.splitter, sid, shown, key);
    var k :| k in shown && FiledKey(a.splitter, sid, k, shown[k], key);
    ThreadCut(a, entries, k);
    KindOfThread(a, entries, k);
    if k == "main" {
      GatherKeys(map[], entries, Threading(a), k);
      var e :| e in entries && Threading(a)(e) == k;
      assert ThreadOf(a, e) == "main";
    } else {
      var n: nat :| k == ThreadKey(n);
      var subs :| CutRight(a.splitter, shown[k], subs) && Keyed(Numbered(sid, k, subs), key);
      var i :| 0 <= i < |subs| && Numbered(sid, k, subs)[i].key == key;
      assert InvocationKey(a, sid, entries, n, i + 1, key);
    }
  }

  lemma FilesPutKey(a: Adapter, sid: string, entries: seq<Entry>, puts: seq<Put>, key: string)
    requires SessionPuts(a, sid, entries, puts) && Sorted(ByTimeThenId, entries) && UniqueIds(multiset(entries))
    requires FilesUnder(a, sid, entries, key)
    ensures Keyed(puts, key)
  {
    if key == sid && exists e <- entries :: ThreadOf(a, e) == "main" {
      var e :| e in entries && ThreadOf(a, e) == "main";
      MainKeyed(a, sid, entries, puts, e);
    } else {
      var n: nat, i: nat :| InvocationKey(a, sid, entries, n, i, key);
      NotHidden(n);
      ThreadThere(a, entries, ThreadKey(n));
      ThreadCut(a, entries, ThreadKey(n));
      InvocationKeyed(a, sid, entries, puts, ThreadKey(n), i);
    }
  }

  lemma MainKeyed(a: Adapter, sid: string, entries: seq<Entry>, puts: seq<Put>, e: Entry)
    requires SessionPuts(a, sid, entries, puts) && e in entries && ThreadOf(a, e) == "main"
    ensures Keyed(puts, sid)
  {
    var threads := Gather(map[], entries, Threading(a));
    GatherKeys(map[], entries, Threading(a), "main");
    assert Threading(a)(e) == "main" && "main" in ShownIn(threads, threads.Keys);
    assert Files(a.splitter, sid, "main", threads["main"], puts);
  }

  lemma InvocationKeyed(a: Adapter, sid: string, entries: seq<Entry>, puts: seq<Put>, k: string, i: nat)
    requires SessionPuts(a, sid, entries, puts) && k in Gather(map[], entries, Threading(a)) && !Hidden(k) && k != "main"
    requires var thread := Gather(map[], entries, Threading(a))[k];
      1 <= i <= |InvocationsOf(a.splitter, thread)| &&
      forall subs :: CutRight(a.splitter, thread, subs) ==> subs == InvocationsOf(a.splitter, thread)
    ensures Keyed(puts, ChildKey(sid, k, i))
  {
    var threads := Gather(map[], entries, Threading(a));
    assert k in ShownIn(threads, threads.Keys) && Files(a.splitter, sid, k, threads[k], puts);
    var subs :| CutRight(a.splitter, threads[k], subs) && forall p <- Numbered(sid, k, subs) :: p in puts;
    assert Numbered(sid, k, subs)[i - 1] in Numbered(sid, k, subs);
  }

  lemma NotHidden(n: nat)
    ensures !Hidden(ThreadKey(n)) && ThreadKey(n) != "main"
  {
    assert ThreadKey(n)[0] == 's';
  }

  lemma ThreadThere(a: Adapter, entries: seq<Entry>, k: string)
    requires InvocationsOf(a.splitter, Where(Threading(a), k, entries)) != []
    ensures k in Gather(map[], entries, Threading(a))
  {
    GatherAt(map[], entries, Threading(a), k);
    assert CutInto(CountDrop, []) == [];
  }

  // ----- What filing a session means -----

  /** No key of this session is in use. */
  ghost predicate Unclaimed(sessions: Filed, sid: string) { forall key <- sessions :: !OwnKey(sid, key) }

  /** What is filed under the session's own keys. */
  ghost function OwnPart(sessions: Filed, sid: string): Filed { map k | k in sessions && OwnKey(sid, k) :: sessions[k] }

  /** Filing a session leaves every other key alone, in every case. */
  lemma OthersUntouched(sessions: Filed, sid: string, entries: seq<Entry>, a: Adapter, out: Filed, key: string)
    requires AddedBy(sessions, sid, entries, a, out) && !OwnKey(sid, key)
    ensures SameAt(sessions, out, key)
  {
    var puts: seq<Put> :| SessionPuts(a, sid, entries, puts) && out == PutAll(sessions, puts);
    forall p <- puts ensures p.key != key { MadeIsOwn(sid, Gather(map[], entries, Threading(a)).Keys, p.key); }
    PutElsewhere(sessions, puts, key);
  }

  /** Filing a session adds at most the entries it shows. */
  lemma NothingDoubled(sessions: Filed, sid: string, entries: seq<Entry>, a: Adapter, out: Filed)
    requires AddedBy(sessions, sid, entries, a, out)
    ensures Total(out) <= Total(sessions) + multiset(Shown(a, entries))
  {
    var puts: seq<Put> :| SessionPuts(a, sid, entries, puts) && out == PutAll(sessions, puts);
    PutBound(sessions, puts);
  }

  /** The thread is under its keys: the main one under the id, any other as its invocations, numbered from 1. */
  ghost predicate ThreadFiled(how: Splitter, sid: string, k: string, thread: seq<Entry>, out: Filed) {
    if k == "main" then FiledAt(out, sid, thread)
    else exists subs :: CutRight(how, thread, subs) && InvocationsFiled(sid, k, subs, out)
  }

  ghost predicate InvocationsFiled(sid: string, k: string, subs: seq<seq<Entry>>, out: Filed) {
    forall j :: 0 <= j < |subs| ==> FiledAt(out, ChildKey(sid, k, j + 1), subs[j])
  }

  /** Every shown thread ends up under its own keys, in every case. */
  lemma ThreadsFiled(sessions: Filed, sid: string, entries: seq<Entry>, a: Adapter, out: Filed, k: string)
    requires AddedBy(sessions, sid, entries, a, out) && k in Gather(map[], entries, Threading(a)) && !Hidden(k)
    ensures ThreadFiled(a.splitter, sid, k, Where(Threading(a), k, entries), out)
  {
    var threads := Gather(map[], entries, Threading(a));
    var puts: seq<Put> :| SessionPuts(a, sid, entries, puts) && out == PutAll(sessions, puts);
    GatherAt(map[], entries, Threading(a), k);
    assert threads[k] == Where(Threading(a), k, entries);
    assert k in ShownIn(threads, threads.Keys);
    assert Files(a.splitter, sid, k, threads[k], puts);
    forall p <- puts ensures FiledAt(out, p.key, p.list) {
      var i :| 0 <= i < |puts| && puts[i] == p;
      PutThere(sessions, puts, i);
    }
    if k != "main" {
      var subs: seq<seq<Entry>> :| CutRight(a.splitter, threads[k], subs) && forall p <- Numbered(sid, k, subs) :: p in puts;
      forall j | 0 <= j < |subs| ensures FiledAt(out, ChildKey(sid, k, j + 1), subs[j]) {
        assert Numbered(sid, k, subs)[j] in Numbered(sid, k, subs);
      }
    }
  }

  /**
    When none of its keys is in use, exactly the entries it shows are added, under
    its own keys, and nothing gives way.
   */
  lemma UnclaimedFiled(sessions: Filed, sid: string, entries: seq<Entry>, a: Adapter, out: Filed)
    requires AddedBy(sessions, sid, entries, a, out) && Unclaimed(sessions, sid)
    ensures Total(out) == Total(sessions) + multiset(Shown(a, entries))
    ensures Total(OwnPart(out, sid)) == multiset(Shown(a, entries))
  {
    var puts: seq<Put> :| SessionPuts(a, sid, entries, puts) && out == PutAll(sessions, puts);
    forall p <- puts ensures OwnKey(sid, p.key) { MadeIsOwn(sid, Gather(map[], entries, Threading(a)).Keys, p.key); }
    PutFresh(sessions, puts);
    PutFresh(map[], puts);
    OwnIsPut(sessions, sid, puts);
    assert Total(map[]) + Bag(puts) == Bag(puts);
  }

  /** Filing a session loses nothing exactly when nothing was under the keys it files its threads under. */
  lemma FiledWithoutLoss(sessions: Filed, sid: string, entries: seq<Entry>, a: Adapter, puts: seq<Put>)
    requires SessionPuts(a, sid, entries, puts)
    ensures Total(PutAll(sessions, puts)) == Total(sessions) + multiset(Shown(a, entries)) <==>
            forall p <- puts :: At(sessions, p.key) == []
  {
    PutKeepsAll(sessions, puts);
  }

  lemma {:induction false} OwnIsPut(sessions: Filed, sid: string, puts: seq<Put>)
    requires Unclaimed(sessions, sid) && forall p <- puts :: OwnKey(sid, p.key)
    ensures OwnPart(PutAll(sessions, puts), sid) == PutAll(map[], puts)
    decreases |puts|
  {
    var n := |puts| - 1;
    if n >= 0 {
      assert puts[n] in puts && forall p <- puts[..n] :: p in puts;
      OwnIsPut(sessions, sid, puts[..n]);
      OwnPut(PutAll(sessions, puts[..n]), sid, puts[n].key, puts[n].list);
    }
  }

  lemma OwnPut(m: Filed, sid: string, key: string, list: seq<Entry>)
    requires OwnKey(sid, key)
    ensures OwnPart(m[key := list], sid) == OwnPart(m, sid)[key := list]
  {
  }

  // ----- A slash in a session id -----

  /**
    A session named like another one's invocation gives way when that one is
    filed: what was under its id is gone.
   */
  lemma SlashedIdReplaced(sid: string, length: nat, own: seq<Entry>, other: Entry, a: Adapter, out: Filed)
    requires a.splitter.Whole? && ThreadOf(a, other) == ThreadKey(length)
    requires AddedBy(map[ChildKey(sid, ThreadKey(length), 1) := own], sid, [other], a, out)
    ensures !SlashFree(ChildKey(sid, ThreadKey(length), 1))
    ensures Total(out) <= multiset{other}
  {
    var k := ThreadKey(length);
    var slashed := ChildKey(sid, k, 1);
    var sessions: Filed := map[slashed := own];
    assert slashed[|sid|] == '/';
    var puts: seq<Put> :| SessionPuts(a, sid, [other], puts) && out == PutAll(sessions, puts);
    SinglePut(sid, length, other, a, puts);
    PutReplaces(sessions, slashed, puts);
    TotalTake(sessions, slashed);
    assert sessions - {slashed} == map[];
    forall e ensures Total(out)[e] <= multiset{other}[e] {
      assert (Total(out) + multiset(own))[e] <= (Total(sessions) + Bag(puts))[e];
    }
  }

  /** A session with a main thread takes the key that is its id from whoever has it. */
  lemma MainReplaces(sessions: Filed, sid: string, entries: seq<Entry>, a: Adapter, out: Filed, e: Entry)
    requires AddedBy(sessions, sid, entries, a, out) && sid in sessions && e in entries && ThreadOf(a, e) == "main"
    ensures Total(out) + multiset(sessions[sid]) <= Total(sessions) + multiset(Shown(a, entries))
  {
    var puts: seq<Put> :| SessionPuts(a, sid, entries, puts) && out == PutAll(sessions, puts);
    MainKeyed(a, sid, entries, puts, e);
    PutReplaces(sessions, sid, puts);
  }

  /** A session with one subagent entry, filed first. */
  lemma FirstInvocation(sid: string, length: nat, other: Entry, a: Adapter, mid: Filed)
    requires a.splitter.Whole? && ThreadOf(a, other) == ThreadKey(length) && AddedBy(map[], sid, [other], a, mid)
    ensures var slashed := ChildKey(sid, ThreadKey(length), 1);
      Total(mid) == multiset{other} && slashed in mid && other in mid[slashed]
  {
    var slashed := ChildKey(sid, ThreadKey(length), 1);
    var puts: seq<Put> :| SessionPuts(a, sid, [other], puts) && mid == PutAll(map[], puts);
    SinglePut(sid, length, other, a, puts);
    PutFresh(map[], puts);
    PutNonEmpty(map[], puts);
    assert Total(map[]) + Bag(puts) == Bag(puts);
    OnlyEntry(mid, slashed, other);
  }

  lemma OnlyEntry(m: Filed, key: string, e: Entry)
    requires Total(m) == multiset{e} && key in m && m[key] != []
    ensures e in m[key]
  {
    TotalTake(m, key);
    assert m[key][0] in multiset(m[key]) && m[key][0] in Total(m);
  }

  /**
    The other way round: a session with an ordinary id loses an invocation when a
    session named like that invocation is filed after it.
   */
  lemma InvocationReplaced(sid: string, length: nat, other: Entry, a: Adapter, mid: Filed, own: Entry, b: Adapter,
                           out: Filed)
    requires a.splitter.Whole? && ThreadOf(a, other) == ThreadKey(length) && ThreadOf(b, own) == "main"
    requires AddedBy(map[], sid, [other], a, mid)
    requires AddedBy(mid, ChildKey(sid, ThreadKey(length), 1), [own], b, out)
    ensures Total(mid) == multiset{other} && Total(out) <= multiset{own}
  {
    var slashed := ChildKey(sid, ThreadKey(length), 1);
    FirstInvocation(sid, length, other, a, mid);
    MainReplaces(mid, slashed, [own], b, out, own);
    ShownAlone(b, own);
    Swapped(Total(out), multiset(mid[slashed]), other, own);
  }

  lemma ShownAlone(a: Adapter, e: Entry)
    ensures multiset(Shown(a, [e])) <= multiset{e}
  {
    assert [e][..0] == [];
  }

  lemma Swapped(rest: multiset<Entry>, gone: multiset<Entry>, other: Entry, own: Entry)
    requires other in gone && rest + gone <= multiset{other} + multiset{own}
    ensures rest <= multiset{own}
  {
    forall e ensures rest[e] <= multiset{own}[e] { assert (rest + gone)[e] <= (multiset{other} + multiset{own})[e]; }
  }

  lemma SingleThread(other: Entry, a: Adapter)
    ensures Gather(map[], [other], Threading(a)) == map[ThreadOf(a, other) := [other]]
  {
    var none: Filed := Gather(map[], [other][..0], Threading(a));
    assert none == map[] && At(none, ThreadOf(a, other)) + [other] == [other];
  }

  /** A single subagent entry is filed, alone, as the first invocation of its thread. */
  lemma SinglePut(sid: string, length: nat, other: Entry, a: Adapter, puts: seq<Put>)
    requires a.splitter.Whole? && ThreadOf(a, other) == ThreadKey(length) && SessionPuts(a, sid, [other], puts)
    ensures Keyed(puts, ChildKey(sid, ThreadKey(length), 1)) && Bag(puts) == multiset{other}
  {
    var k := ThreadKey(length);
    NotHidden(length);
    SingleThread(other, a);
    assert Gather(map[], [other], Threading(a))[k] == [other];
    InvocationKeyed(a, sid, [other], puts, k, 1);
    assert [other][..0] == [] && Shown(a, [other]) == [] + [other];
  }
}
