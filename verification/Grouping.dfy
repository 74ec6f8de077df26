/**
  Transactions into sessions: `groupBySession` of conversation_assembler.go,
  stage by stage, with what each stage keeps.
 */
module Grouping {
  import opened Common
  import opened Sorting
  import opened SessionKeys
  import opened Transactions
  import opened Runs
  import opened SessionInference
  import opened HeuristicGroups
  import opened SessionThreads
  import opened SubagentRemap

  /**
    The functions grouping is given: client detection, time parsing, fingerprints
    and the task id pattern; `again` bounds what range loops visit twice.
   */
  datatype Env = Env(detect: seq<Entry> -> Adapter, parse: TimeParser, mark: Fingerprint, find: TaskFinder, again: nat)

  // ----- Taking out the entries that have a session -----

  function Pick(p: Entry -> bool, want: bool, s: seq<Entry>): seq<Entry> {
    if |s| == 0 then []
    else
      var rest := Pick(p, want, s[..|s| - 1]);
      if p(s[|s| - 1]) == want then rest + [s[|s| - 1]] else rest
  }

  lemma {:induction false} PickBag(p: Entry -> bool, s: seq<Entry>)
    ensures multiset(Pick(p, true, s)) + multiset(Pick(p, false, s)) == multiset(s)
    decreases |s|
  {
    if |s| > 0 {
      var before := s[..|s| - 1];
      PickBag(p, before);
      BagSnoc(before, s[|s| - 1], s);
    }
  }

  lemma {:induction false} PickMembers(p: Entry -> bool, want: bool, s: seq<Entry>)
    ensures forall e :: e in Pick(p, want, s) <==> e in s && p(e) == want
    decreases |s|
  {
    if |s| > 0 {
      PickMembers(p, want, s[..|s| - 1]);
      assert s == s[..|s| - 1] + [s[|s| - 1]];
    }
  }

  function HasSession(): Entry -> bool { (e: Entry) => e.sessionID != "" }

  function OwnSession(): Entry -> string { (e: Entry) => e.sessionID }

  lemma GatherSnoc(start: Filed, s: seq<Entry>, key: Entry -> string, e: Entry)
    ensures Gather(start, s + [e], key) == Append(Gather(start, s, key), key(e), e)
  {
    assert (s + [e])[..|s|] == s;
  }

  /** The first loop: entries under their own session id, the rest apart. */
  method SplitBySession(txns: seq<Entry>) returns (raw: Filed, unassigned: seq<Entry>)
    ensures raw == Gather(map[], Pick(HasSession(), true, txns), OwnSession())
    ensures unassigned == Pick(HasSession(), false, txns)
  {
    raw, unassigned := map[], [];
    ghost var taken: seq<Entry> := [];
    var i := 0;
    while i < |txns|
      invariant 0 <= i <= |txns|
      invariant taken == Pick(HasSession(), true, txns[..i]) && unassigned == Pick(HasSession(), false, txns[..i])
      invariant raw == Gather(map[], taken, OwnSession())
    {
      var txn := txns[i];
      assert txns[..i + 1][..i] == txns[..i];
      if txn.sessionID != "" {
        raw := Append(raw, txn.sessionID, txn);
        GatherSnoc(map[], taken, OwnSession(), txn);
        taken := taken + [txn];
      } else {
        unassigned := unassigned + [txn];
      }
      i := i + 1;
    }
    assert txns[..i] == txns;
  }

  function WasInferred(inferred: map<nat, string>): Entry -> bool {
    (e: Entry) => e.txnID in inferred && inferred[e.txnID] != ""
  }

  function InferredKey(inferred: map<nat, string>): Entry -> string {
    (e: Entry) => if e.txnID in inferred then inferred[e.txnID] else ""
  }

  /** The second loop: entries under their inferred id, the rest still apart. */
  method AssignInferred(start: Filed, unassigned: seq<Entry>, inferred: map<nat, string>)
    returns (raw: Filed, still: seq<Entry>)
    ensures raw == Gather(start, Pick(WasInferred(inferred), true, unassigned), InferredKey(inferred))
    ensures still == Pick(WasInferred(inferred), false, unassigned)
  {
    raw, still := start, [];
    ghost var taken: seq<Entry> := [];
    var i := 0;
    while i < |unassigned|
      invariant 0 <= i <= |unassigned|
      invariant taken == Pick(WasInferred(inferred), true, unassigned[..i])
      invariant still == Pick(WasInferred(inferred), false, unassigned[..i])
      invariant raw == Gather(start, taken, InferredKey(inferred))
    {
      var e := unassigned[i];
      assert unassigned[..i + 1][..i] == unassigned[..i];
      if e.txnID in inferred && inferred[e.txnID] != "" {
        raw := Append(raw, inferred[e.txnID], e);
        GatherSnoc(start, taken, InferredKey(inferred), e);
        taken := taken + [e];
      } else {
        still := still + [e];
      }
      i := i + 1;
    }
    assert unassigned[..i] == unassigned;
  }

  /** Filing entries under non-empty keys keeps every entry, list and name. */
  lemma FiledMore(start: Filed, s: seq<Entry>, p: Entry -> bool, key: Entry -> string)
    requires NoneEmpty(start) && "" !in start && forall e <- s :: p(e) ==> key(e) != ""
    ensures var out := Gather(start, Pick(p, true, s), key);
      NoneEmpty(out) && "" !in out && Total(out) + multiset(Pick(p, false, s)) == Total(start) + multiset(s) &&
      (forall k <- start :: k in out && multiset(start[k]) <= multiset(out[k])) &&
      (forall e <- s :: p(e) ==> key(e) in out && e in out[key(e)]) &&
      (forall k <- out :: k in start || exists e <- s :: p(e) && key(e) == k)
  {
    var picked, out := Pick(p, true, s), Gather(start, Pick(p, true, s), key);
    PickBag(p, s);
    PickMembers(p, true, s);
    GatherTotal(start, picked, key);
    GatherNoneEmpty(start, picked, key);
    forall k ensures At(out, k) == At(start, k) + Where(key, k, picked) && (k in out <==> k in start || exists e <- picked :: key(e) == k) {
      GatherAt(start, picked, key, k);
      GatherKeys(start, picked, key, k);
    }
    assert Total(out) + multiset(Pick(p, false, s)) == Total(start) + (multiset(picked) + multiset(Pick(p, false, s)));
    forall e <- s | p(e) ensures key(e) in out && e in out[key(e)] {
      WhereMembers(key, key(e), picked);
      assert e in picked;
    }
  }

  // ----- Splitting every session -----

  /** What each session shows, before keys are made for it. */
  function ShownAll(detect: seq<Entry> -> Adapter, raw: Filed): Filed {
    map sid | sid in raw :: Shown(detect(raw[sid]), raw[sid])
  }

  /** No other session has an id among this one's keys, and its id is no key of another one. */
  ghost predicate Independent(sid: string, ids: set<string>) {
    forall t <- ids :: t != sid ==> !OwnKey(sid, t) && !OwnKey(t, sid)
  }

  /** Every key was made for one of these sessions. */
  ghost predicate KeysOf(ids: set<string>, sessions: Filed) { forall key <- sessions :: MadeByOne(ids, key) }

  ghost predicate MadeByOne(ids: set<string>, key: string) { exists t <- ids :: OwnKey(t, key) }

  /** The same sessions with each list in time order. */
  ghost predicate Arranged(start: Filed, raw: Filed) {
    start.Keys == raw.Keys && AllSorted(start, raw)
  }

  ghost predicate SameSorted(start: Filed, raw: Filed, k: string) {
    k in start && k in raw && multiset(raw[k]) == multiset(start[k]) && Sorted(ByTimeThenId, raw[k])
  }

  /** Under the session's own keys is exactly what it shows. */
  ghost predicate Whole(detect: seq<Entry> -> Adapter, raw: Filed, sessions: Filed, sid: string) {
    sid in raw && Total(OwnPart(sessions, sid)) == multiset(Shown(detect(raw[sid]), raw[sid]))
  }

  /** Every shown thread of the session is under its keys. */
  ghost predicate ThreadsAt(detect: seq<Entry> -> Adapter, raw: Filed, sessions: Filed, sid: string) {
    sid in raw && forall k :: k in Gather(map[], raw[sid], Threading(detect(raw[sid]))) && !Hidden(k) ==>
      ThreadFiled(detect(raw[sid]).splitter, sid, k, Where(Threading(detect(raw[sid])), k, raw[sid]), sessions)
  }

  /** So it is for every session that shares no key. */
  ghost predicate AllThreadsAt(detect: seq<Entry> -> Adapter, ids: set<string>, raw: Filed, sessions: Filed) {
    forall sid <- raw :: Independent(sid, ids) ==> ThreadsAt(detect, raw, sessions, sid)
  }

  /** A thread stays filed when nothing under its session's keys changes. */
  lemma ThreadStays(how: Splitter, sid: string, k: string, thread: seq<Entry>, before: Filed, out: Filed)
    requires ThreadFiled(how, sid, k, thread, before) && (k == "main" || exists n: nat :: k == ThreadKey(n))
    requires forall key :: OwnKey(sid, key) && key in before ==> FiledAt(out, key, before[key])
    ensures ThreadFiled(how, sid, k, thread, out)
  {
    if k != "main" {
      var subs: seq<seq<Entry>> :| CutRight(how, thread, subs) && InvocationsFiled(sid, k, subs, before);
      forall j | 0 <= j < |subs| ensures FiledAt(out, ChildKey(sid, k, j + 1), subs[j]) {
        assert FiledAt(before, ChildKey(sid, k, j + 1), subs[j]) && OwnKey(sid, ChildKey(sid, k, j + 1));
      }
      assert InvocationsFiled(sid, k, subs, out);
    }
  }

  lemma ThreadsStay(detect: seq<Entry> -> Adapter, raw: Filed, before: Filed, out: Filed, sid: string)
    requires ThreadsAt(detect, raw, before, sid)
    requires forall key :: OwnKey(sid, key) && key in before ==> FiledAt(out, key, before[key])
    ensures ThreadsAt(detect, raw, out, sid)
  {
    var a := detect(raw[sid]);
    forall k | k in Gather(map[], raw[sid], Threading(a)) && !Hidden(k)
      ensures ThreadFiled(a.splitter, sid, k, Where(Threading(a), k, raw[sid]), out)
    {
      KindOfThread(a, raw[sid], k);
      ThreadStays(a.splitter, sid, k, Where(Threading(a), k, raw[sid]), before, out);
    }
  }

  lemma ThreadsAtNext(detect: seq<Entry> -> Adapter, ids: set<string>, done: Filed, sessions: Filed, sid: string,
                      sorted: seq<Entry>, raw: Filed, out: Filed)
    requires AllThreadsAt(detect, ids, done, sessions) && sid in ids && sid !in done && raw == done[sid := sorted]
    requires AddedBy(sessions, sid, sorted, detect(sorted), out)
    ensures AllThreadsAt(detect, ids, raw, out)
  {
    forall k <- raw | Independent(k, ids) ensures ThreadsAt(detect, raw, out, k) {
      if k == sid {
        JustFiled(detect, sessions, sid, sorted, raw, out);
      } else {
        OwnPartKept(ids, sessions, sid, sorted, detect(sorted), out, k);
        forall key | OwnKey(k, key) && key in sessions ensures FiledAt(out, key, sessions[key]) {
          assert key in OwnPart(sessions, k) && OwnPart(out, k)[key] == sessions[key];
        }
        assert ThreadsAt(detect, done, sessions, k) && raw[k] == done[k];
        ThreadsStay(detect, raw, sessions, out, k);
      }
    }
  }

  lemma JustFiled(detect: seq<Entry> -> Adapter, sessions: Filed, sid: string, sorted: seq<Entry>, raw: Filed, out: Filed)
    requires FiledAt(raw, sid, sorted) && AddedBy(sessions, sid, sorted, detect(sorted), out)
    ensures ThreadsAt(detect, raw, out, sid)
  {
    var a := detect(sorted);
    forall k | k in Gather(map[], sorted, Threading(a)) && !Hidden(k)
      ensures ThreadFiled(a.splitter, sid, k, Where(Threading(a), k, sorted), out)
    {
      ThreadsFiled(sessions, sid, sorted, a, out, k);
    }
  }

  /**
    Where the split loop stands: `raw` holds the sessions done, sorted. Nothing
    is there twice, a session that shares no key is whole, and when no two
    sessions share a key nothing is missing.
   */
  ghost predicate SplitSoFar(detect: seq<Entry> -> Adapter, start: Filed, raw: Filed, sessions: Filed) {
    raw.Keys <= start.Keys && AllSorted(start, raw) && KeysOf(raw.Keys, sessions) &&
    Total(sessions) <= Total(ShownAll(detect, raw)) && AllWhole(detect, start.Keys, raw, sessions) &&
    (AllIndependent(start) ==> Total(sessions) == Total(ShownAll(detect, raw)))
  }

  ghost predicate AllSorted(start: Filed, raw: Filed) { forall k <- raw :: SameSorted(start, raw, k) }

  /** Every session that shares no key is whole. */
  ghost predicate AllWhole(detect: seq<Entry> -> Adapter, ids: set<string>, raw: Filed, sessions: Filed) {
    forall sid <- raw :: Independent(sid, ids) ==> Whole(detect, raw, sessions, sid)
  }

  ghost predicate AllIndependent(start: Filed) { forall sid <- start :: Independent(sid, start.Keys) }

  /** No session holds two entries of one id. */
  ghost predicate UniqueSessions(start: Filed) { forall sid <- start :: UniqueIds(multiset(start[sid])) }

  /** The session has a thread that is filed under this key. */
  ghost predicate FilesAt(detect: seq<Entry> -> Adapter, raw: Filed, sid: string, key: string) {
    sid in raw && FilesUnder(detect(raw[sid]), sid, raw[sid], key)
  }

  /** Two sessions file a thread under one key. */
  ghost predicate Collide(detect: seq<Entry> -> Adapter, raw: Filed, s: string, t: string) {
    s != t && exists key :: FilesAt(detect, raw, s, key) && FilesAt(detect, raw, t, key)
  }

  ghost predicate NoneCollide(detect: seq<Entry> -> Adapter, raw: Filed) {
    forall s, t :: !Collide(detect, raw, s, t)
  }

  /**
    They do exactly when one has a main thread and its id is the key of an
    invocation of the other.
   */
  lemma CollideExactly(detect: seq<Entry> -> Adapter, raw: Filed, s: string, t: string)
    ensures Collide(detect, raw, s, t) <==>
            s != t && ((FilesAt(detect, raw, s, t) && FilesAt(detect, raw, t, t)) ||
                       (FilesAt(detect, raw, t, s) && FilesAt(detect, raw, s, s)))
  {
    if Collide(detect, raw, s, t) {
      var key :| FilesAt(detect, raw, s, key) && FilesAt(detect, raw, t, key);
      FilesOwnKey(detect(raw[s]), s, raw[s], key);
      FilesOwnKey(detect(raw[t]), t, raw[t], key);
      if key != s && key != t {
        OneMaker(detect(raw[s]), s, raw[s], detect(raw[t]), t, raw[t], key);
      }
    }
  }

  lemma FilesOwnKey(a: Adapter, sid: string, entries: seq<Entry>, key: string)
    requires FilesUnder(a, sid, entries, key)
    ensures OwnKey(sid, key)
  {
    if key != sid {
      var n: nat, i: nat :| InvocationKey(a, sid, entries, n, i, key);
    }
  }

  /** An invocation key is made by one session only. */
  lemma OneMaker(a: Adapter, s: string, own: seq<Entry>, b: Adapter, t: string, other: seq<Entry>, key: string)
    requires FilesUnder(a, s, own, key) && FilesUnder(b, t, other, key) && key != s && key != t
    ensures s == t
  {
    var n: nat, i: nat :| InvocationKey(a, s, own, n, i, key);
    var m: nat, j: nat :| InvocationKey(b, t, other, m, j, key);
    ChildKeyInjective(s, n, i, t, m, j);
  }

  /**
    The lists that were filed, one after the other: every key used by the sessions
    done, and used once unless two collide.
   */
  ghost predicate Recorded(detect: seq<Entry> -> Adapter, raw: Filed, puts: seq<Put>) {
    (forall p <- puts :: p.list != []) && Bag(puts) == Total(ShownAll(detect, raw)) &&
    KeysAre(detect, raw, puts) && (DistinctKeys(puts) <==> NoneCollide(detect, raw))
  }

  ghost predicate KeysAre(detect: seq<Entry> -> Adapter, raw: Filed, puts: seq<Put>) {
    forall key :: Keyed(puts, key) <==> UsedKey(detect, raw, key)
  }

  /** Some session files under the key. */
  ghost predicate UsedKey(detect: seq<Entry> -> Adapter, raw: Filed, key: string) {
    exists t :: FilesAt(detect, raw, t, key)
  }

  ghost predicate FiledAs(detect: seq<Entry> -> Adapter, raw: Filed, sessions: Filed) {
    exists puts :: Recorded(detect, raw, puts) && sessions == PutAll(map[], puts)
  }

  /** Nothing that the sessions show is missing exactly when no two of them collide. */
  lemma MissingExactly(detect: seq<Entry> -> Adapter, raw: Filed, sessions: Filed)
    requires FiledAs(detect, raw, sessions)
    ensures Total(sessions) == Total(ShownAll(detect, raw)) <==> NoneCollide(detect, raw)
  {
    var puts: seq<Put> :| Recorded(detect, raw, puts) && sessions == PutAll(map[], puts);
    AllPutsStay(puts);
  }

  ghost predicate CommonKey(puts: seq<Put>, more: seq<Put>) { exists key :: Keyed(puts, key) && Keyed(more, key) }

  lemma JoinedKeys(puts: seq<Put>, more: seq<Put>)
    requires DistinctKeys(more)
    ensures forall key :: Keyed(puts + more, key) <==> Keyed(puts, key) || Keyed(more, key)
    ensures DistinctKeys(puts + more) <==> DistinctKeys(puts) && !CommonKey(puts, more)
  {
    var all := puts + more;
    forall key ensures Keyed(all, key) <==> Keyed(puts, key) || Keyed(more, key) {
      if Keyed(puts, key) { var p :| p in puts && p.key == key; assert p in all; }
      if Keyed(more, key) { var p :| p in more && p.key == key; assert p in all; }
    }
    assert forall i :: 0 <= i < |puts| ==> all[i] == puts[i];
    assert forall j :: 0 <= j < |more| ==> all[|puts| + j] == more[j];
    if CommonKey(puts, more) {
      var key :| Keyed(puts, key) && Keyed(more, key);
      var i :| 0 <= i < |puts| && puts[i].key == key;
      var j :| 0 <= j < |more| && more[j].key == key;
      assert all[i].key == all[|puts| + j].key;
    } else if DistinctKeys(puts) {
      forall i, j | 0 <= i < j < |all| ensures all[i].key != all[j].key {
        if i >= |puts| {
          assert more[i - |puts|].key != more[j - |puts|].key;
        } else if j >= |puts| {
          assert puts[i] in puts && more[j - |puts|] in more;
          assert Keyed(puts, all[i].key) && Keyed(more, all[j].key);
        }
      }
    } else {
      var i, j :| 0 <= i < j < |puts| && puts[i].key == puts[j].key;
      assert all[i].key == all[j].key;
    }
  }

  /** A session done files under a key of this one. */
  ghost predicate Meets(detect: seq<Entry> -> Adapter, done: Filed, sid: string, sorted: seq<Entry>) {
    exists t, key :: FilesAt(detect, done, t, key) && FilesUnder(detect(sorted), sid, sorted, key)
  }

  /** One session more collides with nothing done, or does. */
  lemma CollideNext(detect: seq<Entry> -> Adapter, done: Filed, sid: string, sorted: seq<Entry>, more: Filed)
    requires sid !in done && more == done[sid := sorted]
    ensures forall key :: FilesAt(detect, more, sid, key) <==> FilesUnder(detect(sorted), sid, sorted, key)
    ensures forall t, key :: t != sid ==> (FilesAt(detect, more, t, key) <==> FilesAt(detect, done, t, key))
    ensures NoneCollide(detect, more) <==> NoneCollide(detect, done) && !Meets(detect, done, sid, sorted)
  {
    forall t, key | t != sid ensures FilesAt(detect, more, t, key) <==> FilesAt(detect, done, t, key) {}
    if !NoneCollide(detect, done) {
      var s, t :| Collide(detect, done, s, t);
      assert Collide(detect, more, s, t);
    } else if Meets(detect, done, sid, sorted) {
      var t, key :| FilesAt(detect, done, t, key) && FilesUnder(detect(sorted), sid, sorted, key);
      assert FilesAt(detect, more, t, key) && FilesAt(detect, more, sid, key);
      assert Collide(detect, more, t, sid);
    } else {
      forall s, t, key | s != t && FilesAt(detect, more, s, key) ensures !FilesAt(detect, more, t, key) {
        if s != sid && t != sid { assert !Collide(detect, done, s, t); }
      }
    }
  }

  lemma CommonIsMeeting(detect: seq<Entry> -> Adapter, done: Filed, sid: string, sorted: seq<Entry>, puts: seq<Put>,
                        more: seq<Put>)
    requires KeysAre(detect, done, puts)
    requires forall key :: Keyed(more, key) <==> FilesUnder(detect(sorted), sid, sorted, key)
    ensures CommonKey(puts, more) <==> Meets(detect, done, sid, sorted)
  {
    if CommonKey(puts, more) {
      var key :| Keyed(puts, key) && Keyed(more, key);
      assert UsedKey(detect, done, key);
      var t :| FilesAt(detect, done, t, key);
      assert FilesUnder(detect(sorted), sid, sorted, key);
    }
    if Meets(detect, done, sid, sorted) {
      var t, key :| FilesAt(detect, done, t, key) && FilesUnder(detect(sorted), sid, sorted, key);
      assert UsedKey(detect, done, key) && Keyed(puts, key) && Keyed(more, key);
    }
  }

  lemma FiledNext(detect: seq<Entry> -> Adapter, done: Filed, sessions: Filed, sid: string, sorted: seq<Entry>,
                  out: Filed)
    requires FiledAs(detect, done, sessions) && AddedBy(sessions, sid, sorted, detect(sorted), out) && sid !in done
    requires Sorted(ByTimeThenId, sorted) && UniqueIds(multiset(sorted))
    ensures FiledAs(detect, done[sid := sorted], out)
  {
    var puts: seq<Put> :| Recorded(detect, done, puts) && sessions == PutAll(map[], puts);
    var more := PutsOf(sessions, sid, sorted, detect(sorted), out);
    PutAppend(map[], puts, more);
    RecordedNext(detect, done, sid, sorted, puts, more);
  }

  lemma PutsOf(sessions: Filed, sid: string, sorted: seq<Entry>, a: Adapter, out: Filed) returns (more: seq<Put>)
    requires AddedBy(sessions, sid, sorted, a, out) && Sorted(ByTimeThenId, sorted) && UniqueIds(multiset(sorted))
    ensures PutsTold(a, sid, sorted, more) && out == PutAll(sessions, more)
  {
    more :| SessionPuts(a, sid, sorted, more) && out == PutAll(sessions, more);
    SessionPutsTold(a, sid, sorted, more);
  }

  lemma RecordedNext(detect: seq<Entry> -> Adapter, done: Filed, sid: string, sorted: seq<Entry>, puts: seq<Put>,
                     more: seq<Put>)
    requires Recorded(detect, done, puts) && PutsTold(detect(sorted), sid, sorted, more) && sid !in done
    ensures Recorded(detect, done[sid := sorted], puts + more)
  {
    JoinedKeys(puts, more);
    PutAppend(map[], puts, more);
    ShownOneMore(detect, done, sid, sorted);
    KeysNext(detect, done, sid, sorted, puts, more);
  }

  /** The keys used, and whether any was used twice, with one session more. */
  lemma KeysNext(detect: seq<Entry> -> Adapter, done: Filed, sid: string, sorted: seq<Entry>, puts: seq<Put>,
                 more: seq<Put>)
    requires sid !in done && DistinctKeys(more) && KeysAre(detect, done, puts)
    requires forall key :: Keyed(more, key) <==> FilesUnder(detect(sorted), sid, sorted, key)
    ensures KeysAre(detect, done[sid := sorted], puts + more)
    ensures (DistinctKeys(puts) <==> NoneCollide(detect, done)) ==>
              (DistinctKeys(puts + more) <==> NoneCollide(detect, done[sid := sorted]))
  {
    var all := done[sid := sorted];
    JoinedKeys(puts, more);
    CollideNext(detect, done, sid, sorted, all);
    CommonIsMeeting(detect, done, sid, sorted, puts, more);
    forall key ensures Keyed(puts + more, key) <==> UsedKey(detect, all, key) {
      UsedNext(detect, done, sid, all, key);
    }
  }

  lemma UsedNext(detect: seq<Entry> -> Adapter, done: Filed, sid: string, all: Filed, key: string)
    requires sid !in done && forall t :: t != sid ==> (FilesAt(detect, all, t, key) <==> FilesAt(detect, done, t, key))
    ensures UsedKey(detect, all, key) <==> UsedKey(detect, done, key) || FilesAt(detect, all, sid, key)
  {
    if UsedKey(detect, done, key) {
      var t :| FilesAt(detect, done, t, key);
      assert FilesAt(detect, all, t, key);
    }
    if UsedKey(detect, all, key) {
      var t :| FilesAt(detect, all, t, key);
      assert t != sid ==> FilesAt(detect, done, t, key);
    }
  }

  lemma KeysGrow(ids: set<string>, before: Filed, sid: string, entries: seq<Entry>, a: Adapter, out: Filed)
    requires KeysOf(ids, before) && AddedBy(before, sid, entries, a, out)
    ensures KeysOf(ids + {sid}, out)
  {
    forall key <- out ensures MadeByOne(ids + {sid}, key) {
      if !OwnKey(sid, key) {
        OthersUntouched(before, sid, entries, a, out, key);
        assert MadeByOne(ids, key);
      }
    }
  }

  /** Before its turn, no key of an independent session is in use. */
  lemma StillUnclaimed(ids: set<string>, done: set<string>, sessions: Filed, sid: string)
    requires Independent(sid, ids) && done <= ids && sid !in done && KeysOf(done, sessions)
    ensures Unclaimed(sessions, sid)
  {
    forall key <- sessions ensures !OwnKey(sid, key) {
      assert MadeByOne(done, key);
      var t :| t in done && OwnKey(t, key);
      if OwnKey(sid, key) { SharedKey(sid, t, key); }
    }
  }

  /** The turn of another session leaves an independent one as it is. */
  lemma OwnPartKept(ids: set<string>, before: Filed, sid: string, entries: seq<Entry>, a: Adapter, out: Filed,
                    other: string)
    requires Independent(other, ids) && sid in ids && sid != other && AddedBy(before, sid, entries, a, out)
    ensures OwnPart(out, other) == OwnPart(before, other)
  {
    forall key | OwnKey(other, key) ensures SameAt(before, out, key) {
      if OwnKey(sid, key) { SharedKey(other, sid, key); }
      OthersUntouched(before, sid, entries, a, out, key);
    }
  }

  /** The ids the split loop has still to visit. */
  ghost predicate LeftToSplit(start: Filed, raw: Filed, todo: set<string>) {
    forall k :: k in todo <==> k in start && k !in raw
  }

  /** One round of the split loop. */
  method SplitOne(detect: seq<Entry> -> Adapter, ghost start: Filed, ghost done: Filed, ghost todo: set<string>,
                  sessions: Filed, sid: string, entries: seq<Entry>)
    returns (out: Filed, ghost raw: Filed)
    requires FiledAt(start, sid, entries) && sid in todo && LeftToSplit(start, done, todo) && SplitSoFar(detect, start, done, sessions)
    ensures LeftToSplit(start, raw, todo - {sid}) && SplitSoFar(detect, start, raw, out)
    ensures UniqueSessions(start) && FiledAs(detect, done, sessions) ==> FiledAs(detect, raw, out)
    ensures AllThreadsAt(detect, start.Keys, done, sessions) ==> AllThreadsAt(detect, start.Keys, raw, out)
  {
    ByTimeThenIdIsOrder();
    var sorted := SortSlice(entries, ByTimeThenId);
    var adapter := detect(sorted);
    out := AddSession(sessions, sid, sorted, adapter);
    raw := done[sid := sorted];
    SplitNext(detect, start, done, sessions, sid, sorted, raw, out);
    if UniqueSessions(start) && FiledAs(detect, done, sessions) { FiledNext(detect, done, sessions, sid, sorted, out); }
    if AllThreadsAt(detect, start.Keys, done, sessions) {
      ThreadsAtNext(detect, start.Keys, done, sessions, sid, sorted, raw, out);
    }
  }

  /** A session that shares no key is whole after its turn, and stays so. */
  lemma WholeNext(detect: seq<Entry> -> Adapter, ids: set<string>, done: Filed, sessions: Filed, sid: string,
                  sorted: seq<Entry>, out: Filed, k: string)
    requires KeysOf(done.Keys, sessions) && done.Keys <= ids && sid in ids && sid !in done && Independent(k, ids)
    requires AddedBy(sessions, sid, sorted, detect(sorted), out)
    requires k == sid || Whole(detect, done, sessions, k)
    ensures Whole(detect, done[sid := sorted], out, k)
  {
    if k == sid {
      StillUnclaimed(ids, done.Keys, sessions, sid);
      UnclaimedFiled(sessions, sid, sorted, detect(sorted), out);
    } else {
      OwnPartKept(ids, sessions, sid, sorted, detect(sorted), out, k);
    }
  }

  /** Nothing more is there than the sessions done show, and no less when they share no key. */
  lemma BoundNext(detect: seq<Entry> -> Adapter, ids: set<string>, done: Filed, sessions: Filed, sid: string,
                  sorted: seq<Entry>, out: Filed)
    requires KeysOf(done.Keys, sessions) && done.Keys <= ids && sid in ids && sid !in done
    requires AddedBy(sessions, sid, sorted, detect(sorted), out) && Total(sessions) <= Total(ShownAll(detect, done))
    ensures Total(out) <= Total(ShownAll(detect, done[sid := sorted]))
    ensures Independent(sid, ids) && Total(sessions) == Total(ShownAll(detect, done)) ==>
              Total(out) == Total(ShownAll(detect, done[sid := sorted]))
  {
    ShownOneMore(detect, done, sid, sorted);
    NothingDoubled(sessions, sid, sorted, detect(sorted), out);
    if Independent(sid, ids) {
      StillUnclaimed(ids, done.Keys, sessions, sid);
      UnclaimedFiled(sessions, sid, sorted, detect(sorted), out);
    }
  }

  lemma SplitNext(detect: seq<Entry> -> Adapter, start: Filed, done: Filed, sessions: Filed, sid: string,
                  sorted: seq<Entry>, raw: Filed, out: Filed)
    requires SplitSoFar(detect, start, done, sessions) && sid in start && sid !in done
    requires multiset(sorted) == multiset(start[sid]) && Sorted(ByTimeThenId, sorted)
    requires AddedBy(sessions, sid, sorted, detect(sorted), out) && raw == done[sid := sorted]
    ensures raw.Keys == done.Keys + {sid} && SplitSoFar(detect, start, raw, out)
  {
    KeysGrow(done.Keys, sessions, sid, sorted, detect(sorted), out);
    assert raw.Keys == done.Keys + {sid};
    BoundNext(detect, start.Keys, done, sessions, sid, sorted, out);
    ArrangedNext(start, done, sid, sorted, raw);
    AllWholeNext(detect, start.Keys, done, sessions, sid, sorted, raw, out);
  }

  lemma ArrangedNext(start: Filed, done: Filed, sid: string, sorted: seq<Entry>, raw: Filed)
    requires AllSorted(start, done) && sid in start && raw == done[sid := sorted]
    requires multiset(sorted) == multiset(start[sid]) && Sorted(ByTimeThenId, sorted)
    ensures AllSorted(start, raw)
  {
    forall k <- raw ensures SameSorted(start, raw, k) {
      assert k != sid ==> SameSorted(start, done, k);
    }
  }

  lemma AllWholeNext(detect: seq<Entry> -> Adapter, ids: set<string>, done: Filed, sessions: Filed, sid: string,
                     sorted: seq<Entry>, raw: Filed, out: Filed)
    requires KeysOf(done.Keys, sessions) && done.Keys <= ids && sid in ids && sid !in done && raw == done[sid := sorted]
    requires AddedBy(sessions, sid, sorted, detect(sorted), out)
    requires AllWhole(detect, ids, done, sessions)
    ensures AllWhole(detect, ids, raw, out)
  {
    forall k <- raw | Independent(k, ids) ensures Whole(detect, raw, out, k) {
      WholeNext(detect, ids, done, sessions, sid, sorted, out, k);
    }
  }

  lemma ShownOneMore(detect: seq<Entry> -> Adapter, done: Filed, sid: string, sorted: seq<Entry>)
    requires sid !in done
    ensures Total(ShownAll(detect, done[sid := sorted])) == Total(ShownAll(detect, done)) + multiset(Shown(detect(sorted), sorted))
  {
    var more := done[sid := sorted];
    var before, after, shown := ShownAll(detect, done), ShownAll(detect, more), Shown(detect(sorted), sorted);
    ShownPut(detect, done, sid, sorted, more);
    assert after == before[sid := shown];
    TotalPutFresh(before, sid, shown);
  }

  lemma ShownPut(detect: seq<Entry> -> Adapter, done: Filed, sid: string, sorted: seq<Entry>, more: Filed)
    requires more == done[sid := sorted]
    ensures ShownAll(detect, more) == ShownAll(detect, done)[sid := Shown(detect(sorted), sorted)]
  {
  }

  /** The split loop over the sessions, in any order. */
  method SplitAll(detect: seq<Entry> -> Adapter, start: Filed) returns (sessions: Filed, ghost raw: Filed)
    ensures Arranged(start, raw) && SplitSoFar(detect, start, raw, sessions)
    ensures AllThreadsAt(detect, start.Keys, raw, sessions)
    ensures UniqueSessions(start) ==> FiledAs(detect, raw, sessions)
    ensures UniqueSessions(start) ==>
              (Total(sessions) == Total(ShownAll(detect, raw)) <==> NoneCollide(detect, raw))
  {
    sessions, raw := map[], map[];
    NothingSplit(detect, start);
    var todo := start.Keys;
    while todo != {}
      invariant LeftToSplit(start, raw, todo) && SplitSoFar(detect, start, raw, sessions)
      invariant UniqueSessions(start) ==> FiledAs(detect, raw, sessions)
      invariant AllThreadsAt(detect, start.Keys, raw, sessions)
      decreases |todo|
    {
      var sid :| sid in todo;
      sessions, raw := SplitOne(detect, start, raw, todo, sessions, sid, start[sid]);
      todo := todo - {sid};
    }
    SplitDone(detect, start, raw, sessions);
    if UniqueSessions(start) { MissingExactly(detect, raw, sessions); }
  }

  lemma SplitDone(detect: seq<Entry> -> Adapter, start: Filed, raw: Filed, sessions: Filed)
    requires SplitSoFar(detect, start, raw, sessions) && LeftToSplit(start, raw, {})
    ensures Arranged(start, raw)
  {
  }

  lemma NothingSplit(detect: seq<Entry> -> Adapter, start: Filed)
    ensures SplitSoFar(detect, start, map[], map[]) && FiledAs(detect, map[], map[])
  {
    assert ShownAll(detect, map[]) == map[];
    assert Recorded(detect, map[], []) && PutAll(map[], []) == map[];
  }

  lemma {:induction false} ArrangedTotal(start: Filed, raw: Filed)
    requires Arranged(start, raw)
    ensures Total(start) == Total(raw)
    decreases |start|
  {
    if start != map[] {
      var k :| k in start;
      TotalTake(start, k);
      TotalTake(raw, k);
      assert SameSorted(start, raw, k);
      forall j <- raw - {k} ensures SameSorted(start - {k}, raw - {k}, j) { assert SameSorted(start, raw, j); }
      ArrangedTotal(start - {k}, raw - {k});
    }
  }

  // ----- The whole of it -----

  /** Every entry of these groups is in the bag. */
  ghost predicate DrawnFrom(groups: seq<seq<Entry>>, b: multiset<Entry>) {
    forall g, e | g in groups && e in g :: e in b
  }

  /**
    What the stages before the split went through: the sessions an id was given
    or inferred for, everything ever filed under each key, the groups that got a
    heuristic key, and what those keys replaced.
   */
  datatype Placement = Placement(known: Filed, trail: Trail, lost: multiset<Entry>, fallbacks: seq<seq<Entry>>)

  /** Every list is still there, and may have grown. */
  ghost predicate Grown(start: Filed, out: Filed) {
    forall k <- start :: k in out && multiset(start[k]) <= multiset(out[k])
  }

  /** What those stages leave of the entries without a session id. */
  ghost predicate Unnamed(named: Filed, unassigned: multiset<Entry>, out: Filed, p: Placement) {
    Grown(named, p.known) && (forall k <- p.known :: k in named || PlainId(k)) &&
    DrawnFrom(p.fallbacks, unassigned) && Settled(Total(named) + unassigned, out, p)
  }

  /** All is there but what heuristic keys replaced, and they replaced nothing but whole sessions of their id. */
  ghost predicate Settled(all: multiset<Entry>, out: Filed, p: Placement) {
    NoneEmpty(out) && Total(out) + p.lost == all && KeyedBy(out, p) &&
    (p.lost == multiset{} <==> KeysNever(p.fallbacks, p.known)) &&
    Kept(p.known, p.trail, out, p.fallbacks) && LostFrom(p.known, p.trail, p.lost, p.fallbacks)
  }

  /** The ids are those known and the heuristic keys in use. */
  ghost predicate KeyedBy(out: Filed, p: Placement) { forall k :: k in out <==> k in p.known || HasKey(p.fallbacks, k) }

  /** The fallback for entries no id was inferred for. */
  method PlaceRest(parse: TimeParser, known: Filed, still: seq<Entry>) returns (out: Filed, ghost p: Placement)
    requires NoneEmpty(known) && "" !in known && UniqueIds(multiset(still))
    ensures p.known == known && Settled(Total(known) + multiset(still), out, p) && DrawnFrom(p.fallbacks, multiset(still))
    ensures PlacedBy(parse, known, CutInto(FarApart(parse), still), out)
  {
    var groups := CutByGap(parse, still);
    CutIsRuns(FarApart(parse), still);
    assert forall g <- groups :: Run(FarApart(parse), g);
    ghost var trail, lost, fallbacks;
    out, trail, lost, fallbacks := PlaceGroups(parse, known, groups);
    p := Placement(known, trail, lost, fallbacks);
    forall g, e | g in fallbacks && e in g ensures e in multiset(still) { GroupMember(groups, g, e); }
  }

  /**
    How entries without a session id get one: in time order, those an id is
    inferred for under that id, the rest cut at long pauses and placed.
   */
  ghost predicate AssignedBy(env: Env, named: Filed, unassigned: multiset<Entry>, known: Filed, out: Filed) {
    exists sorted, inferred ::
      multiset(sorted) == unassigned && Sorted(ByTime, sorted) &&
      Inferred(env.parse, env.mark, env.detect(sorted).inference, sorted, inferred) &&
      AssignedSorted(env, named, sorted, inferred, known, out)
  }

  ghost predicate AssignedSorted(env: Env, named: Filed, sorted: seq<Entry>, inferred: map<nat, string>, known: Filed,
                                 out: Filed) {
    known == Gather(named, Pick(WasInferred(inferred), true, sorted), InferredKey(inferred)) &&
    PlacedBy(env.parse, known, CutInto(FarApart(env.parse), Pick(WasInferred(inferred), false, sorted)), out)
  }

  lemma {:induction false} NoneInferred(s: seq<Entry>)
    ensures Pick(WasInferred(map[]), true, s) == [] && Pick(WasInferred(map[]), false, s) == s
    decreases |s|
  {
    if |s| > 0 { NoneInferred(s[..|s| - 1]); }
  }

  /** Filing what was inferred: known ids grow or are new and plain, and nothing is lost. */
  ghost predicate InferenceFiled(named: Filed, sorted: seq<Entry>, raw: Filed, still: seq<Entry>) {
    NoneEmpty(raw) && "" !in raw && Grown(named, raw) && (forall k <- raw :: k in named || PlainId(k)) &&
    Total(raw) + multiset(still) == Total(named) + multiset(sorted) && multiset(still) <= multiset(sorted)
  }

  /** The entries an id was inferred for, filed under it; with nothing inferred the loop is not run. */
  method FileInferred(named: Filed, sorted: seq<Entry>, inferred: map<nat, string>)
    returns (raw: Filed, still: seq<Entry>)
    requires NoneEmpty(named) && "" !in named && GoodIds(sorted, inferred)
    ensures raw == Gather(named, Pick(WasInferred(inferred), true, sorted), InferredKey(inferred))
    ensures still == Pick(WasInferred(inferred), false, sorted)
    ensures InferenceFiled(named, sorted, raw, still)
  {
    FiledMore(named, sorted, WasInferred(inferred), InferredKey(inferred));
    PickBag(WasInferred(inferred), sorted);
    if |inferred| > 0 {
      raw, still := AssignInferred(named, sorted, inferred);
    } else {
      assert inferred == map[];
      NoneInferred(sorted);
      raw, still := named, sorted;
    }
  }

  /** Inference and the fallback, for the entries without a session id. */
  method AssignUnnamed(env: Env, named: Filed, unassigned: seq<Entry>) returns (out: Filed, ghost p: Placement)
    requires NoneEmpty(named) && "" !in named && UniqueIds(multiset(unassigned)) && GoodFingerprint(env.mark)
    ensures Unnamed(named, multiset(unassigned), out, p)
    ensures AssignedBy(env, named, multiset(unassigned), p.known, out)
  {
    ByTimeIsOrder();
    var sorted := SortSlice(unassigned, ByTime);
    UniqueIsDistinct(sorted);
    var adapter := env.detect(sorted);
    var inferred := InferSession(env.parse, env.mark, adapter.inference, sorted);
    var raw, still := FileInferred(named, sorted, inferred);
    UniquePart(multiset(still), multiset(sorted));
    out, p := PlaceRest(env.parse, raw, still);
    assert AssignedSorted(env, named, sorted, inferred, p.known, out);
  }

  lemma NamedStart(txns: seq<Entry>)
    ensures var named := Gather(map[], Pick(HasSession(), true, txns), OwnSession());
      NoneEmpty(named) && "" !in named &&
      Total(named) + multiset(Pick(HasSession(), false, txns)) == multiset(txns) &&
      (forall e <- txns :: e.sessionID != "" ==> e.sessionID in named && e in named[e.sessionID]) &&
      (forall k <- named :: Carried(txns, k))
  {
    FiledMore(map[], txns, HasSession(), OwnSession());
    forall e <- txns | e.sessionID != "" ensures OwnSession()(e) == e.sessionID && HasSession()(e) {}
    assert Total(map[]) + multiset(txns) == multiset(txns);
    forall k <- Gather(map[], Pick(HasSession(), true, txns), OwnSession()) ensures Carried(txns, k) {
      var e :| e in txns && HasSession()(e) && OwnSession()(e) == k;
      assert e.sessionID == k;
    }
  }

  // ----- Which ids are safe -----

  /** Some transaction carries this id. */
  ghost predicate Carried(txns: seq<Entry>, sid: string) { exists e <- txns :: e.sessionID == sid }

  ghost predicate Nameless(txns: seq<Entry>, e: Entry) { e in txns && e.sessionID == "" }

  /** The id is the heuristic key of two transactions without one. */
  ghost predicate HeuristicId(txns: seq<Entry>, sid: string) {
    exists a, b :: Nameless(txns, a) && Nameless(txns, b) && sid == FakeKey(a.txnID, b.txnID)
  }

  /** The id has the form of an invocation's key or of a remapped child's. */
  ghost predicate KeyLike(sid: string) {
    RemapForm(sid) || exists s, n: nat, i: nat :: sid == ChildKey(s, ThreadKey(n), i)
  }

  /** No transaction's session id is such a heuristic key. */
  ghost predicate NoClash(txns: seq<Entry>) { forall e <- txns :: !HeuristicId(txns, e.sessionID) }

  /** No transaction's session id has such a form. */
  ghost predicate NoKeyIds(txns: seq<Entry>) { forall e <- txns :: !KeyLike(e.sessionID) }

  /** An id that neither a heuristic key nor the keys made from session ids can take. */
  ghost predicate SafeName(txns: seq<Entry>, sid: string) {
    sid != "" && !HeuristicId(txns, sid) && !KeyLike(sid) && forall e <- txns :: e.sessionID != sid ==> !OwnKey(sid, e.sessionID)
  }

  /** The session shares no key with another one, and the remap cannot take its keys. */
  ghost predicate Protected(sid: string, ids: set<string>) { !RemapForm(sid) && Independent(sid, ids) }

  lemma SlashFreeNotKeyLike(sid: string)
    requires SlashFree(sid)
    ensures !KeyLike(sid)
  {
    forall s, i: nat ensures sid != RemapKey(s, i) { assert RemapKey(s, i)[|s|] == '/'; }
    forall s, n: nat, i: nat ensures sid != ChildKey(s, ThreadKey(n), i) { assert ChildKey(s, ThreadKey(n), i)[|s|] == '/'; }
  }

  lemma FakeKeySlashFree(a: nat, b: nat)
    ensures SlashFree(FakeKey(a, b))
  {
  }

  /** Known ids were given or inferred, and fallback groups hold entries without a session id. */
  ghost predicate Grounded(txns: seq<Entry>, p: Placement) {
    (forall k <- p.known :: PlainId(k) || Carried(txns, k)) && forall g, e | g in p.fallbacks && e in g :: Nameless(txns, e)
  }

  /** A heuristic key in use is that of two transactions without a session id. */
  lemma FallbackKey(txns: seq<Entry>, p: Placement, key: string)
    requires Grounded(txns, p) && HasKey(p.fallbacks, key)
    ensures HeuristicId(txns, key) && SlashFree(key) && !PlainId(key)
  {
    var g: seq<Entry> :| g in p.fallbacks && g != [] && FakeKeyOf(g) == key;
    var a, b := g[0], g[|g| - 1];
    assert a in g && b in g;
    FakeKeySlashFree(a.txnID, b.txnID);
    assert HEURISTIC <= key;
  }

  /** Every id before the split is carried by a transaction or has no slash. */
  lemma IdsKnown(txns: seq<Entry>, out: Filed, p: Placement, k: string)
    requires Grounded(txns, p) && KeyedBy(out, p) && k in out
    ensures Carried(txns, k) || !KeyLike(k)
  {
    if !Carried(txns, k) {
      if HasKey(p.fallbacks, k) { FallbackKey(txns, p, k); }
      SlashFreeNotKeyLike(k);
    }
  }

  lemma SafeIsProtected(txns: seq<Entry>, out: Filed, p: Placement, sid: string)
    requires Grounded(txns, p) && KeyedBy(out, p) && SafeName(txns, sid)
    ensures !HasKey(p.fallbacks, sid) && Protected(sid, out.Keys)
  {
    if HasKey(p.fallbacks, sid) { FallbackKey(txns, p, sid); }
    forall t <- out | t != sid ensures !OwnKey(sid, t) && !OwnKey(t, sid) { IdsKnown(txns, out, p, t); }
  }

  lemma AllProtected(txns: seq<Entry>, out: Filed, p: Placement)
    requires Grounded(txns, p) && KeyedBy(out, p) && NoKeyIds(txns)
    ensures AllIndependent(out) && forall sid <- out :: Protected(sid, out.Keys)
  {
    forall k <- out ensures !KeyLike(k) {
      IdsKnown(txns, out, p, k);
      if Carried(txns, k) { var e :| e in txns && e.sessionID == k; }
    }
    forall sid <- out ensures Independent(sid, out.Keys) && Protected(sid, out.Keys) {
      forall t <- out | t != sid ensures !OwnKey(sid, t) && !OwnKey(t, sid) {}
    }
  }

  lemma NoClashNoReuse(txns: seq<Entry>, p: Placement)
    requires Grounded(txns, p) && NoClash(txns)
    ensures KeysNever(p.fallbacks, p.known)
  {
    forall g: seq<Entry> | g in p.fallbacks && g != [] ensures FakeKeyOf(g) !in p.known {
      var key := FakeKeyOf(g);
      FallbackKey(txns, p, key);
      assert !Carried(txns, key) by { forall e <- txns ensures e.sessionID != key {} }
    }
  }

  lemma NoneUnnamed(named: Filed)
    requires NoneEmpty(named) && "" !in named
    ensures Unnamed(named, multiset([]), named, Placement(named, TrailOf(named), multiset{}, []))
  {
    NothingPlaced(named);
  }

  // ----- Exactly once -----

  lemma {:induction false} ShownCount(a: Adapter, s: seq<Entry>, e: Entry)
    ensures multiset(Shown(a, s))[e] == if Hidden(ThreadOf(a, e)) then 0 else multiset(s)[e]
    decreases |s|
  {
    if |s| > 0 {
      var before := s[..|s| - 1];
      ShownCount(a, before, e);
      BagSnoc(before, s[|s| - 1], s);
    }
  }

  lemma ShownDrop(detect: seq<Entry> -> Adapter, raw: Filed, k: string)
    ensures ShownAll(detect, raw) - {k} == ShownAll(detect, raw - {k})
  {
  }

  lemma {:induction false} ShownAtMost(detect: seq<Entry> -> Adapter, raw: Filed, e: Entry)
    ensures Total(ShownAll(detect, raw))[e] <= Total(raw)[e]
    decreases |raw|
  {
    if raw == map[] {
      assert ShownAll(detect, raw) == map[];
    } else {
      var k :| k in raw;
      TotalTake(raw, k);
      TotalTake(ShownAll(detect, raw), k);
      ShownDrop(detect, raw, k);
      ShownAtMost(detect, raw - {k}, e);
      ShownCount(detect(raw[k]), raw[k], e);
    }
  }

  /** Every entry of a session appears exactly once in all that is shown, or not at all when its thread is hidden. */
  lemma ShownOnce(detect: seq<Entry> -> Adapter, raw: Filed, sid: string, e: Entry)
    requires UniqueIds(Total(raw)) && sid in raw && e in raw[sid]
    ensures Total(ShownAll(detect, raw))[e] == if Hidden(ThreadOf(detect(raw[sid]), e)) then 0 else 1
  {
    TotalTake(raw, sid);
    var rest := raw - {sid};
    assert Total(raw)[e] == multiset(raw[sid])[e] + Total(rest)[e] && e in multiset(raw[sid]) && e in Total(raw);
    TotalTake(ShownAll(detect, raw), sid);
    ShownDrop(detect, raw, sid);
    ShownAtMost(detect, rest, e);
    ShownCount(detect(raw[sid]), raw[sid], e);
  }

  lemma {:induction false} TotalHas(m: Filed, e: Entry) returns (k: string)
    requires e in Total(m)
    ensures k in m && e in m[k]
    decreases |m|
  {
    var c :| c in m;
    TotalTake(m, c);
    if e in m[c] {
      k := c;
    } else {
      assert e !in multiset(m[c]);
      k := TotalHas(m - {c}, e);
    }
  }

  /** The entry is shown once in all, unless its session's client hides its thread. */
  ghost predicate OnceUnlessHidden(detect: seq<Entry> -> Adapter, raw: Filed, sessions: Filed, e: Entry) {
    exists sid <- raw :: e in raw[sid] &&
      Total(sessions)[e] == if Hidden(ThreadOf(detect(raw[sid]), e)) then 0 else 1
  }

  /** No client would hide the entry's thread, or every client would. */
  ghost predicate AlwaysShown(detect: seq<Entry> -> Adapter, e: Entry) { forall s :: !Hidden(ThreadOf(detect(s), e)) }

  ghost predicate NeverShown(detect: seq<Entry> -> Adapter, e: Entry) { forall s :: Hidden(ThreadOf(detect(s), e)) }

  /** Every transaction appears in exactly one output session exactly once, or in none when it is hidden. */
  ghost predicate Conserved(detect: seq<Entry> -> Adapter, txns: seq<Entry>, raw: Filed, sessions: Filed) {
    ConservedOverall(detect, txns, sessions) && forall e <- txns :: OnceUnlessHidden(detect, raw, sessions, e)
  }

  /** The same without naming the sessions in between: at most once, exactly once unless some client hides it. */
  ghost predicate ConservedOverall(detect: seq<Entry> -> Adapter, txns: seq<Entry>, sessions: Filed) {
    Total(sessions) <= multiset(txns) && forall e <- txns :: ShownRight(detect, sessions, e)
  }

  ghost predicate ShownRight(detect: seq<Entry> -> Adapter, sessions: Filed, e: Entry) {
    (AlwaysShown(detect, e) ==> Total(sessions)[e] == 1) && (NeverShown(detect, e) ==> Total(sessions)[e] == 0)
  }

  lemma EveryTransactionOnce(detect: seq<Entry> -> Adapter, txns: seq<Entry>, raw: Filed, sessions: Filed)
    requires DistinctIds(txns) && Total(raw) == multiset(txns) && Total(sessions) == Total(ShownAll(detect, raw))
    ensures Conserved(detect, txns, raw, sessions)
  {
    DistinctIsUnique(txns);
    forall e ensures Total(sessions)[e] <= multiset(txns)[e] { ShownAtMost(detect, raw, e); }
    forall e <- txns ensures OnceUnlessHidden(detect, raw, sessions, e) && ShownRight(detect, sessions, e) {
      assert e in multiset(txns);
      var sid := TotalHas(raw, e);
      ShownOnce(detect, raw, sid, e);
    }
  }

  // ----- The whole stage -----

  /**
    The stages before the split: everything is filed but what heuristic keys
    replaced, and a named transaction stays with its session unless that
    session's id became a heuristic key.
   */
  ghost predicate AllFiled(txns: seq<Entry>, grouped: Filed, p: Placement) {
    Settled(multiset(txns), grouped, p) && Grounded(txns, p) && (NoClash(txns) ==> p.lost == multiset{}) &&
    forall e <- txns :: e.sessionID != "" ==> StaysIn(grouped, p, e)
  }

  ghost predicate StaysIn(grouped: Filed, p: Placement, e: Entry) {
    var k := e.sessionID;
    k in p.trail && e in p.trail[k] && k in grouped && (HasKey(p.fallbacks, k) || e in grouped[k])
  }

  lemma NamelessPart(txns: seq<Entry>)
    requires DistinctIds(txns)
    ensures var rest := multiset(Pick(HasSession(), false, txns));
      UniqueIds(rest) && forall e :: e in rest ==> Nameless(txns, e)
  {
    DistinctIsUnique(txns);
    PickBag(HasSession(), txns);
    UniquePart(multiset(Pick(HasSession(), false, txns)), multiset(txns));
    PickMembers(HasSession(), false, txns);
  }

  /** Named transactions under their own id, the others as `AssignedBy` says. */
  ghost predicate GroupedBy(env: Env, txns: seq<Entry>, known: Filed, grouped: Filed) {
    var named := Gather(map[], Pick(HasSession(), true, txns), OwnSession());
    var rest := multiset(Pick(HasSession(), false, txns));
    if rest == multiset{} then known == named && grouped == named else AssignedBy(env, named, rest, known, grouped)
  }

  method FileAll(env: Env, txns: seq<Entry>) returns (grouped: Filed, ghost p: Placement)
    requires DistinctIds(txns) && GoodFingerprint(env.mark)
    ensures AllFiled(txns, grouped, p) && GroupedBy(env, txns, p.known, grouped)
  {
    var named, unassigned := SplitBySession(txns);
    NamedStart(txns);
    NamelessPart(txns);
    if |unassigned| > 0 {
      grouped, p := AssignUnnamed(env, named, unassigned);
    } else {
      grouped, p := named, Placement(named, TrailOf(named), multiset{}, []);
      NoneUnnamed(named);
    }
    FiledRight(txns, named, multiset(unassigned), grouped, p);
  }

  lemma FiledRight(txns: seq<Entry>, named: Filed, unassigned: multiset<Entry>, grouped: Filed, p: Placement)
    requires Total(named) + unassigned == multiset(txns) && Unnamed(named, unassigned, grouped, p)
    requires forall e <- txns :: e.sessionID != "" ==> e.sessionID in named && e in named[e.sessionID]
    requires forall k <- named :: Carried(txns, k)
    requires forall e :: e in unassigned ==> Nameless(txns, e)
    ensures AllFiled(txns, grouped, p)
  {
    assert Grounded(txns, p);
    if NoClash(txns) { NoClashNoReuse(txns, p); }
    forall e <- txns | e.sessionID != "" ensures StaysIn(grouped, p, e) { NamedStays(named, grouped, p, e); }
  }

  lemma NamedStays(named: Filed, grouped: Filed, p: Placement, e: Entry)
    requires Grown(named, p.known) && KeyedBy(grouped, p) && Kept(p.known, p.trail, grouped, p.fallbacks)
    requires e.sessionID in named && e in named[e.sessionID]
    ensures StaysIn(grouped, p, e)
  {
    var k := e.sessionID;
    assert e in multiset(named[k]) && multiset(named[k]) <= multiset(p.known[k]) <= p.trail[k];
    assert HoldsAll(p.known, p.trail, grouped, p.fallbacks, k);
    if !HasKey(p.fallbacks, k) { assert e in multiset(grouped[k]); }
  }

  lemma SettledStill(all: multiset<Entry>, grouped: Filed, raw: Filed, p: Placement)
    requires Settled(all, grouped, p) && Arranged(grouped, raw)
    ensures Settled(all, raw, p)
  {
    ArrangedTotal(grouped, raw);
    assert forall k <- raw :: SameSorted(grouped, raw, k);
    forall k <- raw ensures raw[k] != [] && HoldsAll(p.known, p.trail, raw, p.fallbacks, k) {
      assert SameSorted(grouped, raw, k) && HoldsAll(p.known, p.trail, grouped, p.fallbacks, k);
      assert |multiset(raw[k])| == |multiset(grouped[k])|;
    }
    assert Kept(p.known, p.trail, raw, p.fallbacks);
    assert raw.Keys == grouped.Keys;
  }

  lemma StillFiled(txns: seq<Entry>, grouped: Filed, raw: Filed, p: Placement)
    requires AllFiled(txns, grouped, p) && Arranged(grouped, raw)
    ensures AllFiled(txns, raw, p)
  {
    SettledStill(multiset(txns), grouped, raw, p);
    forall e <- txns | e.sessionID != "" ensures StaysIn(raw, p, e) {
      assert StaysIn(grouped, p, e) && SameSorted(grouped, raw, e.sessionID);
      assert e in multiset(grouped[e.sessionID]) ==> e in multiset(raw[e.sessionID]);
    }
  }

  /** The entry is shown once in all, or never when the client of its list hides its thread. */
  ghost predicate ShownExactly(detect: seq<Entry> -> Adapter, s: seq<Entry>, sessions: Filed, e: Entry) {
    Total(sessions)[e] == if Hidden(ThreadOf(detect(s), e)) then 0 else 1
  }

  /** What splitting and remapping do to the sessions: nothing appears twice, and protected ones appear in full. */
  ghost predicate ShownFrom(detect: seq<Entry> -> Adapter, raw: Filed, sessions: Filed) {
    Total(sessions) <= Total(ShownAll(detect, raw)) &&
    forall sid, e | sid in raw && e in raw[sid] && Protected(sid, raw.Keys) :: ShownExactly(detect, raw[sid], sessions, e)
  }

  /** The split loses no entry of a session that shares no key. */
  lemma SplitShows(detect: seq<Entry> -> Adapter, raw: Filed, split: Filed, sid: string, e: Entry)
    requires UniqueIds(Total(raw)) && sid in raw && e in raw[sid]
    requires Whole(detect, raw, split, sid) && Total(split) <= Total(ShownAll(detect, raw))
    ensures ShownExactly(detect, raw[sid], split, e) && Total(OwnPart(split, sid))[e] == Total(split)[e]
  {
    ShownOnce(detect, raw, sid, e);
    ShownInSession(detect, raw, sid, e);
    TotalPart(OwnPart(split, sid), split);
  }

  lemma ShownInSession(detect: seq<Entry> -> Adapter, raw: Filed, sid: string, e: Entry)
    requires UniqueIds(Total(raw)) && sid in raw && e in raw[sid]
    ensures multiset(Shown(detect(raw[sid]), raw[sid]))[e] == if Hidden(ThreadOf(detect(raw[sid]), e)) then 0 else 1
  {
    ShownCount(detect(raw[sid]), raw[sid], e);
    TotalTake(raw, sid);
    assert e in multiset(raw[sid]) && e in Total(raw) && Total(raw)[e] == multiset(raw[sid])[e] + Total(raw - {sid})[e];
  }

  lemma {:induction false} TotalPart(part: Filed, m: Filed)
    requires forall k <- part :: FiledAt(m, k, part[k])
    ensures Total(part) <= Total(m)
    decreases |part|
  {
    if part != map[] {
      var k :| k in part;
      TotalTake(part, k);
      assert FiledAt(m, k, part[k]);
      TotalTake(m, k);
      TotalPart(part - {k}, m - {k});
    }
  }

  /** An entry under two keys is there twice. */
  lemma TwoKeys(m: Filed, k: string, j: string, e: Entry)
    requires k != j && k in m && j in m && e in m[k] && e in m[j]
    ensures Total(m)[e] >= 2
  {
    TotalTake(m, k);
    TotalTake(m - {k}, j);
    assert e in multiset(m[k]) && e in multiset(m[j]);
  }

  /** The remap loses no entry that is only under a key it cannot take. */
  lemma RemapShows(split: Filed, sessions: Filed, lost: multiset<Entry>, sid: string, e: Entry)
    requires Balanced(split, sessions, lost) && !RemapForm(sid)
    requires Total(split)[e] <= 1 && Total(OwnPart(split, sid))[e] == Total(split)[e]
    ensures Total(sessions)[e] == Total(split)[e]
  {
    if e in lost {
      var j :| j in split && RemapForm(j) && e in split[j];
      assert e in Total(split);
      var k := TotalHas(OwnPart(split, sid), e);
      OwnKeyNotRemapped(sid, k);
      TwoKeys(split, k, j, e);
    }
    assert Total(split)[e] == Total(sessions)[e] + lost[e];
  }

  /** All that is shown is in the output exactly when no two sessions collide and the remap overwrote nothing. */
  lemma AllShownExactly(detect: seq<Entry> -> Adapter, raw: Filed, split: Filed, sessions: Filed, lost: multiset<Entry>)
    requires FiledAs(detect, raw, split) && Balanced(split, sessions, lost)
    requires Total(split) <= Total(ShownAll(detect, raw))
    ensures Total(sessions) == Total(ShownAll(detect, raw)) <==> NoneCollide(detect, raw) && lost == multiset{}
    ensures NoRemapKeys(split) ==> lost == multiset{}
  {
    MissingExactly(detect, raw, split);
    if NoRemapKeys(split) { assert forall e :: e !in lost; }
    NothingTaken(Total(sessions), lost, Total(split), Total(ShownAll(detect, raw)));
  }

  lemma NothingTaken(rest: multiset<Entry>, lost: multiset<Entry>, all: multiset<Entry>, cap: multiset<Entry>)
    requires rest + lost == all <= cap
    ensures rest == cap <==> all == cap && lost == multiset{}
  {
    if rest == cap {
      forall e ensures lost[e] == 0 && all[e] == cap[e] { assert (rest + lost)[e] <= cap[e]; }
      assert lost == multiset{};
    } else if lost == multiset{} {
      assert rest + multiset{} == rest;
    }
  }

  lemma StagesShow(detect: seq<Entry> -> Adapter, start: Filed, raw: Filed, split: Filed, sessions: Filed,
                   lost: multiset<Entry>)
    requires SplitSoFar(detect, start, raw, split) && Arranged(start, raw) && UniqueIds(Total(raw))
    requires Balanced(split, sessions, lost)
    ensures ShownFrom(detect, raw, sessions)
    ensures AllIndependent(raw) && NoRemapIds(raw) ==> Total(sessions) == Total(ShownAll(detect, raw))
  {
    assert Total(sessions) <= Total(sessions) + lost;
    forall sid, e | sid in raw && e in raw[sid] && Protected(sid, raw.Keys)
      ensures ShownExactly(detect, raw[sid], sessions, e)
    {
      SplitShows(detect, raw, split, sid, e);
      RemapShows(split, sessions, lost, sid, e);
    }
    if AllIndependent(raw) && NoRemapIds(raw) {
      KeysAreNotRemapped(raw, split);
      NothingLost(split, sessions, lost);
    }
  }

  ghost predicate NoRemapIds(raw: Filed) { forall sid <- raw :: !RemapForm(sid) }

  lemma KeysAreNotRemapped(raw: Filed, split: Filed)
    requires KeysOf(raw.Keys, split) && NoRemapIds(raw)
    ensures NoRemapKeys(split)
  {
    forall key <- split ensures !RemapForm(key) {
      assert MadeByOne(raw.Keys, key);
      var t :| t in raw.Keys && OwnKey(t, key);
      OwnKeyNotRemapped(t, key);
    }
  }

  /**
    The output holds all that the sessions show only if no two collide, and if no
    id has the form of a remapped child, also when.
   */
  ghost predicate Complete(detect: seq<Entry> -> Adapter, raw: Filed, sessions: Filed) {
    (Total(sessions) == Total(ShownAll(detect, raw)) ==> NoneCollide(detect, raw)) &&
    (NoRemapIds(raw) && NoneCollide(detect, raw) ==> Total(sessions) == Total(ShownAll(detect, raw)))
  }

  lemma StagesComplete(detect: seq<Entry> -> Adapter, raw: Filed, split: Filed, sessions: Filed, lost: multiset<Entry>)
    requires FiledAs(detect, raw, split) && Balanced(split, sessions, lost) && KeysOf(raw.Keys, split)
    requires Total(split) <= Total(ShownAll(detect, raw))
    ensures Complete(detect, raw, sessions)
  {
    AllShownExactly(detect, raw, split, sessions, lost);
    if NoRemapIds(raw) { KeysAreNotRemapped(raw, split); }
  }

  /** No session holds two transactions of one id. */
  lemma SessionsUnique(grouped: Filed, txns: seq<Entry>, lost: multiset<Entry>)
    requires DistinctIds(txns) && Total(grouped) + lost == multiset(txns)
    ensures UniqueSessions(grouped)
  {
    RawWithin(txns, grouped, lost);
    forall sid <- grouped ensures UniqueIds(multiset(grouped[sid])) {
      TotalTake(grouped, sid);
      UniquePart(multiset(grouped[sid]), Total(grouped));
    }
  }

  /**
    What the stages amount to. `raw` holds the sessions before threads are
    split. Every transaction is in `raw`, under its own session id if it has
    one, unless that session's id became a heuristic key; what a session of
    `raw` shows is in the output exactly once, unless the session shares a key
    with another one or its id has the form of a remapped child; nothing is
    there twice.
   */
  ghost predicate Staged(detect: seq<Entry> -> Adapter, txns: seq<Entry>, sessions: Filed, raw: Filed, p: Placement) {
    AllFiled(txns, raw, p) && (forall sid <- raw :: Sorted(ByTimeThenId, raw[sid])) && ShownFrom(detect, raw, sessions) &&
    Complete(detect, raw, sessions) &&
    (NoKeyIds(txns) ==> Total(sessions) == Total(ShownAll(detect, raw))) &&
    (NoKeyIds(txns) && NoClash(txns) ==> Conserved(detect, txns, raw, sessions))
  }

  /** A session with a safe name keeps each of its transactions, whatever happens to the others. */
  lemma SafeSessionKept(detect: seq<Entry> -> Adapter, txns: seq<Entry>, sessions: Filed, raw: Filed, p: Placement,
                        e: Entry)
    requires Grounded(txns, p) && KeyedBy(raw, p) && StaysIn(raw, p, e) && ShownFrom(detect, raw, sessions)
    requires SafeName(txns, e.sessionID)
    ensures ShownRight(detect, sessions, e)
  {
    var sid := e.sessionID;
    SafeIsProtected(txns, raw, p, sid);
    assert ShownExactly(detect, raw[sid], sessions, e);
  }

  /** What the heuristic keys of the fallback leave is at most the transactions, each once. */
  lemma RawWithin(txns: seq<Entry>, raw: Filed, lost: multiset<Entry>)
    requires DistinctIds(txns) && Total(raw) + lost == multiset(txns)
    ensures Total(raw) <= multiset(txns) && UniqueIds(Total(raw))
  {
    DistinctIsUnique(txns);
    assert Total(raw) <= Total(raw) + lost;
    UniquePart(Total(raw), multiset(txns));
  }

  lemma AtMostOnce(detect: seq<Entry> -> Adapter, txns: seq<Entry>, raw: Filed, sessions: Filed)
    requires Total(sessions) <= Total(ShownAll(detect, raw)) && Total(raw) <= multiset(txns)
    ensures Total(sessions) <= multiset(txns)
  {
    forall e ensures Total(sessions)[e] <= multiset(txns)[e] { ShownAtMost(detect, raw, e); }
  }

  lemma PlainNamesConserved(detect: seq<Entry> -> Adapter, txns: seq<Entry>, raw: Filed, p: Placement, sessions: Filed)
    requires DistinctIds(txns) && Grounded(txns, p) && KeyedBy(raw, p) && NoKeyIds(txns)
    requires Total(raw) + p.lost == multiset(txns) && (NoClash(txns) ==> p.lost == multiset{})
    requires AllIndependent(raw) && NoRemapIds(raw) ==> Total(sessions) == Total(ShownAll(detect, raw))
    ensures Total(sessions) == Total(ShownAll(detect, raw))
    ensures NoClash(txns) ==> Conserved(detect, txns, raw, sessions)
  {
    AllProtected(txns, raw, p);
    if NoClash(txns) {
      assert Total(raw) + multiset{} == Total(raw);
      EveryTransactionOnce(detect, txns, raw, sessions);
    }
  }

  lemma StagedRight(detect: seq<Entry> -> Adapter, txns: seq<Entry>, grouped: Filed, p: Placement, raw: Filed,
                    split: Filed, sessions: Filed, lost: multiset<Entry>)
    requires DistinctIds(txns) && AllFiled(txns, grouped, p) && Arranged(grouped, raw)
    requires SplitSoFar(detect, grouped, raw, split) && Balanced(split, sessions, lost) && FiledAs(detect, raw, split)
    ensures Staged(detect, txns, sessions, raw, p) && Total(sessions) <= multiset(txns)
  {
    StillFiled(txns, grouped, raw, p);
    RawWithin(txns, raw, p.lost);
    StagesShow(detect, grouped, raw, split, sessions, lost);
    StagesComplete(detect, raw, split, sessions, lost);
    AtMostOnce(detect, txns, raw, sessions);
    if NoKeyIds(txns) { PlainNamesConserved(detect, txns, raw, p, sessions); }
    forall sid <- raw ensures Sorted(ByTimeThenId, raw[sid]) { assert SameSorted(grouped, raw, sid); }
  }

  // ----- Where each transaction ends up -----

  /** The sessions in between: what the split made of `raw`, and what the remap made of that. */
  ghost predicate Remade(env: Env, txns: seq<Entry>, sessions: Filed, raw: Filed, p: Placement, split: Filed) {
    (exists grouped :: GroupedBy(env, txns, p.known, grouped) && Arranged(grouped, raw)) &&
    FiledAs(env.detect, raw, split) && AllThreadsAt(env.detect, raw.Keys, raw, split) &&
    Total(split) <= multiset(txns) && (NoKeyIds(txns) ==> NoRemapKeys(split)) &&
    (NoRemapKeys(split) ==> Remapped(env.find, split, sessions))
  }

  /** The entry is in this thread for every client. */
  ghost predicate AlwaysThread(detect: seq<Entry> -> Adapter, e: Entry, k: string) {
    forall s :: ThreadOf(detect(s), e) == k
  }

  /** The entry is where its session's thread is filed: under the id, or in one of the thread's invocations. */
  ghost predicate FiledFor(sessions: Filed, sid: string, k: string, e: Entry) {
    if k == "main" then e in At(sessions, sid)
    else exists i: nat :: i >= 1 && e in At(sessions, ChildKey(sid, k, i))
  }

  /** Some transaction's tool result names this id. */
  ghost predicate MayName(find: TaskFinder, txns: seq<Entry>, task: string) {
    exists x <- txns :: x.result.Some? && ResultNames(find, x.result.value.toolResults, task)
  }

  lemma {:induction false} ConcatHas(groups: seq<seq<Entry>>, e: Entry) returns (j: nat)
    requires e in Concat(groups)
    ensures j < |groups| && e in groups[j]
    decreases |groups|
  {
    var n := |groups| - 1;
    if e in groups[n] {
      j := n;
    } else {
      j := ConcatHas(groups[..n], e);
    }
  }

  /** After the split every entry of a session that shares no key is filed for its thread. */
  lemma InSplit(detect: seq<Entry> -> Adapter, raw: Filed, split: Filed, sid: string, k: string, e: Entry)
    requires ThreadsAt(detect, raw, split, sid) && e in raw[sid] && ThreadOf(detect(raw[sid]), e) == k && !Hidden(k)
    ensures FiledFor(split, sid, k, e) && (k == "main" || exists n: nat :: k == ThreadKey(n))
  {
    var a, own := detect(raw[sid]), raw[sid];
    assert Threading(a)(e) == k;
    GatherKeys(map[], own, Threading(a), k);
    KindOfThread(a, own, k);
    WhereMembers(Threading(a), k, own);
    if k != "main" {
      var thread := Where(Threading(a), k, own);
      var subs: seq<seq<Entry>> :| CutRight(a.splitter, thread, subs) && InvocationsFiled(sid, k, subs, split);
      assert e in multiset(thread) && e in multiset(Concat(subs));
      var j := ConcatHas(subs, e);
      assert FiledAt(split, ChildKey(sid, k, j + 1), subs[j]);
    }
  }

  /** A session that no main session names stays where it is. */
  lemma UnnamedStays(find: TaskFinder, split: Filed, sessions: Filed, sid: string, k: string, e: Entry)
    requires Remapped(find, split, sessions) && !Named(find, split, Base(sid)) && FiledFor(split, sid, k, e)
    requires k == "main" || exists n: nat :: k == ThreadKey(n)
    ensures FiledFor(sessions, sid, k, e)
  {
    if k == "main" {
      assert FiledAt(sessions, sid, split[sid]);
    } else {
      var n: nat :| k == ThreadKey(n);
      var i: nat :| i >= 1 && e in At(split, ChildKey(sid, k, i));
      OwnKeyBase(sid, ChildKey(sid, ThreadKey(n), i));
      assert FiledAt(sessions, ChildKey(sid, k, i), split[ChildKey(sid, k, i)]);
    }
  }

  lemma TotalMember(m: Filed, k: string, e: Entry)
    requires k in m && e in m[k]
    ensures e in Total(m)
  {
    TotalTake(m, k);
    assert e in multiset(m[k]);
  }

  /** Only what some transaction says names a session. */
  lemma NamedIsSaid(find: TaskFinder, txns: seq<Entry>, split: Filed, task: string)
    requires Named(find, split, task) && Total(split) <= multiset(txns)
    ensures MayName(find, txns, task) && task != ""
  {
    var m :| Names(find, split, m, task);
    TasksTold(find, split[m], task);
    var x :| x in split[m] && x.result.Some? && ResultNames(find, x.result.value.toolResults, task);
    TotalMember(split, m, x);
    assert x in multiset(txns) && x in txns;
  }

  /** A transaction of a session with a safe name that nobody names is filed for its thread. */
  lemma StaysFiled(env: Env, txns: seq<Entry>, sessions: Filed, raw: Filed, p: Placement, split: Filed, e: Entry,
                   k: string)
    requires AllFiled(txns, raw, p) && Remade(env, txns, sessions, raw, p, split) && NoKeyIds(txns)
    requires e in txns && SafeName(txns, e.sessionID) && AlwaysThread(env.detect, e, k) && !Hidden(k)
    requires !MayName(env.find, txns, Base(e.sessionID))
    ensures FiledFor(sessions, e.sessionID, k, e)
  {
    var sid := e.sessionID;
    InItsSession(env, txns, sessions, raw, p, split, e, k);
    if Named(env.find, split, Base(sid)) { NamedIsSaid(env.find, txns, split, Base(sid)); }
    UnnamedStays(env.find, split, sessions, sid, k, e);
  }

  lemma InItsSession(env: Env, txns: seq<Entry>, sessions: Filed, raw: Filed, p: Placement, split: Filed, e: Entry,
                     k: string)
    requires AllFiled(txns, raw, p) && Remade(env, txns, sessions, raw, p, split)
    requires e in txns && SafeName(txns, e.sessionID) && AlwaysThread(env.detect, e, k) && !Hidden(k)
    ensures FiledFor(split, e.sessionID, k, e) && (k == "main" || exists n: nat :: k == ThreadKey(n))
  {
    SafeIsProtected(txns, raw, p, e.sessionID);
    assert StaysIn(raw, p, e);
    assert ThreadsAt(env.detect, raw, split, e.sessionID);
    InSplit(env.detect, raw, split, e.sessionID, k, e);
  }

  /** `d` is of an OpenAI session, and one of its tool results names the session of `e`. */
  ghost predicate Calls(env: Env, txns: seq<Entry>, d: Entry, e: Entry) {
    d in txns && e in txns && SafeName(txns, d.sessionID) && SafeName(txns, e.sessionID) && SlashFree(d.sessionID) &&
    AlwaysThread(env.detect, d, "main") && d.result.Some? && d.result.value.provider == "openai" &&
    Base(e.sessionID) != "" && ResultNames(env.find, d.result.value.toolResults, Base(e.sessionID))
  }

  /** The entry left its session's id for a child of a main session. */
  ghost predicate MovedAway(sessions: Filed, e: Entry) {
    e.sessionID !in sessions && exists m, i: nat :: i >= 1 && e in At(sessions, RemapKey(m, i))
  }

  lemma CalledIsNamed(env: Env, txns: seq<Entry>, sessions: Filed, raw: Filed, p: Placement, split: Filed, d: Entry,
                      e: Entry)
    requires AllFiled(txns, raw, p) && Remade(env, txns, sessions, raw, p, split) && Calls(env, txns, d, e)
    ensures Names(env.find, split, d.sessionID, Base(e.sessionID))
  {
    ThreadTold(env.detect(raw[d.sessionID]), d);
    InItsSession(env, txns, sessions, raw, p, split, d, "main");
    TasksTold(env.find, split[d.sessionID], Base(e.sessionID));
    assert OpenAI(split[d.sessionID]);
  }

  /** A transaction of a session that an OpenAI session's task names moves under a main session. */
  lemma SubagentMoves(env: Env, txns: seq<Entry>, sessions: Filed, raw: Filed, p: Placement, split: Filed, d: Entry,
                      e: Entry, k: string)
    requires AllFiled(txns, raw, p) && Remade(env, txns, sessions, raw, p, split) && NoKeyIds(txns)
    requires Calls(env, txns, d, e) && AlwaysThread(env.detect, e, k) && !Hidden(k)
    ensures MovedAway(sessions, e)
  {
    CalledIsNamed(env, txns, sessions, raw, p, split, d, e);
    InItsSession(env, txns, sessions, raw, p, split, e, k);
    var key := KeyInSplit(split, e.sessionID, k, e);
    OwnKeyBase(e.sessionID, key);
    LeavesItsKey(env.find, split, sessions, key, e);
    assert !KeyLike(e.sessionID);
    NotUnderId(env.find, split, sessions, e.sessionID);
  }

  lemma NotUnderId(find: TaskFinder, split: Filed, sessions: Filed, sid: string)
    requires Remapped(find, split, sessions) && Named(find, split, Base(sid)) && !RemapForm(sid)
    ensures sid !in sessions
  {
    forall m, i: nat ensures sid != RemapKey(m, i) {}
    assert !ChildOfMain(find, split, sid);
  }

  lemma LeavesItsKey(find: TaskFinder, split: Filed, sessions: Filed, key: string, e: Entry)
    requires Remapped(find, split, sessions) && key in split && Named(find, split, Base(key)) && e in split[key]
    ensures key !in sessions && exists m, i: nat :: i >= 1 && e in At(sessions, RemapKey(m, i))
  {
    assert MovedUnder(find, split, sessions, key);
    var m, i: nat :| UnderMain(find, split, sessions, key, m, i);
    assert e in At(sessions, RemapKey(m, i));
  }

  lemma KeyInSplit(split: Filed, sid: string, k: string, e: Entry) returns (key: string)
    requires FiledFor(split, sid, k, e) && (k == "main" || exists n: nat :: k == ThreadKey(n))
    ensures key in split && e in split[key] && OwnKey(sid, key)
  {
    if k == "main" {
      key := sid;
    } else {
      var i: nat :| i >= 1 && e in At(split, ChildKey(sid, k, i));
      key := ChildKey(sid, k, i);
    }
  }

  lemma RemadeRight(env: Env, txns: seq<Entry>, grouped: Filed, p: Placement, raw: Filed, split: Filed, sessions: Filed)
    requires DistinctIds(txns) && AllFiled(txns, raw, p) && GroupedBy(env, txns, p.known, grouped)
    requires Arranged(grouped, raw) && SplitSoFar(env.detect, grouped, raw, split) && FiledAs(env.detect, raw, split)
    requires AllThreadsAt(env.detect, grouped.Keys, raw, split)
    requires NoRemapKeys(split) ==> Remapped(env.find, split, sessions)
    ensures Remade(env, txns, sessions, raw, p, split)
  {
    RawWithin(txns, raw, p.lost);
    AtMostOnce(env.detect, txns, raw, split);
    if NoKeyIds(txns) {
      AllProtected(txns, raw, p);
      KeysAreNotRemapped(raw, split);
    }
  }

  /** The entry of a session with a safe name is shown in this thread, and no tool result names its session. */
  ghost predicate Unmentioned(env: Env, txns: seq<Entry>, e: Entry, k: string) {
    e in txns && SafeName(txns, e.sessionID) && AlwaysThread(env.detect, e, k) && !Hidden(k) &&
    !MayName(env.find, txns, Base(e.sessionID))
  }

  /** Every such entry is filed for its thread, under its own session. */
  ghost predicate UnnamedStay(env: Env, txns: seq<Entry>, sessions: Filed) {
    forall e, k :: Unmentioned(env, txns, e, k) ==> FiledFor(sessions, e.sessionID, k, e)
  }

  /** Every entry whose session an OpenAI session's task names is filed under a main session. */
  ghost predicate NamedMove(env: Env, txns: seq<Entry>, sessions: Filed) {
    forall d, e, k :: Calls(env, txns, d, e) && AlwaysThread(env.detect, e, k) && !Hidden(k) ==> MovedAway(sessions, e)
  }

  /** The stages, and what they mean for each transaction. */
  ghost predicate GroupedRight(env: Env, txns: seq<Entry>, sessions: Filed) {
    (exists raw: Filed, p: Placement, split: Filed ::
       Staged(env.detect, txns, sessions, raw, p) && Remade(env, txns, sessions, raw, p, split)) &&
    Total(sessions) <= multiset(txns) &&
    (forall e <- txns :: SafeName(txns, e.sessionID) ==> ShownRight(env.detect, sessions, e)) &&
    (NoKeyIds(txns) && NoClash(txns) ==> ConservedOverall(env.detect, txns, sessions)) &&
    (NoKeyIds(txns) ==> UnnamedStay(env, txns, sessions) && NamedMove(env, txns, sessions))
  }

  /** Everything before the remap. */
  ghost predicate Prepared(env: Env, txns: seq<Entry>, grouped: Filed, p: Placement, raw: Filed, split: Filed) {
    AllFiled(txns, grouped, p) && GroupedBy(env, txns, p.known, grouped) && Arranged(grouped, raw) &&
    SplitSoFar(env.detect, grouped, raw, split) && FiledAs(env.detect, raw, split) &&
    AllThreadsAt(env.detect, grouped.Keys, raw, split)
  }

  method FileAndSplit(env: Env, txns: seq<Entry>)
    returns (split: Filed, ghost grouped: Filed, ghost p: Placement, ghost raw: Filed)
    requires DistinctIds(txns) && GoodFingerprint(env.mark)
    ensures Prepared(env, txns, grouped, p, raw, split)
  {
    var filed;
    filed, p := FileAll(env, txns);
    SessionsUnique(filed, txns, p.lost);
    split, raw := SplitAll(env.detect, filed);
    grouped := filed;
  }

  /** `groupBySession`. */
  method GroupBySession(env: Env, txns: seq<Entry>) returns (sessions: Filed)
    requires DistinctIds(txns) && GoodFingerprint(env.mark)
    ensures GroupedRight(env, txns, sessions)
  {
    ghost var grouped, p, raw;
    var split;
    split, grouped, p, raw := FileAndSplit(env, txns);
    sessions := RemapOpenAISubagents(env.find, split, env.again);
    AllTold(env, txns, grouped, p, raw, split, sessions);
  }

  lemma AllTold(env: Env, txns: seq<Entry>, grouped: Filed, p: Placement, raw: Filed, split: Filed, sessions: Filed)
    requires DistinctIds(txns) && Prepared(env, txns, grouped, p, raw, split)
    requires exists lost :: Balanced(split, sessions, lost)
    requires NoRemapKeys(split) ==> Remapped(env.find, split, sessions)
    ensures GroupedRight(env, txns, sessions)
  {
    var lost: multiset<Entry> :| Balanced(split, sessions, lost);
    StagedRight(env.detect, txns, grouped, p, raw, split, sessions, lost);
    StillFiled(txns, grouped, raw, p);
    RemadeRight(env, txns, grouped, p, raw, split, sessions);
    EachFiled(env, txns, sessions, raw, p, split);
  }

  /** What the stages mean for each transaction. */
  lemma EachFiled(env: Env, txns: seq<Entry>, sessions: Filed, raw: Filed, p: Placement, split: Filed)
    requires Staged(env.detect, txns, sessions, raw, p) && Remade(env, txns, sessions, raw, p, split)
    ensures forall e <- txns :: SafeName(txns, e.sessionID) ==> ShownRight(env.detect, sessions, e)
    ensures NoKeyIds(txns) ==> UnnamedStay(env, txns, sessions) && NamedMove(env, txns, sessions)
  {
    forall e <- txns | SafeName(txns, e.sessionID) ensures ShownRight(env.detect, sessions, e) {
      assert StaysIn(raw, p, e);
      SafeSessionKept(env.detect, txns, sessions, raw, p, e);
    }
    if NoKeyIds(txns) {
      forall e, k | Unmentioned(env, txns, e, k) ensures FiledFor(sessions, e.sessionID, k, e) {
        StaysFiled(env, txns, sessions, raw, p, split, e, k);
      }
      forall d, e, k | Calls(env, txns, d, e) && AlwaysThread(env.detect, e, k) && !Hidden(k)
        ensures MovedAway(sessions, e)
      {
        SubagentMoves(env, txns, sessions, raw, p, split, d, e, k);
      }
    }
  }
}
