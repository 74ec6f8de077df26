/**
  `remapOpenAISubagents`: sessions that another session's task tool names become
  that session's children. A range loop visits, in any order, the keys that were
  there when it started, and may or may not visit keys added while it runs:
  `again` is any bound on how many of those it does visit.
 */
module SubagentRemap {
  import opened Common
  import opened SessionKeys
  import opened Transactions

  /** `extractTaskID`; "" when the text names no task. */
  type TaskFinder = string -> string

  // ----- Which sessions refer to which -----

  function TasksIn(find: TaskFinder, results: seq<string>): seq<string> {
    if |results| == 0 then []
    else
      var before, text := TasksIn(find, results[..|results| - 1]), results[|results| - 1];
      if text != "" && find(text) != "" then before + [find(text)] else before
  }

  function TasksOf(find: TaskFinder, entries: seq<Entry>): seq<string> {
    if |entries| == 0 then []
    else
      var before, e := TasksOf(find, entries[..|entries| - 1]), entries[|entries| - 1];
      match e.result
      case None => before
      case Some(x) => before + TasksIn(find, x.toolResults)
  }

  predicate OpenAI(entries: seq<Entry>) { exists e <- entries :: e.result.Some? && e.result.value.provider == "openai" }

  /** A session that other sessions are filed under. */
  predicate IsMain(find: TaskFinder, sessions: Filed, sid: string) {
    sid in sessions && SlashFree(sid) && OpenAI(sessions[sid]) && TasksOf(find, sessions[sid]) != []
  }

  datatype Main = Main(sid: string, tasks: seq<string>)

  method ScanTasks(find: TaskFinder, entries: seq<Entry>) returns (tasks: seq<string>)
    ensures tasks == TasksOf(find, entries)
  {
    tasks := [];
    var i := 0;
    while i < |entries|
      invariant 0 <= i <= |entries| && tasks == TasksOf(find, entries[..i])
    {
      assert entries[..i + 1][..i] == entries[..i];
      if entries[i].result.Some? {
        var results := entries[i].result.value.toolResults;
        ghost var before := tasks;
        var j := 0;
        while j < |results|
          invariant 0 <= j <= |results| && tasks == before + TasksIn(find, results[..j])
        {
          assert results[..j + 1][..j] == results[..j];
          if results[j] != "" {
            var task := find(results[j]);
            if task != "" { tasks := tasks + [task]; }
          }
          j := j + 1;
        }
        assert results[..j] == results;
      }
      i := i + 1;
    }
    assert entries[..i] == entries;
  }

  ghost predicate DistinctMains(mains: seq<Main>) {
    forall i, j :: 0 <= i < j < |mains| ==> mains[i].sid != mains[j].sid
  }

  predicate Lists(mains: seq<Main>, sid: string, tasks: seq<string>) { Main(sid, tasks) in mains }

  /** Exactly the main sessions, once each, with their tasks. */
  method CollectMains(find: TaskFinder, sessions: Filed) returns (mains: seq<Main>)
    ensures DistinctMains(mains)
    ensures forall m <- mains :: IsMain(find, sessions, m.sid) && m.tasks == TasksOf(find, sessions[m.sid])
    ensures forall sid :: IsMain(find, sessions, sid) ==> Lists(mains, sid, TasksOf(find, sessions[sid]))
  {
    mains := [];
    var todo := sessions.Keys;
    while todo != {}
      invariant todo <= sessions.Keys && DistinctMains(mains)
      invariant forall m <- mains :: m.sid !in todo && IsMain(find, sessions, m.sid) && m.tasks == TasksOf(find, sessions[m.sid])
      invariant forall sid :: sid !in todo && IsMain(find, sessions, sid) ==> Lists(mains, sid, TasksOf(find, sessions[sid]))
      decreases |todo|
    {
      var sid :| sid in todo;
      if SlashFree(sid) && OpenAI(sessions[sid]) {
        var tasks := ScanTasks(find, sessions[sid]);
        if |tasks| > 0 {
          ghost var before := mains;
          mains := mains + [Main(sid, tasks)];
          assert forall m <- before :: m in mains;
          assert mains[|mains| - 1] in mains;
        }
      }
      todo := todo - {sid};
    }
  }

  // ----- Moving sessions -----

  /** No child number above `n` is taken under this session. */
  ghost predicate FreshAbove(sessions: Filed, sid: string, n: nat) {
    forall i: nat :: i > n ==> RemapKey(sid, i) !in sessions
  }

  function Move(sessions: Filed, k: string, key: string): Filed
    requires k in sessions
  {
    sessions[key := sessions[k]] - {k}
  }

  /** Moving a session loses what was under its new key, and nothing else. */
  lemma MoveTotal(sessions: Filed, k: string, key: string)
    requires k in sessions
    ensures Total(Move(sessions, k, key)) + multiset(At(sessions, key)) == Total(sessions)
  {
    var moved, v, was := Move(sessions, k, key), multiset(sessions[k]), multiset(At(sessions, key));
    if key == k {
      assert moved == sessions - {k};
      TotalTake(sessions, k);
    } else {
      TotalPut(sessions, key, sessions[k]);
      TotalTake(sessions[key := sessions[k]], k);
      assert (Total(moved) + was) + v == Total(sessions) + v;
      Cancel(Total(moved) + was, Total(sessions), v);
    }
  }

  lemma MoveFresh(sessions: Filed, k: string, sid: string, n: nat)
    requires k in sessions && FreshAbove(sessions, sid, n)
    ensures FreshAbove(Move(sessions, k, RemapKey(sid, n + 1)), sid, n + 1)
  {
    forall i: nat | i > n + 1 ensures RemapKey(sid, i) != RemapKey(sid, n + 1) {
      if RemapKey(sid, i) == RemapKey(sid, n + 1) { RemapKeyInjective(sid, i, sid, n + 1); }
    }
  }

  /** Every list is one of the old ones. */
  ghost predicate SameLists(old_: Filed, out: Filed) {
    forall k <- out :: exists j <- old_ :: out[k] == old_[j]
  }

  ghost predicate RemappedKey(sid: string, key: string) { exists i: nat :: key == RemapKey(sid, i) }

  /** Where the loop over the sessions of one task stands. */
  ghost predicate Moving(start: Filed, sid: string, task: string, out: Filed, n: nat, todo: set<string>) {
    Total(out) == Total(start) && FreshAbove(out, sid, n) && SameLists(start, out) && Unmoved(start, sid, task, out, todo)
  }

  /** Only sessions of the task that were visited have left their keys, and only for child keys. */
  ghost predicate Unmoved(start: Filed, sid: string, task: string, out: Filed, todo: set<string>) {
    (forall k <- start :: Base(k) != task || k in todo ==> FiledAt(out, k, start[k])) &&
    (forall key <- out :: (key in start && (Base(key) != task || key in todo)) || RemappedKey(sid, key))
  }

  lemma MovedOne(start: Filed, sid: string, task: string, out: Filed, n: nat, todo: set<string>, k: string)
    requires Moving(start, sid, task, out, n, todo) && k in out && Base(k) == task
    ensures Moving(start, sid, task, Move(out, k, RemapKey(sid, n + 1)), n + 1, todo - {k})
  {
    var key := RemapKey(sid, n + 1);
    assert key !in out;
    MoveTotal(out, k, key);
    MoveFresh(out, k, sid, n);
    MoveLists(start, out, k, key);
    UnmovedNext(start, sid, task, out, n, todo, k);
  }

  lemma UnmovedNext(start: Filed, sid: string, task: string, out: Filed, n: nat, todo: set<string>, k: string)
    requires Unmoved(start, sid, task, out, todo) && k in out && Base(k) == task && RemapKey(sid, n + 1) !in out
    ensures Unmoved(start, sid, task, Move(out, k, RemapKey(sid, n + 1)), todo - {k})
  {
    var key := RemapKey(sid, n + 1);
    assert RemappedKey(sid, key);
    forall j <- start | Base(j) != task || j in todo - {k} ensures FiledAt(Move(out, k, key), j, start[j]) {
      assert FiledAt(out, j, start[j]);
    }
  }

  /** Nothing has moved at the start, and a key not in the map is passed over. */
  lemma NothingMoved(start: Filed, sid: string, task: string, n: nat)
    requires FreshAbove(start, sid, n)
    ensures Moving(start, sid, task, start, n, start.Keys)
  {
  }

  lemma PassedOver(start: Filed, sid: string, task: string, out: Filed, n: nat, todo: set<string>, k: string)
    requires Moving(start, sid, task, out, n, todo) && (k in out ==> Base(k) != task)
    ensures Moving(start, sid, task, out, n, todo - {k})
  {
    forall j <- start | Base(j) != task || j in todo - {k} ensures FiledAt(out, j, start[j]) {}
  }

  /** A key added while the loop runs may still be to come. */
  lemma StillToCome(start: Filed, sid: string, task: string, out: Filed, n: nat, todo: set<string>, key: string)
    requires Moving(start, sid, task, out, n, todo) && key !in start
    ensures Moving(start, sid, task, out, n, todo + {key})
  {
    forall j <- start | Base(j) != task || j in todo + {key} ensures FiledAt(out, j, start[j]) {}
  }

  lemma MoveLists(start: Filed, out: Filed, k: string, key: string)
    requires SameLists(start, out) && k in out
    ensures SameLists(start, Move(out, k, key))
  {
    forall j <- Move(out, k, key) ensures exists o <- start :: Move(out, k, key)[j] == start[o] {
      assert Move(out, k, key)[j] == if j == key then out[k] else out[j];
    }
  }

  // ----- What moves can lose -----

  /** Keys above child number `n` are untouched leftovers of the sessions before any move. */
  ghost predicate Stale(first: Filed, out: Filed, sid: string, n: nat) {
    forall i: nat :: i > n && RemapKey(sid, i) in out ==> FiledAt(first, RemapKey(sid, i), out[RemapKey(sid, i)])
  }

  /** Everything lost was in a session whose id already had the form of a remapped child. */
  ghost predicate LostForms(first: Filed, lost: multiset<Entry>) {
    forall e <- lost :: exists k <- first :: RemapForm(k) && e in first[k]
  }

  ghost predicate NoRemapKeys(sessions: Filed) { forall k <- sessions :: !RemapForm(k) }

  ghost predicate Balanced(first: Filed, out: Filed, lost: multiset<Entry>) {
    Total(out) + lost == Total(first) && LostForms(first, lost)
  }

  lemma MoveBalanced(first: Filed, out: Filed, lost: multiset<Entry>, sid: string, n: nat, k: string)
    requires Balanced(first, out, lost) && Stale(first, out, sid, n) && k in out
    ensures var key := RemapKey(sid, n + 1); var moved := Move(out, k, key);
      Balanced(first, moved, lost + multiset(At(out, key))) && Stale(first, moved, sid, n + 1)
  {
    var key := RemapKey(sid, n + 1);
    var moved, more := Move(out, k, key), multiset(At(out, key));
    MoveTotal(out, k, key);
    assert Total(moved) + (lost + more) == Total(moved) + more + lost;
    forall e <- lost + more ensures exists o <- first :: RemapForm(o) && e in first[o] {
      if e !in lost {
        assert e in out[key] && FiledAt(first, key, out[key]) && RemapForm(key);
      }
    }
    forall i: nat | i > n + 1 && RemapKey(sid, i) in moved ensures FiledAt(first, RemapKey(sid, i), moved[RemapKey(sid, i)]) {
      if RemapKey(sid, i) == key { RemapKeyInjective(sid, i, sid, n + 1); }
    }
  }

  /** Keys that are no children of this session were only taken away. */
  ghost predicate OnlyChildrenNew(start: Filed, sid: string, out: Filed) {
    forall key <- out :: RemappedKey(sid, key) || FiledAt(start, key, out[key])
  }

  lemma OthersStale(first: Filed, start: Filed, sid: string, out: Filed, other: string)
    requires OnlyChildrenNew(start, sid, out) && other != sid && Stale(first, start, other, 0)
    ensures Stale(first, out, other, 0)
  {
    forall i: nat | i > 0 && RemapKey(other, i) in out ensures FiledAt(first, RemapKey(other, i), out[RemapKey(other, i)]) {
      if RemappedKey(sid, RemapKey(other, i)) {
        var j: nat :| RemapKey(other, i) == RemapKey(sid, j);
        RemapKeyInjective(other, i, sid, j);
      }
    }
  }

  // ----- Where every session ends up -----

  /** A main session whose task tool names this id. */
  ghost predicate Names(find: TaskFinder, first: Filed, m: string, task: string) {
    IsMain(find, first, m) && task in TasksOf(find, first[m])
  }

  ghost predicate Named(find: TaskFinder, first: Filed, task: string) { exists m :: Names(find, first, m, task) }

  /** Each main session on the path names the next one, and the last one the task. */
  ghost predicate Leads(find: TaskFinder, first: Filed, path: seq<string>, task: string) {
    |path| > 0 &&
    if |path| == 1 then Names(find, first, path[0], task)
    else Names(find, first, path[0], path[1]) && Leads(find, first, path[1..], task)
  }

  /** The main session names the task, or names a main session above it. */
  ghost predicate Above(find: TaskFinder, first: Filed, m: string, task: string) {
    exists path :: Leads(find, first, path, task) && path[0] == m
  }

  lemma NamesIsAbove(find: TaskFinder, first: Filed, m: string, task: string)
    requires Names(find, first, m, task)
    ensures Above(find, first, m, task)
  {
    assert Leads(find, first, [m], task);
  }

  lemma AboveStep(find: TaskFinder, first: Filed, sid: string, m: string, task: string)
    requires Names(find, first, sid, m) && Above(find, first, m, task)
    ensures Above(find, first, sid, task)
  {
    var path :| Leads(find, first, path, task) && path[0] == m;
    assert ([sid] + path)[1..] == path;
    assert Leads(find, first, [sid] + path, task);
  }

  /** Who is above a task is a main session, and the task is named. */
  lemma {:induction false} LeadsFrom(find: TaskFinder, first: Filed, path: seq<string>, task: string)
    requires Leads(find, first, path, task)
    ensures IsMain(find, first, path[0]) && Named(find, first, task)
    decreases |path|
  {
    if |path| > 1 { LeadsFrom(find, first, path[1..], task); }
  }

  lemma AboveIsMain(find: TaskFinder, first: Filed, m: string, task: string)
    requires Above(find, first, m, task)
    ensures IsMain(find, first, m) && Named(find, first, task)
  {
    var path :| Leads(find, first, path, task) && path[0] == m;
    LeadsFrom(find, first, path, task);
  }

  /** The session's list is the child number `i` of a main session above it. */
  ghost predicate UnderMain(find: TaskFinder, first: Filed, out: Filed, k: string, m: string, i: nat) {
    k in first && i >= 1 && Above(find, first, m, Base(k)) && FiledAt(out, RemapKey(m, i), first[k])
  }

  ghost predicate MovedUnder(find: TaskFinder, first: Filed, out: Filed, k: string) {
    exists m, i: nat :: UnderMain(find, first, out, k, m, i)
  }

  ghost predicate Located(find: TaskFinder, first: Filed, out: Filed, k: string) {
    k in first && (FiledAt(out, k, first[k]) || MovedUnder(find, first, out, k))
  }

  ghost predicate ChildOfMain(find: TaskFinder, first: Filed, key: string) {
    exists m, i: nat :: i >= 1 && IsMain(find, first, m) && key == RemapKey(m, i)
  }

  /** Every list is at its key or under a main session above it, and no other keys came up. */
  ghost predicate Placed(find: TaskFinder, first: Filed, out: Filed) {
    (forall k <- first :: Located(find, first, out, k)) &&
    (forall key <- out :: FiledAt(first, key, out[key]) || ChildOfMain(find, first, key))
  }

  lemma PlacedMove(find: TaskFinder, first: Filed, out: Filed, sid: string, n: nat, task: string, k: string)
    requires Placed(find, first, out) && Names(find, first, sid, task) && k in out && Base(k) == task
    requires RemapKey(sid, n + 1) !in out
    ensures Placed(find, first, Move(out, k, RemapKey(sid, n + 1)))
  {
    var key := RemapKey(sid, n + 1);
    var moved := Move(out, k, key);
    assert ChildOfMain(find, first, key);
    forall j <- first ensures Located(find, first, moved, j) { LocatedMove(find, first, out, sid, n, task, k, j); }
    forall j <- moved ensures FiledAt(first, j, moved[j]) || ChildOfMain(find, first, j) {}
  }

  lemma LocatedMove(find: TaskFinder, first: Filed, out: Filed, sid: string, n: nat, task: string, k: string, j: string)
    requires Located(find, first, out, j) && Names(find, first, sid, task) && k in out && Base(k) == task
    requires RemapKey(sid, n + 1) !in out
    ensures Located(find, first, Move(out, k, RemapKey(sid, n + 1)), j)
  {
    var moved := Move(out, k, RemapKey(sid, n + 1));
    if FiledAt(out, j, first[j]) {
      if j == k {
        NamesIsAbove(find, first, sid, task);
        assert UnderMain(find, first, moved, j, sid, n + 1);
      }
    } else {
      var m, i: nat :| UnderMain(find, first, out, j, m, i);
      if RemapKey(m, i) == k {
        AboveIsMain(find, first, m, Base(j));
        BaseOf(m, SUBAGENT + Dec(i));
        AboveStep(find, first, sid, m, Base(j));
        assert UnderMain(find, first, moved, j, sid, n + 1);
      } else {
        assert UnderMain(find, first, moved, j, m, i);
      }
    }
  }

  /** Nothing of the sessions named by these tasks is under its own key any more. */
  ghost predicate Gone(first: Filed, tasks: seq<string>, out: Filed) {
    forall k <- first :: Base(k) in tasks ==> k !in out
  }

  lemma StaysGone(first: Filed, tasks: seq<string>, start: Filed, sid: string, out: Filed)
    requires NoRemapKeys(first) && Gone(first, tasks, start) && OnlyChildrenNew(start, sid, out)
    ensures Gone(first, tasks, out)
  {
    forall k <- first | Base(k) in tasks ensures k !in out {
      forall i: nat ensures k != RemapKey(sid, i) { assert !RemapForm(k); }
    }
  }

  lemma TaskGone(first: Filed, tasks: seq<string>, start: Filed, sid: string, task: string, out: Filed)
    requires NoRemapKeys(first) && Gone(first, tasks, start) && OnlyChildrenNew(start, sid, out)
    requires Unmoved(start, sid, task, out, {})
    ensures Gone(first, tasks + [task], out)
  {
    StaysGone(first, tasks, start, sid, out);
    forall k <- first | Base(k) in tasks + [task] ensures k !in out {
      forall i: nat ensures k != RemapKey(sid, i) { assert !RemapForm(k); }
    }
  }

  lemma FreshWhenStale(first: Filed, out: Filed, sid: string, n: nat)
    requires NoRemapKeys(first) && Stale(first, out, sid, n)
    ensures FreshAbove(out, sid, n)
  {
    forall i: nat | i > n ensures RemapKey(sid, i) !in out { assert RemapForm(RemapKey(sid, i)); }
  }

  /**
    What the remap amounts to when no id has the form of a child: a session moves
    exactly when a main session names its base, and then under a main session
    above it; every other session stays, and no other keys come up.
   */
  ghost predicate Remapped(find: TaskFinder, first: Filed, out: Filed) {
    (forall k <- first ::
      if Named(find, first, Base(k)) then k !in out && MovedUnder(find, first, out, k) else FiledAt(out, k, first[k])) &&
    (forall key <- out :: FiledAt(first, key, out[key]) || ChildOfMain(find, first, key))
  }

  lemma AllRemapped(find: TaskFinder, first: Filed, mains: seq<Main>, out: Filed)
    requires Placed(find, first, out)
    requires forall m <- mains :: Gone(first, m.tasks, out)
    requires forall sid :: IsMain(find, first, sid) ==> Lists(mains, sid, TasksOf(find, first[sid]))
    ensures Remapped(find, first, out)
  {
    forall k <- first
      ensures if Named(find, first, Base(k)) then k !in out && MovedUnder(find, first, out, k) else FiledAt(out, k, first[k])
    {
      assert Located(find, first, out, k);
      if Named(find, first, Base(k)) {
        var m :| Names(find, first, m, Base(k));
        assert Lists(mains, m, TasksOf(find, first[m])) && Gone(first, Main(m, TasksOf(find, first[m])).tasks, out);
      } else {
        forall m, i: nat ensures !UnderMain(find, first, out, k, m, i) {
          if Above(find, first, m, Base(k)) { AboveIsMain(find, first, m, Base(k)); }
        }
      }
    }
  }

  /** Nothing is left under the id of a task that is no main session itself. */
  lemma NamedTaskEmptied(find: TaskFinder, first: Filed, out: Filed, task: string)
    requires Remapped(find, first, out) && Named(find, first, task) && !IsMain(find, first, task)
    ensures forall key <- out :: Base(key) != task
  {
    forall key <- out ensures Base(key) != task {
      if key !in first {
        var m, i: nat :| i >= 1 && IsMain(find, first, m) && key == RemapKey(m, i);
        BaseOf(m, SUBAGENT + Dec(i));
      }
    }
  }

  /** When no main session is named itself, a task's sessions end up under a main session that names the task. */
  lemma DirectlyUnder(find: TaskFinder, first: Filed, m: string, task: string)
    requires Above(find, first, m, task) && forall sid :: IsMain(find, first, sid) ==> !Named(find, first, sid)
    ensures Names(find, first, m, task)
  {
    var path :| Leads(find, first, path, task) && path[0] == m;
    if |path| > 1 {
      LeadsFrom(find, first, path[1..], task);
      assert Named(find, first, path[1]);
    }
  }

  /** What names a task: a non-empty tool result in an entry of the session. */
  lemma {:induction false} TasksTold(find: TaskFinder, entries: seq<Entry>, task: string)
    ensures task in TasksOf(find, entries) <==>
            task != "" && exists e <- entries :: e.result.Some? && ResultNames(find, e.result.value.toolResults, task)
    decreases |entries|
  {
    if |entries| > 0 {
      var before, e := entries[..|entries| - 1], entries[|entries| - 1];
      TasksTold(find, before, task);
      assert entries == before + [e];
      if e.result.Some? { ResultsTold(find, e.result.value.toolResults, task); }
    }
  }

  ghost predicate ResultNames(find: TaskFinder, results: seq<string>, task: string) {
    exists text <- results :: text != "" && find(text) == task
  }

  lemma {:induction false} ResultsTold(find: TaskFinder, results: seq<string>, task: string)
    ensures task in TasksIn(find, results) <==> task != "" && ResultNames(find, results, task)
    decreases |results|
  {
    if |results| > 0 {
      var before := results[..|results| - 1];
      ResultsTold(find, before, task);
      assert results == before + [results[|results| - 1]];
    }
  }

  // ----- The loops -----

  /** When no id has the form of a child, moves for a task that the main session names keep every list placed. */
  ghost predicate StillPlaced(find: TaskFinder, first: Filed, sid: string, task: string, before: Filed, out: Filed) {
    NoRemapKeys(first) && Names(find, first, sid, task) && Placed(find, first, before) ==> Placed(find, first, out)
  }

  lemma PlacedOne(find: TaskFinder, first: Filed, before: Filed, sid: string, n: nat, task: string, k: string)
    requires Stale(first, before, sid, n) && k in before && Base(k) == task
    ensures StillPlaced(find, first, sid, task, before, Move(before, k, RemapKey(sid, n + 1)))
  {
    if NoRemapKeys(first) && Names(find, first, sid, task) && Placed(find, first, before) {
      FreshWhenStale(first, before, sid, n);
      PlacedMove(find, first, before, sid, n, task, k);
    }
  }

  lemma ChildrenMove(start: Filed, sid: string, before: Filed, k: string, i: nat)
    requires OnlyChildrenNew(start, sid, before) && k in before
    ensures OnlyChildrenNew(start, sid, Move(before, k, RemapKey(sid, i)))
  {
    assert RemappedKey(sid, RemapKey(sid, i));
  }

  /** One round of the loop over the sessions of one task. */
  method RemapOne(ghost find: TaskFinder, ghost first: Filed, ghost lostBefore: multiset<Entry>, ghost start: Filed,
                  ghost todo: set<string>, before: Filed, sid: string, n: nat, task: string, k: string)
    returns (out: Filed, m: nat, ghost lost: multiset<Entry>)
    requires Balanced(first, before, lostBefore) && Stale(first, before, sid, n) && OnlyChildrenNew(start, sid, before)
    ensures Balanced(first, out, lost) && Stale(first, out, sid, m) && OnlyChildrenNew(start, sid, out) && m >= n
    ensures Moving(start, sid, task, before, n, todo) ==> Moving(start, sid, task, out, m, todo - {k})
    ensures StillPlaced(find, first, sid, task, before, out)
  {
    out, m, lost := before, n, lostBefore;
    if k in out && Base(k) == task {
      PlacedOne(find, first, before, sid, n, task, k);
      if Moving(start, sid, task, before, n, todo) { MovedOne(start, sid, task, before, n, todo, k); }
      MoveBalanced(first, before, lostBefore, sid, n, k);
      m := m + 1;
      out := Move(out, k, RemapKey(sid, m));
      lost := lost + multiset(At(before, RemapKey(sid, m)));
      ChildrenMove(start, sid, before, k, m);
    } else if Moving(start, sid, task, before, n, todo) {
      PassedOver(start, sid, task, before, n, todo, k);
    }
  }

  /**
    One task of one main session: nothing is lost but what was under a child key
    already, and when child numbers are still free, every session of the task
    moves under the main one and everything else stays.
   */
  method RemapTask(ghost find: TaskFinder, ghost first: Filed, ghost lostBefore: multiset<Entry>, sessions: Filed,
                   sid: string, n: nat, task: string, again: nat)
    returns (out: Filed, m: nat, ghost lost: multiset<Entry>)
    requires Balanced(first, sessions, lostBefore) && Stale(first, sessions, sid, n)
    ensures Balanced(first, out, lost) && Stale(first, out, sid, m) && OnlyChildrenNew(sessions, sid, out)
    ensures FreshAbove(sessions, sid, n) ==> Moving(sessions, sid, task, out, m, {})
    ensures StillPlaced(find, first, sid, task, sessions, out)
  {
    out, m, lost := sessions, n, lostBefore;
    var todo, left := sessions.Keys, again;
    if FreshAbove(sessions, sid, n) { NothingMoved(sessions, sid, task, n); }
    while todo != {}
      invariant Balanced(first, out, lost) && Stale(first, out, sid, m) && OnlyChildrenNew(sessions, sid, out) && m >= n
      invariant FreshAbove(sessions, sid, n) ==> Moving(sessions, sid, task, out, m, todo)
      invariant StillPlaced(find, first, sid, task, sessions, out)
      decreases left, |todo|
    {
      var k :| k in todo;
      var before := m;
      out, m, lost := RemapOne(find, first, lost, sessions, todo, out, sid, m, task, k);
      todo := todo - {k};
      var seen: bool := *;
      if m > before && left > 0 && seen {
        if FreshAbove(sessions, sid, n) { StillToCome(sessions, sid, task, out, m, todo, RemapKey(sid, m)); }
        todo, left := todo + {RemapKey(sid, m)}, left - 1;
      }
    }
  }

  /** After a task that is not the main session itself, nothing is left under the task's id. */
  lemma TaskEmptied(sessions: Filed, sid: string, task: string, out: Filed)
    requires SlashFree(sid) && sid != task
    requires Unmoved(sessions, sid, task, out, {})
    ensures forall key <- out :: Base(key) != task
  {
    forall key <- out ensures Base(key) != task {
      if RemappedKey(sid, key) {
        var i: nat :| key == RemapKey(sid, i);
        BaseOf(sid, SUBAGENT + Dec(i));
      }
    }
  }

  // ----- All main sessions -----

  /** When no id has the form of a child: everything is placed, and the sessions of the tasks done have left their keys. */
  ghost predicate TasksDone(find: TaskFinder, first: Filed, start: Filed, tasks: seq<string>, out: Filed) {
    NoRemapKeys(first) && Placed(find, first, start) ==> Placed(find, first, out) && Gone(first, tasks, out)
  }

  lemma NextTaskDone(find: TaskFinder, first: Filed, start: Filed, tasks: seq<string>, before: Filed, sid: string,
                     n: nat, task: string, out: Filed, m: nat)
    requires TasksDone(find, first, start, tasks, before) && Stale(first, before, sid, n)
    requires OnlyChildrenNew(before, sid, out) && Names(find, first, sid, task)
    requires FreshAbove(before, sid, n) ==> Moving(before, sid, task, out, m, {})
    requires StillPlaced(find, first, sid, task, before, out)
    ensures TasksDone(find, first, start, tasks + [task], out)
  {
    if NoRemapKeys(first) && Placed(find, first, start) {
      FreshWhenStale(first, before, sid, n);
      TaskGone(first, tasks, before, sid, task, out);
    }
  }

  lemma OnlyChildrenStill(start: Filed, sid: string, before: Filed, out: Filed)
    requires OnlyChildrenNew(start, sid, before) && OnlyChildrenNew(before, sid, out)
    ensures OnlyChildrenNew(start, sid, out)
  {
  }

  /** The tasks of one main session. */
  method RemapMain(ghost find: TaskFinder, ghost first: Filed, ghost lostBefore: multiset<Entry>, sessions: Filed,
                   m: Main, again: nat)
    returns (out: Filed, ghost lost: multiset<Entry>)
    requires Balanced(first, sessions, lostBefore) && Stale(first, sessions, m.sid, 0)
    requires forall task <- m.tasks :: Names(find, first, m.sid, task)
    ensures Balanced(first, out, lost) && OnlyChildrenNew(sessions, m.sid, out)
    ensures TasksDone(find, first, sessions, m.tasks, out)
  {
    out, lost := sessions, lostBefore;
    ghost var done: seq<string> := [];
    var n, i := 0, 0;
    while i < |m.tasks|
      invariant 0 <= i <= |m.tasks| && done == m.tasks[..i]
      invariant Balanced(first, out, lost) && Stale(first, out, m.sid, n) && OnlyChildrenNew(sessions, m.sid, out)
      invariant TasksDone(find, first, sessions, done, out)
    {
      ghost var before, was := out, n;
      out, n, lost := RemapTask(find, first, lost, out, m.sid, n, m.tasks[i], again);
      NextTaskDone(find, first, sessions, done, before, m.sid, was, m.tasks[i], out, n);
      OnlyChildrenStill(sessions, m.sid, before, out);
      done := done + [m.tasks[i]];
      i := i + 1;
    }
    assert m.tasks[..i] == m.tasks;
  }

  lemma StartPlaced(find: TaskFinder, first: Filed)
    ensures Placed(find, first, first)
  {
    forall k <- first ensures Located(find, first, first, k) {}
  }

  /**
    `remapOpenAISubagents`: whatever is lost was in a session whose id already had
    the form of a remapped child; when there is none, the sessions that main
    sessions name move under them, and all others stay.
   */
  method RemapOpenAISubagents(find: TaskFinder, sessions: Filed, again: nat) returns (out: Filed)
    ensures exists lost :: Balanced(sessions, out, lost)
    ensures NoRemapKeys(sessions) ==> Total(out) == Total(sessions) && Remapped(find, sessions, out)
  {
    var mains := CollectMains(find, sessions);
    out := sessions;
    ghost var lost: multiset<Entry> := multiset{};
    assert Total(out) + lost == Total(sessions);
    StartPlaced(find, sessions);
    var i := 0;
    while i < |mains|
      invariant 0 <= i <= |mains| && Balanced(sessions, out, lost) && MainsDone(find, sessions, mains, i, out)
      invariant forall j :: i <= j < |mains| ==> Stale(sessions, out, mains[j].sid, 0)
    {
      ghost var before := out;
      assert mains[i] in mains;
      out, lost := RemapMain(find, sessions, lost, out, mains[i], again);
      NextMainDone(find, sessions, mains, i, before, out);
      forall j | i < j < |mains| ensures Stale(sessions, out, mains[j].sid, 0) {
        OthersStale(sessions, before, mains[i].sid, out, mains[j].sid);
      }
      i := i + 1;
    }
    if NoRemapKeys(sessions) {
      NothingLost(sessions, out, lost);
      AllRemapped(find, sessions, mains, out);
    }
  }

  /** The same after the first `n` main sessions. */
  ghost predicate MainsDone(find: TaskFinder, first: Filed, mains: seq<Main>, n: nat, out: Filed)
    requires n <= |mains|
  {
    NoRemapKeys(first) ==> Placed(find, first, out) && forall j :: 0 <= j < n ==> Gone(first, mains[j].tasks, out)
  }

  lemma NextMainDone(find: TaskFinder, first: Filed, mains: seq<Main>, n: nat, before: Filed, out: Filed)
    requires n < |mains| && MainsDone(find, first, mains, n, before)
    requires OnlyChildrenNew(before, mains[n].sid, out) && TasksDone(find, first, before, mains[n].tasks, out)
    ensures MainsDone(find, first, mains, n + 1, out)
  {
    if NoRemapKeys(first) {
      forall j | 0 <= j < n ensures Gone(first, mains[j].tasks, out) {
        StaysGone(first, mains[j].tasks, before, mains[n].sid, out);
      }
    }
  }

  lemma NothingLost(first: Filed, out: Filed, lost: multiset<Entry>)
    requires Balanced(first, out, lost) && NoRemapKeys(first)
    ensures Total(out) == Total(first)
  {
    forall e ensures e !in lost {}
    assert lost == multiset{};
    assert Total(out) + multiset{} == Total(out);
  }
}
