/**
  Policy resolution: `FindMatchingRule` of crud.go with `CalculateSpecificity` of
  patterns.go and the source layers of models.go, over the session tables.

  `match` stands for `MatchesRule` (glob, CIDR, domain and port patterns): given
  container, host, port and rule it says whether all three dimensions match.
 */
module RulePolicy {
  import opened Common
  import opened Sorting
  import opened SessionTables

  type MatchFn = (string, string, int, Rule) -> bool

  datatype Query = Query(container: string, host: string, port: int, resolved: string)

  // ----- Layers and scores -----

  /** `RuleSourcePriority`: global 3, session 2, builtin 1. */
  function SourcePriority(r: Rule): nat {
    if r.createdBy == "builtin" then 1
    else if r.sessionID.Some? && r.sessionID.value != "" then 2
    else 3
  }

  predicate HasWildcard(p: string) { exists i :: 0 <= i < |p| && (p[i] == '*' || p[i] == '?' || p[i] == '[') }

  /** `CalculateSpecificity`. */
  function Specificity(r: Rule): nat {
    (if r.container != "*" then 100 + (if HasWildcard(r.container) then 0 else 100) else 0) +
    (if r.dest != "*" then 10 + (if HasWildcard(r.dest) then 0 else 10) else 0) +
    (if r.port != "*" then 1 else 0)
  }

  /** How exact a pattern is: any, wildcard or exact. */
  function Exactness(p: string): nat { if p == "*" then 0 else if HasWildcard(p) then 1 else 2 }

  /** The order the score encodes: layer, container, destination, port, and deny before allow. */
  predicate Outranks(a: Rule, b: Rule) {
    if SourcePriority(a) != SourcePriority(b) then SourcePriority(a) > SourcePriority(b)
    else if Exactness(a.container) != Exactness(b.container) then Exactness(a.container) > Exactness(b.container)
    else if Exactness(a.dest) != Exactness(b.dest) then Exactness(a.dest) > Exactness(b.dest)
    else if (a.port == "*") != (b.port == "*") then b.port == "*"
    else a.action == "deny" && b.action != "deny"
  }

  /** The comparison handed to `sort.Slice`. */
  predicate Before(a: Rule, b: Rule) {
    if SourcePriority(a) != SourcePriority(b) then SourcePriority(a) > SourcePriority(b)
    else if Specificity(a) != Specificity(b) then Specificity(a) > Specificity(b)
    else if a.action != b.action then a.action == "deny"
    else false
  }

  /** The numeric score orders rules exactly lexicographically. */
  lemma ScoreIsLexicographic(a: Rule, b: Rule)
    ensures Before(a, b) <==> Outranks(a, b)
  {
    assert Specificity(a) == 100 * Exactness(a.container) + 10 * Exactness(a.dest) + (if a.port == "*" then 0 else 1);
    assert Specificity(b) == 100 * Exactness(b.container) + 10 * Exactness(b.dest) + (if b.port == "*" then 0 else 1);
  }

  /** Neither outranks the other: same layer, same exactness in every dimension, both deny or neither. */
  predicate Tied(a: Rule, b: Rule) { !Outranks(a, b) && !Outranks(b, a) }

  /** Being tied is transitive and compatible with the order, which is what sorting needs. */
  lemma OrderIsWeak(a: Rule, b: Rule, c: Rule)
    ensures !(Outranks(a, b) && Outranks(b, a))
    ensures Outranks(a, b) && Outranks(b, c) ==> Outranks(a, c)
    ensures !Outranks(b, a) && !Outranks(c, b) ==> !Outranks(c, a)
    ensures Tied(a, b) && Tied(b, c) ==> Tied(a, c)
    ensures (Tied(a, b) && Outranks(b, c)) || (Outranks(a, b) && Tied(b, c)) ==> Outranks(a, c)
  {
  }

  lemma BeforeIsOrder()
    ensures StrictOrder(Before)
  {
    forall a, b, c | Before(a, b) && Before(b, c) ensures Before(a, c) {
      ScoreIsLexicographic(a, b);
      ScoreIsLexicographic(b, c);
      ScoreIsLexicographic(a, c);
      OrderIsWeak(a, b, c);
    }
  }

  // ----- The newest session -----

  /** A stored session of the container that has not expired. */
  predicate Active(db: Db, id: string, container: string, now: int) {
    id in db.sessions && db.sessions[id].container == container && db.sessions[id].expiresAt > now
  }

  /** `ORDER BY created_at DESC, rowid DESC`. */
  predicate Newer(a: Session, b: Session) {
    a.createdAt > b.createdAt || (a.createdAt == b.createdAt && a.rowid > b.rowid)
  }

  /** The unexpired session of the container that no other one is newer than. */
  predicate IsNewest(db: Db, id: string, container: string, now: int) {
    Active(db, id, container, now) &&
    forall o <- db.sessions :: Active(db, o, container, now) ==> !Newer(db.sessions[o], db.sessions[id])
  }

  /** No two rows of a table share a row id. */
  ghost predicate DistinctRows(db: Db) {
    forall a, b | a in db.sessions && b in db.sessions && db.sessions[a].rowid == db.sessions[b].rowid :: a == b
  }

  /** The container's newest session, if it has an unexpired one. */
  ghost predicate NewestIs(db: Db, container: string, now: int, newest: Option<string>) {
    (newest.None? <==> forall o :: !Active(db, o, container, now)) &&
    (newest.Some? ==> IsNewest(db, newest.value, container, now))
  }

  datatype Row = Row(id: string, session: Session)

  predicate RowNewer(a: Row, b: Row) { Newer(a.session, b.session) }

  /** The subquery: the rows in any order, sorted, and the first of them. */
  method NewestSession(db: Db, container: string, now: int) returns (id: Option<string>)
    ensures NewestIs(db, container, now, id)
  {
    var rows: seq<Row> := [];
    var todo := db.sessions.Keys;
    while todo != {}
      invariant todo <= db.sessions.Keys
      invariant forall r <- rows :: Active(db, r.id, container, now) && db.sessions[r.id] == r.session
      invariant forall o <- db.sessions :: o !in todo && Active(db, o, container, now) ==> Row(o, db.sessions[o]) in rows
      decreases |todo|
    {
      var o :| o in todo;
      if db.sessions[o].container == container && db.sessions[o].expiresAt > now {
        rows := rows + [Row(o, db.sessions[o])];
      }
      todo := todo - {o};
    }
    if |rows| == 0 {
      return None;
    }
    assert Active(db, rows[0].id, container, now);
    var sorted := SortSlice(rows, RowNewer);
    assert |sorted| == |multiset(sorted)| == |rows|;
    FirstIsLeast(RowNewer, rows, sorted);
    id := Some(sorted[0].id);
    forall o <- db.sessions | Active(db, o, container, now) ensures !Newer(db.sessions[o], db.sessions[sorted[0].id]) {
      assert !RowNewer(Row(o, db.sessions[o]), sorted[0]);
    }
  }

  /** A container has a newest session exactly when it has an unexpired one. */
  lemma NewestExists(db: Db, container: string, now: int)
    ensures (exists id :: IsNewest(db, id, container, now)) <==> exists o :: Active(db, o, container, now)
  {
    if o :| Active(db, o, container, now) {
      var ids := set o | o in db.sessions && Active(db, o, container, now);
      assert o in ids;
      var n := NewestIn(db, ids);
      assert IsNewest(db, n, container, now);
    }
  }

  lemma {:induction false} NewestIn(db: Db, ids: set<string>) returns (n: string)
    requires ids != {} && ids <= db.sessions.Keys
    ensures n in ids && forall o <- ids :: !Newer(db.sessions[o], db.sessions[n])
    decreases |ids|
  {
    var first :| first in ids;
    var rest := ids - {first};
    n := first;
    if rest != {} {
      var m := NewestIn(db, rest);
      if !Newer(db.sessions[first], db.sessions[m]) { n := m; }
      forall o <- rest ensures !Newer(db.sessions[o], db.sessions[n]) { assert !Newer(db.sessions[o], db.sessions[m]); }
    }
    assert forall o <- ids :: o == first || o in rest;
  }

  /** No container has two newest sessions. */
  lemma NewestIsUnique(db: Db, container: string, now: int, a: string, b: string)
    requires DistinctRows(db) && IsNewest(db, a, container, now) && IsNewest(db, b, container, now)
    ensures a == b
  {
    assert db.sessions[a].rowid == db.sessions[b].rowid;
  }

  /**
    A session just created under a new id is its container's newest until it
    expires, the clock never having run backwards.
   */
  lemma CreatedIsNewest(db: Db, now: int, input: SessionInput, later: int)
    requires Ok(db) && input.sessionID !in db.sessions && now <= later < now + Ttl(input.ttl)
    requires forall o <- db.sessions :: db.sessions[o].createdAt <= now
    ensures IsNewest(CreateOrUpdateSession(db, now, input), input.sessionID, input.container, later)
  {
    var up := UpsertSession(db, now, input);
    InsertAllSessions(up.(rules := DropRulesOf(up.rules, input.sessionID)), now, input, |input.networkRules|);
  }

  // ----- Which rules are in force -----

  /** The WHERE clause: a live rule that is global, builtin, or of the newest unexpired session of the container. */
  predicate InForce(db: Db, r: Rule, container: string, now: int) {
    Live(r.expiresAt, now) && (r.sessionID.None? || IsNewest(db, r.sessionID.value, container, now))
  }

  /** The WHERE clause as written, `newest` being the subquery's row. */
  predicate Selected(db: Db, r: Rule, now: int, newest: Option<string>) {
    Live(r.expiresAt, now) &&
    (r.sessionID.None? ||
     (r.sessionID.value in db.sessions && db.sessions[r.sessionID.value].expiresAt > now && r.sessionID == newest))
  }

  lemma SelectedInForce(db: Db, r: Rule, container: string, now: int, newest: Option<string>)
    requires DistinctRows(db) && NewestIs(db, container, now, newest)
    ensures Selected(db, r, now, newest) <==> InForce(db, r, container, now)
  {
    if r.sessionID.Some? && IsNewest(db, r.sessionID.value, container, now) {
      assert Active(db, r.sessionID.value, container, now);
      NewestIsUnique(db, container, now, r.sessionID.value, newest.value);
    }
  }

  predicate Matches(match_: MatchFn, q: Query, r: Rule) {
    match_(q.container, q.host, q.port, r) || (q.resolved != "" && match_(q.container, q.resolved, q.port, r))
  }

  predicate Candidate(db: Db, match_: MatchFn, q: Query, now: int, id: nat) {
    id in db.rules && InForce(db, db.rules[id], q.container, now) && Matches(match_, q, db.rules[id])
  }

  /** A candidate that no candidate outranks. */
  ghost predicate Best(db: Db, match_: MatchFn, q: Query, now: int, id: nat) {
    Candidate(db, match_, q, now, id) &&
    forall o :: Candidate(db, match_, q, now, o) ==> !Outranks(db.rules[o], db.rules[id])
  }

  /** What `FindMatchingRule` may return: nil exactly when there is no candidate, else a best one. */
  ghost predicate Returned(db: Db, match_: MatchFn, q: Query, now: int, winner: Option<Rule>) {
    (winner.None? <==> forall id :: !Candidate(db, match_, q, now, id)) &&
    (winner.Some? ==> exists id :: Best(db, match_, q, now, id) && db.rules[id] == winner.value)
  }

  /**
    `FindMatchingRule` over the rows in whatever order the database returns
    them: nil exactly when no rule in force matches, else one that no other
    rule in force that matches outranks.
   */
  method FindMatchingRule(db: Db, rows: seq<nat>, match_: MatchFn, q: Query, now: int) returns (winner: Option<Rule>)
    requires DistinctRows(db) && forall id :: id in rows <==> id in db.rules
    ensures Returned(db, match_, q, now, winner)
  {
    var newest := NewestSession(db, q.container, now);
    var matches: seq<Rule> := [];
    var i := 0;
    while i < |rows|
      invariant 0 <= i <= |rows|
      invariant forall k :: 0 <= k < i && Candidate(db, match_, q, now, rows[k]) ==> db.rules[rows[k]] in matches
      invariant forall r <- matches :: exists k :: 0 <= k < i && Candidate(db, match_, q, now, rows[k]) && db.rules[rows[k]] == r
    {
      assert rows[i] in rows;
      var r := db.rules[rows[i]];
      SelectedInForce(db, r, q.container, now, newest);
      if Selected(db, r, now, newest) {
        var matched := match_(q.container, q.host, q.port, r);
        if !matched && q.resolved != "" {
          matched := match_(q.container, q.resolved, q.port, r);
        }
        if matched {
          matches := matches + [r];
        }
      }
      i := i + 1;
    }
    forall id | Candidate(db, match_, q, now, id) ensures db.rules[id] in matches {
      var k :| 0 <= k < |rows| && rows[k] == id;
    }
    if |matches| == 0 {
      return None;
    }
    assert matches[0] in matches;
    BeforeIsOrder();
    var sorted := SortSlice(matches, Before);
    assert |sorted| == |multiset(sorted)| == |matches|;
    FirstIsLeast(Before, matches, sorted);
    winner := Some(sorted[0]);
    var k :| 0 <= k < |rows| && Candidate(db, match_, q, now, rows[k]) && db.rules[rows[k]] == sorted[0];
    forall o | Candidate(db, match_, q, now, o) ensures !Outranks(db.rules[o], sorted[0]) {
      assert !Before(db.rules[o], sorted[0]);
      ScoreIsLexicographic(db.rules[o], sorted[0]);
    }
    assert Best(db, match_, q, now, rows[k]);
  }

  // ----- What being best means for the rules themselves -----

  /** A pattern without any wildcard character. */
  predicate Plain(p: string) { '*' !in p && '?' !in p && '[' !in p }

  /** Both patterns match anything, or neither does; both are plain, or neither is. */
  predicate AsExact(p: string, q: string) { (p == "*" <==> q == "*") && (Plain(p) <==> Plain(q)) }

  lemma ExactnessMeans(p: string)
    ensures Exactness(p) == if Plain(p) then 2 else if p == "*" then 0 else 1
  {
    if HasWildcard(p) {
      var i :| 0 <= i < |p| && (p[i] == '*' || p[i] == '?' || p[i] == '[');
      assert p[i] in p;
    }
    if !Plain(p) {
      var c :| c in p && (c == '*' || c == '?' || c == '[');
      var i :| 0 <= i < |p| && p[i] == c;
    }
  }

  /** Neither builtin nor of a session; the empty session id counts as none. */
  predicate ByAdmin(r: Rule) { r.createdBy != "builtin" && (r.sessionID.None? || r.sessionID.value == "") }

  /**
    A builtin rule wins only over builtin ones, and a global one loses only to
    global ones; so a session's rule beats builtin and yields to global.
   */
  lemma BestByLayer(db: Db, match_: MatchFn, q: Query, now: int, w: nat, o: nat)
    requires Best(db, match_, q, now, w) && Candidate(db, match_, q, now, o)
    ensures db.rules[w].createdBy == "builtin" ==> db.rules[o].createdBy == "builtin"
    ensures db.rules[o].createdBy != "builtin" && (db.rules[o].sessionID.None? || db.rules[o].sessionID.value == "") ==>
      db.rules[w].createdBy != "builtin" && (db.rules[w].sessionID.None? || db.rules[w].sessionID.value == "")
    ensures db.rules[o].createdBy != "builtin" && db.rules[o].sessionID.Some? ==> db.rules[w].createdBy != "builtin"
  {
  }

  /** Builtin both, or neither; of a session both, or neither. */
  predicate SameLayer(a: Rule, b: Rule) {
    (a.createdBy == "builtin" <==> b.createdBy == "builtin") && (ByAdmin(a) <==> ByAdmin(b))
  }

  /**
    Within a layer the container pattern decides first, then the destination,
    then whether a port is named, then deny: in each a plain pattern beats a
    wildcard and any pattern beats "*".
   */
  lemma BestInLayer(db: Db, match_: MatchFn, q: Query, now: int, w: nat, o: nat)
    requires Best(db, match_, q, now, w) && Candidate(db, match_, q, now, o) && SameLayer(db.rules[w], db.rules[o])
    ensures (Plain(db.rules[o].container) ==> Plain(db.rules[w].container)) &&
            (db.rules[o].container != "*" ==> db.rules[w].container != "*")
    ensures AsExact(db.rules[o].container, db.rules[w].container) ==>
      (Plain(db.rules[o].dest) ==> Plain(db.rules[w].dest)) && (db.rules[o].dest != "*" ==> db.rules[w].dest != "*")
    ensures AsExact(db.rules[o].container, db.rules[w].container) && AsExact(db.rules[o].dest, db.rules[w].dest) ==>
      (db.rules[o].port != "*" ==> db.rules[w].port != "*") &&
      ((db.rules[o].port == "*" <==> db.rules[w].port == "*") && db.rules[o].action == "deny" ==> db.rules[w].action == "deny")
  {
    ExactnessMeans(db.rules[o].container);
    ExactnessMeans(db.rules[w].container);
    ExactnessMeans(db.rules[o].dest);
    ExactnessMeans(db.rules[w].dest);
  }

  /** A row that counts for the query: unexpired, of no session or of the newest one, and matching host or resolved name. */
  ghost predicate Applies(db: Db, match_: MatchFn, q: Query, now: int, r: Rule) {
    (r.expiresAt.Some? ==> r.expiresAt.value > now) &&
    (r.sessionID.Some? ==> IsNewest(db, r.sessionID.value, q.container, now)) &&
    (match_(q.container, q.host, q.port, r) || (q.resolved != "" && match_(q.container, q.resolved, q.port, r)))
  }

  /** The row's columns say so: stored, of the container, unexpired, and no unexpired one of the container is younger. */
  ghost predicate NewestOf(db: Db, id: string, container: string, now: int) {
    id in db.sessions && db.sessions[id].container == container && db.sessions[id].expiresAt > now &&
    forall o <- db.sessions :: db.sessions[o].container == container && db.sessions[o].expiresAt > now ==>
      db.sessions[o].createdAt <= db.sessions[id].createdAt
  }

  /** Nothing is returned exactly when no row applies, and what is returned is a row that applies. */
  lemma WinnerApplies(db: Db, match_: MatchFn, q: Query, now: int, winner: Option<Rule>)
    requires Returned(db, match_, q, now, winner)
    ensures winner.None? <==> forall id <- db.rules :: !Applies(db, match_, q, now, db.rules[id])
    ensures winner.Some? ==> (exists id <- db.rules :: db.rules[id] == winner.value) && Applies(db, match_, q, now, winner.value)
    ensures winner.Some? && winner.value.sessionID.Some? ==> NewestOf(db, winner.value.sessionID.value, q.container, now)
  {
    forall id | id in db.rules ensures Candidate(db, match_, q, now, id) <==> Applies(db, match_, q, now, db.rules[id]) {}
    if winner.None? {
      forall id <- db.rules ensures !Applies(db, match_, q, now, db.rules[id]) { assert !Candidate(db, match_, q, now, id); }
    }
    if winner.Some? {
      var w :| Best(db, match_, q, now, w) && db.rules[w] == winner.value;
    }
  }

  /** The layers, said of the rule that is returned. */
  lemma WinnerByLayer(db: Db, match_: MatchFn, q: Query, now: int, winner: Rule, o: nat)
    requires Returned(db, match_, q, now, Some(winner))
    requires o in db.rules && Applies(db, match_, q, now, db.rules[o])
    ensures winner.createdBy == "builtin" ==> db.rules[o].createdBy == "builtin"
    ensures db.rules[o].createdBy != "builtin" && (db.rules[o].sessionID.None? || db.rules[o].sessionID.value == "") ==>
      winner.createdBy != "builtin" && (winner.sessionID.None? || winner.sessionID.value == "")
    ensures db.rules[o].createdBy != "builtin" && db.rules[o].sessionID.Some? ==> winner.createdBy != "builtin"
  {
    var w :| Best(db, match_, q, now, w) && db.rules[w] == winner;
    BestByLayer(db, match_, q, now, w, o);
  }

  /** A global deny with plain patterns and a port cannot be overruled. */
  lemma PlainGlobalDenyWins(db: Db, match_: MatchFn, q: Query, now: int, winner: Rule, o: nat)
    requires Returned(db, match_, q, now, Some(winner))
    requires o in db.rules && Applies(db, match_, q, now, db.rules[o])
    requires db.rules[o].sessionID.None? && db.rules[o].createdBy != "builtin" && db.rules[o].action == "deny"
    requires Plain(db.rules[o].container) && Plain(db.rules[o].dest) && db.rules[o].port != "*"
    ensures winner.action == "deny" && winner.createdBy != "builtin"
  {
    var w :| Best(db, match_, q, now, w) && db.rules[w] == winner;
    BestByLayer(db, match_, q, now, w, o);
    assert ByAdmin(db.rules[o]) && ByAdmin(db.rules[w]);
    BestInLayer(db, match_, q, now, w, o);
    PlainIsNotAny(winner.container);
    PlainIsNotAny(db.rules[o].container);
    PlainIsNotAny(winner.dest);
    PlainIsNotAny(db.rules[o].dest);
  }

  lemma PlainIsNotAny(p: string)
    ensures Plain(p) ==> p != "*"
  {
    if p == "*" { assert p[0] in p; }
  }

  // ----- Independence of row order and sort -----

  /** All best rules are tied, and so have the same layer and the same action: no arrangement changes the verdict. */
  lemma VerdictIsUnique(db: Db, match_: MatchFn, q: Query, now: int, a: nat, b: nat)
    requires Ok(db) && Best(db, match_, q, now, a) && Best(db, match_, q, now, b)
    ensures db.rules[a].action == db.rules[b].action
    ensures SourcePriority(db.rules[a]) == SourcePriority(db.rules[b]) && Specificity(db.rules[a]) == Specificity(db.rules[b])
  {
    ScoreIsLexicographic(db.rules[a], db.rules[b]);
    ScoreIsLexicographic(db.rules[b], db.rules[a]);
    assert KnownAction(db.rules[a].action) && KnownAction(db.rules[b].action);
  }

  // ----- Sessions do not bleed into each other -----

  /** The tables without the rules of any session but this one, if any. */
  function OnlyOf(db: Db, newest: Option<string>): Db {
    db.(rules := map k | k in db.rules && (db.rules[k].sessionID.None? || db.rules[k].sessionID == newest) :: db.rules[k])
  }

  lemma SameCandidates(db: Db, match_: MatchFn, q: Query, now: int, newest: Option<string>, id: nat)
    requires DistinctRows(db) && NewestIs(db, q.container, now, newest)
    ensures Candidate(db, match_, q, now, id) <==> Candidate(OnlyOf(db, newest), match_, q, now, id)
    ensures Candidate(db, match_, q, now, id) ==> db.rules[id] == OnlyOf(db, newest).rules[id]
  {
    if id in db.rules {
      SelectedInForce(db, db.rules[id], q.container, now, newest);
      assert forall o :: Active(OnlyOf(db, newest), o, q.container, now) <==> Active(db, o, q.container, now);
      SelectedInForce(OnlyOf(db, newest), db.rules[id], q.container, now, newest);
    }
  }

  /**
    What a query may return is what it may return with the rules of every session
    but the container's newest deleted: an older session's rules never count.
   */
  lemma OnlyNewestCounts(db: Db, match_: MatchFn, q: Query, now: int, newest: Option<string>, winner: Option<Rule>)
    requires DistinctRows(db) && NewestIs(db, q.container, now, newest)
    ensures Returned(db, match_, q, now, winner) <==> Returned(OnlyOf(db, newest), match_, q, now, winner)
  {
    var only := OnlyOf(db, newest);
    forall id ensures (Candidate(db, match_, q, now, id) <==> Candidate(only, match_, q, now, id)) &&
                      (Candidate(db, match_, q, now, id) ==> db.rules[id] == only.rules[id]) {
      SameCandidates(db, match_, q, now, newest, id);
    }
    forall id ensures Best(db, match_, q, now, id) <==> Best(only, match_, q, now, id) {}
  }

  /**
    After any run, a session rule that a query returns is of the one newest
    unexpired session of the queried container.
   */
  lemma SessionRuleOfNewest(ops: seq<Op>, match_: MatchFn, q: Query, now: int, winner: Option<Rule>)
    requires Returned(Run(EMPTY, ops), match_, q, now, winner) && winner.Some? && winner.value.sessionID.Some?
    ensures forall o :: IsNewest(Run(EMPTY, ops), o, q.container, now) <==> Some(o) == winner.value.sessionID
  {
    RunKeepsOk(ops);
    var db := Run(EMPTY, ops);
    var sid := winner.value.sessionID.value;
    forall o | IsNewest(db, o, q.container, now) ensures o == sid { NewestIsUnique(db, q.container, now, o, sid); }
  }
}
