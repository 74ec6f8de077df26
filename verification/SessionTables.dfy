/**
  The sessions and rules tables and the operations on them: credential_crud.go
  and the rule part of crud.go in internal/greyproxy.

  A table is a map from its key to a row, under the uniqueness constraints of
  the schema. Every operation reads the clock once, as `now` in seconds.
 */
module SessionTables {
  import opened Common

  datatype Session = Session(container: string, mappings: map<string, string>, labels: map<string, string>,
                             ttl: int, createdAt: int, expiresAt: int, rowid: nat, allowAll: bool)

  datatype Rule = Rule(container: string, dest: string, port: string, action: string,
                       createdBy: string, sessionID: Option<string>, expiresAt: Option<int>)

  /** The columns under the UNIQUE constraint. */
  datatype Key = Key(container: string, dest: string, port: string, action: string)

  function KeyOf(r: Rule): Key { Key(r.container, r.dest, r.port, r.action) }

  datatype Db = Db(sessions: map<string, Session>, rules: map<nat, Rule>, nextRule: nat, nextRow: nat)

  const EMPTY := Db(map[], map[], 0, 0)

  predicate KnownAction(action: string) { action == "allow" || action == "deny" }

  predicate HasKey(rules: map<nat, Rule>, k: Key) { exists id <- rules :: KeyOf(rules[id]) == k }

  predicate OfSession(r: Rule, id: string) { r.sessionID == Some(id) }

  // ----- Session operations -----

  datatype NetworkRule = NetworkRule(dest: string, port: string, action: string)

  datatype SessionInput = SessionInput(sessionID: string, container: string, mappings: map<string, string>,
                                       labels: map<string, string>, ttl: int, networkRules: seq<NetworkRule>, allowAll: bool)

  const DEFAULT_TTL := 900

  function Ttl(ttl: int): int { if ttl <= 0 then DEFAULT_TTL else ttl }

  /** The row of an upsert: creation time and row id survive, everything else is replaced. */
  function UpsertRow(db: Db, now: int, input: SessionInput): Session {
    var row := Session(input.container, input.mappings, input.labels, Ttl(input.ttl), now, now + Ttl(input.ttl),
                         db.nextRow, input.allowAll);
    if input.sessionID in db.sessions then
      row.(createdAt := db.sessions[input.sessionID].createdAt, rowid := db.sessions[input.sessionID].rowid)
    else row
  }

  function UpsertSession(db: Db, now: int, input: SessionInput): Db {
    db.(sessions := db.sessions[input.sessionID := UpsertRow(db, now, input)],
        nextRow := if input.sessionID in db.sessions then db.nextRow else db.nextRow + 1)
  }

  /** `DELETE FROM rules WHERE session_id = ?`. */
  function DropRulesOf(rules: map<nat, Rule>, id: string): map<nat, Rule> {
    map k | k in rules && !OfSession(rules[k], id) :: rules[k]
  }

  function SessionRule(now: int, input: SessionInput, nr: NetworkRule): Rule {
    Rule(input.container, nr.dest, if nr.port == "" then "*" else nr.port, if nr.action == "" then "allow" else nr.action,
         "session:" + input.sessionID, Some(input.sessionID), Some(now + Ttl(input.ttl)))
  }

  /** `INSERT OR IGNORE`: a taken key or a forbidden action inserts nothing. */
  function InsertOrIgnore(db: Db, r: Rule): Db {
    if HasKey(db.rules, KeyOf(r)) || !KnownAction(r.action) then db
    else db.(rules := db.rules[db.nextRule := r], nextRule := db.nextRule + 1)
  }

  function InsertAll(db: Db, now: int, input: SessionInput, n: nat): Db
    requires n <= |input.networkRules|
  {
    if n == 0 then db else InsertOrIgnore(InsertAll(db, now, input, n - 1), SessionRule(now, input, input.networkRules[n - 1]))
  }

  function CreateOrUpdateSession(db: Db, now: int, input: SessionInput): Db {
    var up := UpsertSession(db, now, input);
    InsertAll(up.(rules := DropRulesOf(up.rules, input.sessionID)), now, input, |input.networkRules|)
  }

  function HeartbeatSession(db: Db, now: int, id: string): Db {
    if id in db.sessions && db.sessions[id].expiresAt > now then
      var s := db.sessions[id].(expiresAt := now + db.sessions[id].ttl);
      db.(sessions := db.sessions[id := s],
          rules := map k | k in db.rules ::
            if OfSession(db.rules[k], id) then db.rules[k].(expiresAt := Some(s.expiresAt)) else db.rules[k])
    else db
  }

  function DeleteSession(db: Db, id: string): Db {
    db.(rules := DropRulesOf(db.rules, id), sessions := db.sessions - {id})
  }

  function ExpiredIds(db: Db, now: int): set<string> {
    set id | id in db.sessions && db.sessions[id].expiresAt <= now
  }

  function DropRulesOfAll(rules: map<nat, Rule>, ids: set<string>): map<nat, Rule> {
    map k | k in rules && !(rules[k].sessionID.Some? && rules[k].sessionID.value in ids) :: rules[k]
  }

  lemma DropOneMore(rules: map<nat, Rule>, ids: set<string>, id: string)
    ensures DropRulesOf(DropRulesOfAll(rules, ids), id) == DropRulesOfAll(rules, ids + {id})
  {
  }

  function DeleteExpiredSessions(db: Db, now: int): Db {
    db.(sessions := db.sessions - ExpiredIds(db, now), rules := DropRulesOfAll(db.rules, ExpiredIds(db, now)))
  }

  // ----- Rule operations -----

  datatype RuleInput = RuleInput(container: string, dest: string, port: string, action: string,
                                 createdBy: string, ttl: Option<int>)

  function InputRule(now: int, input: RuleInput): Rule {
    Rule(input.container, input.dest, if input.port == "" then "*" else input.port,
         if input.action == "" then "allow" else input.action,
         if input.createdBy == "" then "admin" else input.createdBy,
         None, if input.ttl.Some? && input.ttl.value > 0 then Some(now + input.ttl.value) else None)
  }

  function DropExpiredAt(rules: map<nat, Rule>, k: Key, now: int): map<nat, Rule> {
    map id | id in rules && !(KeyOf(rules[id]) == k && rules[id].expiresAt.Some? && rules[id].expiresAt.value <= now) :: rules[id]
  }

  /** An expired row under the key is cleared first; a live one makes the insert return it unchanged. */
  function CreateRule(db: Db, now: int, input: RuleInput): Db {
    var r := InputRule(now, input);
    InsertOrIgnore(db.(rules := DropExpiredAt(db.rules, KeyOf(r), now)), r)
  }

  /** The columns an edit names; `expiresAt := Some(None)` clears the expiry. */
  datatype RulePatch = RulePatch(container: Option<string>, dest: Option<string>, port: Option<string>,
                                 action: Option<string>, expiresAt: Option<Option<int>>)

  function Or<T>(o: Option<T>, d: T): T { if o.Some? then o.value else d }

  function Patched(r: Rule, p: RulePatch): Rule {
    r.(container := Or(p.container, r.container), dest := Or(p.dest, r.dest), port := Or(p.port, r.port),
       action := Or(p.action, r.action), expiresAt := Or(p.expiresAt, r.expiresAt))
  }

  /** An edit that would break a constraint is an error and changes nothing. */
  function UpdateRule(db: Db, id: nat, p: RulePatch): Db {
    if id !in db.rules then db
    else
      var r := Patched(db.rules[id], p);
      if !KnownAction(r.action) || HasKey(db.rules - {id}, KeyOf(r)) then db
      else db.(rules := db.rules[id := r])
  }

  function DeleteRule(db: Db, id: nat): Db { db.(rules := db.rules - {id}) }

  // ----- Runs -----

  datatype Op =
    | Create(now: int, input: SessionInput)
    | Heartbeat(now: int, id: string)
    | Delete(id: string)
    | Expire(now: int)
    | AddRule(now: int, rule: RuleInput)
    | EditRule(ruleID: nat, patch: RulePatch)
    | RemoveRule(ruleID: nat)

  function Apply(db: Db, op: Op): Db {
    match op
    case Create(now, input) => CreateOrUpdateSession(db, now, input)
    case Heartbeat(now, id) => HeartbeatSession(db, now, id)
    case Delete(id) => DeleteSession(db, id)
    case Expire(now) => DeleteExpiredSessions(db, now)
    case AddRule(now, rule) => CreateRule(db, now, rule)
    case EditRule(id, patch) => UpdateRule(db, id, patch)
    case RemoveRule(id) => DeleteRule(db, id)
  }

  function Run(db: Db, ops: seq<Op>): Db {
    if |ops| == 0 then db else Apply(Run(db, ops[..|ops| - 1]), ops[|ops| - 1])
  }

  /** What every run keeps: the constraints, fresh counters, and no rule of a session that is not stored. */
  ghost predicate Ok(db: Db) {
    FreshRows(db) && RulesOk(db.rules, db.sessions) && KeysOnce(db.rules) && SessionRowsOk(db)
  }

  ghost predicate FreshRows(db: Db) { forall k <- db.rules :: k < db.nextRule }

  ghost predicate RulesOk(rules: map<nat, Rule>, sessions: map<string, Session>) {
    forall k <- rules :: RuleOk(rules[k], sessions)
  }

  predicate RuleOk(r: Rule, sessions: map<string, Session>) {
    KnownAction(r.action) && (r.sessionID.Some? ==> r.sessionID.value in sessions)
  }

  ghost predicate KeysOnce(rules: map<nat, Rule>) {
    forall j, k | j in rules && k in rules && KeyOf(rules[j]) == KeyOf(rules[k]) :: j == k
  }

  ghost predicate SessionRowsOk(db: Db) {
    (forall id <- db.sessions :: db.sessions[id].rowid < db.nextRow) &&
    (forall a, b | a in db.sessions && b in db.sessions && db.sessions[a].rowid == db.sessions[b].rowid :: a == b)
  }

  /** Every session rule expires at the very moment its session does. */
  ghost predicate Synced(db: Db) {
    forall k <- db.rules :: db.rules[k].sessionID.Some? ==>
      db.rules[k].sessionID.value in db.sessions &&
      db.rules[k].expiresAt == Some(db.sessions[db.rules[k].sessionID.value].expiresAt)
  }

  /** An edit that reaches its row: the row exists and the new one breaks no constraint. */
  predicate EditTakes(db: Db, id: nat, p: RulePatch) {
    id in db.rules && KnownAction(Patched(db.rules[id], p).action) && !HasKey(db.rules - {id}, KeyOf(Patched(db.rules[id], p)))
  }

  /** An edit by hand that gives a session rule another expiry than it has. */
  predicate MovesSessionExpiry(db: Db, op: Op) {
    op.EditRule? && EditTakes(db, op.ruleID, op.patch) && db.rules[op.ruleID].sessionID.Some? &&
    op.patch.expiresAt.Some? && op.patch.expiresAt.value != db.rules[op.ruleID].expiresAt
  }

  lemma InsertKeepsOk(db: Db, r: Rule)
    requires Ok(db) && (r.sessionID.Some? ==> r.sessionID.value in db.sessions)
    ensures Ok(InsertOrIgnore(db, r)) && InsertOrIgnore(db, r).sessions == db.sessions
  {
    if KnownAction(r.action) && !HasKey(db.rules, KeyOf(r)) {
      forall k <- db.rules ensures KeyOf(db.rules[k]) != KeyOf(r) && RuleOk(db.rules[k], db.sessions) {}
    }
  }

  lemma InsertKeepsSynced(db: Db, r: Rule)
    requires Synced(db)
    requires r.sessionID.Some? ==> r.sessionID.value in db.sessions && r.expiresAt == Some(db.sessions[r.sessionID.value].expiresAt)
    ensures Synced(InsertOrIgnore(db, r))
  {
  }

  lemma {:induction false} InsertAllSessions(db: Db, now: int, input: SessionInput, n: nat)
    requires n <= |input.networkRules|
    ensures InsertAll(db, now, input, n).sessions == db.sessions
  {
    if n > 0 { InsertAllSessions(db, now, input, n - 1); }
  }

  lemma {:induction false} InsertAllKeepsOk(db: Db, now: int, input: SessionInput, n: nat)
    requires Ok(db) && n <= |input.networkRules| && input.sessionID in db.sessions
    ensures Ok(InsertAll(db, now, input, n)) && InsertAll(db, now, input, n).sessions == db.sessions
    decreases n
  {
    if n > 0 {
      InsertAllKeepsOk(db, now, input, n - 1);
      InsertKeepsOk(InsertAll(db, now, input, n - 1), SessionRule(now, input, input.networkRules[n - 1]));
    }
  }

  lemma {:induction false} InsertAllKeepsSynced(db: Db, now: int, input: SessionInput, n: nat)
    requires Synced(db) && n <= |input.networkRules| && input.sessionID in db.sessions
    requires db.sessions[input.sessionID].expiresAt == now + Ttl(input.ttl)
    ensures Synced(InsertAll(db, now, input, n))
    decreases n
  {
    if n > 0 {
      InsertAllSessions(db, now, input, n - 1);
      InsertAllKeepsSynced(db, now, input, n - 1);
      InsertKeepsSynced(InsertAll(db, now, input, n - 1), SessionRule(now, input, input.networkRules[n - 1]));
    }
  }

  lemma CreateKeepsOk(db: Db, now: int, input: SessionInput)
    requires Ok(db)
    ensures Ok(CreateOrUpdateSession(db, now, input))
    ensures Synced(db) ==> Synced(CreateOrUpdateSession(db, now, input))
  {
    var up := UpsertSession(db, now, input);
    var cleared := up.(rules := DropRulesOf(up.rules, input.sessionID));
    assert Ok(cleared);
    InsertAllKeepsOk(cleared, now, input, |input.networkRules|);
    if Synced(db) { InsertAllKeepsSynced(cleared, now, input, |input.networkRules|); }
  }

  lemma SessionOpKeepsOk(db: Db, op: Op)
    requires Ok(db) && (op.Heartbeat? || op.Delete? || op.Expire? || op.RemoveRule?)
    ensures Ok(Apply(db, op)) && (Synced(db) ==> Synced(Apply(db, op)))
  {
    if op.Heartbeat? {
      HeartbeatKeepsOk(db, op.now, op.id);
    } else if op.Delete? {
      DropKeepsOk(db, {op.id}, DeleteSession(db, op.id));
    } else if op.Expire? {
      DropKeepsOk(db, ExpiredIds(db, op.now), DeleteExpiredSessions(db, op.now));
    }
  }

  /** Dropping sessions together with their rules keeps everything. */
  lemma DropKeepsOk(db: Db, ids: set<string>, t: Db)
    requires Ok(db) && t == db.(sessions := db.sessions - ids, rules := t.rules)
    requires forall k <- t.rules :: k in db.rules && t.rules[k] == db.rules[k]
    requires forall k <- t.rules :: t.rules[k].sessionID.Some? ==> t.rules[k].sessionID.value !in ids
    ensures Ok(t) && (Synced(db) ==> Synced(t))
  {
  }

  lemma HeartbeatKeepsOk(db: Db, now: int, id: string)
    requires Ok(db)
    ensures Ok(HeartbeatSession(db, now, id)) && (Synced(db) ==> Synced(HeartbeatSession(db, now, id)))
  {
    var t := HeartbeatSession(db, now, id);
    assert t.sessions.Keys == db.sessions.Keys;
    assert forall s <- t.sessions :: t.sessions[s].rowid == db.sessions[s].rowid;
    forall k <- t.rules ensures k in db.rules && KeyOf(t.rules[k]) == KeyOf(db.rules[k]) && RuleOk(t.rules[k], t.sessions) {
      assert RuleOk(db.rules[k], db.sessions);
    }
  }

  lemma AddRuleKeepsOk(db: Db, now: int, rule: RuleInput)
    requires Ok(db)
    ensures Ok(CreateRule(db, now, rule)) && (Synced(db) ==> Synced(CreateRule(db, now, rule)))
  {
    var r := InputRule(now, rule);
    var cleared := db.(rules := DropExpiredAt(db.rules, KeyOf(r), now));
    assert Ok(cleared) && (Synced(db) ==> Synced(cleared));
    InsertKeepsOk(cleared, r);
    if Synced(db) { InsertKeepsSynced(cleared, r); }
  }

  lemma EditKeepsOk(db: Db, id: nat, p: RulePatch)
    requires Ok(db)
    ensures Ok(UpdateRule(db, id, p))
  {
    if EditTakes(db, id, p) {
      var r, rest := Patched(db.rules[id], p), db.rules - {id};
      forall k | k in db.rules && k != id ensures KeyOf(db.rules[k]) != KeyOf(r) {
        assert k in rest && rest[k] == db.rules[k];
      }
    }
  }

  /** An edit unlinks exactly when it moves a session rule's expiry. */
  lemma EditUnlinks(db: Db, id: nat, p: RulePatch)
    requires Ok(db) && Synced(db)
    ensures Synced(UpdateRule(db, id, p)) <==> !MovesSessionExpiry(db, EditRule(id, p))
  {
    if MovesSessionExpiry(db, EditRule(id, p)) {
      assert UpdateRule(db, id, p).rules[id].expiresAt == p.expiresAt.value;
    }
  }

  lemma OpKeepsOk(db: Db, op: Op)
    requires Ok(db)
    ensures Ok(Apply(db, op))
  {
    if op.Create? {
      CreateKeepsOk(db, op.now, op.input);
    } else if op.AddRule? {
      AddRuleKeepsOk(db, op.now, op.rule);
    } else if op.EditRule? {
      EditKeepsOk(db, op.ruleID, op.patch);
    } else {
      SessionOpKeepsOk(db, op);
    }
  }

  /** Of all operations, only an edit that moves a session rule's expiry unlinks, and it always does. */
  lemma OnlyMovesUnlink(db: Db, op: Op)
    requires Ok(db) && Synced(db)
    ensures Synced(Apply(db, op)) <==> !MovesSessionExpiry(db, op)
  {
    if op.Create? {
      CreateKeepsOk(db, op.now, op.input);
    } else if op.AddRule? {
      AddRuleKeepsOk(db, op.now, op.rule);
    } else if op.EditRule? {
      EditUnlinks(db, op.ruleID, op.patch);
    } else {
      SessionOpKeepsOk(db, op);
    }
  }

  /** After any run, every session-scoped rule refers to a stored session and the schema's constraints hold. */
  lemma {:induction false} RunKeepsOk(ops: seq<Op>)
    ensures Ok(Run(EMPTY, ops))
    decreases |ops|
  {
    if |ops| > 0 {
      RunKeepsOk(ops[..|ops| - 1]);
      OpKeepsOk(Run(EMPTY, ops[..|ops| - 1]), ops[|ops| - 1]);
    }
  }

  /** No operation of the run moves a session rule's expiry. */
  ghost predicate NoMoves(ops: seq<Op>)
    decreases |ops|
  {
    |ops| > 0 ==>
      NoMoves(ops[..|ops| - 1]) && !MovesSessionExpiry(Run(EMPTY, ops[..|ops| - 1]), ops[|ops| - 1])
  }

  /** Session rules expired with their sessions after every operation of the run. */
  ghost predicate SyncedThroughout(ops: seq<Op>)
    decreases |ops|
  {
    Synced(Run(EMPTY, ops)) && (|ops| > 0 ==> SyncedThroughout(ops[..|ops| - 1]))
  }

  /** Along a run session rules expire with their sessions throughout if and only if nothing moves one's expiry. */
  lemma {:induction false} SyncedUnlessMoved(ops: seq<Op>)
    ensures SyncedThroughout(ops) <==> NoMoves(ops)
    decreases |ops|
  {
    if |ops| > 0 {
      var before := ops[..|ops| - 1];
      SyncedUnlessMoved(before);
      RunKeepsOk(before);
      if SyncedThroughout(before) {
        SyncedNow(before);
        OnlyMovesUnlink(Run(EMPTY, before), ops[|ops| - 1]);
      }
    }
  }

  lemma SyncedNow(ops: seq<Op>)
    requires SyncedThroughout(ops)
    ensures Synced(Run(EMPTY, ops))
  {
  }

  /** `expires_at IS NULL OR expires_at > now`. */
  predicate Live(expiresAt: Option<int>, now: int) { expiresAt.None? || expiresAt.value > now }

  /** Expiring with the session means being live at exactly the same moments. */
  lemma SameExpiryIsSameLife(expiresAt: Option<int>, sessionExpiry: int)
    ensures expiresAt == Some(sessionExpiry) <==> (forall now :: Live(expiresAt, now) <==> sessionExpiry > now)
  {
    if expiresAt.Some? && expiresAt.value != sessionExpiry {
      var now := if expiresAt.value < sessionExpiry then expiresAt.value else sessionExpiry;
      assert Live(expiresAt, now) != (sessionExpiry > now);
    } else if expiresAt.None? {
      assert Live(expiresAt, sessionExpiry) && !(sessionExpiry > sessionExpiry);
    }
  }

  /** Absent such an edit, session rules are live exactly as long as their session, at every moment. */
  lemma RulesExpireWithSession(ops: seq<Op>, now: int)
    requires NoMoves(ops)
    ensures var db := Run(EMPTY, ops);
      forall k <- db.rules :: db.rules[k].sessionID.Some? ==>
        db.rules[k].sessionID.value in db.sessions &&
        (Live(db.rules[k].expiresAt, now) <==> db.sessions[db.rules[k].sessionID.value].expiresAt > now)
  {
    SyncedUnlessMoved(ops);
    SyncedNow(ops);
  }

  /** The rules of one session expire with it. */
  ghost predicate SessionSynced(db: Db, id: string) {
    forall k <- db.rules :: OfSession(db.rules[k], id) ==> id in db.sessions && db.rules[k].expiresAt == Some(db.sessions[id].expiresAt)
  }

  /** A heartbeat of an unexpired session links its rules again, and leaves the rules of others as they are. */
  lemma HeartbeatRelinks(db: Db, now: int, id: string)
    requires id in db.sessions && db.sessions[id].expiresAt > now
    ensures SessionSynced(HeartbeatSession(db, now, id), id)
    ensures forall o :: o != id ==> (SessionSynced(HeartbeatSession(db, now, id), o) <==> SessionSynced(db, o))
  {
    var t := HeartbeatSession(db, now, id);
    assert t.rules.Keys == db.rules.Keys;
    forall o | o != id ensures SessionSynced(t, o) <==> SessionSynced(db, o) {
      forall k <- db.rules | OfSession(db.rules[k], o) ensures t.rules[k] == db.rules[k] {}
      forall k <- t.rules | OfSession(t.rules[k], o) ensures t.rules[k] == db.rules[k] {}
    }
  }

  /** An upsert links its session's rules again too, whatever they were. */
  lemma UpsertRelinks(db: Db, now: int, input: SessionInput)
    requires Ok(db)
    ensures SessionSynced(CreateOrUpdateSession(db, now, input), input.sessionID)
  {
    var up := UpsertSession(db, now, input);
    var cleared := up.(rules := DropRulesOf(up.rules, input.sessionID));
    InsertAllSynced(cleared, now, input, |input.networkRules|);
  }

  lemma {:induction false} InsertAllSynced(db: Db, now: int, input: SessionInput, n: nat)
    requires n <= |input.networkRules| && input.sessionID in db.sessions
    requires db.sessions[input.sessionID].expiresAt == now + Ttl(input.ttl) && SessionSynced(db, input.sessionID)
    ensures InsertAll(db, now, input, n).sessions == db.sessions
    ensures SessionSynced(InsertAll(db, now, input, n), input.sessionID)
  {
    if n > 0 { InsertAllSynced(db, now, input, n - 1); }
  }

  /** A run with such an edit. */
  lemma ExpiryEditUnlinks()
    ensures var input := SessionInput("s", "c", map[], map[], 60, [NetworkRule("d", "", "")], false);
      var ops := [Create(0, input), EditRule(0, RulePatch(None, None, None, None, Some(None)))];
      !Synced(Run(EMPTY, ops))
  {
    var input := SessionInput("s", "c", map[], map[], 60, [NetworkRule("d", "", "")], false);
    var patch := RulePatch(None, None, None, None, Some(None));
    var ops := [Create(0, input), EditRule(0, patch)];
    var r := SessionRule(0, input, input.networkRules[0]);
    assert ops[..1] == [Create(0, input)] && [Create(0, input)][..0] == [];
    var up := UpsertSession(EMPTY, 0, input);
    assert DropRulesOf(up.rules, "s") == map[];
    var cleared := up.(rules := map[]);
    assert Run(EMPTY, []) == EMPTY;
    assert Run(EMPTY, ops[..1]) == CreateOrUpdateSession(EMPTY, 0, input);
    assert InsertAll(cleared, 0, input, 0) == cleared;
    var db := InsertOrIgnore(cleared, r);
    assert InsertAll(cleared, 0, input, 1) == db;
    assert db.rules == map[0 := r];
    assert db.rules - {0} == map[];
    assert UpdateRule(db, 0, patch).rules[0].expiresAt == None;
  }

  // ----- Which session's rules an upsert installs -----

  /** From `rules` on, rows were only added, and only such as belong to the session. */
  ghost predicate OnlyAdded(rules: map<nat, Rule>, more: map<nat, Rule>, id: string) {
    (forall k <- rules :: k in more && more[k] == rules[k]) && forall k <- more :: k in rules || OfSession(more[k], id)
  }

  /** The row's key is there, if its action is one the table takes. */
  predicate KeyThere(rules: map<nat, Rule>, r: Rule) { KnownAction(r.action) ==> HasKey(rules, KeyOf(r)) }

  /** The inserts keep every row, add only rows of this session, and leave every wanted key present. */
  lemma {:induction false} InsertAllGrows(db: Db, now: int, input: SessionInput, n: nat)
    requires FreshRows(db) && n <= |input.networkRules|
    ensures FreshRows(InsertAll(db, now, input, n)) && OnlyAdded(db.rules, InsertAll(db, now, input, n).rules, input.sessionID)
    ensures forall i :: 0 <= i < n ==> KeyThere(InsertAll(db, now, input, n).rules, SessionRule(now, input, input.networkRules[i]))
    decreases n
  {
    if n > 0 {
      var before, r := InsertAll(db, now, input, n - 1), SessionRule(now, input, input.networkRules[n - 1]);
      InsertAllGrows(db, now, input, n - 1);
      InsertGrows(before, r, input.sessionID);
      forall i | 0 <= i < n - 1 ensures KeyThere(InsertOrIgnore(before, r).rules, SessionRule(now, input, input.networkRules[i])) {
        KeyStays(before.rules, InsertOrIgnore(before, r).rules, input.sessionID, SessionRule(now, input, input.networkRules[i]));
      }
    }
  }

  lemma KeyStays(rules: map<nat, Rule>, more: map<nat, Rule>, id: string, r: Rule)
    requires OnlyAdded(rules, more, id) && KeyThere(rules, r)
    ensures KeyThere(more, r)
  {
    if KnownAction(r.action) {
      var k :| k in rules && KeyOf(rules[k]) == KeyOf(r);
      assert k in more && KeyOf(more[k]) == KeyOf(r);
    }
  }

  lemma InsertGrows(db: Db, r: Rule, id: string)
    requires FreshRows(db) && OfSession(r, id)
    ensures var t := InsertOrIgnore(db, r); FreshRows(t) && OnlyAdded(db.rules, t.rules, id) && KeyThere(t.rules, r)
  {
    var t := InsertOrIgnore(db, r);
    if KnownAction(r.action) && !HasKey(db.rules, KeyOf(r)) {
      assert db.nextRule in t.rules && KeyOf(t.rules[db.nextRule]) == KeyOf(r);
    }
  }

  ghost predicate OwnsKey(rules: map<nat, Rule>, id: string, k: Key) {
    exists r <- rules :: KeyOf(rules[r]) == k && OfSession(rules[r], id)
  }

  /**
    After an upsert every well-formed network rule's key is in the table, but it
    belongs to this session exactly when no row of anyone else held the key: a
    global rule, or a rule of another session even if that session is not the
    one in force, keeps it.
   */
  lemma NetworkRuleInstalled(db: Db, now: int, input: SessionInput, i: nat)
    requires Ok(db) && i < |input.networkRules|
    requires KnownAction(SessionRule(now, input, input.networkRules[i]).action)
    ensures var t := CreateOrUpdateSession(db, now, input);
      var k := KeyOf(SessionRule(now, input, input.networkRules[i]));
      HasKey(t.rules, k) && (OwnsKey(t.rules, input.sessionID, k) <==> !HasKey(DropRulesOf(db.rules, input.sessionID), k))
  {
    var up := UpsertSession(db, now, input);
    var cleared := up.(rules := DropRulesOf(up.rules, input.sessionID));
    var r := SessionRule(now, input, input.networkRules[i]);
    assert FreshRows(cleared) && forall k <- cleared.rules :: RuleOk(db.rules[k], db.sessions);
    assert KeysOnce(cleared.rules);
    KeyIsOwn(cleared, now, input, r, i);
  }

  lemma KeyIsOwn(cleared: Db, now: int, input: SessionInput, r: Rule, i: nat)
    requires FreshRows(cleared) && input.sessionID in cleared.sessions && i < |input.networkRules|
    requires forall k <- cleared.rules :: !OfSession(cleared.rules[k], input.sessionID)
    requires r == SessionRule(now, input, input.networkRules[i]) && KnownAction(r.action) && Ok(cleared)
    ensures var t := InsertAll(cleared, now, input, |input.networkRules|);
      HasKey(t.rules, KeyOf(r)) && (OwnsKey(t.rules, input.sessionID, KeyOf(r)) <==> !HasKey(cleared.rules, KeyOf(r)))
  {
    var n := |input.networkRules|;
    var t := InsertAll(cleared, now, input, n);
    InsertAllGrows(cleared, now, input, n);
    InsertAllKeepsOk(cleared, now, input, n);
    assert KeyThere(t.rules, r);
    if k0 :| k0 in cleared.rules && KeyOf(cleared.rules[k0]) == KeyOf(r) {
      assert k0 in t.rules && t.rules[k0] == cleared.rules[k0];
    } else {
      var k1 :| k1 in t.rules && KeyOf(t.rules[k1]) == KeyOf(r);
      assert k1 !in cleared.rules;
    }
  }

  // ----- What each operation leaves in the tables -----

  /** All but one session's row, and all rules but that session's, are untouched. */
  ghost predicate OthersKept(db: Db, t: Db, id: string) {
    (forall o :: o != id ==> (o in t.sessions <==> o in db.sessions) && (o in db.sessions ==> t.sessions[o] == db.sessions[o])) &&
    (forall k :: k in db.rules && db.rules[k].sessionID != Some(id) ==> k in t.rules && t.rules[k] == db.rules[k]) &&
    (forall k :: k in t.rules && t.rules[k].sessionID != Some(id) ==> k in db.rules && t.rules[k] == db.rules[k])
  }

  /**
    A heartbeat of an unexpired session moves its expiry, and that of its rules,
    to its lifetime from now, and nothing else; any other heartbeat does nothing.
   */
  lemma HeartbeatExtends(db: Db, now: int, id: string)
    ensures id !in db.sessions || db.sessions[id].expiresAt <= now ==> HeartbeatSession(db, now, id) == db
    ensures id in db.sessions && db.sessions[id].expiresAt > now ==>
      var t := HeartbeatSession(db, now, id);
      OthersKept(db, t, id) && id in t.sessions && t.rules.Keys == db.rules.Keys &&
      t.sessions[id].expiresAt == now + db.sessions[id].ttl &&
      t.sessions[id] == db.sessions[id].(expiresAt := t.sessions[id].expiresAt) &&
      forall k :: k in t.rules && t.rules[k].sessionID == Some(id) ==>
        t.rules[k] == db.rules[k].(expiresAt := Some(now + db.sessions[id].ttl))
  {
  }

  /** Deleting a session takes its row and its rules, and nothing else. */
  lemma DeleteTakesOnly(db: Db, id: string)
    ensures var t := DeleteSession(db, id);
      OthersKept(db, t, id) && id !in t.sessions && forall k :: k in t.rules ==> t.rules[k].sessionID != Some(id)
  {
  }

  /** The rule is of no stored session, or of one that has not expired. */
  predicate OwnerUnexpired(db: Db, r: Rule, now: int) {
    r.sessionID.Some? && r.sessionID.value in db.sessions ==> db.sessions[r.sessionID.value].expiresAt > now
  }

  /** The sweep keeps exactly the sessions that have not expired, and exactly the rules of no swept session. */
  lemma SweepTakesOnlyExpired(db: Db, now: int)
    ensures var t := DeleteExpiredSessions(db, now);
      forall id :: id in t.sessions <==> id in db.sessions && db.sessions[id].expiresAt > now
    ensures var t := DeleteExpiredSessions(db, now); forall id <- t.sessions :: t.sessions[id] == db.sessions[id]
    ensures forall k :: k in DeleteExpiredSessions(db, now).rules <==> (k in db.rules && OwnerUnexpired(db, db.rules[k], now))
    ensures var t := DeleteExpiredSessions(db, now); forall k <- t.rules :: t.rules[k] == db.rules[k]
    ensures forall id :: id in ExpiredIds(db, now) <==> id in db.sessions && db.sessions[id].expiresAt <= now
  {
  }

  /**
    The row of an upsert: what was asked for, expiring its lifetime from now (900
    seconds when none is given), created now unless it was there before.
   */
  lemma UpsertStores(db: Db, now: int, input: SessionInput)
    requires FreshRows(db)
    ensures var t := CreateOrUpdateSession(db, now, input); OthersKept(db, t, input.sessionID) && input.sessionID in t.sessions
    ensures var s := CreateOrUpdateSession(db, now, input).sessions[input.sessionID];
      s.container == input.container && s.mappings == input.mappings && s.labels == input.labels && s.allowAll == input.allowAll &&
      s.ttl == (if input.ttl > 0 then input.ttl else 900) && s.expiresAt == now + s.ttl
    ensures var s := CreateOrUpdateSession(db, now, input).sessions[input.sessionID];
      (input.sessionID !in db.sessions ==> s.createdAt == now) &&
      (input.sessionID in db.sessions ==> s.createdAt == db.sessions[input.sessionID].createdAt)
  {
    var up := UpsertSession(db, now, input);
    var cleared := up.(rules := DropRulesOf(up.rules, input.sessionID));
    InsertAllSessions(cleared, now, input, |input.networkRules|);
    InsertAllGrows(cleared, now, input, |input.networkRules|);
  }

  /**
    Every rule an upsert leaves its session with is one of those asked for: for
    the session's container, any port and "allow" unless said otherwise, signed
    with the session, expiring with it.
   */
  lemma UpsertInstalls(db: Db, now: int, input: SessionInput, k: nat) returns (i: nat)
    requires FreshRows(db)
    requires k in CreateOrUpdateSession(db, now, input).rules
    requires CreateOrUpdateSession(db, now, input).rules[k].sessionID == Some(input.sessionID)
    ensures i < |input.networkRules|
    ensures var r, asked := CreateOrUpdateSession(db, now, input).rules[k], input.networkRules[i];
      r.container == input.container && r.dest == asked.dest && r.createdBy == "session:" + input.sessionID &&
      r.port == (if asked.port != "" then asked.port else "*") && r.action == (if asked.action != "" then asked.action else "allow") &&
      r.expiresAt == Some(now + if input.ttl > 0 then input.ttl else 900)
  {
    var up := UpsertSession(db, now, input);
    var cleared := up.(rules := DropRulesOf(up.rules, input.sessionID));
    InsertAllGrows(cleared, now, input, |input.networkRules|);
    i := InstalledFrom(cleared, now, input, |input.networkRules|, k);
  }

  lemma {:induction false} InstalledFrom(db: Db, now: int, input: SessionInput, n: nat, k: nat) returns (i: nat)
    requires FreshRows(db) && n <= |input.networkRules| && k !in db.rules && k in InsertAll(db, now, input, n).rules
    ensures i < n && InsertAll(db, now, input, n).rules[k] == SessionRule(now, input, input.networkRules[i])
  {
    InsertAllGrows(db, now, input, n - 1);
    if k in InsertAll(db, now, input, n - 1).rules { i := InstalledFrom(db, now, input, n - 1, k); } else { i := n - 1; }
  }

  predicate UnderKey(r: Rule, k: Key) {
    r.container == k.container && r.dest == k.dest && r.port == k.port && r.action == k.action
  }

  /** The key asked for: any port and "allow" unless said otherwise. */
  function KeyAsked(input: RuleInput): Key {
    Key(input.container, input.dest, if input.port == "" then "*" else input.port, if input.action == "" then "allow" else input.action)
  }

  /**
    A rule asked for by hand is added as asked, of no session, by "admin" unless
    signed, for any port and allowing unless said otherwise, exactly when no live
    row holds its key; only expired rows under that key go.
   */
  lemma RuleAdded(db: Db, now: int, input: RuleInput)
    requires FreshRows(db)
    ensures CreateRule(db, now, input).sessions == db.sessions
    ensures forall id <- db.rules :: id in CreateRule(db, now, input).rules ==> CreateRule(db, now, input).rules[id] == db.rules[id]
    ensures forall id <- db.rules ::
      id !in CreateRule(db, now, input).rules ==> UnderKey(db.rules[id], KeyAsked(input)) && !Live(db.rules[id].expiresAt, now)
    ensures (exists id :: id in CreateRule(db, now, input).rules && id !in db.rules) <==>
      (KnownAction(KeyAsked(input).action) &&
       forall id <- db.rules :: UnderKey(db.rules[id], KeyAsked(input)) ==> !Live(db.rules[id].expiresAt, now))
    ensures forall id :: id in CreateRule(db, now, input).rules && id !in db.rules ==>
      AddedAsAsked(CreateRule(db, now, input).rules[id], now, input)
  {
    var r := InputRule(now, input);
    var rest := DropExpiredAt(db.rules, KeyOf(r), now);
    forall id | id in db.rules && UnderKey(db.rules[id], KeyOf(r)) && Live(db.rules[id].expiresAt, now) ensures HasKey(rest, KeyOf(r)) {
      assert id in rest && rest[id] == db.rules[id];
    }
    if KnownAction(r.action) && !HasKey(rest, KeyOf(r)) {
      assert db.nextRule in CreateRule(db, now, input).rules && db.nextRule !in db.rules;
    }
  }

  predicate AddedAsAsked(r: Rule, now: int, input: RuleInput) {
    r.container == input.container && r.dest == input.dest && r.sessionID.None? &&
    r.port == (if input.port == "" then "*" else input.port) && r.action == (if input.action == "" then "allow" else input.action) &&
    r.createdBy == (if input.createdBy == "" then "admin" else input.createdBy) &&
    r.expiresAt == if input.ttl.Some? && input.ttl.value > 0 then Some(now + input.ttl.value) else None
  }

  /** The row with the columns an edit names replaced. */
  predicate EditedAs(r: Rule, p: RulePatch, u: Rule) {
    u.sessionID == r.sessionID && u.createdBy == r.createdBy &&
    u.container == (if p.container.Some? then p.container.value else r.container) &&
    u.dest == (if p.dest.Some? then p.dest.value else r.dest) && u.port == (if p.port.Some? then p.port.value else r.port) &&
    u.action == (if p.action.Some? then p.action.value else r.action) &&
    u.expiresAt == if p.expiresAt.Some? then p.expiresAt.value else r.expiresAt
  }

  /**
    An edit changes exactly the columns it names, of exactly its row, unless the
    edited row would have an unknown action or the key of another row.
   */
  lemma RuleEdited(db: Db, id: nat, p: RulePatch, u: Rule)
    requires id in db.rules && EditedAs(db.rules[id], p, u)
    ensures var t := UpdateRule(db, id, p);
      t.sessions == db.sessions && t.rules.Keys == db.rules.Keys && forall k <- db.rules :: k != id ==> t.rules[k] == db.rules[k]
    ensures UpdateRule(db, id, p).rules[id] ==
      if (u.action == "allow" || u.action == "deny") && (forall k <- db.rules :: k != id ==> !UnderKey(db.rules[k], KeyOf(u)))
      then u else db.rules[id]
  {
    assert Patched(db.rules[id], p) == u;
    var rest := db.rules - {id};
    forall k <- db.rules | k != id && UnderKey(db.rules[k], KeyOf(u)) ensures HasKey(rest, KeyOf(u)) {
      assert k in rest && KeyOf(rest[k]) == KeyOf(u);
    }
    if HasKey(rest, KeyOf(u)) {
      var k :| k in rest && KeyOf(rest[k]) == KeyOf(u);
      assert k in db.rules && k != id && UnderKey(db.rules[k], KeyOf(u));
    }
  }

  /** Deleting a rule takes exactly its row. */
  lemma RuleRemoved(db: Db, id: nat)
    ensures var t := DeleteRule(db, id);
      id !in t.rules && t.sessions == db.sessions && forall k :: k != id ==> (k in t.rules <==> k in db.rules)
    ensures forall k :: k in db.rules && k != id ==> DeleteRule(db, id).rules[k] == db.rules[k]
  {
  }
}
