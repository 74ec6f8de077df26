/**
  The session and rule operations as the code performs them, statement by
  statement on mutable tables, each proved equal to its table function.
 */
module SessionStore {
  import opened Common
  import opened SessionTables

  class Store {
    var sessions: map<string, Session>
    var rules: map<nat, Rule>
    var nextRule: nat
    var nextRow: nat

    constructor ()
      ensures View() == EMPTY
    {
      sessions, rules, nextRule, nextRow := map[], map[], 0, 0;
    }

    function View(): Db
      reads this
    {
      Db(sessions, rules, nextRule, nextRow)
    }

    method InsertIgnore(r: Rule)
      modifies this
      ensures View() == InsertOrIgnore(old(View()), r)
    {
      if !HasKey(rules, KeyOf(r)) && KnownAction(r.action) {
        rules := rules[nextRule := r];
        nextRule := nextRule + 1;
      }
    }

    /** `CreateOrUpdateSession`: upsert the row, drop the session's old rules, insert the new ones. */
    method CreateSession(now: int, input: SessionInput)
      modifies this
      ensures View() == CreateOrUpdateSession(old(View()), now, input)
    {
      var row := UpsertRow(View(), now, input);
      if input.sessionID !in sessions { nextRow := nextRow + 1; }
      sessions := sessions[input.sessionID := row];
      rules := DropRulesOf(rules, input.sessionID);
      ghost var cleared := View();
      var i := 0;
      while i < |input.networkRules|
        invariant 0 <= i <= |input.networkRules|
        invariant View() == InsertAll(cleared, now, input, i)
      {
        InsertIgnore(SessionRule(now, input, input.networkRules[i]));
        i := i + 1;
      }
    }

    /** `HeartbeatSession`; `found` is false for a missing or expired session. */
    method Heartbeat(now: int, id: string) returns (found: bool)
      modifies this
      ensures View() == HeartbeatSession(old(View()), now, id)
      ensures found <==> id in old(sessions) && old(sessions)[id].expiresAt > now
    {
      if id !in sessions || sessions[id].expiresAt <= now {
        return false;
      }
      var expiresAt := now + sessions[id].ttl;
      sessions := sessions[id := sessions[id].(expiresAt := expiresAt)];
      rules := map k | k in rules ::
        if OfSession(rules[k], id) then rules[k].(expiresAt := Some(expiresAt)) else rules[k];
      found := true;
    }

    method Delete(id: string) returns (deleted: bool)
      modifies this
      ensures View() == DeleteSession(old(View()), id) && deleted == (id in old(sessions))
    {
      rules := DropRulesOf(rules, id);
      deleted := id in sessions;
      sessions := sessions - {id};
    }

    /** `DeleteExpiredSessions`: collect the ids, drop each one's rules, then delete the rows with the same cutoff. */
    method DeleteExpired(now: int) returns (ids: set<string>)
      modifies this
      ensures View() == DeleteExpiredSessions(old(View()), now) && ids == ExpiredIds(old(View()), now)
    {
      ids := ExpiredIds(View(), now);
      ghost var start := rules;
      var todo := ids;
      while todo != {}
        invariant todo <= ids
        invariant sessions == old(sessions) && nextRule == old(nextRule) && nextRow == old(nextRow)
        invariant rules == DropRulesOfAll(start, ids - todo)
        decreases |todo|
      {
        var id :| id in todo;
        DropOneMore(start, ids - todo, id);
        assert ids - (todo - {id}) == (ids - todo) + {id};
        rules := DropRulesOf(rules, id);
        todo := todo - {id};
      }
      sessions := sessions - ids;
    }

    /** `CreateRule`: `id` is the row now under the key, new or already there; None is the constraint error. */
    method AddRule(now: int, input: RuleInput) returns (id: Option<nat>)
      modifies this
      ensures View() == CreateRule(old(View()), now, input)
      ensures match id
        case Some(k) => k in rules && KeyOf(rules[k]) == KeyOf(InputRule(now, input))
        case None => !HasKey(rules, KeyOf(InputRule(now, input)))
    {
      var r := InputRule(now, input);
      rules := DropExpiredAt(rules, KeyOf(r), now);
      if HasKey(rules, KeyOf(r)) {
        var k :| k in rules && KeyOf(rules[k]) == KeyOf(r);
        return Some(k);
      }
      if !KnownAction(r.action) {
        return None;
      }
      rules := rules[nextRule := r];
      id := Some(nextRule);
      nextRule := nextRule + 1;
    }

    method EditRuleRow(id: nat, p: RulePatch) returns (ok: bool)
      modifies this
      ensures View() == UpdateRule(old(View()), id, p)
      ensures !ok ==> View() == old(View())
    {
      if id !in rules { return true; }
      var r := Patched(rules[id], p);
      if !KnownAction(r.action) || HasKey(rules - {id}, KeyOf(r)) { return false; }
      rules := rules[id := r];
      ok := true;
    }

    method RemoveRuleRow(id: nat) returns (deleted: bool)
      modifies this
      ensures View() == DeleteRule(old(View()), id) && deleted == (id in old(rules))
    {
      deleted := id in rules;
      rules := rules - {id};
    }
  }
}
