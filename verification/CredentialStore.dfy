/**
  The credential store's methods as the code runs them on its three mutable
  maps, each proved equal to its memory operation. The mutex makes each call
  one step; a loop over a map visits its keys in any order.
 */
module CredentialStore {
  import opened SessionTables
  import opened CredentialCache

  class Store {
    var lookup: map<string, string>
    var owner: map<string, string>
    var labels: map<string, string>

    constructor ()
      ensures View() == NO_MEM
    {
      lookup, owner, labels := map[], map[], map[];
    }

    function View(): Mem
      reads this
    {
      Mem(lookup, owner, labels)
    }

    /** `loadFromDB`: unexpired sessions first, then every global credential. */
    method LoadFromDb(db: Db, globals: Globals, now: int, sessionOrder: seq<string>, globalOrder: seq<string>)
      requires View() == NO_MEM
      modifies this
      ensures View() == LoadGlobals(globals, globalOrder, |globalOrder|, LoadSessions(db, now, sessionOrder, |sessionOrder|))
    {
      var i := 0;
      while i < |sessionOrder|
        invariant 0 <= i <= |sessionOrder|
        invariant View() == LoadSessions(db, now, sessionOrder, i)
      {
        var sid := sessionOrder[i];
        if sid in db.sessions && db.sessions[sid].expiresAt >= now {
          AddAll(sid, db.sessions[sid]);
        }
        i := i + 1;
      }
      i := 0;
      ghost var loaded := View();
      while i < |globalOrder|
        invariant 0 <= i <= |globalOrder|
        invariant View() == LoadGlobals(globals, globalOrder, i, loaded)
      {
        if globalOrder[i] in globals {
          var g := globals[globalOrder[i]];
          RegisterGlobalCredential(g.placeholder, g.secret, g.name);
        }
        i := i + 1;
      }
    }

    /** The loop over a session's mappings, shared by loading and registering. */
    method AddAll(sid: string, s: Session)
      modifies this
      ensures View() == AddMappings(old(View()), sid, s)
    {
      var todo := s.mappings.Keys;
      ghost var start, done := View(), {};
      AddedNone(start, sid, s);
      while todo != {}
        invariant done == s.mappings.Keys - todo && todo <= s.mappings.Keys
        invariant Added(start, sid, s, done, View())
        decreases |todo|
      {
        var p :| p in todo;
        AddPlaceholder(start, sid, s, done, View(), p);
        lookup := lookup[p := s.mappings[p]];
        owner := owner[p := sid];
        if p in s.labels { labels := labels[p := s.labels[p]]; }
        todo, done := todo - {p}, done + {p};
      }
      assert done == s.mappings.Keys;
      AddedAll(start, sid, s, View());
    }

    /** `removeSessionLocked`: deletes from the map it is ranging over, which skips nothing still present. */
    method RemoveSessionLocked(sid: string)
      modifies this
      ensures View() == RemoveSession(old(View()), sid)
    {
      var todo := owner.Keys;
      ghost var start := View();
      while todo != {}
        invariant todo <= start.owner.Keys
        invariant Dropped(start, OwnedBy(start, sid) - todo, View())
        decreases |todo|
      {
        var p :| p in todo;
        DropPlaceholder(start, sid, todo, View(), p);
        if owner[p] == sid {
          lookup, owner, labels := lookup - {p}, owner - {p}, labels - {p};
        }
        todo := todo - {p};
      }
      assert OwnedBy(start, sid) - todo == OwnedBy(start, sid);
    }

    /** `RegisterSession`: the session's old entries go first. */
    method RegisterSession(sid: string, s: Session)
      modifies this
      ensures View() == CredentialCache.RegisterSession(old(View()), sid, s)
    {
      RemoveSessionLocked(sid);
      AddAll(sid, s);
    }

    method RegisterGlobalCredential(placeholder: string, value: string, name: string)
      modifies this
      ensures View() == RegisterGlobal(old(View()), Global(name, placeholder, value))
    {
      lookup := lookup[placeholder := value];
      labels := labels[placeholder := name];
    }

    method UnregisterGlobalCredential(placeholder: string)
      modifies this
      ensures View() == UnregisterGlobal(old(View()), placeholder)
    {
      lookup := lookup - {placeholder};
      labels := labels - {placeholder};
    }

    /** The loop of `cleanup` over the ids the database deletion returned. */
    method RemoveExpired(ids: seq<string>)
      modifies this
      ensures View() == RemoveAll(old(View()), ids)
    {
      var i := 0;
      while i < |ids|
        invariant 0 <= i <= |ids|
        invariant View() == RemoveAll(old(View()), ids[..i])
      {
        RemoveSessionLocked(ids[i]);
        assert ids[..i + 1][..i] == ids[..i];
        i := i + 1;
      }
      assert ids[..i] == ids;
    }
  }

  /** A map cut down to the keys of `done`. */
  ghost function Part(m: map<string, string>, done: set<string>): map<string, string> {
    map p | p in m && p in done :: m[p]
  }

  /** From `start` to `m`, the placeholders of `done` were loaded for the session. */
  ghost predicate Added(start: Mem, sid: string, s: Session, done: set<string>, m: Mem) {
    m.lookup == start.lookup + Part(s.mappings, done) &&
    m.owner == start.owner + (map p | p in done :: sid) &&
    m.labels == start.labels + Part(s.labels, done)
  }

  lemma PartOneMore(start: map<string, string>, m: map<string, string>, done: set<string>, p: string)
    ensures start + Part(m, done + {p}) ==
            if p in m then (start + Part(m, done))[p := m[p]] else start + Part(m, done)
  {
  }

  lemma AddPlaceholder(start: Mem, sid: string, s: Session, done: set<string>, m: Mem, p: string)
    requires Added(start, sid, s, done, m) && p in s.mappings
    ensures Added(start, sid, s, done + {p},
                  Mem(m.lookup[p := s.mappings[p]], m.owner[p := sid], if p in s.labels then m.labels[p := s.labels[p]] else m.labels))
  {
    PartOneMore(start.lookup, s.mappings, done, p);
    PartOneMore(start.labels, s.labels, done, p);
  }

  lemma AddedNone(start: Mem, sid: string, s: Session)
    ensures Added(start, sid, s, {}, start)
  {
    assert Part(s.mappings, {}) == map[] && Part(s.labels, {}) == map[];
  }

  lemma AddedAll(start: Mem, sid: string, s: Session, m: Mem)
    requires Added(start, sid, s, s.mappings.Keys, m)
    ensures m == AddMappings(start, sid, s)
  {
    assert Part(s.mappings, s.mappings.Keys) == s.mappings;
    assert (map p | p in s.mappings.Keys :: sid) == map p | p in s.mappings :: sid;
    assert Part(s.labels, s.mappings.Keys) == map p | p in s.mappings && p in s.labels :: s.labels[p];
  }

  /** From `start` to `m`, exactly the placeholders of `gone` left. */
  ghost predicate Dropped(start: Mem, gone: set<string>, m: Mem) {
    m.lookup == start.lookup - gone && m.owner == start.owner - gone && m.labels == start.labels - gone
  }

  lemma DropPlaceholder(start: Mem, sid: string, todo: set<string>, m: Mem, p: string)
    requires Dropped(start, OwnedBy(start, sid) - todo, m) && p in todo && p in start.owner
    ensures p in m.owner
    ensures Dropped(start, OwnedBy(start, sid) - (todo - {p}),
                    if m.owner[p] == sid then Mem(m.lookup - {p}, m.owner - {p}, m.labels - {p}) else m)
  {
    assert OwnedBy(start, sid) - (todo - {p}) ==
      if start.owner[p] == sid then (OwnedBy(start, sid) - todo) + {p} else OwnedBy(start, sid) - todo;
  }
}
