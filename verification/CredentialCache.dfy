/**
  The in-memory credential store of credential_store.go against the stored
  sessions and global credentials, across every completed operation.

  Stored values are modelled decrypted: encryption and decryption are an inverse
  pair under one key, and JSON coding of the maps loses nothing.
 */
module CredentialCache {
  import opened Common
  import opened SessionTables

  datatype Global = Global(name: string, placeholder: string, secret: string)

  /** `lookup`, `sessionMap` and `labelsMap`. */
  datatype Mem = Mem(lookup: map<string, string>, owner: map<string, string>, labels: map<string, string>)

  const NO_MEM := Mem(map[], map[], map[])

  datatype Sys = Sys(db: Db, globals: map<string, Global>, mem: Mem)

  // ----- Memory operations -----

  function OwnedBy(m: Mem, sid: string): set<string> { set p | p in m.owner && m.owner[p] == sid }

  function RemoveSession(m: Mem, sid: string): Mem {
    var gone := OwnedBy(m, sid);
    Mem(m.lookup - gone, m.owner - gone, m.labels - gone)
  }

  function AddMappings(m: Mem, sid: string, s: Session): Mem {
    Mem(m.lookup + s.mappings,
        m.owner + (map p | p in s.mappings :: sid),
        m.labels + (map p | p in s.mappings && p in s.labels :: s.labels[p]))
  }

  function RegisterSession(m: Mem, sid: string, s: Session): Mem { AddMappings(RemoveSession(m, sid), sid, s) }

  function RegisterGlobal(m: Mem, g: Global): Mem {
    m.(lookup := m.lookup[g.placeholder := g.secret], labels := m.labels[g.placeholder := g.name])
  }

  function UnregisterGlobal(m: Mem, placeholder: string): Mem {
    m.(lookup := m.lookup - {placeholder}, labels := m.labels - {placeholder})
  }

  /** The session loop of `loadFromDB`, over the first `n` rows in the order the query returns them. */
  function LoadSessions(db: Db, now: int, order: seq<string>, n: nat): Mem
    requires n <= |order|
  {
    if n == 0 then NO_MEM
    else
      var m := LoadSessions(db, now, order, n - 1);
      var sid := order[n - 1];
      if sid in db.sessions && db.sessions[sid].expiresAt >= now then AddMappings(m, sid, db.sessions[sid]) else m
  }

  function LoadGlobals(globals: map<string, Global>, order: seq<string>, n: nat, m: Mem): Mem
    requires n <= |order|
  {
    if n == 0 then m
    else
      var before := LoadGlobals(globals, order, n - 1, m);
      if order[n - 1] in globals then RegisterGlobal(before, globals[order[n - 1]]) else before
  }

  function RemoveAll(m: Mem, ids: seq<string>): Mem {
    if |ids| == 0 then m else RemoveSession(RemoveAll(m, ids[..|ids| - 1]), ids[|ids| - 1])
  }

  // ----- Completed operations: database first, then memory -----

  datatype Op =
    | CreateSession(input: SessionInput)
    | HeartbeatOp(id: string)
    | DeleteOp(id: string)
    | Cleanup(order: seq<string>)
    | CreateGlobal(id: string, g: Global)
    | DeleteGlobal(id: string)
    | Restart(sessionOrder: seq<string>, globalOrder: seq<string>)

  function Apply(s: Sys, now: int, op: Op): Sys {
    match op
    case CreateSession(input) =>
      var db := CreateOrUpdateSession(s.db, now, input);
      s.(db := db, mem := RegisterSession(s.mem, input.sessionID, UpsertRow(s.db, now, input)))
    case HeartbeatOp(id) => s.(db := HeartbeatSession(s.db, now, id))
    case DeleteOp(id) =>
      s.(db := DeleteSession(s.db, id), mem := if id in s.db.sessions then RemoveSession(s.mem, id) else s.mem)
    case Cleanup(order) => s.(db := DeleteExpiredSessions(s.db, now), mem := RemoveAll(s.mem, order))
    case CreateGlobal(id, g) => s.(globals := s.globals[id := g], mem := RegisterGlobal(s.mem, g))
    case DeleteGlobal(id) =>
      if id in s.globals then s.(globals := s.globals - {id}, mem := UnregisterGlobal(s.mem, s.globals[id].placeholder)) else s
    case Restart(so, go) =>
      s.(mem := LoadGlobals(s.globals, go, |go|, LoadSessions(s.db, now, so, |so|)))
  }

  /** `order` lists exactly the members of `ids`. */
  ghost predicate Lists(order: seq<string>, ids: set<string>) { forall id :: id in order <==> id in ids }

  /**
    What a completed operation may be: a session's placeholders belong to no
    other stored session and to no global credential; a new global row has a
    fresh id and a placeholder nobody uses; loops visit exactly the rows.
   */
  ghost predicate Allowed(s: Sys, now: int, op: Op) {
    match op
    case CreateSession(input) =>
      (forall o <- s.db.sessions :: o != input.sessionID ==> s.db.sessions[o].mappings.Keys !! input.mappings.Keys) &&
      (forall g <- s.globals :: s.globals[g].placeholder !in input.mappings)
    case CreateGlobal(id, g) =>
      id !in s.globals && (forall o <- s.globals :: s.globals[o].placeholder != g.placeholder) &&
      (forall o <- s.db.sessions :: g.placeholder !in s.db.sessions[o].mappings)
    case Cleanup(order) => Lists(order, ExpiredIds(s.db, now))
    case Restart(so, go) => Lists(so, s.db.sessions.Keys) && Lists(go, s.globals.Keys)
    case _ => true
  }

  // ----- Agreement -----

  type Sessions = map<string, Session>
  type Globals = map<string, Global>

  ghost predicate Distinct(ss: Sessions, gs: Globals) {
    (forall a, b | a in ss && b in ss && a != b :: ss[a].mappings.Keys !! ss[b].mappings.Keys) &&
    (forall a, g | a in ss && g in gs :: gs[g].placeholder !in ss[a].mappings) &&
    (forall g, h | g in gs && h in gs && gs[g].placeholder == gs[h].placeholder :: g == h)
  }

  /** Memory holds placeholder `p` of session `sid` exactly as stored. */
  predicate Resolves(m: Mem, sid: string, s: Session, p: string) {
    p in s.mappings &&
    p in m.lookup && m.lookup[p] == s.mappings[p] && p in m.owner && m.owner[p] == sid &&
    (p in s.labels <==> p in m.labels) && (p in s.labels ==> m.labels[p] == s.labels[p])
  }

  ghost predicate SessionLoaded(m: Mem, sid: string, s: Session) {
    forall p <- s.mappings :: Resolves(m, sid, s, p)
  }

  predicate GlobalLoaded(m: Mem, g: Global) {
    g.placeholder in m.lookup && m.lookup[g.placeholder] == g.secret && g.placeholder !in m.owner &&
    g.placeholder in m.labels && m.labels[g.placeholder] == g.name
  }

  predicate GlobalPlaceholder(gs: Globals, p: string) { exists g <- gs :: gs[g].placeholder == p }

  /** Whatever memory says of `p` has a stored row behind it. */
  predicate BackedAt(ss: Sessions, gs: Globals, m: Mem, p: string) {
    (p in m.owner ==> m.owner[p] in ss && Resolves(m, m.owner[p], ss[m.owner[p]], p)) &&
    (p in m.lookup && p !in m.owner ==> GlobalPlaceholder(gs, p)) &&
    (p in m.labels ==> p in m.lookup)
  }

  /**
    Agreement at a moment: every placeholder of an unexpired session row and of
    a global row resolves to its stored value, and nothing resolves unbacked.
   */
  ghost predicate Agree(ss: Sessions, gs: Globals, m: Mem, now: int) {
    (forall sid <- ss :: ss[sid].expiresAt > now ==> SessionLoaded(m, sid, ss[sid])) &&
    (forall g <- gs :: GlobalLoaded(m, gs[g])) &&
    (forall p :: BackedAt(ss, gs, m, p))
  }

  ghost predicate Good(s: Sys, now: int) {
    Distinct(s.db.sessions, s.globals) && Agree(s.db.sessions, s.globals, s.mem, now)
  }

  /** Memory says the same of `p` before and after. */
  predicate SameAt(m: Mem, n: Mem, p: string) {
    (p in m.lookup <==> p in n.lookup) && (p in m.lookup ==> m.lookup[p] == n.lookup[p]) &&
    (p in m.owner <==> p in n.owner) && (p in m.owner ==> m.owner[p] == n.owner[p]) &&
    (p in m.labels <==> p in n.labels) && (p in m.labels ==> m.labels[p] == n.labels[p])
  }

  /** Memory says nothing of `p`. */
  predicate Absent(m: Mem, p: string) { p !in m.lookup && p !in m.owner && p !in m.labels }

  // ----- Dropping sessions -----

  /** Dropping rows of `gone` from the table and their entries from memory keeps agreement. */
  lemma DropAgrees(ss: Sessions, gs: Globals, m: Mem, now: int, gone: set<string>, n: Mem)
    requires Distinct(ss, gs) && Agree(ss, gs, m, now)
    requires forall p :: if p in m.owner && m.owner[p] in gone then Absent(n, p) else SameAt(m, n, p)
    ensures Distinct(ss - gone, gs) && Agree(ss - gone, gs, n, now)
  {
    var left := ss - gone;
    forall sid | sid in left && left[sid].expiresAt > now ensures SessionLoaded(n, sid, left[sid]) {
      assert SessionLoaded(m, sid, ss[sid]);
      forall p | p in ss[sid].mappings ensures Resolves(n, sid, ss[sid], p) {
        assert Resolves(m, sid, ss[sid], p);
      }
    }
    forall g | g in gs ensures GlobalLoaded(n, gs[g]) {
      assert GlobalLoaded(m, gs[g]);
    }
    forall p ensures BackedAt(left, gs, n, p) {
      assert BackedAt(ss, gs, m, p);
    }
  }

  /** Removing a list of sessions keeps exactly what no listed session owns. */
  lemma {:induction false} RemoveAllAt(m: Mem, ids: seq<string>, p: string)
    ensures if p in m.owner && m.owner[p] in ids then Absent(RemoveAll(m, ids), p) else SameAt(m, RemoveAll(m, ids), p)
    decreases |ids|
  {
    if |ids| > 0 {
      RemoveAllAt(m, ids[..|ids| - 1], p);
      assert ids == ids[..|ids| - 1] + [ids[|ids| - 1]];
    }
  }

  // ----- Adding a session or a global credential -----

  /** A session row fits beside the others: it is new or the same, and shares no placeholder with anyone else. */
  ghost predicate FitsIn(ss: Sessions, gs: Globals, sid: string, s: Session) {
    (sid in ss ==> ss[sid] == s) &&
    (forall o <- ss :: o != sid ==> ss[o].mappings.Keys !! s.mappings.Keys) &&
    (forall g <- gs :: gs[g].placeholder !in s.mappings)
  }

  lemma FittingKeepsDistinct(ss: Sessions, gs: Globals, sid: string, s: Session)
    requires Distinct(ss, gs) && FitsIn(ss, gs, sid, s)
    ensures Distinct(ss[sid := s], gs)
  {
  }

  /** From `m` to `n`, exactly the placeholders of the session were loaded. */
  ghost predicate Loads(m: Mem, n: Mem, sid: string, s: Session) {
    forall p :: if p in s.mappings then Resolves(n, sid, s, p) else SameAt(m, n, p)
  }

  /** Memory holds no label for a placeholder of a fitting row that the row itself does not give it. */
  lemma NoStrayLabel(ss: Sessions, gs: Globals, m: Mem, sid: string, s: Session, p: string)
    requires FitsIn(ss, gs, sid, s) && BackedAt(ss, gs, m, p) && p in s.mappings
    ensures p in m.labels ==> p in s.labels
  {
    if p in m.owner { assert p in ss[m.owner[p]].mappings.Keys && p in s.mappings.Keys; }
  }

  lemma AddLoads(ss: Sessions, gs: Globals, m: Mem, now: int, sid: string, s: Session)
    requires FitsIn(ss, gs, sid, s) && Agree(ss, gs, m, now)
    ensures Loads(m, AddMappings(m, sid, s), sid, s)
  {
    forall p | p in s.mappings ensures p in m.labels ==> p in s.labels {
      assert BackedAt(ss, gs, m, p);
      NoStrayLabel(ss, gs, m, sid, s, p);
    }
  }

  /** Memory that loaded a fitting row agrees with the table that stores it. */
  lemma LoadedAgrees(ss: Sessions, gs: Globals, m: Mem, now: int, sid: string, s: Session, n: Mem)
    requires Agree(ss, gs, m, now) && FitsIn(ss, gs, sid, s) && Loads(m, n, sid, s)
    ensures Agree(ss[sid := s], gs, n, now)
  {
    var tt := ss[sid := s];
    forall o | o in tt && tt[o].expiresAt > now ensures SessionLoaded(n, o, tt[o]) {
      if o != sid {
        assert SessionLoaded(m, o, ss[o]);
        forall p | p in ss[o].mappings ensures Resolves(n, o, ss[o], p) {
          assert Resolves(m, o, ss[o], p) && p in ss[o].mappings.Keys && SameAt(m, n, p);
        }
      }
    }
    forall g | g in gs ensures GlobalLoaded(n, gs[g]) {
      assert GlobalLoaded(m, gs[g]) && SameAt(m, n, gs[g].placeholder);
    }
    forall p ensures BackedAt(tt, gs, n, p) {
      assert BackedAt(ss, gs, m, p);
      if p !in s.mappings { assert SameAt(m, n, p); }
    }
  }

  /** Loading a session whose placeholders nobody else uses keeps agreement, whether it was stored before or not. */
  lemma AddSessionAgrees(ss: Sessions, gs: Globals, m: Mem, now: int, sid: string, s: Session)
    requires Distinct(ss, gs) && Agree(ss, gs, m, now) && FitsIn(ss, gs, sid, s)
    ensures Distinct(ss[sid := s], gs) && Agree(ss[sid := s], gs, AddMappings(m, sid, s), now)
  {
    FittingKeepsDistinct(ss, gs, sid, s);
    AddLoads(ss, gs, m, now, sid, s);
    LoadedAgrees(ss, gs, m, now, sid, s, AddMappings(m, sid, s));
  }

  lemma AddGlobalAgrees(ss: Sessions, gs: Globals, m: Mem, now: int, id: string, g: Global)
    requires Distinct(ss, gs) && Agree(ss, gs, m, now) && id !in gs
    requires forall o <- gs :: gs[o].placeholder != g.placeholder
    requires forall o <- ss :: g.placeholder !in ss[o].mappings
    ensures Distinct(ss, gs[id := g]) && Agree(ss, gs[id := g], RegisterGlobal(m, g), now)
  {
    var n, hs := RegisterGlobal(m, g), gs[id := g];
    assert BackedAt(ss, gs, m, g.placeholder);
    forall o | o in ss && ss[o].expiresAt > now ensures SessionLoaded(n, o, ss[o]) {
      assert SessionLoaded(m, o, ss[o]);
      forall p | p in ss[o].mappings ensures Resolves(n, o, ss[o], p) { assert Resolves(m, o, ss[o], p); }
    }
    forall o | o in hs ensures GlobalLoaded(n, hs[o]) {
      if o != id { assert GlobalLoaded(m, gs[o]); }
    }
    forall p ensures BackedAt(ss, hs, n, p) {
      assert BackedAt(ss, gs, m, p);
      if p == g.placeholder {
        assert hs[id].placeholder == p;
      } else if GlobalPlaceholder(gs, p) {
        var o :| o in gs && gs[o].placeholder == p;
        assert hs[o].placeholder == p;
      }
    }
  }

  lemma DropGlobalAgrees(ss: Sessions, gs: Globals, m: Mem, now: int, id: string)
    requires Distinct(ss, gs) && Agree(ss, gs, m, now) && id in gs
    ensures Distinct(ss, gs - {id}) && Agree(ss, gs - {id}, UnregisterGlobal(m, gs[id].placeholder), now)
  {
    var q := gs[id].placeholder;
    var n, hs := UnregisterGlobal(m, q), gs - {id};
    assert GlobalLoaded(m, gs[id]);
    forall o | o in ss && ss[o].expiresAt > now ensures SessionLoaded(n, o, ss[o]) {
      assert SessionLoaded(m, o, ss[o]);
      forall p | p in ss[o].mappings ensures Resolves(n, o, ss[o], p) { assert Resolves(m, o, ss[o], p); }
    }
    forall o | o in hs ensures GlobalLoaded(n, hs[o]) { assert GlobalLoaded(m, gs[o]); }
    forall p ensures BackedAt(ss, hs, n, p) {
      assert BackedAt(ss, gs, m, p);
      if p != q && GlobalPlaceholder(gs, p) {
        var o :| o in gs && gs[o].placeholder == p;
        assert o in hs && hs[o].placeholder == p;
      }
    }
  }

  // ----- Each completed operation keeps agreement -----

  lemma DropOneAgrees(ss: Sessions, gs: Globals, m: Mem, now: int, sid: string)
    requires Distinct(ss, gs) && Agree(ss, gs, m, now)
    ensures Distinct(ss - {sid}, gs) && Agree(ss - {sid}, gs, RemoveSession(m, sid), now)
  {
    forall p ensures if p in m.owner && m.owner[p] in {sid} then Absent(RemoveSession(m, sid), p)
                     else SameAt(m, RemoveSession(m, sid), p) {
      assert BackedAt(ss, gs, m, p);
    }
    DropAgrees(ss, gs, m, now, {sid}, RemoveSession(m, sid));
  }

  /** Forgetting a session and then loading a row whose placeholders nobody else uses. */
  lemma ReplaceAgrees(ss: Sessions, gs: Globals, m: Mem, now: int, sid: string, row: Session)
    requires Distinct(ss, gs) && Agree(ss, gs, m, now)
    requires forall o <- ss :: o != sid ==> ss[o].mappings.Keys !! row.mappings.Keys
    requires forall g <- gs :: gs[g].placeholder !in row.mappings
    ensures Distinct(ss[sid := row], gs) && Agree(ss[sid := row], gs, RegisterSession(m, sid, row), now)
  {
    DropOneAgrees(ss, gs, m, now, sid);
    AddSessionAgrees(ss - {sid}, gs, RemoveSession(m, sid), now, sid, row);
    assert (ss - {sid})[sid := row] == ss[sid := row];
  }

  /** An upsert first forgets the session and then loads its new row. */
  lemma CreateSessionAgrees(s: Sys, now: int, input: SessionInput)
    requires Good(s, now) && Allowed(s, now, CreateSession(input))
    ensures Good(Apply(s, now, CreateSession(input)), now)
  {
    var up := UpsertSession(s.db, now, input);
    InsertAllSessions(up.(rules := DropRulesOf(up.rules, input.sessionID)), now, input, |input.networkRules|);
    ReplaceAgrees(s.db.sessions, s.globals, s.mem, now, input.sessionID, UpsertRow(s.db, now, input));
  }

  /** Deleting a session that is not stored leaves memory alone, where it has nothing. */
  lemma DeleteAgrees(s: Sys, now: int, id: string)
    requires Good(s, now)
    ensures Good(Apply(s, now, DeleteOp(id)), now)
  {
    DropOneAgrees(s.db.sessions, s.globals, s.mem, now, id);
    if id !in s.db.sessions { assert s.db.sessions - {id} == s.db.sessions; }
  }

  lemma CleanupAgrees(s: Sys, now: int, order: seq<string>)
    requires Good(s, now) && Allowed(s, now, Cleanup(order))
    ensures Good(Apply(s, now, Cleanup(order)), now)
  {
    var gone := ExpiredIds(s.db, now);
    forall p ensures if p in s.mem.owner && s.mem.owner[p] in gone then Absent(RemoveAll(s.mem, order), p)
                     else SameAt(s.mem, RemoveAll(s.mem, order), p) {
      RemoveAllAt(s.mem, order, p);
    }
    DropAgrees(s.db.sessions, s.globals, s.mem, now, gone, RemoveAll(s.mem, order));
  }

  /** A heartbeat only moves the expiry of a session that is unexpired, hence loaded. */
  lemma HeartbeatAgrees(s: Sys, now: int, id: string)
    requires Good(s, now)
    ensures Good(Apply(s, now, HeartbeatOp(id)), now)
  {
    var ss, tt := s.db.sessions, HeartbeatSession(s.db, now, id).sessions;
    assert tt.Keys == ss.Keys;
    forall o | o in ss ensures tt[o].mappings == ss[o].mappings && tt[o].labels == ss[o].labels {}
    forall o | o in tt && tt[o].expiresAt > now ensures SessionLoaded(s.mem, o, tt[o]) {
      assert SessionLoaded(s.mem, o, ss[o]);
      forall p | p in tt[o].mappings ensures Resolves(s.mem, o, tt[o], p) { assert Resolves(s.mem, o, ss[o], p); }
    }
    forall p ensures BackedAt(tt, s.globals, s.mem, p) { assert BackedAt(ss, s.globals, s.mem, p); }
  }

  // ----- Restart -----

  /** The rows among the first `n` that a restart loads. */
  function LoadedRows(db: Db, now: int, order: seq<string>, n: nat): Sessions
    requires n <= |order|
  {
    map sid | sid in db.sessions && sid in order[..n] && db.sessions[sid].expiresAt >= now :: db.sessions[sid]
  }

  /** The row a restart reads at position `n`, if it loads one there. */
  function RowAt(db: Db, now: int, order: seq<string>, n: nat): Option<string>
    requires n < |order|
  {
    if order[n] in db.sessions && db.sessions[order[n]].expiresAt >= now then Some(order[n]) else None
  }

  function OneMoreRow(ss: Sessions, rows: Sessions, at: Option<string>): Sessions {
    if at.Some? && at.value in ss then rows[at.value := ss[at.value]] else rows
  }

  function OneMoreLoaded(ss: Sessions, m: Mem, at: Option<string>): Mem {
    if at.Some? && at.value in ss then AddMappings(m, at.value, ss[at.value]) else m
  }

  lemma LoadedRowsStep(db: Db, now: int, order: seq<string>, n: nat)
    requires 0 < n <= |order|
    ensures LoadedRows(db, now, order, n) == OneMoreRow(db.sessions, LoadedRows(db, now, order, n - 1), RowAt(db, now, order, n - 1))
  {
    assert order[..n] == order[..n - 1] + [order[n - 1]];
  }

  predicate SameRow(some: Sessions, ss: Sessions, o: string) { o in some && o in ss && some[o] == ss[o] }

  ghost predicate Within(some: Sessions, ss: Sessions) { forall o <- some :: SameRow(some, ss, o) }

  lemma WithinDistinct(some: Sessions, ss: Sessions)
    requires Distinct(ss, map[]) && Within(some, ss)
    ensures Distinct(some, map[])
  {
    assert forall o <- some :: SameRow(some, ss, o);
  }

  /** Loading one more stored row, or none, keeps agreement with the rows loaded so far. */
  lemma LoadRow(ss: Sessions, some: Sessions, m: Mem, now: int, at: Option<string>)
    requires Distinct(ss, map[]) && Within(some, ss) && Agree(some, map[], m, now)
    ensures Agree(OneMoreRow(ss, some, at), map[], OneMoreLoaded(ss, m, at), now)
  {
    if at.Some? && at.value in ss {
      WithinDistinct(some, ss);
      assert forall o <- some :: SameRow(some, ss, o);
      assert FitsIn(some, map[], at.value, ss[at.value]);
      AddSessionAgrees(some, map[], m, now, at.value, ss[at.value]);
    }
  }

  lemma LoadedWithin(db: Db, now: int, order: seq<string>, n: nat)
    requires n <= |order|
    ensures Within(LoadedRows(db, now, order, n), db.sessions)
  {
  }

  lemma LoadSessionsStep(db: Db, now: int, order: seq<string>, n: nat)
    requires 0 < n <= |order|
    ensures LoadSessions(db, now, order, n) == OneMoreLoaded(db.sessions, LoadSessions(db, now, order, n - 1), RowAt(db, now, order, n - 1))
  {
  }

  lemma {:induction false} LoadSessionsAgrees(db: Db, now: int, order: seq<string>, n: nat)
    requires n <= |order| && Distinct(db.sessions, map[])
    ensures Agree(LoadedRows(db, now, order, n), map[], LoadSessions(db, now, order, n), now)
    decreases n
  {
    if n == 0 {
      assert LoadedRows(db, now, order, 0) == map[];
    } else {
      LoadSessionsAgrees(db, now, order, n - 1);
      LoadedRowsStep(db, now, order, n);
      LoadSessionsStep(db, now, order, n);
      LoadedWithin(db, now, order, n - 1);
      LoadRow(db.sessions, LoadedRows(db, now, order, n - 1), LoadSessions(db, now, order, n - 1), now, RowAt(db, now, order, n - 1));
    }
  }

  function LoadedGlobals(gs: Globals, order: seq<string>, n: nat): Globals
    requires n <= |order|
  {
    map g | g in gs && g in order[..n] :: gs[g]
  }

  lemma LoadedGlobalsStep(gs: Globals, order: seq<string>, n: nat)
    requires n < |order|
    ensures var id := order[n]; var before := LoadedGlobals(gs, order, n);
      LoadedGlobals(gs, order, n + 1) == if id in gs then before[id := gs[id]] else before
  {
    assert order[..n + 1] == order[..n] + [order[n]];
  }

  lemma LoadGlobalsStep(gs: Globals, order: seq<string>, n: nat, m: Mem)
    requires n < |order|
    ensures var id := order[n]; var before := LoadGlobals(gs, order, n, m);
      LoadGlobals(gs, order, n + 1, m) == if id in gs then RegisterGlobal(before, gs[id]) else before
  {
  }

  /** Loading one stored global, for the first time or again. */
  lemma LoadGlobal(ss: Sessions, gs: Globals, some: Globals, m: Mem, now: int, id: string)
    requires Distinct(ss, gs) && id in gs && (forall o <- some :: o in gs && some[o] == gs[o]) && Agree(ss, some, m, now)
    ensures Agree(ss, some[id := gs[id]], RegisterGlobal(m, gs[id]), now)
  {
    if id in some {
      assert GlobalLoaded(m, some[id]) && some[id := gs[id]] == some;
      var n := RegisterGlobal(m, gs[id]);
      assert n.lookup == m.lookup && n.labels == m.labels;
    } else {
      AddGlobalAgrees(ss, some, m, now, id, gs[id]);
    }
  }

  lemma {:induction false} LoadGlobalsAgrees(ss: Sessions, gs: Globals, order: seq<string>, n: nat, m: Mem, now: int)
    returns (rows: Globals, loaded: Mem)
    requires n <= |order| && Distinct(ss, gs) && Agree(ss, map[], m, now)
    ensures rows == LoadedGlobals(gs, order, n) && loaded == LoadGlobals(gs, order, n, m)
    ensures Agree(ss, rows, loaded, now)
  {
    if n == 0 {
      rows, loaded := map[], m;
    } else {
      rows, loaded := LoadGlobalsAgrees(ss, gs, order, n - 1, m, now);
      LoadedGlobalsStep(gs, order, n - 1);
      LoadGlobalsStep(gs, order, n - 1, m);
      var id := order[n - 1];
      if id in gs {
        LoadGlobal(ss, gs, rows, loaded, now, id);
        rows, loaded := rows[id := gs[id]], RegisterGlobal(loaded, gs[id]);
      }
    }
  }

  /** A restart rebuilds agreement from the tables alone, in whatever order the rows come. */
  lemma RestartAgrees(s: Sys, now: int, so: seq<string>, go: seq<string>)
    requires Distinct(s.db.sessions, s.globals) && Allowed(s, now, Restart(so, go))
    ensures Good(Apply(s, now, Restart(so, go)), now)
  {
    var rows, loaded := LoadedRows(s.db, now, so, |so|), LoadSessions(s.db, now, so, |so|);
    LoadSessionsAgrees(s.db, now, so, |so|);
    assert Distinct(rows, s.globals);
    assert so[..|so|] == so && go[..|go|] == go;
    var globals, m := LoadGlobalsAgrees(rows, s.globals, go, |go|, loaded, now);
    assert globals == s.globals;
    forall sid | sid in s.db.sessions && s.db.sessions[sid].expiresAt > now ensures SessionLoaded(m, sid, s.db.sessions[sid]) {
      assert sid in so && sid in rows && rows[sid] == s.db.sessions[sid];
    }
    forall p ensures BackedAt(s.db.sessions, s.globals, m, p) { assert BackedAt(rows, s.globals, m, p); }
  }

  // ----- Every run -----

  /** One operation at time `now`, with agreement known at an earlier time. */
  lemma OpAgrees(s: Sys, before: int, now: int, op: Op)
    requires Good(s, before) && before <= now && Allowed(s, now, op)
    ensures Good(Apply(s, now, op), now)
  {
    assert Good(s, now);
    match op
    case CreateSession(input) => CreateSessionAgrees(s, now, input);
    case HeartbeatOp(id) => HeartbeatAgrees(s, now, id);
    case DeleteOp(id) => DeleteAgrees(s, now, id);
    case Cleanup(order) => CleanupAgrees(s, now, order);
    case CreateGlobal(id, g) => AddGlobalAgrees(s.db.sessions, s.globals, s.mem, now, id, g);
    case DeleteGlobal(id) => if id in s.globals { DropGlobalAgrees(s.db.sessions, s.globals, s.mem, now, id); }
    case Restart(so, go) => RestartAgrees(s, now, so, go);
  }

  datatype Timed = Timed(at: int, op: Op)

  const START := Sys(EMPTY, map[], NO_MEM)

  function RunAll(ops: seq<Timed>): Sys {
    if |ops| == 0 then START else Apply(RunAll(ops[..|ops| - 1]), ops[|ops| - 1].at, ops[|ops| - 1].op)
  }

  /** The clock does not run backwards and every operation is allowed when it runs. */
  ghost predicate AllowedRun(ops: seq<Timed>)
    decreases |ops|
  {
    |ops| > 0 ==>
      AllowedRun(ops[..|ops| - 1]) &&
      (|ops| > 1 ==> ops[|ops| - 2].at <= ops[|ops| - 1].at) &&
      Allowed(RunAll(ops[..|ops| - 1]), ops[|ops| - 1].at, ops[|ops| - 1].op)
  }

  /** After any run of completed operations, memory agrees with the tables from then on until the next operation. */
  lemma {:induction false} CacheAgrees(ops: seq<Timed>, now: int)
    requires AllowedRun(ops) && (|ops| > 0 ==> ops[|ops| - 1].at <= now)
    ensures Good(RunAll(ops), now)
    decreases |ops|
  {
    if |ops| > 0 {
      var last := ops[|ops| - 1];
      CacheAgrees(ops[..|ops| - 1], last.at);
      OpAgrees(RunAll(ops[..|ops| - 1]), last.at, last.at, last.op);
    }
  }

  /**
    What a lookup answers after any run: the stored value of an unexpired
    session's placeholder and of a global one, and never anything that no stored
    row gives.
   */
  lemma LookupAnswers(ops: seq<Timed>, now: int, p: string)
    requires AllowedRun(ops) && (|ops| > 0 ==> ops[|ops| - 1].at <= now)
    ensures var s := RunAll(ops);
      forall sid <- s.db.sessions :: s.db.sessions[sid].expiresAt > now && p in s.db.sessions[sid].mappings ==>
        p in s.mem.lookup && s.mem.lookup[p] == s.db.sessions[sid].mappings[p]
    ensures var s := RunAll(ops);
      forall sid <- s.db.sessions ::
        s.db.sessions[sid].expiresAt > now && p in s.db.sessions[sid].mappings && p in s.db.sessions[sid].labels ==>
          p in s.mem.labels && s.mem.labels[p] == s.db.sessions[sid].labels[p]
    ensures var s := RunAll(ops);
      forall g <- s.globals :: s.globals[g].placeholder == p ==>
        p in s.mem.lookup && s.mem.lookup[p] == s.globals[g].secret && p in s.mem.labels && s.mem.labels[p] == s.globals[g].name
    ensures p in RunAll(ops).mem.lookup ==> GivenBy(RunAll(ops), p, RunAll(ops).mem.lookup[p])
  {
    CacheAgrees(ops, now);
    var s := RunAll(ops);
    forall sid <- s.db.sessions | s.db.sessions[sid].expiresAt > now && p in s.db.sessions[sid].mappings
      ensures Resolves(s.mem, sid, s.db.sessions[sid], p)
    {
      assert SessionLoaded(s.mem, sid, s.db.sessions[sid]);
    }
    forall g <- s.globals ensures GlobalLoaded(s.mem, s.globals[g]) {}
    assert BackedAt(s.db.sessions, s.globals, s.mem, p);
  }

  /** Some stored session or global credential gives the placeholder this value. */
  ghost predicate GivenBy(s: Sys, p: string, value: string) {
    (exists sid <- s.db.sessions :: p in s.db.sessions[sid].mappings && s.db.sessions[sid].mappings[p] == value) ||
    exists g <- s.globals :: s.globals[g].placeholder == p && s.globals[g].secret == value
  }
}
