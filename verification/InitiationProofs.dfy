/** The whole initialization refines "replace the tables by the snapshot". */
module InitiationProofs {
  import opened Options
  import opened PresenceCache
  import opened Reconciliation
  import opened StepProofs

  /** Each id once, the tenant of every user listed, and the tenant of a session or token that of its user. */
  ghost predicate Coherent(snap: Snapshot) {
    && (forall i, j :: 0 <= i < j < |snap.users| ==> snap.users[i].uuid != snap.users[j].uuid)
    && (forall i, j :: 0 <= i < j < |snap.sessions| ==> snap.sessions[i].uuid != snap.sessions[j].uuid)
    && (forall i, j :: 0 <= i < j < |snap.tokens| ==>
          !(snap.tokens[i].client == snap.tokens[j].client && snap.tokens[i].user == snap.tokens[j].user))
    && (forall x :: x in snap.users ==> x.tenant in snap.tenants)
    && (forall x, s :: x in snap.users && s in snap.sessions && s.user == x.uuid ==> s.tenant == x.tenant)
    && (forall x, t :: x in snap.users && t in snap.tokens && t.user == x.uuid ==> t.tenant == x.tenant)
  }

  /** A stored user whose tenant the snapshot keeps. */
  predicate TenantKept(db: DB, snap: Snapshot, user: string) {
    user in db.users && db.users[user].tenant in snap.tenants
  }

  predicate InSnapshot(snap: Snapshot, user: string) {
    exists x :: x in snap.users && x.uuid == user
  }

  /** No user goes from one kept tenant to another, and no session from one kept user to another. */
  ghost predicate NothingMoves(db: DB, snap: Snapshot) {
    && (forall x :: x in snap.users && TenantKept(db, snap, x.uuid) ==> db.users[x.uuid].tenant == x.tenant)
    && (forall s :: s in snap.sessions && InSnapshot(snap, s.user) && s.uuid in db.sessions ==>
          var before := db.sessions[s.uuid].user;
          TenantKept(db, snap, before) && InSnapshot(snap, before) ==> before == s.user)
  }

  /** The stored sessions and tokens are those of the snapshot whose users are stored, with its mobile flags. */
  ghost predicate AccountsMirror(d: DB, snap: Snapshot) {
    && StoredSessions(d) == OfUsers(WantedSessions(snap.sessions), d.users.Keys)
    && StoredTokens(d) == OfUsers(WantedTokens(snap.tokens), d.users.Keys)
    && (forall s :: s in snap.sessions && s.uuid in d.sessions ==> d.sessions[s.uuid].mobile == s.mobile)
    && (forall t :: t in snap.tokens && TokenKey(t.client, t.user) in d.tokens ==>
          d.tokens[TokenKey(t.client, t.user)] == t.mobile)
  }

  /** The stored tables are the snapshot, restricted to its own users. */
  ghost predicate Mirrors(d: DB, snap: Snapshot) {
    && d.tenants == (set t | t in snap.tenants)
    && StoredUsers(d) == WantedUsers(snap.users)
    && (forall x :: x in snap.users && x.uuid in d.users ==> d.users[x.uuid].dnd == x.dnd)
    && AccountsMirror(d, snap)
  }


  /** Users that stay keep their state and status, the others start as unavailable. */
  ghost predicate StatesKept(db: DB, d: DB, snap: Snapshot) {
    forall u :: u in d.users ==>
      if TenantKept(db, snap, u) then d.users[u].state == db.users[u].state && d.users[u].status == db.users[u].status
      else d.users[u].state == "unavailable" && d.users[u].status.None?
  }

  // ---- up to the users ----

  lemma WantedIsListed(snap: Snapshot)
    requires Coherent(snap)
    ensures Functional(WantedUsers(snap.users))
    ensures forall u :: InSnapshot(snap, u) <==> u in Keys(WantedUsers(snap.users))
    ensures forall e :: e in WantedUsers(snap.users) ==> e.value in snap.tenants
  {
    forall x | x in snap.users ensures x.uuid in Keys(WantedUsers(snap.users)) {
      assert Entry(x.uuid, x.tenant) in WantedUsers(snap.users);
    }
  }

  function AfterTenants(db: DB, snap: Snapshot): DB {
    TenantsStep(EndpointsStep(db, snap.events), snap.tenants)
  }

  /** What the first two steps leave: the rows of users whose tenant is kept. */
  lemma UpToTenants(db: DB, snap: Snapshot)
    requires Integrity(db)
    ensures
      var d := AfterTenants(db, snap);
      && Integrity(d)
      && d.tenants == (set t | t in snap.tenants)
      && d.users == (map u | u in db.users && db.users[u].tenant in snap.tenants :: db.users[u])
      && d.endpoints == Dict(snap.events, EndpointState)
      && d.lines == (map id | id in db.lines && db.lines[id].user in d.users :: db.lines[id].(endpoint := None))
      && d.sessions == (map s | s in db.sessions && db.sessions[s].user in d.users :: db.sessions[s])
  {
    var d1 := EndpointsStep(db, snap.events);
    assert Integrity(d1);
    hide Integrity, TenantsStep;
    TenantsStepResult(d1, snap.tenants);
  }

  /** What the first three steps leave, and when they succeed. */
  lemma UpToUsers(db: DB, snap: Snapshot)
    requires Integrity(db) && Coherent(snap)
    ensures AfterUsers(db, snap).Some? <==>
              forall x :: x in snap.users && TenantKept(db, snap, x.uuid) ==> db.users[x.uuid].tenant == x.tenant
    ensures AfterUsers(db, snap).Some? ==>
      var d := AfterUsers(db, snap).value;
      && Integrity(d)
      && d.tenants == (set t | t in snap.tenants)
      && StoredUsers(d) == WantedUsers(snap.users)
      && (forall u :: u in d.users <==> InSnapshot(snap, u))
      && (forall u :: u in d.users ==>
            d.users[u] == if TenantKept(db, snap, u) then db.users[u] else NewUser(Entry(u, d.users[u].tenant)))
  {
    var d2 := AfterTenants(db, snap);
    hide Coherent, Integrity, TenantsStep, UsersStep, WantedUsers, NoneMoves, Restricted, Functional;
    UpToTenants(db, snap);
    UsersStepResult(d2, snap.users);
    WantedIsListed(snap);
    MovesOfUsers(db, d2, snap);
    if AfterUsers(db, snap).Some? {
      var d := AfterUsers(db, snap).value;
      KeysOfRows(d.users, UserTenant);
      assert forall u :: u in d.users <==> InSnapshot(snap, u);
      assert d.tenants == d2.tenants;
      UsersThatStay(db, d2, d, snap);
    }
  }

  lemma UsersThatStay(db: DB, d2: DB, d: DB, snap: Snapshot)
    requires d2.users == map u | u in db.users && db.users[u].tenant in snap.tenants :: db.users[u]
    requires forall u :: u in d.users ==>
               d.users[u] == if u in d2.users then d2.users[u] else NewUser(Entry(u, d.users[u].tenant))
    ensures forall u :: u in d.users ==>
              d.users[u] == if TenantKept(db, snap, u) then db.users[u] else NewUser(Entry(u, d.users[u].tenant))
  {
  }

  lemma MovesOfUsers(db: DB, d: DB, snap: Snapshot)
    requires Coherent(snap) && Functional(WantedUsers(snap.users))
    requires d.users == map u | u in db.users && db.users[u].tenant in snap.tenants :: db.users[u]
    ensures NoUserMoves(d, snap.users) <==>
              forall x :: x in snap.users && TenantKept(db, snap, x.uuid) ==> db.users[x.uuid].tenant == x.tenant
  {
    var wanted, stored := WantedUsers(snap.users), StoredUsers(d);
    if NoUserMoves(d, snap.users) {
      forall x | x in snap.users && TenantKept(db, snap, x.uuid) ensures db.users[x.uuid].tenant == x.tenant {
        var e := Entry(x.uuid, d.users[x.uuid].tenant);
        RowsMeans(d.users, UserTenant, e);
        assert Entry(x.uuid, x.tenant) in wanted;
      }
    }
    if forall x :: x in snap.users && TenantKept(db, snap, x.uuid) ==> db.users[x.uuid].tenant == x.tenant {
      forall a, b | a in wanted && b in stored && a.key == b.key ensures a == b {
        RowsMeans(d.users, UserTenant, b);
      }
    }
  }

  // ---- from the users to the end ----

  ghost predicate SessionsOfKeptUsers(db: DB, snap: Snapshot, d: DB) {
    d.sessions == map s | s in db.sessions && TenantKept(db, snap, db.sessions[s].user)
                          && InSnapshot(snap, db.sessions[s].user) :: db.sessions[s]
  }

  lemma SessionsUpToUsers(db: DB, snap: Snapshot)
    requires Integrity(db) && Coherent(snap) && AfterUsers(db, snap).Some?
    ensures SessionsOfKeptUsers(db, snap, AfterUsers(db, snap).value)
  {
    var d2 := AfterTenants(db, snap);
    hide Coherent, TenantsStep, UsersStep, NoneMoves;
    UpToTenants(db, snap);
    hide Integrity;
    UsersStepResult(d2, snap.users);
    UpToUsers(db, snap);
  }

  lemma AfterLinesResult(db: DB, snap: Snapshot, lines: map<int, Line>)
    requires Integrity(db) && Coherent(snap) && LinesReconciled(db, snap.users, lines)
    ensures
      var d := AfterLines(db, snap.users, lines);
      && Integrity(d)
      && d.tenants == db.tenants && d.users.Keys == db.users.Keys && StoredUsers(d) == StoredUsers(db)
      && d.sessions == db.sessions && d.tokens == db.tokens
      && (forall u :: u in d.users ==> d.users[u].state == db.users[u].state && d.users[u].status == db.users[u].status)
      && forall x :: x in snap.users && x.uuid in d.users ==> d.users[x.uuid].dnd == x.dnd
  {
    ReconciledLinesRefer(db, snap.users, lines);
    var d0 := db.(lines := lines);
    AssociationRefers(d0, snap.users);
    var d1 := Associate(AddMissingEndpoints(d0, snap.users), snap.users);
    DndRefers(d1, snap.users);
    hide Integrity, LinesReconciled, Dict;
    assert UniqueItems(snap.users, UserDnd);
    forall x | x in snap.users
      ensures x.uuid in Dict(snap.users, UserDnd) && Dict(snap.users, UserDnd)[x.uuid] == x.dnd
    {
      DictHas(snap.users, UserDnd, x);
    }
  }

  lemma TenantsAgree(d: DB, snap: Snapshot)
    requires Coherent(snap) && StoredUsers(d) == WantedUsers(snap.users)
    ensures TenantsMatch(WantedSessions(snap.sessions), d.users) && TenantsMatch(WantedTokens(snap.tokens), d.users)
  {
    forall u | u in d.users ensures exists x :: x in snap.users && x.uuid == u && x.tenant == d.users[u].tenant {
      var e := Entry(u, d.users[u].tenant);
      RowsMeans(d.users, UserTenant, e);
      assert e in WantedUsers(snap.users);
    }
  }

  /** The sessions that move, in terms of the database before the run. */
  lemma MovesOfSessions(db: DB, snap: Snapshot, d: DB)
    requires Coherent(snap) && SessionsOfKeptUsers(db, snap, d)
    requires forall u :: u in d.users <==> InSnapshot(snap, u)
    requires TenantsMatch(WantedSessions(snap.sessions), d.users)
    ensures NoSessionMoves(d, snap.sessions) <==>
              forall s :: s in snap.sessions && InSnapshot(snap, s.user) && s.uuid in db.sessions ==>
                var before := db.sessions[s.uuid].user;
                TenantKept(db, snap, before) && InSnapshot(snap, before) ==> before == s.user
  {
    hide TenantKept, InSnapshot;
    var wanted, view := OfUsers(WantedSessions(snap.sessions), d.users.Keys), SessionOwner(d.users);
    forall s | s in snap.sessions && s.user in d.users ensures Entry(s.uuid, OwnerOf(d.users, s.user)) in wanted {
      assert Entry(s.uuid, Owner(s.user, s.tenant)) in WantedSessions(snap.sessions);
    }
    if NoSessionMoves(d, snap.sessions) {
      forall s | s in snap.sessions && s.user in d.users && s.uuid in d.sessions
        ensures d.sessions[s.uuid].user == s.user
      {
        RowsMeans(d.sessions, view, Entry(s.uuid, view(s.uuid, d.sessions[s.uuid])));
      }
    }
    if forall s :: s in snap.sessions && s.user in d.users && s.uuid in d.sessions ==>
         d.sessions[s.uuid].user == s.user
    {
      UniqueSessions(snap);
      forall a, b | a in wanted && b in StoredSessions(d) && a.key == b.key ensures a == b {
        RowsMeans(d.sessions, view, b);
      }
    }
  }

  lemma UniqueSessions(snap: Snapshot)
    requires Coherent(snap)
    ensures Functional(WantedSessions(snap.sessions))
  {
  }

  lemma SessionsUpdated(d: DB, snap: Snapshot)
    requires Integrity(d) && Coherent(snap)
    ensures
      var e := UpdateSessions(d, snap.sessions);
      && Integrity(e) && e == d.(sessions := e.sessions) && StoredSessions(e) == StoredSessions(d)
      && forall s :: s in snap.sessions && s.uuid in e.sessions ==> e.sessions[s.uuid].mobile == s.mobile
  {
    var e, view := UpdateSessions(d, snap.sessions), SessionOwner(d.users);
    assert UniqueItems(snap.sessions, SessionMobile);
    SessionsOwned(d);
    OtherTables(d, e);
    hide Integrity, Coherent, Dict, UniqueItems;
    forall s | s in snap.sessions && s.uuid in e.sessions ensures e.sessions[s.uuid].mobile == s.mobile {
      DictHas(snap.sessions, SessionMobile, s);
    }
    forall x ensures x in StoredSessions(e) <==> x in StoredSessions(d) {
      RowsMeans(e.sessions, view, x);
      RowsMeans(d.sessions, view, x);
    }
  }

  lemma TokensUpdated(d: DB, snap: Snapshot)
    requires Integrity(d) && Coherent(snap)
    ensures
      var e := UpdateTokens(d, snap.tokens);
      && Integrity(e) && e == d.(tokens := e.tokens) && StoredTokens(e) == StoredTokens(d)
      && forall t :: t in snap.tokens && TokenKey(t.client, t.user) in e.tokens ==>
           e.tokens[TokenKey(t.client, t.user)] == t.mobile
  {
    var e, view := UpdateTokens(d, snap.tokens), TokenOwner(d.users);
    assert UniqueItems(snap.tokens, TokenMobile);
    SessionsOwned(d);
    OtherTables(d, e);
    hide Integrity, Coherent, Dict, UniqueItems;
    forall t | t in snap.tokens && TokenKey(t.client, t.user) in e.tokens
      ensures e.tokens[TokenKey(t.client, t.user)] == t.mobile
    {
      DictHas(snap.tokens, TokenMobile, t);
    }
    forall x ensures x in StoredTokens(e) <==> x in StoredTokens(d) {
      RowsMeans(e.tokens, view, x);
      RowsMeans(d.tokens, view, x);
    }
  }

  ghost function AfterAccounts(db: DB, snap: Snapshot): Option<DB> {
    match AfterSessions(db, snap.sessions)
    case None => None
    case Some(d) => AfterTokens(d, snap.tokens)
  }

  lemma AccountsResult(db: DB, snap: Snapshot)
    requires Integrity(db) && Coherent(snap) && StoredUsers(db) == WantedUsers(snap.users)
    ensures AfterAccounts(db, snap).Some? <==> NoSessionMoves(db, snap.sessions)
    ensures AfterAccounts(db, snap).Some? ==>
      var d := AfterAccounts(db, snap).value;
      Integrity(d) && d == db.(sessions := d.sessions, tokens := d.tokens) && AccountsMirror(d, snap)
  {
    TenantsAgree(db, snap);
    hide Integrity, Coherent, WantedUsers, Rows, UpdateSessions, UpdateTokens, SessionsStep, TokensStep, TenantsMatch,
         NoneMoves, WantedSessions, WantedTokens, OfUsers;
    SessionsStepResult(db, snap.sessions);
    if AfterSessions(db, snap.sessions).Some? {
      var d := SessionsStep(db, snap.sessions).value;
      SessionsUpdated(d, snap);
      var e := UpdateSessions(d, snap.sessions);
      TokensStepResult(e, snap.tokens);
      TokensUpdated(TokensStep(e, snap.tokens).value, snap);
    }
  }

  // ---- the main results ----

  /** With a coherent snapshot the initialization fails exactly when something moves between owners that are kept.
      Otherwise the tables are the snapshot, every foreign key resolves, and users that stay keep state and status. */
  lemma InitializationMirrors(db: DB, snap: Snapshot, lines: map<int, Line>)
    requires Integrity(db) && Coherent(snap)
    requires Reconciles(db, snap, lines)
    ensures Initiate(db, snap, lines).Some? <==> NothingMoves(db, snap)
    ensures NothingMoves(db, snap) ==>
      var d := Initiate(db, snap, lines).value;
      Integrity(d) && Mirrors(d, snap) && StatesKept(db, d, snap)
  {
    hide AfterLines, AfterSessions, AfterTokens, Integrity, Coherent, LinesReconciled, WantedUsers, Rows, TenantsMatch,
         NoneMoves, WantedSessions, WantedTokens, OfUsers, AfterUsers, InSnapshot;
    UpToUsers(db, snap);
    if AfterUsers(db, snap).Some? {
      var d3 := AfterUsers(db, snap).value;
      var d7 := AfterLines(d3, snap.users, lines);
      AfterLinesResult(d3, snap, lines);
      TenantsAgree(d7, snap);
      SessionsUpToUsers(db, snap);
      MovesOfSessions(db, snap, d7);
      AccountsResult(d7, snap);
    }
  }
}
