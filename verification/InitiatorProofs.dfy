/** What each step of the initialization leaves, and what the whole of it does. */
module StepProofs {
  import opened Options
  import opened PresenceCache
  import opened Reconciliation

  /** The tables of a user's things: what is left of them is what the remaining users own. */
  ghost predicate Restricted(db: DB, d: DB) {
    && d.lines == (map id | id in db.lines && db.lines[id].user in d.users :: db.lines[id])
    && d.sessions == (map s | s in db.sessions && db.sessions[s].user in d.users :: db.sessions[s])
    && d.tokens == map k | k in db.tokens && k.user in d.users :: db.tokens[k]
  }

  lemma CascadeRestricts(db: DB, gone: set<string>)
    requires Integrity(db)
    ensures Restricted(db, DeleteUsers(db, gone))
  {
    var d := DeleteUsers(db, gone);
    forall id ensures id in d.lines <==> id in db.lines && db.lines[id].user in d.users {
      if id in db.lines {
        assert db.lines[id].user in db.users;
      }
    }
    forall s ensures s in d.sessions <==> s in db.sessions && db.sessions[s].user in d.users {
      if s in db.sessions {
        assert db.sessions[s].user in db.users;
      }
    }
  }

  lemma TenantsStepResult(db: DB, tenants: seq<string>)
    requires Integrity(db)
    ensures
      var d := TenantsStep(db, tenants);
      && Integrity(d)
      && d.tenants == (set t | t in tenants)
      && d.users == (map u | u in db.users && db.users[u].tenant in tenants :: db.users[u])
      && Restricted(db, d) && d.endpoints == db.endpoints
  {
    var wanted := set t | t in tenants;
    var d0 := db.(tenants := db.tenants + wanted);
    assert Integrity(d0);
    DeletionsKeepIntegrity(d0, db.tenants - wanted);
    var gone := set u | u in d0.users && d0.users[u].tenant in db.tenants - wanted;
    CascadeRestricts(d0, gone);
    var d := TenantsStep(db, tenants);
    assert d.tenants == wanted;
    assert d.users == (map u | u in db.users && db.users[u].tenant in tenants :: db.users[u]);
    hide Integrity, DeleteUsers;
    assert d.lines == DeleteUsers(d0, gone).lines;
  }

  // ---- users ----

  /** No wanted user is stored in another tenant, and none is wanted in two. */
  ghost predicate NoUserMoves(db: DB, users: seq<UserInfo>) {
    NoneMoves(WantedUsers(users), StoredUsers(db))
  }

  /** The users step fails exactly when some user of the snapshot is stored in another tenant, or is in two tenants in
      the snapshot. Otherwise it leaves exactly the users of the snapshot; those that stay keep their rows, and the
      others start as unavailable. */
  lemma UsersStepResult(db: DB, users: seq<UserInfo>)
    requires Integrity(db)
    ensures UsersStep(db, users).Some? <==> NoUserMoves(db, users)
    ensures NoUserMoves(db, users) ==>
      var d := UsersStep(db, users).value;
      && Integrity(d)
      && StoredUsers(d) == WantedUsers(users)
      && (forall u :: u in d.users ==>
            d.users[u] == if u in db.users then db.users[u] else NewUser(Entry(u, d.users[u].tenant)))
      && d.tenants == db.tenants + (set e | e in WantedUsers(users) :: e.value)
      && Restricted(db, d) && d.endpoints == db.endpoints
  {
    var wanted, stored := WantedUsers(users), StoredUsers(db);
    TableReconciled(db.users, UserTenant, NewUser, wanted, wanted);
    if NoUserMoves(db, users) {
      var d0 := CreateUsers(db, wanted - stored);
      CreatedKeepIntegrity(db, wanted - stored);
      DeletionsKeepIntegrity(d0, Keys(stored - wanted));
      CascadeRestricts(d0, Keys(stored - wanted));
      hide WantedUsers, Integrity, NoneMoves, Keys, Rows, Created;
      TenantsOfUsers(db, wanted);
    }
  }

  lemma CreatedKeepIntegrity(db: DB, missing: set<Entry<string, string>>)
    requires Integrity(db) && Insertable(missing, db.users.Keys)
    ensures Integrity(CreateUsers(db, missing))
  {
    var d := CreateUsers(db, missing);
    forall u | u in d.users ensures d.users[u].tenant in d.tenants {
      if u !in db.users {
        var e :| e in missing && e.key == u;
        assert d.users[e.key] == NewUser(e);
      }
    }
  }

  lemma TenantsOfUsers(db: DB, wanted: set<Entry<string, string>>)
    requires Integrity(db)
    ensures db.tenants + (set e | e in wanted - StoredUsers(db) :: e.value) ==
            db.tenants + set e | e in wanted :: e.value
  {
    forall t | t in (set e | e in wanted :: e.value)
      ensures t in db.tenants || t in (set e | e in wanted - StoredUsers(db) :: e.value)
    {
      var e :| e in wanted && e.value == t;
      RowsMeans(db.users, UserTenant, e);
    }
  }

  // ---- sessions ----

  /** No session of a stored user is stored under another owner, and none is wanted by two. */
  ghost predicate NoSessionMoves(db: DB, sessions: seq<SessionInfo>) {
    NoneMoves(OfUsers(WantedSessions(sessions), db.users.Keys), StoredSessions(db))
  }

  /** The snapshot names the tenant of each stored user as it is stored. */
  ghost predicate TenantsMatch<K>(entries: set<Entry<K, Owner>>, users: map<string, User>) {
    forall e :: e in entries && e.value.user in users ==> e.value == OwnerOf(users, e.value.user)
  }

  /** The sessions step fails exactly when a session of a stored user is stored under another owner, or is in the
      snapshot under two. Otherwise it leaves exactly the snapshot's sessions of stored users. */
  lemma SessionsStepResult(db: DB, sessions: seq<SessionInfo>)
    requires Integrity(db) && TenantsMatch(WantedSessions(sessions), db.users)
    ensures SessionsStep(db, sessions).Some? <==> NoSessionMoves(db, sessions)
    ensures NoSessionMoves(db, sessions) ==>
      var d := SessionsStep(db, sessions).value;
      && d == db.(sessions := d.sessions)
      && Integrity(d)
      && StoredSessions(d) == OfUsers(WantedSessions(sessions), db.users.Keys)
  {
    var snapshot, stored, view := WantedSessions(sessions), StoredSessions(db), SessionOwner(db.users);
    var wanted := OfUsers(snapshot, db.users.Keys);
    assert OfUsers(snapshot - stored, db.users.Keys) == wanted - stored;
    assert forall e :: e in stored ==> e.value.user in db.users;
    hide WantedSessions, NoneMoves, Integrity, Keys, Rows;
    TableReconciled(db.sessions, view, NewSession, snapshot, wanted);
    if NoSessionMoves(db, sessions) {
      var d := SessionsStep(db, sessions).value;
      assert StoredSessions(d) == wanted;
      assert Integrity(d) by {
        forall s | s in d.sessions ensures d.sessions[s].user in db.users {
          RowsMeans(d.sessions, view, Entry(s, view(s, d.sessions[s])));
        }
        OtherTables(db, d);
      }
    }
  }

  /** For any snapshot: when the sessions step fails, and that it leaves only sessions of stored users. */
  lemma SessionsStepAccepted(db: DB, sessions: seq<SessionInfo>)
    requires Integrity(db)
    ensures SessionsStep(db, sessions).Some? <==> NoSessionMoves(db, sessions)
    ensures SessionsStep(db, sessions).Some? ==>
      var d := SessionsStep(db, sessions).value;
      d == db.(sessions := d.sessions) && Integrity(d)
  {
    var snapshot, stored, view := WantedSessions(sessions), StoredSessions(db), SessionOwner(db.users);
    var wanted := OfUsers(snapshot, db.users.Keys);
    var created := OfUsers(snapshot - stored, db.users.Keys);
    assert created == wanted - stored;
    assert forall e :: e in stored ==> e.value.user in db.users;
    hide WantedSessions, NoneMoves, Keys, Rows;
    CreationAccepted(db.sessions, view, snapshot, wanted);
    if SessionsStep(db, sessions).Some? {
      CreatedSessionsOwned(db, created);
      hide Created, Integrity;
      OtherTables(db, SessionsStep(db, sessions).value);
    }
  }

  lemma CreatedSessionsOwned(db: DB, created: set<Entry<string, Owner>>)
    requires Integrity(db) && Insertable(created, db.sessions.Keys)
    requires forall e :: e in created ==> e.value.user in db.users
    ensures
      var after := Created(db.sessions, created, NewSession);
      forall s :: s in after ==> after[s].user in db.users
  {
    var after := Created(db.sessions, created, NewSession);
    forall s | s in after ensures after[s].user in db.users {
      if s !in db.sessions {
        var e :| e in created && e.key == s;
        assert after[e.key] == NewSession(e);
      }
    }
  }

  /** A session whose tenant in the snapshot is not its user's is created all the same, and then is in the way of the
      next run: the step can be repeated exactly when all tenants match. */
  lemma RepeatableExactlyWhen(db: DB, sessions: seq<SessionInfo>)
    requires Integrity(db) && SessionsStep(db, sessions).Some?
    ensures SessionsStep(SessionsStep(db, sessions).value, sessions).Some? <==>
              TenantsMatch(WantedSessions(sessions), db.users)
  {
    var d := SessionsStep(db, sessions).value;
    var snapshot, stored, view := WantedSessions(sessions), StoredSessions(db), SessionOwner(db.users);
    SessionsStepAccepted(db, sessions);
    SessionsStepAccepted(d, sessions);
    if TenantsMatch(snapshot, db.users) {
      SessionsStepResult(db, sessions);
    } else {
      hide WantedSessions, Integrity;
      var e :| e in snapshot && e.value.user in db.users && e.value != OwnerOf(db.users, e.value.user);
      RowsMeans(db.sessions, view, e);
      assert forall x :: x in stored ==> x.value == OwnerOf(db.users, x.value.user);
      hide Rows;
      assert e in OfUsers(snapshot - stored, db.users.Keys);
      assert Created(db.sessions, OfUsers(snapshot - stored, db.users.Keys), NewSession)[e.key] == NewSession(e);
      KeysOfRows(db.sessions, view);
      assert e.key in d.sessions && d.sessions[e.key] == NewSession(e);
      var kept := Entry(e.key, OwnerOf(db.users, e.value.user));
      RowsMeans(d.sessions, view, kept);
      assert e in OfUsers(snapshot, d.users.Keys) && kept in StoredSessions(d);
    }
  }

  lemma OtherTables(db: DB, d: DB)
    requires Integrity(db) && d == db.(sessions := d.sessions, tokens := d.tokens)
    requires forall s :: s in d.sessions ==> d.sessions[s].user in db.users
    requires forall k :: k in d.tokens ==> k.user in db.users
    ensures Integrity(d)
  {
  }

  // ---- refresh tokens ----

  /** The owner is part of a token's key, so with matching tenants the tokens step cannot fail. */
  lemma TokensStepResult(db: DB, tokens: seq<TokenInfo>)
    requires Integrity(db) && TenantsMatch(WantedTokens(tokens), db.users)
    ensures TokensStep(db, tokens).Some?
    ensures
      var d := TokensStep(db, tokens).value;
      && d == db.(tokens := d.tokens)
      && Integrity(d)
      && StoredTokens(d) == OfUsers(WantedTokens(tokens), db.users.Keys)
  {
    var snapshot, stored, view := WantedTokens(tokens), StoredTokens(db), TokenOwner(db.users);
    var wanted := OfUsers(snapshot, db.users.Keys);
    assert OfUsers(snapshot - stored, db.users.Keys) == wanted - stored;
    assert forall e :: e in stored ==> e.value == OwnerOf(db.users, e.key.user) && e.key.user in db.users;
    assert forall e :: e in wanted ==> e.value == OwnerOf(db.users, e.key.user) && e.key.user in db.users;
    hide WantedTokens, Integrity, Keys, Rows;
    assert NoneMoves(wanted, stored);
    hide NoneMoves;
    TableReconciled(db.tokens, view, NewToken, snapshot, wanted);
    var d := TokensStep(db, tokens).value;
    assert StoredTokens(d) == wanted;
    assert Integrity(d) by {
      forall k | k in d.tokens ensures k.user in db.users {
        RowsMeans(d.tokens, view, Entry(k, view(k, d.tokens[k])));
      }
      SessionsOwned(db);
      OtherTables(db, d);
    }
  }

  /** No token of a stored user is stored, or wanted, under another tenant. */
  ghost predicate NoTokenMoves(db: DB, tokens: seq<TokenInfo>) {
    NoneMoves(OfUsers(WantedTokens(tokens), db.users.Keys), StoredTokens(db))
  }

  /** For any snapshot: when the tokens step fails. */
  lemma TokensStepAccepted(db: DB, tokens: seq<TokenInfo>)
    requires Integrity(db)
    ensures TokensStep(db, tokens).Some? <==> NoTokenMoves(db, tokens)
  {
    var snapshot, stored, view := WantedTokens(tokens), StoredTokens(db), TokenOwner(db.users);
    var wanted := OfUsers(snapshot, db.users.Keys);
    assert OfUsers(snapshot - stored, db.users.Keys) == wanted - stored;
    assert forall e :: e in stored ==> e.value.user in db.users;
    hide WantedTokens, NoneMoves, Keys, Rows;
    CreationAccepted(db.tokens, view, snapshot, wanted);
  }

  /** As for sessions: a token whose tenant in the snapshot is not its user's is created, and is in the way of the next
      run. */
  lemma TokensRepeatableExactlyWhen(db: DB, tokens: seq<TokenInfo>)
    requires Integrity(db) && TokensStep(db, tokens).Some?
    ensures TokensStep(TokensStep(db, tokens).value, tokens).Some? <==> TenantsMatch(WantedTokens(tokens), db.users)
  {
    var d := TokensStep(db, tokens).value;
    var snapshot, stored, view := WantedTokens(tokens), StoredTokens(db), TokenOwner(db.users);
    TokensStepKeepsIntegrity(db, tokens);
    TokensStepAccepted(d, tokens);
    if TenantsMatch(snapshot, db.users) {
      TokensStepResult(d, tokens);
    } else {
      var e :| e in snapshot && e.value.user in db.users && e.value != OwnerOf(db.users, e.value.user);
      assert e.key.user == e.value.user;
      hide WantedTokens, Integrity;
      RowsMeans(db.tokens, view, e);
      assert forall x :: x in stored ==> x.value == OwnerOf(db.users, x.value.user);
      hide Rows;
      var created := OfUsers(snapshot - stored, db.users.Keys);
      assert e in created;
      assert e.key in Created(db.tokens, created, NewToken);
      KeysOfRows(db.tokens, view);
      assert e.key in d.tokens;
      var kept := Entry(e.key, OwnerOf(db.users, e.value.user));
      RowsMeans(d.tokens, view, kept);
      assert e in OfUsers(snapshot, d.users.Keys) && kept in StoredTokens(d);
    }
  }

  lemma TokensStepKeepsIntegrity(db: DB, tokens: seq<TokenInfo>)
    requires Integrity(db) && TokensStep(db, tokens).Some?
    ensures Integrity(TokensStep(db, tokens).value)
  {
    var created := OfUsers(WantedTokens(tokens) - StoredTokens(db), db.users.Keys);
    var d := TokensStep(db, tokens).value;
    hide Rows, Keys;
    forall k | k in d.tokens ensures k.user in db.users {
      if k !in db.tokens {
        var e :| e in created && e.key == k;
        assert e in WantedTokens(tokens);
      }
    }
    OtherTables(db, d);
  }

  lemma SessionsOwned(db: DB)
    requires Integrity(db)
    ensures forall s :: s in db.sessions ==> db.sessions[s].user in db.users
    ensures forall k :: k in db.tokens ==> k.user in db.users
  {
  }

  // ---- lines ----

  /** For any table and any snapshot, with lines reassigned or of several users, and in whatever order sets are
      traversed: afterwards a line is stored exactly when the snapshot has it for some stored user, once, and under a
      user for whom the snapshot has it. */
  lemma LinesFollowSnapshot(db: DB, users: seq<UserInfo>, after: map<int, Line>, id: int)
    requires Integrity(db) && LinesReconciled(db, users, after)
    ensures id in after <==> exists user :: CanOwn(db, users, id, user)
    ensures id in after ==> CanOwn(db, users, id, after[id].user)
  {
    assert LineReconciled(db, users, id, after);
    if id in db.lines {
      var e := Entry(id, OwnerOf(db.users, db.lines[id].user));
      if e in WantedLines(users) {
        assert CanOwn(db, users, id, db.lines[id].user);
      }
    }
  }

  /** A line that is stored as the snapshot has it keeps its row. */
  lemma LineStays(db: DB, users: seq<UserInfo>, after: map<int, Line>, id: int)
    requires LinesReconciled(db, users, after)
    requires id in db.lines && Entry(id, OwnerOf(db.users, db.lines[id].user)) in WantedLines(users)
    ensures id in after && after[id] == db.lines[id]
  {
    assert LineReconciled(db, users, id, after);
  }

  /** The table that line reconciliation leaves refers to stored users and endpoints. */
  lemma ReconciledLinesRefer(db: DB, users: seq<UserInfo>, after: map<int, Line>)
    requires Integrity(db) && LinesReconciled(db, users, after)
    ensures Integrity(db.(lines := after))
  {
    forall id | id in after
      ensures after[id].user in db.users && (after[id].endpoint.Some? ==> after[id].endpoint.value in db.endpoints)
    {
      assert LineReconciled(db, users, id, after);
    }
  }

  /** The endpoint of every line is stored by the time it is associated. */
  lemma AssociationRefers(db: DB, users: seq<UserInfo>)
    requires Integrity(db)
    ensures Integrity(Associate(AddMissingEndpoints(db, users), users))
  {
    var all := AllLines(users);
    var d0 := AddMissingEndpoints(db, users);
    var d := Associate(d0, users);
    assert Integrity(d0);
    forall id | id in d.lines && d.lines[id].endpoint.Some? ensures d.lines[id].endpoint.value in d.endpoints {
      DictMeans(all, LineEndpoint, id);
      if id in Dict(all, LineEndpoint) {
        var i: nat :| LastItem(all, LineEndpoint, i, id, Dict(all, LineEndpoint)[id]);
        assert all[i] in all && EndpointName(all[i]).value in EndpointNames(all);
      }
    }
  }

  lemma DndRefers(db: DB, users: seq<UserInfo>)
    requires Integrity(db)
    ensures Integrity(UpdateDnd(db, users))
    ensures UpdateDnd(db, users).users.Keys == db.users.Keys
    ensures StoredUsers(UpdateDnd(db, users)) == StoredUsers(db)
  {
    var d := UpdateDnd(db, users);
    forall e ensures e in StoredUsers(d) <==> e in StoredUsers(db) {
      RowsMeans(d.users, UserTenant, e);
      RowsMeans(db.users, UserTenant, e);
    }
  }
}
