/** The lines and endpoints after an initialization, and that initializing again changes nothing. */
module Reinitialization {
  import opened Options
  import opened PresenceCache
  import opened Reconciliation
  import opened StepProofs
  import opened InitiationProofs

  // ---- lines and endpoints ----

  /** The snapshot's lines, each under a user who has it there. */
  ghost predicate LinesOfUsers(users: map<string, User>, lines: map<int, Line>, snap: Snapshot) {
    && lines.Keys == Keys(WantedLines(snap.users))
    && forall id :: id in lines ==> Entry(id, OwnerOf(users, lines[id].user)) in WantedLines(snap.users)
  }

  /** Every line of the snapshot, no other; each under a user who has it, with the endpoint the snapshot names last;
      the endpoints are those of the device states and, unavailable, those that only lines name. */
  ghost predicate LinesMirror(d: DB, snap: Snapshot) {
    var all := AllLines(snap.users);
    var states, named := Dict(snap.events, EndpointState), Dict(all, LineEndpoint);
    && LinesOfUsers(d.users, d.lines, snap)
    && (forall id :: id in d.lines ==> d.lines[id].endpoint == if id in named then Some(named[id]) else None)
    && d.endpoints.Keys == states.Keys + EndpointNames(all)
    && (forall name :: name in d.endpoints ==>
        d.endpoints[name] == if name in states then states[name] else "unavailable")
  }

  lemma LinesUpToUsers(db: DB, snap: Snapshot)
    requires Integrity(db) && AfterUsers(db, snap).Some?
    ensures
      var d := AfterUsers(db, snap).value;
      && d.endpoints == Dict(snap.events, EndpointState)
      && (forall id :: id in d.lines ==> id in db.lines && d.lines[id] == db.lines[id].(endpoint := None))
      && (forall id :: id in db.lines && TenantKept(db, snap, db.lines[id].user) && db.lines[id].user in d.users ==>
          id in d.lines)
  {
    var d2 := AfterTenants(db, snap);
    hide TenantsStep, UsersStep, NoneMoves;
    UpToTenants(db, snap);
    hide Integrity;
    UsersStepResult(d2, snap.users);
  }

  /** A line is wanted only for users of the snapshot, who are all stored by then. */
  lemma WantedLineOwner(d: DB, snap: Snapshot, e: Entry<int, Owner>)
    requires Coherent(snap) && StoredUsers(d) == WantedUsers(snap.users) && e in WantedLines(snap.users)
    ensures e.value.user in d.users && e.value == OwnerOf(d.users, e.value.user)
  {
    var x, l :| x in snap.users && l in x.lines && e == Entry(l.id, Owner(x.uuid, x.tenant));
    var u := Entry(x.uuid, x.tenant);
    assert u in WantedUsers(snap.users);
    RowsMeans(d.users, UserTenant, u);
  }

  lemma LinesOfRun(d: DB, snap: Snapshot, lines: map<int, Line>)
    requires Integrity(d) && Coherent(snap) && StoredUsers(d) == WantedUsers(snap.users)
    requires LinesReconciled(d, snap.users, lines)
    ensures LinesOfUsers(d.users, lines, snap)
  {
    forall id ensures id in lines <==> id in Keys(WantedLines(snap.users)) {
      LinesFollowSnapshot(d, snap.users, lines, id);
      if e :| e in WantedLines(snap.users) && e.key == id {
        WantedLineOwner(d, snap, e);
        assert CanOwn(d, snap.users, id, e.value.user);
      }
    }
    forall id | id in lines ensures Entry(id, OwnerOf(d.users, lines[id].user)) in WantedLines(snap.users) {
      LinesFollowSnapshot(d, snap.users, lines, id);
      var e :| e in WantedLines(snap.users) && e.key == id && e.value.user == lines[id].user;
      WantedLineOwner(d, snap, e);
    }
  }

  lemma NoEndpointsYet(d: DB, users: seq<UserInfo>, lines: map<int, Line>)
    requires LinesReconciled(d, users, lines) && forall id :: id in d.lines ==> d.lines[id].endpoint.None?
    ensures forall id :: id in lines ==> lines[id].endpoint.None?
  {
    forall id | id in lines ensures lines[id].endpoint.None? {
      assert LineReconciled(d, users, id, lines);
    }
  }

  /** The later steps leave lines and endpoints alone. */
  lemma RestOfRun(d3: DB, snap: Snapshot, lines: map<int, Line>)
    requires AfterAccounts(AfterLines(d3, snap.users, lines), snap).Some?
    ensures
      var d := AfterAccounts(AfterLines(d3, snap.users, lines), snap).value;
      var d6 := Associate(AddMissingEndpoints(d3.(lines := lines), snap.users), snap.users);
      d.lines == d6.lines && d.endpoints == d6.endpoints && d.users == UpdateDnd(d6, snap.users).users
  {
    hide Associate, AddMissingEndpoints;
  }

  lemma AssociatedLines(d3: DB, snap: Snapshot, lines: map<int, Line>, d: DB)
    requires LinesOfUsers(d3.users, lines, snap) && d3.endpoints == Dict(snap.events, EndpointState)
    requires forall id :: id in lines ==> lines[id].endpoint.None?
    requires
      var d6 := Associate(AddMissingEndpoints(d3.(lines := lines), snap.users), snap.users);
      d.lines == d6.lines && d.endpoints == d6.endpoints && d.users == UpdateDnd(d6, snap.users).users
    ensures LinesMirror(d, snap)
  {
    var named := Dict(AllLines(snap.users), LineEndpoint);
    hide WantedLines, Dict, EndpointNames, AllLines;
    assert d.lines.Keys == lines.Keys;
    forall id | id in d.lines
      ensures Entry(id, OwnerOf(d.users, d.lines[id].user)) in WantedLines(snap.users)
      ensures d.lines[id].endpoint == if id in named then Some(named[id]) else None
    {
      assert d.lines[id].user == lines[id].user;
      assert OwnerOf(d.users, lines[id].user) == OwnerOf(d3.users, lines[id].user);
    }
  }

  /** After a whole run the lines and endpoints, too, are those of the snapshot. */
  lemma InitializationMirrorsLines(db: DB, snap: Snapshot, lines: map<int, Line>)
    requires Integrity(db) && Coherent(snap) && NothingMoves(db, snap)
    requires Reconciles(db, snap, lines)
    ensures Initiate(db, snap, lines).Some? && LinesMirror(Initiate(db, snap, lines).value, snap)
  {
    hide Integrity, Coherent, NothingMoves, Mirrors, StatesKept, LinesReconciled, AfterUsers, Rows, WantedUsers,
         WantedLines, AfterSessions, AfterTokens, AfterLines, Associate, AddMissingEndpoints, UpdateDnd, LinesMirror;
    InitializationMirrors(db, snap, lines);
    UpToUsers(db, snap);
    LinesUpToUsers(db, snap);
    var d3 := AfterUsers(db, snap).value;
    LinesOfRun(d3, snap, lines);
    NoEndpointsYet(d3, snap.users, lines);
    RestOfRun(d3, snap, lines);
    AssociatedLines(d3, snap, lines, Initiate(db, snap, lines).value);
  }

  // ---- a second run ----

  lemma SameUsers(d: DB, e: DB, snap: Snapshot)
    requires Mirrors(d, snap) && Mirrors(e, snap) && StatesKept(d, e, snap) && Coherent(snap)
    ensures e.users == d.users
  {
    KeysOfRows(d.users, UserTenant);
    KeysOfRows(e.users, UserTenant);
    assert e.users.Keys == d.users.Keys;
    forall u | u in d.users ensures e.users[u] == d.users[u] {
      var a, b := Entry(u, d.users[u].tenant), Entry(u, e.users[u].tenant);
      RowsMeans(d.users, UserTenant, a);
      RowsMeans(e.users, UserTenant, a);
      var x :| x in snap.users && a == Entry(x.uuid, x.tenant);
      assert TenantKept(d, snap, u);
    }
  }

  lemma SameAccounts(d: DB, e: DB, snap: Snapshot)
    requires AccountsMirror(d, snap) && AccountsMirror(e, snap) && d.users == e.users
    ensures e.sessions == d.sessions && e.tokens == d.tokens
  {
    var sessionOwner, tokenOwner := SessionOwner(d.users), TokenOwner(d.users);
    KeysOfRows(d.sessions, sessionOwner);
    KeysOfRows(e.sessions, sessionOwner);
    KeysOfRows(d.tokens, tokenOwner);
    KeysOfRows(e.tokens, tokenOwner);
    forall s | s in d.sessions ensures e.sessions[s] == d.sessions[s] {
      var x := Entry(s, sessionOwner(s, d.sessions[s]));
      RowsMeans(d.sessions, sessionOwner, x);
      RowsMeans(e.sessions, sessionOwner, x);
      assert x in WantedSessions(snap.sessions);
    }
    forall k | k in d.tokens ensures e.tokens[k] == d.tokens[k] {
      var x := Entry(k, tokenOwner(k, d.tokens[k]));
      RowsMeans(d.tokens, tokenOwner, x);
      assert x in WantedTokens(snap.tokens);
    }
  }

  lemma NothingMovesAgain(d: DB, snap: Snapshot)
    requires Coherent(snap) && Mirrors(d, snap)
    ensures NothingMoves(d, snap)
  {
    forall x | x in snap.users && TenantKept(d, snap, x.uuid) ensures d.users[x.uuid].tenant == x.tenant {
      var e := Entry(x.uuid, d.users[x.uuid].tenant);
      RowsMeans(d.users, UserTenant, e);
      var y :| y in snap.users && e == Entry(y.uuid, y.tenant);
    }
    forall s | s in snap.sessions && s.uuid in d.sessions ensures d.sessions[s.uuid].user == s.user {
      var view := SessionOwner(d.users);
      var e := Entry(s.uuid, view(s.uuid, d.sessions[s.uuid]));
      RowsMeans(d.sessions, view, e);
      var t :| t in snap.sessions && e == Entry(t.uuid, Owner(t.user, t.tenant));
    }
  }

  /** In the second run every line is found as the snapshot has it, and keeps its owner. */
  lemma LinesAgain(d: DB, snap: Snapshot, lines: map<int, Line>)
    requires Integrity(d) && Coherent(snap) && NothingMoves(d, snap) && Mirrors(d, snap) && LinesMirror(d, snap)
    requires AfterUsers(d, snap).Some? && LinesReconciled(AfterUsers(d, snap).value, snap.users, lines)
    ensures forall id :: id in d.lines ==> id in lines && lines[id].user == d.lines[id].user
  {
    var d3 := AfterUsers(d, snap).value;
    UpToUsers(d, snap);
    LinesUpToUsers(d, snap);
    forall id | id in d.lines ensures id in lines && lines[id].user == d.lines[id].user {
      LineAgain(d, d3, snap, lines, id);
    }
  }

  lemma LineAgain(d: DB, d3: DB, snap: Snapshot, lines: map<int, Line>, id: int)
    requires Integrity(d) && Coherent(snap) && LinesMirror(d, snap) && Mirrors(d, snap) && id in d.lines
    requires LinesReconciled(d3, snap.users, lines) && StoredUsers(d3) == WantedUsers(snap.users)
    requires TenantKept(d, snap, d.lines[id].user) && d.lines[id].user in d3.users ==> id in d3.lines
    requires id in d3.lines ==> d3.lines[id].user == d.lines[id].user
    ensures id in lines && lines[id].user == d.lines[id].user
  {
    var user := d.lines[id].user;
    var e := Entry(id, OwnerOf(d.users, user));
    assert user in d.users && d.users[user].tenant in snap.tenants;
    WantedLineOwner(d3, snap, e);
    assert e == Entry(id, OwnerOf(d3.users, user));
    LineStays(d3, snap.users, lines, id);
  }

  lemma SameLines(d: DB, e: DB, snap: Snapshot)
    requires LinesMirror(d, snap) && LinesMirror(e, snap)
    requires forall id :: id in d.lines && id in e.lines ==> e.lines[id].user == d.lines[id].user
    ensures e.lines == d.lines && e.endpoints == d.endpoints
  {
  }

  /** A database that mirrors the snapshot is a fixed point of the initialization, whatever the order of the
      traversals. */
  lemma MirrorIsFixedPoint(d: DB, snap: Snapshot, lines: map<int, Line>)
    requires Integrity(d) && Coherent(snap) && Mirrors(d, snap) && LinesMirror(d, snap)
    requires Reconciles(d, snap, lines)
    ensures Initiate(d, snap, lines) == Some(d)
  {
    hide Initiate, AfterUsers, Integrity, Coherent, NothingMoves, StatesKept, LinesReconciled, AccountsMirror,
        LinesMirror;
    NothingMovesAgain(d, snap);
    InitializationMirrors(d, snap, lines);
    InitializationMirrorsLines(d, snap, lines);
    UpToUsersSucceeds(d, snap, lines);
    LinesAgain(d, snap, lines);
    var e := Initiate(d, snap, lines).value;
    SameUsers(d, e, snap);
    SameAccounts(d, e, snap);
    LineOwnersKept(d, snap, lines);
    SameLines(d, e, snap);
  }

  /** Hence initializing again from the same snapshot changes nothing. */
  lemma SecondRunChangesNothing(db: DB, snap: Snapshot, lines: map<int, Line>, again: map<int, Line>)
    requires Integrity(db) && Coherent(snap) && Reconciles(db, snap, lines)
    ensures
      var first := Initiate(db, snap, lines);
      first.Some? && Reconciles(first.value, snap, again) ==> Initiate(first.value, snap, again) == first
  {
    hide Initiate, Integrity, Coherent, NothingMoves, Reconciles, Mirrors, LinesMirror;
    var first := Initiate(db, snap, lines);
    if first.Some? && Reconciles(first.value, snap, again) {
      InitializationMirrors(db, snap, lines);
      InitializationMirrorsLines(db, snap, lines);
      MirrorIsFixedPoint(first.value, snap, again);
    }
  }

  lemma UpToUsersSucceeds(db: DB, snap: Snapshot, lines: map<int, Line>)
    requires Initiate(db, snap, lines).Some?
    ensures AfterUsers(db, snap).Some?
  {
  }

  lemma LineOwnersKept(db: DB, snap: Snapshot, lines: map<int, Line>)
    requires Initiate(db, snap, lines).Some?
    ensures
      var d := Initiate(db, snap, lines).value;
      forall id :: id in d.lines ==> id in lines && d.lines[id].user == lines[id].user
  {
    RestOfRun(AfterUsers(db, snap).value, snap, lines);
  }

  // ---- any snapshot ----

  /** Whatever the snapshot, coherent or not, and wherever the run ends, every foreign key resolves. */
  lemma EveryRunKeepsIntegrity(db: DB, snap: Snapshot, lines: map<int, Line>)
    requires Integrity(db)
    requires Reconciles(db, snap, lines)
    ensures Integrity(Committed(db, snap, lines))
  {
    hide Integrity, LinesReconciled, TenantsStep, EndpointsStep, UsersStep, NoneMoves, AfterLines, CommittedAccounts;
    UpToTenants(db, snap);
    UsersStepResult(AfterTenants(db, snap), snap.users);
    if AfterUsers(db, snap).Some? {
      var d := AfterUsers(db, snap).value;
      AfterLinesRefers(d, snap.users, lines);
      AccountsKeepIntegrity(AfterLines(d, snap.users, lines), snap);
    }
  }

  lemma AfterLinesRefers(db: DB, users: seq<UserInfo>, lines: map<int, Line>)
    requires Integrity(db) && LinesReconciled(db, users, lines)
    ensures Integrity(AfterLines(db, users, lines))
  {
    hide Integrity, LinesReconciled;
    ReconciledLinesRefer(db, users, lines);
    AssociationRefers(db.(lines := lines), users);
    DndRefers(Associate(AddMissingEndpoints(db.(lines := lines), users), users), users);
  }

  lemma AccountsKeepIntegrity(db: DB, snap: Snapshot)
    requires Integrity(db)
    ensures Integrity(CommittedAccounts(db, snap))
  {
    if SessionsStep(db, snap.sessions).Some? {
      SessionsStepAccepted(db, snap.sessions);
      var d8 := SessionsStep(db, snap.sessions).value;
      hide SessionsStep, TokensStep, Dict;
      var d9 := UpdateSessions(d8, snap.sessions);
      SessionsOwned(d8);
      OtherTables(d8, d9);
      if TokensStep(d9, snap.tokens).Some? {
        TokensStepKeepsIntegrity(d9, snap.tokens);
        var d10 := TokensStep(d9, snap.tokens).value;
        SessionsOwned(d10);
        OtherTables(d10, UpdateTokens(d10, snap.tokens));
      }
    }
  }

  /** A run that fails on the users leaves them as they were, and fails again from there with the same snapshot. */
  lemma FailsAgain(db: DB, snap: Snapshot, lines: map<int, Line>)
    requires Integrity(db) && Coherent(snap) && AfterUsers(db, snap).None?
    ensures
      var d := Committed(db, snap, lines);
      && Initiate(db, snap, lines).None?
      && (forall u :: u in d.users <==> TenantKept(db, snap, u))
      && (forall u :: u in d.users ==> d.users[u] == db.users[u])
      && forall again :: Initiate(d, snap, again).None?
  {
    hide Integrity, Coherent, TenantsStep, EndpointsStep, UsersStep;
    UpToTenants(db, snap);
    UpToUsers(db, snap);
    UpToUsers(AfterTenants(db, snap), snap);
  }

  /** Such a run: any stored user goes to another tenant, and the tenant it leaves is kept. */
  lemma MovedUserFails(db: DB, u: string, tenant: string, dnd: bool)
    requires Integrity(db) && u in db.users && tenant != db.users[u].tenant
    ensures
      var snap := Snapshot([], [db.users[u].tenant, tenant], [UserInfo(u, tenant, [], dnd)], [], []);
      Coherent(snap) && AfterUsers(db, snap).None?
  {
    var moved := UserInfo(u, tenant, [], dnd);
    var snap := Snapshot([], [db.users[u].tenant, tenant], [moved], [], []);
    assert Coherent(snap) by {
      hide Integrity;
    }
    hide Coherent, Integrity, AfterUsers;
    UpToUsers(db, snap);
    assert moved in snap.users && TenantKept(db, snap, moved.uuid);
  }
}
