/** The initiator as it works on the database. A method that returns `ok` raises otherwise, and its transaction is
    rolled back. */
module Initiators {
  import opened Options
  import opened PresenceCache
  import opened Reconciliation
  import opened StepProofs
  import opened InitiationProofs
  import opened Reinitialization
  import opened SnapshotTables

  /** INSERT of rows in some order: the primary key refuses a second row with a key. */
  method InsertAll<K(==), R, V(==)>(table: map<K, R>, rows: set<Entry<K, V>>, make: Entry<K, V> -> R)
    returns (ok: bool, after: map<K, R>)
    ensures ok <==> Insertable(rows, table.Keys)
    ensures ok ==> after == Created(table, rows, make)
  {
    after := table;
    var todo := rows;
    while todo != {}
      invariant todo <= rows && Insertable(rows - todo, table.Keys) && after == Created(table, rows - todo, make)
    {
      hide Insertable, Created;
      var e :| e in todo;
      ghost var done := rows - todo;
      OneMoreRow(table, done, e, make);
      if e.key in after {
        if Insertable(rows, table.Keys) {
          FewerRows(rows, done + {e}, table.Keys);
        }
        return false, table;
      }
      todo := todo - {e};
      assert rows - todo == done + {e};
      after := after[e.key := make(e)];
    }
    assert rows - todo == rows;
    ok := true;
  }

  lemma OneMoreRow<K, R, V>(table: map<K, R>, done: set<Entry<K, V>>, e: Entry<K, V>, make: Entry<K, V> -> R)
    requires Insertable(done, table.Keys) && e !in done
    ensures Insertable(done + {e}, table.Keys) <==> e.key !in Created(table, done, make)
    ensures Insertable(done + {e}, table.Keys) ==>
              Created(table, done + {e}, make) == Created(table, done, make)[e.key := make(e)]
  {
    if d :| d in done && d.key == e.key {
      assert d in done + {e} && e in done + {e};
    } else if e.key !in table {
      assert Functional(done + {e});
      CreatedOneMore(table, done, e, make);
    }
  }

  lemma CreatedOneMore<K, R, V>(table: map<K, R>, done: set<Entry<K, V>>, e: Entry<K, V>, make: Entry<K, V> -> R)
    requires Functional(done) && Functional(done + {e})
    ensures Created(table, done + {e}, make) == Created(table, done, make)[e.key := make(e)]
  {
    hide Created, Functional;
    var after, both := Created(table, done, make)[e.key := make(e)], Created(table, done + {e}, make);
    forall k ensures SameAt(after, both, k) {
      CreatedOneMoreAt(table, done, e, make, k);
    }
    SameMap(after, both);
  }

  ghost predicate SameAt<K, R>(a: map<K, R>, b: map<K, R>, k: K) {
    (k in a <==> k in b) && (k in a && k in b ==> a[k] == b[k])
  }

  lemma SameMap<K, R>(a: map<K, R>, b: map<K, R>)
    requires forall k :: SameAt(a, b, k)
    ensures a == b
  {
    forall k ensures k in a <==> k in b {
      assert SameAt(a, b, k);
    }
    forall k | k in a ensures a[k] == b[k] {
      assert SameAt(a, b, k);
    }
  }

  lemma CreatedOneMoreAt<K, R, V>(
    table: map<K, R>, done: set<Entry<K, V>>, e: Entry<K, V>, make: Entry<K, V> -> R, k: K)
    requires Functional(done) && Functional(done + {e})
    ensures
      SameAt(Created(table, done, make)[e.key := make(e)], Created(table, done + {e}, make), k)
  {
    hide Created, Functional;
    CreatedAt(table, done, make, k);
    CreatedAt(table, done + {e}, make, k);
    assert e in done + {e};
    if k != e.key {
      if c :| c in done && c.key == k {
        assert c in done + {e};
      }
    }
  }

  lemma CreatedAt<K, R, V>(table: map<K, R>, created: set<Entry<K, V>>, make: Entry<K, V> -> R, k: K)
    requires Functional(created)
    ensures
      var after := Created(table, created, make);
      && (k in after <==> k in table || exists c :: c in created && c.key == k)
      && (forall c :: c in created && c.key == k ==> after[k] == make(c))
      && (k in table && (forall c :: c in created ==> c.key != k) ==> after[k] == table[k])
  {
  }

  lemma FewerRows<K, V>(rows: set<Entry<K, V>>, some: set<Entry<K, V>>, stored: set<K>)
    requires Insertable(rows, stored) && some <= rows
    ensures Insertable(some, stored)
  {
  }

  class Database {
    var tenants: set<string>
    var users: map<string, User>
    var lines: map<int, Line>
    var endpoints: map<string, string>
    var sessions: map<string, Session>
    var tokens: map<TokenKey, bool>

    ghost function View(): DB
      reads this
    {
      DB(tenants, users, lines, endpoints, sessions, tokens)
    }

    constructor ()
      ensures View() == DB({}, map[], map[], map[], map[], map[])
    {
      tenants, users, lines, endpoints, sessions, tokens := {}, map[], map[], map[], map[], map[];
    }

    method DeleteUsersByUuids(uuids: set<string>)
      modifies this
      ensures View() == DeleteUsers(old(View()), uuids)
    {
      users := users - uuids;
      lines := map id | id in lines && lines[id].user !in uuids :: lines[id];
      sessions := map s | s in sessions && sessions[s].user !in uuids :: sessions[s];
      tokens := map k | k in tokens && k.user !in uuids :: tokens[k];
    }

    method DeleteTenantsByUuids(uuids: set<string>)
      modifies this
      ensures View() == DeleteTenants(old(View()), uuids)
    {
      DeleteUsersByUuids(set u | u in users && users[u].tenant in uuids);
      tenants := tenants - uuids;
    }

    method DeleteEndpoints()
      modifies this
      ensures View() == DeleteAllEndpoints(old(View()))
    {
      endpoints := map[];
      lines := map id | id in lines :: lines[id].(endpoint := None);
    }

    method UpdateUsersDnd(changed: map<string, bool>)
      modifies this`users
      ensures users == map u | u in old(users) ::
          if u in changed then old(users)[u].(dnd := changed[u]) else old(users)[u]
    {
      users := map u | u in users :: if u in changed then users[u].(dnd := changed[u]) else users[u];
    }

    method AssociateEndpoints(names: map<int, string>)
      modifies this`lines
      ensures lines == map id | id in old(lines) ::
                         if id in names then old(lines)[id].(endpoint := Some(names[id])) else old(lines)[id]
    {
      lines := map id | id in lines :: if id in names then lines[id].(endpoint := Some(names[id])) else lines[id];
    }

    method UpdateAllSessions(mobile: map<string, bool>)
      modifies this`sessions
      ensures sessions == map s | s in old(sessions) ::
                            if s in mobile then old(sessions)[s].(mobile := mobile[s]) else old(sessions)[s]
    {
      sessions := map s | s in sessions :: if s in mobile then sessions[s].(mobile := mobile[s]) else sessions[s];
    }

    method UpdateAllTokens(mobile: map<TokenKey, bool>)
      modifies this`tokens
      ensures tokens == map k | k in old(tokens) :: if k in mobile then mobile[k] else old(tokens)[k]
    {
      tokens := map k | k in tokens :: if k in mobile then mobile[k] else tokens[k];
    }
  }

  class Initiator {
    const dao: Database

    constructor (dao: Database)
      ensures this.dao == dao
    {
      this.dao := dao;
    }

    method InitiateEndpoints(events: seq<Event>)
      modifies dao
      ensures dao.View() == EndpointsStep(old(dao.View()), events)
      ensures forall device :: DeviceShown(dao.endpoints, events, device)
      ensures forall device :: NoEventFor(events, device) || IsCustom(device) ==> device !in dao.endpoints
    {
      var endpoints := map[];
      for i := 0 to |events|
        invariant endpoints == Dict(events[..i], EndpointState)
      {
        assert events[..i + 1][..i] == events[..i];
        var event := events[i];
        if event.OtherEvent? {
          continue;
        }
        if CUSTOM_PREFIX <= event.device {
          continue;
        }
        endpoints := endpoints[event.device := DeviceState(event.state)];
      }
      assert events[..|events|] == events;
      dao.DeleteEndpoints();
      dao.endpoints := dao.endpoints + endpoints;
      hide DeviceShown, NoEventFor, IsCustom, Dict;
      assert dao.endpoints == Dict(events, EndpointState);
      forall device
        ensures DeviceShown(dao.endpoints, events, device)
        ensures NoEventFor(events, device) || IsCustom(device) ==> device !in dao.endpoints
      {
        EventsDecide(events, device);
      }
    }

    method InitiateTenants(tenants: seq<string>)
      modifies dao
      ensures dao.View() == TenantsStep(old(dao.View()), tenants)
    {
      var wanted := set t | t in tenants;
      var missing, expired := wanted - dao.tenants, dao.tenants - wanted;
      dao.tenants := dao.tenants + missing;
      assert dao.tenants == old(dao.tenants) + wanted;
      dao.DeleteTenantsByUuids(expired);
    }

    method AddAndRemoveUsers(users: seq<UserInfo>) returns (ok: bool)
      modifies dao
      ensures ok <==> UsersStep(old(dao.View()), users).Some?
      ensures dao.View() == if ok then UsersStep(old(dao.View()), users).value else old(dao.View())
    {
      var wanted, stored := set x | x in users :: Entry(x.uuid, x.tenant), Rows(dao.users, UserTenant);
      var missing, expired := wanted - stored, stored - wanted;
      var before := dao.tenants;
      var missingTenants := (set e | e in missing :: e.value) - dao.tenants;
      dao.tenants := dao.tenants + missingTenants;
      var created;
      ok, created := InsertAll(dao.users, missing, NewUser);
      if !ok {
        dao.tenants := before;
        return;
      }
      dao.users := created;
      assert dao.tenants == before + set e | e in missing :: e.value;
      assert dao.View() == CreateUsers(old(dao.View()), missing);
      dao.DeleteUsersByUuids(Keys(expired));
    }

    /** Lines that expired go first; a line that is still stored, or was just created, is not created again. */
    method AddAndRemoveLines(users: seq<UserInfo>)
      requires Integrity(dao.View())
      modifies dao`lines
      ensures LinesReconciled(old(dao.View()), users, dao.lines)
    {
      ghost var before := dao.View();
      var wanted, stored := WantedLines(users), Rows(dao.lines, LineOwner(dao.users));
      var missing, expired := wanted - stored, stored - wanted;
      var expiredIds := Keys(expired);
      var survivingIds := Keys(stored) - expiredIds;
      var userUuids := dao.users.Keys;
      dao.lines := dao.lines - expiredIds;
      var newLines: map<int, Line> := map[];
      var todo := missing;
      while todo != {}
        invariant todo <= missing
        invariant forall id :: id in newLines ==>
                    id !in survivingIds && newLines[id].endpoint.None? && CanOwn(before, users, id, newLines[id].user)
        invariant forall e :: e in missing - todo && e.value.user in userUuids ==>
            e.key in survivingIds || e.key in newLines
      {
        var e :| e in todo;
        todo := todo - {e};
        if e.value.user !in userUuids {
          continue;
        }
        if e.key in survivingIds || e.key in newLines {
          continue;
        }
        newLines := newLines[e.key := Line(e.value.user, None)];
      }
      forall id ensures LineReconciled(before, users, id, dao.lines + newLines) {
        OneLine(before, users, id, stored, survivingIds, dao.lines, newLines);
      }
      forall id | id in newLines ensures id !in dao.lines {
        OneLine(before, users, id, stored, survivingIds, dao.lines, newLines);
      }
      assert newLines.Keys !! dao.lines.Keys;
      dao.lines := dao.lines + newLines;
    }

    method NamedEndpoints(users: seq<UserInfo>) returns (names: set<string>)
      ensures names == EndpointNames(AllLines(users))
    {
      names := {};
      for i := 0 to |users|
        invariant names == EndpointNames(AllLines(users[..i]))
      {
        var lines := users[i].lines;
        assert AllLines(users[..i]) + lines[..0] == AllLines(users[..i]);
        for j := 0 to |lines|
          invariant names == EndpointNames(AllLines(users[..i]) + lines[..j])
        {
          LinesSoFar(AllLines(users[..i]), lines, j);
          var name := EndpointName(lines[j]);
          if name.None? {
            continue;
          }
          names := names + {name.value};
        }
        AllLinesOneMore(users, i);
      }
      assert users[..|users|] == users;
    }

    /** Disconnected SCCP endpoints have no device state. */
    method AddEndpointsOfLines(users: seq<UserInfo>)
      modifies dao
      ensures dao.View() == AddMissingEndpoints(old(dao.View()), users)
    {
      var names := NamedEndpoints(users);
      dao.endpoints := WithEndpoints(dao.endpoints, names);
    }

    method DesiredEndpoints(users: seq<UserInfo>) returns (desired: map<int, string>)
      ensures desired == Dict(AllLines(users), LineEndpoint)
    {
      desired := map[];
      for i := 0 to |users|
        invariant desired == Dict(AllLines(users[..i]), LineEndpoint)
      {
        hide Dict, AllLines, LineEndpoint, EndpointName;
        var lines := users[i].lines;
        ghost var before := AllLines(users[..i]);
        assert before + lines[..0] == before;
        for j := 0 to |lines|
          invariant desired == Dict(before + lines[..j], LineEndpoint)
        {
          DesiredOneMore(before, lines, j);
          var name := EndpointName(lines[j]);
          if name.Some? {
            desired := desired[lines[j].id := name.value];
          }
        }
        AllLinesOneMore(users, i);
      }
      assert users[..|users|] == users;
    }

    method AssociateLineEndpoints(users: seq<UserInfo>)
      modifies dao
      ensures dao.View() == Associate(old(dao.View()), users)
    {
      var desired := DesiredEndpoints(users);
      var associations: map<int, string> := map[];
      var todo := desired.Items;
      while todo != {}
        invariant todo <= desired.Items
        invariant forall id :: id in associations ==> id in desired && associations[id] == desired[id]
        invariant forall e :: e in desired.Items - todo && e.0 in dao.lines && dao.lines[e.0].endpoint != Some(e.1) ==>
                    e.0 in associations
      {
        var e :| e in todo;
        todo := todo - {e};
        if e.0 in dao.lines && dao.lines[e.0].endpoint == Some(e.1) {
          continue;
        }
        associations := associations[e.0 := e.1];
      }
      assert forall id :: id in desired ==> (id, desired[id]) in desired.Items;
      dao.AssociateEndpoints(associations);
      hide Dict, AllLines;
      ghost var after := Associate(old(dao.View()), users).lines;
      assert dao.lines.Keys == after.Keys;
      assert forall id :: id in after ==> dao.lines[id] == after[id];
    }

    method UpdateServicesUsers(users: seq<UserInfo>)
      modifies dao
      ensures dao.View() == UpdateDnd(old(dao.View()), users)
    {
      var desired := Dict(users, UserDnd);
      var changed: map<string, bool> := map[];
      var todo := desired.Keys;
      while todo != {}
        invariant todo <= desired.Keys
        invariant forall u :: u in changed ==> u in desired && changed[u] == desired[u]
        invariant forall u :: u in desired.Keys - todo && u in dao.users && dao.users[u].dnd != desired[u] ==>
            u in changed
      {
        var u :| u in todo;
        todo := todo - {u};
        if u in dao.users && dao.users[u].dnd == desired[u] {
          continue;
        }
        changed := changed[u := desired[u]];
      }
      dao.UpdateUsersDnd(changed);
      assert dao.users == UpdateDnd(old(dao.View()), users).users;
    }

    method InitiateUsers(users: seq<UserInfo>) returns (ok: bool, ghost lines: map<int, Line>)
      requires Integrity(dao.View())
      modifies dao
      ensures ok <==> UsersStep(old(dao.View()), users).Some?
      ensures !ok ==> dao.View() == old(dao.View())
      ensures ok ==> LinesReconciled(UsersStep(old(dao.View()), users).value, users, lines)
      ensures ok ==> dao.View() == AfterLines(UsersStep(old(dao.View()), users).value, users, lines)
    {
      hide AddMissingEndpoints, Associate, UpdateDnd, LinesReconciled, UsersStep;
      lines := map[];
      ok := AddAndRemoveUsers(users);
      if !ok {
        return;
      }
      UsersStepResult(old(dao.View()), users);
      ghost var d := dao.View();
      AddAndRemoveLines(users);
      lines := dao.lines;
      assert dao.View() == d.(lines := lines);
      AddEndpointsOfLines(users);
      AssociateLineEndpoints(users);
      UpdateServicesUsers(users);
    }

    method AddAndRemoveSessions(sessions: seq<SessionInfo>) returns (ok: bool)
      modifies dao
      ensures ok <==> SessionsStep(old(dao.View()), sessions).Some?
      ensures dao.View() == if ok then SessionsStep(old(dao.View()), sessions).value else old(dao.View())
    {
      var wanted := set x | x in sessions :: Entry(x.uuid, Owner(x.user, x.tenant));
      var stored := Rows(dao.sessions, SessionOwner(dao.users));
      var missing, expired := wanted - stored, stored - wanted;
      var userUuids := dao.users.Keys;
      var newSessions: set<Entry<string, Owner>> := {};
      var todo := missing;
      while todo != {}
        invariant todo <= missing && newSessions == OfUsers(missing - todo, userUuids)
      {
        var e :| e in todo;
        todo := todo - {e};
        if e.value.user !in userUuids {
          continue;
        }
        newSessions := newSessions + {e};
      }
      assert missing - todo == missing;
      var created;
      ok, created := InsertAll(dao.sessions, newSessions, NewSession);
      if ok {
        dao.sessions := created - Keys(expired);
      }
    }

    method UpdateSessionsMobile(sessions: seq<SessionInfo>)
      modifies dao
      ensures dao.View() == UpdateSessions(old(dao.View()), sessions)
    {
      var mobile := Dict(sessions, SessionMobile);
      var updates: map<string, bool> := map[];
      var todo := dao.sessions.Keys;
      while todo != {}
        invariant todo <= dao.sessions.Keys
        invariant forall s :: s in updates ==> s in mobile && updates[s] == mobile[s]
        invariant forall s :: s in dao.sessions.Keys - todo && s in mobile && mobile[s] != dao.sessions[s].mobile ==>
            s in updates
      {
        var s :| s in todo;
        todo := todo - {s};
        if s in mobile && mobile[s] != dao.sessions[s].mobile {
          updates := updates[s := mobile[s]];
        }
      }
      dao.UpdateAllSessions(updates);
      assert dao.sessions == UpdateSessions(old(dao.View()), sessions).sessions;
    }

    method InitiateSessions(sessions: seq<SessionInfo>) returns (ok: bool)
      modifies dao
      ensures ok <==> AfterSessions(old(dao.View()), sessions).Some?
      ensures dao.View() == if ok then AfterSessions(old(dao.View()), sessions).value else old(dao.View())
    {
      ok := AddAndRemoveSessions(sessions);
      if ok {
        UpdateSessionsMobile(sessions);
      }
    }

    method AddAndRemoveRefreshTokens(tokens: seq<TokenInfo>) returns (ok: bool)
      modifies dao
      ensures ok <==> TokensStep(old(dao.View()), tokens).Some?
      ensures dao.View() == if ok then TokensStep(old(dao.View()), tokens).value else old(dao.View())
    {
      var wanted := set x | x in tokens :: Entry(TokenKey(x.client, x.user), Owner(x.user, x.tenant));
      var stored := Rows(dao.tokens, TokenOwner(dao.users));
      var missing, expired := wanted - stored, stored - wanted;
      var userUuids := dao.users.Keys;
      var newTokens: set<Entry<TokenKey, Owner>> := {};
      var todo := missing;
      while todo != {}
        invariant todo <= missing && newTokens == OfUsers(missing - todo, userUuids)
      {
        var e :| e in todo;
        todo := todo - {e};
        if e.value.user !in userUuids {
          continue;
        }
        newTokens := newTokens + {e};
      }
      assert missing - todo == missing;
      var created;
      ok, created := InsertAll(dao.tokens, newTokens, NewToken);
      if ok {
        dao.tokens := created - Keys(expired);
      }
    }

    method UpdateTokensMobile(tokens: seq<TokenInfo>)
      modifies dao
      ensures dao.View() == UpdateTokens(old(dao.View()), tokens)
    {
      var mobile := Dict(tokens, TokenMobile);
      var updates: map<TokenKey, bool> := map[];
      var todo := dao.tokens.Keys;
      while todo != {}
        invariant todo <= dao.tokens.Keys
        invariant forall k :: k in updates ==> k in mobile && updates[k] == mobile[k]
        invariant forall k :: k in dao.tokens.Keys - todo && k in mobile && mobile[k] != dao.tokens[k] ==> k in updates
      {
        var k :| k in todo;
        todo := todo - {k};
        if k in mobile && mobile[k] != dao.tokens[k] {
          updates := updates[k := mobile[k]];
        }
      }
      dao.UpdateAllTokens(updates);
      assert dao.tokens == UpdateTokens(old(dao.View()), tokens).tokens;
    }

    method InitiateRefreshTokens(tokens: seq<TokenInfo>) returns (ok: bool)
      modifies dao
      ensures ok <==> AfterTokens(old(dao.View()), tokens).Some?
      ensures dao.View() == if ok then AfterTokens(old(dao.View()), tokens).value else old(dao.View())
    {
      ok := AddAndRemoveRefreshTokens(tokens);
      if ok {
        UpdateTokensMobile(tokens);
      }
    }

    /** The steps in order; the first that fails ends the run, and those before it stay committed. With a coherent
        snapshot the run succeeds exactly when nothing moves, and leaves the snapshot. */
    method Initiate(snap: Snapshot) returns (ok: bool, ghost lines: map<int, Line>)
      requires Integrity(dao.View())
      modifies dao
      ensures Integrity(dao.View())
      ensures Reconciles(old(dao.View()), snap, lines)
      ensures ok <==> Reconciliation.Initiate(old(dao.View()), snap, lines).Some?
      ensures dao.View() == Committed(old(dao.View()), snap, lines)
      ensures ok ==> Reconciliation.Initiate(old(dao.View()), snap, lines) == Some(dao.View())
      ensures Coherent(snap) ==> (ok <==> NothingMoves(old(dao.View()), snap))
      ensures Coherent(snap) && ok ==>
                && Mirrors(dao.View(), snap) && LinesMirror(dao.View(), snap)
                && StatesKept(old(dao.View()), dao.View(), snap)
                && TablesAreTheSnapshot(old(dao.View()), dao.View(), snap)
      ensures forall device :: DeviceShown(dao.endpoints, snap.events, device)
    {
      hide Integrity, LinesReconciled, UsersStep, TenantsStep, EndpointsStep, AfterLines, AfterSessions, AfterTokens,
           Coherent, NothingMoves, Mirrors, LinesMirror, StatesKept, TablesAreTheSnapshot, DeviceShown, NoEventFor,
           IsCustom, Named, Reconciles;
      ghost var before := dao.View();
      ok, lines := RunSteps(snap);
      EveryRunKeepsIntegrity(before, snap, lines);
      forall device ensures DeviceShown(dao.endpoints, snap.events, device) {
        EndpointsShown(before, snap, lines, device);
      }
      if Coherent(snap) {
        InitializationMirrors(before, snap, lines);
        if ok {
          InitializationMirrorsLines(before, snap, lines);
          TablesReplaced(before, snap, lines);
        }
      }
    }

    method RunSteps(snap: Snapshot) returns (ok: bool, ghost lines: map<int, Line>)
      requires Integrity(dao.View())
      modifies dao
      ensures Reconciles(old(dao.View()), snap, lines)
      ensures ok <==> Reconciliation.Initiate(old(dao.View()), snap, lines).Some?
      ensures dao.View() == Committed(old(dao.View()), snap, lines)
      ensures ok ==> Reconciliation.Initiate(old(dao.View()), snap, lines) == Some(dao.View())
    {
      hide Integrity, LinesReconciled, UsersStep, TenantsStep, EndpointsStep, AfterLines, AfterSessions, AfterTokens;
      UpToTenants(dao.View(), snap);
      InitiateEndpoints(snap.events);
      InitiateTenants(snap.tenants);
      ok, lines := InitiateUsers(snap.users);
      if ok {
        ok := InitiateSessions(snap.sessions);
        if ok {
          ok := InitiateRefreshTokens(snap.tokens);
        }
      }
    }
  }

  lemma OneLine(
    db: DB, users: seq<UserInfo>, id: int, stored: set<Entry<int, Owner>>, surviving: set<int>, kept: map<int, Line>,
    created: map<int, Line>)
    requires stored == Rows(db.lines, LineOwner(db.users))
    requires surviving == Keys(stored) - Keys(stored - WantedLines(users))
    requires kept == db.lines - Keys(stored - WantedLines(users))
    requires id in created ==> id !in surviving && created[id].endpoint.None? && CanOwn(db, users, id, created[id].user)
    requires forall e :: e in WantedLines(users) - stored && e.value.user in db.users ==>
        e.key in surviving || e.key in created
    ensures LineReconciled(db, users, id, kept + created)
    ensures id in created ==> id !in kept
  {
    var view := LineOwner(db.users);
    KeysOfRows(db.lines, view);
    assert kept.Keys == surviving;
    if id in db.lines {
      RowsMeans(db.lines, view, Entry(id, OwnerOf(db.users, db.lines[id].user)));
    }
  }

  lemma LinesSoFar(before: seq<LineInfo>, lines: seq<LineInfo>, j: nat)
    requires j < |lines|
    ensures
      var next := before + lines[..j + 1];
      && next[..|next| - 1] == before + lines[..j] && next[|next| - 1] == lines[j]
      && EndpointNames(next) == EndpointNames(before + lines[..j]) +
                                if EndpointName(lines[j]).Some? then {EndpointName(lines[j]).value} else {}
  {
    var next := before + lines[..j + 1];
    assert next == (before + lines[..j]) + [lines[j]];
    assert forall l :: l in next <==> l in before + lines[..j] || l == lines[j];
  }

  lemma DesiredOneMore(before: seq<LineInfo>, lines: seq<LineInfo>, j: nat)
    requires j < |lines|
    ensures
      var soFar := Dict(before + lines[..j], LineEndpoint);
      Dict(before + lines[..j + 1], LineEndpoint) ==
        match EndpointName(lines[j])
        case None => soFar
        case Some(name) => soFar[lines[j].id := name]
  {
    LinesSoFar(before, lines, j);
    hide EndpointName;
  }

  lemma AllLinesOneMore(users: seq<UserInfo>, i: nat)
    requires i < |users|
    ensures AllLines(users[..i + 1]) == AllLines(users[..i]) + users[i].lines
    ensures users[i].lines[..|users[i].lines|] == users[i].lines
  {
    assert users[..i + 1][..i] == users[..i];
  }
}
