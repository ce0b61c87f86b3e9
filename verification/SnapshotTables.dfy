/**
  What the tables hold after an initialization, said of the snapshot itself: its device events, its users with their
  lines, its sessions and its refresh tokens.
 */
module SnapshotTables {
  import opened Options
  import opened PresenceCache
  import opened Reconciliation
  import opened StepProofs
  import opened InitiationProofs
  import opened Reinitialization

  // ---- dictionaries and the lists they are made from ----

  lemma LastItemDecides<T, K, V>(list: seq<T>, item: T -> Option<Item<K, V>>, i: nat, k: K, v: V)
    requires LastItem(list, item, i, k, v)
    ensures k in Dict(list, item) && Dict(list, item)[k] == v
  {
    assert list[i] in list;
    DictMeans(list, item, k);
    var j: nat :| LastItem(list, item, j, k, Dict(list, item)[k]);
    assert i == j;
  }

  lemma NoItemNoKey<T, K, V>(list: seq<T>, item: T -> Option<Item<K, V>>, k: K)
    requires forall x :: x in list && item(x).Some? ==> item(x).value.key != k
    ensures k !in Dict(list, item)
  {
    DictMeans(list, item, k);
  }

  lemma {:induction false} DictOfTwo<T, K, V>(a: seq<T>, b: seq<T>, item: T -> Option<Item<K, V>>)
    ensures Dict(a + b, item) == Dict(a, item) + Dict(b, item)
  {
    if b == [] {
      assert a + b == a;
    } else {
      var n := |b| - 1;
      DictOfTwo(a, b[..n], item);
      assert (a + b)[..|a + b| - 1] == a + b[..n];
    }
  }

  // ---- device states ----

  /** Event `i` is the last that tells the state of a device. */
  ghost predicate LastEventFor(events: seq<Event>, i: nat, device: string) {
    && i < |events| && events[i].DeviceStateChange? && events[i].device == device
    && forall j :: i < j < |events| ==> !(events[j].DeviceStateChange? && events[j].device == device)
  }

  ghost predicate NoEventFor(events: seq<Event>, device: string) {
    forall j :: 0 <= j < |events| ==> !(events[j].DeviceStateChange? && events[j].device == device)
  }

  predicate IsCustom(device: string) { "Custom:" <= device }

  /** The device is shown as its last event says: available exactly in the five states of a device that is there. */
  ghost predicate DeviceShown(endpoints: map<string, string>, events: seq<Event>, device: string) {
    forall i: nat :: LastEventFor(events, i, device) && !IsCustom(device) ==>
      && device in endpoints
      && endpoints[device] ==
          if events[i].state in {"INUSE", "NOT_INUSE", "RINGING", "ONHOLD", "RINGINUSE"}
          then "available" else "unavailable"
  }

  lemma EventsDecide(events: seq<Event>, device: string)
    ensures DeviceShown(Dict(events, EndpointState), events, device)
    ensures NoEventFor(events, device) || IsCustom(device) ==> device !in Dict(events, EndpointState)
  {
    forall i: nat | LastEventFor(events, i, device) && !IsCustom(device)
      ensures device in Dict(events, EndpointState)
      ensures Dict(events, EndpointState)[device] ==
                if events[i].state in {"INUSE", "NOT_INUSE", "RINGING", "ONHOLD", "RINGINUSE"}
                then "available" else "unavailable"
    {
      LastItemDecides(events, EndpointState, i, device, DeviceState(events[i].state));
    }
    if NoEventFor(events, device) || IsCustom(device) {
      forall x | x in events && EndpointState(x).Some? ensures EndpointState(x).value.key != device {
        var j :| 0 <= j < |events| && events[j] == x;
      }
      NoItemNoKey(events, EndpointState, device);
    }
  }

  // ---- lines and the endpoints they name ----

  /** The line has a name and a protocol that has endpoints. */
  predicate NamesEndpoint(l: LineInfo) {
    l.name.Some? && l.name.value != "" && l.protocol in {Some("sip"), Some("sccp"), Some("custom")}
  }

  /** The endpoint it names: the technology of its protocol, if it has one, and the name. */
  predicate Names(l: LineInfo, endpoint: string) {
    && NamesEndpoint(l)
    && (l.protocol == Some("sip") ==> endpoint == "PJSIP/" + l.name.value)
    && (l.protocol == Some("sccp") ==> endpoint == "SCCP/" + l.name.value)
    && (l.protocol == Some("custom") ==> endpoint == l.name.value)
  }

  /** Line `k` of user `u` is the last entry with that id that names an endpoint. */
  ghost predicate LastNaming(users: seq<UserInfo>, u: nat, k: nat, id: int) {
    && u < |users| && k < |users[u].lines| && users[u].lines[k].id == id && NamesEndpoint(users[u].lines[k])
    && forall v, n :: u <= v < |users| && 0 <= n < |users[v].lines| && (v == u ==> n > k) ==>
         !(users[v].lines[n].id == id && NamesEndpoint(users[v].lines[n]))
  }

  ghost predicate NeverNaming(users: seq<UserInfo>, id: int) {
    forall x, l :: x in users && l in x.lines && l.id == id ==> !NamesEndpoint(l)
  }

  lemma NameMeans(l: LineInfo, endpoint: string)
    ensures EndpointName(l) == Some(endpoint) <==> Names(l, endpoint)
    ensures EndpointName(l).Some? <==> NamesEndpoint(l)
  {
  }

  lemma {:induction false} LineListed(users: seq<UserInfo>, l: LineInfo)
    ensures l in AllLines(users) <==> exists x :: x in users && l in x.lines
  {
    if users != [] {
      var n := |users| - 1;
      LineListed(users[..n], l);
      assert users == users[..n] + [users[n]];
    }
  }

  lemma {:induction false} LastNamingDecides(users: seq<UserInfo>, u: nat, k: nat, id: int)
    requires LastNaming(users, u, k, id)
    ensures id in Dict(AllLines(users), LineEndpoint)
    ensures Names(users[u].lines[k], Dict(AllLines(users), LineEndpoint)[id])
  {
    var n := |users| - 1;
    var lines, l := users[n].lines, users[u].lines[k];
    DictOfTwo(AllLines(users[..n]), lines, LineEndpoint);
    if u == n {
      NameMeans(l, EndpointName(l).value);
      LastItemDecides(lines, LineEndpoint, k, id, EndpointName(l).value);
    } else {
      forall x | x in lines && LineEndpoint(x).Some? ensures LineEndpoint(x).value.key != id {
        var j :| 0 <= j < |lines| && lines[j] == x;
        NameMeans(x, EndpointName(x).value);
        assert users[n].lines[j] == x;
      }
      NoItemNoKey(lines, LineEndpoint, id);
      assert users[..n][u] == users[u];
      LastNamingDecides(users[..n], u, k, id);
    }
  }

  lemma NeverNamingDecides(users: seq<UserInfo>, id: int)
    requires NeverNaming(users, id)
    ensures id !in Dict(AllLines(users), LineEndpoint)
  {
    forall l | l in AllLines(users) && LineEndpoint(l).Some? ensures LineEndpoint(l).value.key != id {
      LineListed(users, l);
      NameMeans(l, EndpointName(l).value);
    }
    NoItemNoKey(AllLines(users), LineEndpoint, id);
  }

  /** Some line of the snapshot names the endpoint. */
  ghost predicate Named(users: seq<UserInfo>, endpoint: string) {
    exists x, l :: x in users && l in x.lines && Names(l, endpoint)
  }

  lemma NamedMeans(users: seq<UserInfo>, endpoint: string)
    ensures endpoint in EndpointNames(AllLines(users)) <==> Named(users, endpoint)
  {
    if endpoint in EndpointNames(AllLines(users)) {
      var l :| l in AllLines(users) && EndpointName(l).Some? && EndpointName(l).value == endpoint;
      LineListed(users, l);
      NameMeans(l, endpoint);
    }
    if x, l :| x in users && l in x.lines && Names(l, endpoint) {
      LineListed(users, l);
      NameMeans(l, endpoint);
    }
  }

  // ---- the committed tables ----

  /** What a run leaves in the endpoint and line tables, wherever it stopped after the users. */
  lemma CommittedLines(db: DB, snap: Snapshot, lines: map<int, Line>)
    requires Integrity(db) && Reconciles(db, snap, lines)
    ensures
      var d, states := Committed(db, snap, lines), Dict(snap.events, EndpointState);
      var all := AllLines(snap.users);
      if AfterUsers(db, snap).None? then d.endpoints == states
      else
        && d.endpoints == WithEndpoints(states, EndpointNames(all))
        && d.lines.Keys == lines.Keys
        && (forall id :: id in lines ==> lines[id].endpoint.None?)
        && var named := Dict(all, LineEndpoint);
        forall id :: id in d.lines ==>
          d.lines[id] == if id in named then lines[id].(endpoint := Some(named[id])) else lines[id]
  {
    if AfterUsers(db, snap).None? {
      hide TenantsStep, EndpointsStep, Integrity, UsersStep, LinesReconciled, WithEndpoints;
      UpToTenants(db, snap);
    } else {
      hide AfterUsers, Integrity, LinesReconciled, Dict, AllLines, EndpointNames, WithEndpoints, SessionsStep,
           TokensStep, UpdateSessions, UpdateTokens;
      LinesUpToUsers(db, snap);
      NoEndpointsYet(AfterUsers(db, snap).value, snap.users, lines);
      AccountsLeaveLines(AfterLines(AfterUsers(db, snap).value, snap.users, lines), snap);
    }
  }

  lemma AccountsLeaveLines(db: DB, snap: Snapshot)
    ensures CommittedAccounts(db, snap).lines == db.lines && CommittedAccounts(db, snap).endpoints == db.endpoints
    ensures CommittedAccounts(db, snap).users == db.users && CommittedAccounts(db, snap).tenants == db.tenants
  {
    hide Dict, Keys, Created, OfUsers, StoredSessions, StoredTokens, WantedSessions, WantedTokens, Insertable;
  }

  /** After a run that got as far as the lines, whatever the snapshot and wherever the run stopped: every device that is
      not a custom one is shown as its last event says; any other endpoint is there exactly if a line names it, and is
      unavailable. */
  lemma EndpointsShown(db: DB, snap: Snapshot, lines: map<int, Line>, device: string)
    requires Integrity(db) && Reconciles(db, snap, lines)
    ensures
      var d := Committed(db, snap, lines);
      && DeviceShown(d.endpoints, snap.events, device)
      && (NoEventFor(snap.events, device) || IsCustom(device) ==>
            && (device in d.endpoints <==> AfterUsers(db, snap).Some? && Named(snap.users, device))
            && (device in d.endpoints ==> d.endpoints[device] == "unavailable"))
  {
    CommittedLines(db, snap, lines);
    hide Committed, Reconciles, Integrity, AfterUsers, LastEventFor, NoEventFor, IsCustom, Named, Dict, EndpointNames,
         AllLines, DeviceShown;
    WithEndpointsShown(snap.events, snap.users, device);
    EventsDecide(snap.events, device);
  }

  lemma WithEndpointsShown(events: seq<Event>, users: seq<UserInfo>, device: string)
    ensures
      var endpoints := WithEndpoints(Dict(events, EndpointState), EndpointNames(AllLines(users)));
      && DeviceShown(endpoints, events, device)
      && (NoEventFor(events, device) || IsCustom(device) ==>
            && (device in endpoints <==> Named(users, device))
            && (device in endpoints ==> endpoints[device] == "unavailable"))
  {
    EventsDecide(events, device);
    NamedMeans(users, device);
    hide LastEventFor, NoEventFor, IsCustom, Named, Dict, EndpointNames, AllLines;
  }

  /** And every line that is stored refers to the endpoint that its last naming entry in the snapshot names, and so
      shows that endpoint's state; a line that is never named refers to none. */
  lemma LinesShown(db: DB, snap: Snapshot, lines: map<int, Line>, id: int)
    requires Integrity(db) && Reconciles(db, snap, lines) && AfterUsers(db, snap).Some?
    requires id in Committed(db, snap, lines).lines
    ensures
      var d := Committed(db, snap, lines);
      var endpoint := d.lines[id].endpoint;
      && (forall u: nat, k: nat :: LastNaming(snap.users, u, k, id) ==>
            endpoint.Some? && Names(snap.users[u].lines[k], endpoint.value))
      && (NeverNaming(snap.users, id) ==> endpoint.None?)
      && (endpoint.Some? ==> endpoint.value in d.endpoints)
  {
    CommittedLines(db, snap, lines);
    EveryRunKeepsIntegrity(db, snap, lines);
    var d := Committed(db, snap, lines);
    hide Committed, Reconciles, AfterUsers, Dict, AllLines, EndpointNames, Names, NamesEndpoint;
    forall u: nat, k: nat | LastNaming(snap.users, u, k, id)
      ensures d.lines[id].endpoint.Some? && Names(snap.users[u].lines[k], d.lines[id].endpoint.value)
    {
      LastNamingDecides(snap.users, u, k, id);
    }
    if NeverNaming(snap.users, id) {
      NeverNamingDecides(snap.users, id);
    }
  }

  lemma FinishedIsCommitted(db: DB, snap: Snapshot, lines: map<int, Line>)
    requires Initiate(db, snap, lines).Some?
    ensures Committed(db, snap, lines) == Initiate(db, snap, lines).value && AfterUsers(db, snap).Some?
  {
    hide AfterUsers, AfterLines, AfterSessions, AfterTokens;
  }

  /** The join of the two for a finished run: a line whose last naming entry names a device that has told its state
      shows the state told last. */
  lemma LineShowsItsDevice(
    db: DB, snap: Snapshot, lines: map<int, Line>, id: int, u: nat, k: nat, device: string, i: nat)
    requires Integrity(db) && Reconciles(db, snap, lines)
    requires LastNaming(snap.users, u, k, id) && Names(snap.users[u].lines[k], device)
    ensures
      var end := Initiate(db, snap, lines);
      end.Some? && id in end.value.lines ==>
        var d := end.value;
        && d.lines[id].endpoint == Some(device) && device in d.endpoints
        && (LastEventFor(snap.events, i, device) && !IsCustom(device) ==>
              d.endpoints[device] ==
                if snap.events[i].state in {"INUSE", "NOT_INUSE", "RINGING", "ONHOLD", "RINGINUSE"}
                then "available" else "unavailable")
        && (NoEventFor(snap.events, device) || IsCustom(device) ==> d.endpoints[device] == "unavailable")
  {
    hide Initiate, Committed, AfterUsers, Integrity, Reconciles, LastNaming, LastEventFor, NoEventFor, IsCustom, Named;
    if Initiate(db, snap, lines).Some? && id in Initiate(db, snap, lines).value.lines {
      FinishedIsCommitted(db, snap, lines);
      LinesShown(db, snap, lines, id);
      EndpointsShown(db, snap, lines, device);
    }
  }

  // ---- tenants, users, sessions and tokens ----

  /** The tables are those of the snapshot: its tenants; its users with their tenants and do-not-disturb flags, and the
      state they had if they were stored before under a tenant that stays; its lines, each under a user who has it; and
      the sessions and tokens of its users, with their mobile flags. */
  ghost predicate TablesAreTheSnapshot(before: DB, d: DB, snap: Snapshot) {
    && (forall t :: t in d.tenants <==> t in snap.tenants)
    && (forall u :: u in d.users <==> exists x :: x in snap.users && x.uuid == u)
    && (forall x :: x in snap.users && x.uuid in d.users ==> UserShown(before, d, snap, x))
    && (forall id :: id in d.lines <==> exists x, l :: x in snap.users && l in x.lines && l.id == id)
    && (forall id :: id in d.lines ==>
          exists x, l :: x in snap.users && l in x.lines && l.id == id && x.uuid == d.lines[id].user)
    && (forall s :: s in d.sessions <==> exists x :: x in snap.sessions && x.uuid == s && x.user in d.users)
    && (forall x :: x in snap.sessions && x.uuid in d.sessions ==> d.sessions[x.uuid] == Session(x.user, x.mobile))
    && (forall k :: k in d.tokens <==>
          exists x :: x in snap.tokens && x.client == k.client && x.user == k.user && x.user in d.users)
    && (forall x :: x in snap.tokens && TokenKey(x.client, x.user) in d.tokens ==>
          d.tokens[TokenKey(x.client, x.user)] == x.mobile)
  }

  ghost predicate UserShown(before: DB, d: DB, snap: Snapshot, x: UserInfo)
    requires x.uuid in d.users
  {
    var row := d.users[x.uuid];
    && row.tenant == x.tenant && row.dnd == x.dnd
    && if x.uuid in before.users && before.users[x.uuid].tenant in snap.tenants
       then row.state == before.users[x.uuid].state && row.status == before.users[x.uuid].status
       else row.state == "unavailable" && row.status.None?
  }

  lemma UsersShown(before: DB, d: DB, snap: Snapshot)
    requires Coherent(snap) && StoredUsers(d) == WantedUsers(snap.users) && StatesKept(before, d, snap)
    requires forall x :: x in snap.users && x.uuid in d.users ==> d.users[x.uuid].dnd == x.dnd
    ensures forall u :: u in d.users <==> exists x :: x in snap.users && x.uuid == u
    ensures forall x :: x in snap.users && x.uuid in d.users ==> UserShown(before, d, snap, x)
  {
    forall x | x in snap.users ensures x.uuid in d.users && UserShown(before, d, snap, x) {
      var e := Entry(x.uuid, x.tenant);
      assert e in WantedUsers(snap.users);
      RowsMeans(d.users, UserTenant, e);
    }
    forall u | u in d.users ensures exists x :: x in snap.users && x.uuid == u {
      RowsMeans(d.users, UserTenant, Entry(u, d.users[u].tenant));
    }
  }

  /** Tenants and users are those of the snapshot even if the run fails later, on the sessions. */
  lemma UsersCommitted(db: DB, snap: Snapshot, lines: map<int, Line>)
    requires Integrity(db) && Coherent(snap) && Reconciles(db, snap, lines) && AfterUsers(db, snap).Some?
    ensures
      var d := Committed(db, snap, lines);
      && (forall t :: t in d.tenants <==> t in snap.tenants)
      && (forall u :: u in d.users <==> exists x :: x in snap.users && x.uuid == u)
      && (forall x :: x in snap.users && x.uuid in d.users ==> UserShown(db, d, snap, x))
  {
    hide Integrity, Coherent, AfterUsers, AfterLines, LinesReconciled, Rows, WantedUsers, CommittedAccounts;
    UpToUsers(db, snap);
    var d3, d := AfterUsers(db, snap).value, Committed(db, snap, lines);
    AfterLinesResult(d3, snap, lines);
    AccountsLeaveLines(AfterLines(d3, snap.users, lines), snap);
    assert d.users == AfterLines(d3, snap.users, lines).users;
    hide Committed, UserShown;
    UsersShown(db, d, snap);
  }

  lemma LinesListed(d: DB, snap: Snapshot)
    requires LinesMirror(d, snap)
    ensures forall id :: id in d.lines <==> exists x, l :: x in snap.users && l in x.lines && l.id == id
    ensures forall id :: id in d.lines ==>
              exists x, l :: x in snap.users && l in x.lines && l.id == id && x.uuid == d.lines[id].user
  {
    forall id | id in d.lines
      ensures exists x, l :: x in snap.users && l in x.lines && l.id == id && x.uuid == d.lines[id].user
    {
      var e := Entry(id, OwnerOf(d.users, d.lines[id].user));
      assert e in WantedLines(snap.users);
    }
    forall x, l | x in snap.users && l in x.lines ensures l.id in d.lines {
      var e := Entry(l.id, Owner(x.uuid, x.tenant));
      assert e in WantedLines(snap.users);
    }
  }

  lemma SessionsShown(d: DB, snap: Snapshot)
    requires Coherent(snap) && AccountsMirror(d, snap)
    ensures forall s :: s in d.sessions <==> exists x :: x in snap.sessions && x.uuid == s && x.user in d.users
    ensures forall x :: x in snap.sessions && x.uuid in d.sessions ==>
              d.sessions[x.uuid] == Session(x.user, x.mobile)
  {
    var view := SessionOwner(d.users);
    forall x | x in snap.sessions && x.user in d.users ensures x.uuid in d.sessions {
      var e := Entry(x.uuid, Owner(x.user, x.tenant));
      assert e in OfUsers(WantedSessions(snap.sessions), d.users.Keys);
      RowsMeans(d.sessions, view, e);
    }
    forall s | s in d.sessions
      ensures exists x :: x in snap.sessions && x.uuid == s && x.user in d.users && x.user == d.sessions[s].user
    {
      var e := Entry(s, view(s, d.sessions[s]));
      RowsMeans(d.sessions, view, e);
      assert e in WantedSessions(snap.sessions);
    }
  }

  lemma TokensShown(d: DB, snap: Snapshot)
    requires AccountsMirror(d, snap)
    ensures forall k :: k in d.tokens <==>
              exists x :: x in snap.tokens && x.client == k.client && x.user == k.user && x.user in d.users
  {
    var view := TokenOwner(d.users);
    forall x | x in snap.tokens && x.user in d.users ensures TokenKey(x.client, x.user) in d.tokens {
      var e := Entry(TokenKey(x.client, x.user), Owner(x.user, x.tenant));
      assert e in OfUsers(WantedTokens(snap.tokens), d.users.Keys);
      RowsMeans(d.tokens, view, e);
    }
    forall k | k in d.tokens
      ensures exists x :: x in snap.tokens && x.client == k.client && x.user == k.user && x.user in d.users
    {
      var e := Entry(k, view(k, d.tokens[k]));
      RowsMeans(d.tokens, view, e);
      assert e in WantedTokens(snap.tokens);
    }
  }

  lemma TokenFlags(d: DB, snap: Snapshot)
    requires AccountsMirror(d, snap)
    ensures forall x :: x in snap.tokens && TokenKey(x.client, x.user) in d.tokens ==>
              d.tokens[TokenKey(x.client, x.user)] == x.mobile
  {
  }

  /** A finished run of a coherent snapshot has replaced the tables by the snapshot. */
  lemma TablesReplaced(db: DB, snap: Snapshot, lines: map<int, Line>)
    requires Integrity(db) && Coherent(snap) && Reconciles(db, snap, lines)
    ensures
      var end := Initiate(db, snap, lines);
      end.Some? ==> TablesAreTheSnapshot(db, end.value, snap)
  {
    hide Initiate, Integrity, Coherent, NothingMoves, Reconciles, AccountsMirror, LinesMirror, StatesKept, UserShown;
    if Initiate(db, snap, lines).Some? {
      var d := Initiate(db, snap, lines).value;
      InitializationMirrors(db, snap, lines);
      InitializationMirrorsLines(db, snap, lines);
      UsersShown(db, d, snap);
      LinesListed(d, snap);
      SessionsShown(d, snap);
      TokensShown(d, snap);
      TokenFlags(d, snap);
    }
  }
}
