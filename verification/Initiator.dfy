/**
  The presence initiator: it replaces the cached tables by a snapshot fetched from the other services. What each step
  does to the database, as functions; a step that violates a primary key is rolled back.
 */
module Reconciliation {
  import opened Options
  import opened PresenceCache

  datatype LineInfo = LineInfo(id: int, name: Option<string>, protocol: Option<string>)

  datatype UserInfo = UserInfo(uuid: string, tenant: string, lines: seq<LineInfo>, dnd: bool)

  datatype SessionInfo = SessionInfo(uuid: string, user: string, tenant: string, mobile: bool)

  datatype TokenInfo = TokenInfo(client: string, user: string, tenant: string, mobile: bool)

  datatype Event = DeviceStateChange(device: string, state: string) | OtherEvent

  datatype Snapshot = Snapshot(
    events: seq<Event>, tenants: seq<string>, users: seq<UserInfo>, sessions: seq<SessionInfo>, tokens: seq<TokenInfo>)

  // ---- endpoints from device states ----

  function DeviceState(state: string): string {
    if state in {"INUSE", "NOT_INUSE", "RINGING", "ONHOLD", "RINGINUSE"} then "available" else "unavailable"
  }

  const CUSTOM_PREFIX := "Custom:"

  function EndpointState(event: Event): Option<Item<string, string>> {
    if event.DeviceStateChange? && !(CUSTOM_PREFIX <= event.device)
    then Some(Item(event.device, DeviceState(event.state))) else None
  }

  function EndpointsStep(db: DB, events: seq<Event>): DB {
    DeleteAllEndpoints(db).(endpoints := Dict(events, EndpointState))
  }

  // ---- tenants ----

  function TenantsStep(db: DB, tenants: seq<string>): DB {
    var wanted := set t | t in tenants;
    DeleteTenants(db.(tenants := db.tenants + wanted), db.tenants - wanted)
  }

  // ---- users ----

  function WantedUsers(users: seq<UserInfo>): set<Entry<string, string>> {
    set x | x in users :: Entry(x.uuid, x.tenant)
  }

  function StoredUsers(db: DB): set<Entry<string, string>> {
    Rows(db.users, UserTenant)
  }

  function UserTenant(uuid: string, user: User): string {
    user.tenant
  }

  function NewUser(e: Entry<string, string>): User {
    User(e.value, "unavailable", None, false)
  }

  /** Missing tenants first: the users may have been fetched after a tenant was added. */
  ghost function CreateUsers(db: DB, missing: set<Entry<string, string>>): DB
    requires Functional(missing)
  {
    db.(tenants := db.tenants + (set e | e in missing :: e.value), users := Created(db.users, missing, NewUser))
  }

  ghost function UsersStep(db: DB, users: seq<UserInfo>): Option<DB> {
    var missing, expired := WantedUsers(users) - StoredUsers(db), StoredUsers(db) - WantedUsers(users);
    if Insertable(missing, db.users.Keys) then Some(DeleteUsers(CreateUsers(db, missing), Keys(expired))) else None
  }

  // ---- lines ----

  function WantedLines(users: seq<UserInfo>): set<Entry<int, Owner>> {
    set x, l | x in users && l in x.lines :: Entry(l.id, Owner(x.uuid, x.tenant))
  }

  /** The tenant of a row is that of its user. */
  function OwnerOf(users: map<string, User>, user: string): Owner {
    Owner(user, if user in users then users[user].tenant else "")
  }

  function LineOwner(users: map<string, User>): (int, Line) -> Owner {
    (id, line: Line) => OwnerOf(users, line.user)
  }

  /** What the step leaves of one line: untouched if the snapshot has it as it is stored, otherwise created anew for
      some stored user of the snapshot's entries for it, which one depending on the order in which a set is
      traversed. */
  ghost predicate LineReconciled(db: DB, users: seq<UserInfo>, id: int, after: map<int, Line>) {
    if id in db.lines && Entry(id, OwnerOf(db.users, db.lines[id].user)) in WantedLines(users)
    then id in after && after[id] == db.lines[id]
    else if id in after then after[id].endpoint.None? && CanOwn(db, users, id, after[id].user)
    else forall user :: !CanOwn(db, users, id, user)
  }

  ghost predicate CanOwn(db: DB, users: seq<UserInfo>, id: int, user: string) {
    user in db.users && exists e :: e in WantedLines(users) && e.key == id && e.value.user == user
  }

  ghost predicate LinesReconciled(db: DB, users: seq<UserInfo>, after: map<int, Line>) {
    forall id :: LineReconciled(db, users, id, after)
  }

  // ---- endpoints of lines ----

  function EndpointName(l: LineInfo): Option<string> {
    if l.name.None? || l.name.value == "" then None
    else if l.protocol == Some("sip") then Some("PJSIP/" + l.name.value)
    else if l.protocol == Some("sccp") then Some("SCCP/" + l.name.value)
    else if l.protocol == Some("custom") then l.name
    else None
  }

  /** All lines of the snapshot, in order. */
  function AllLines(users: seq<UserInfo>): seq<LineInfo> {
    if users == [] then [] else AllLines(users[..|users| - 1]) + users[|users| - 1].lines
  }

  function LineEndpoint(l: LineInfo): Option<Item<int, string>> {
    match EndpointName(l)
    case None => None
    case Some(name) => Some(Item(l.id, name))
  }

  function EndpointNames(lines: seq<LineInfo>): set<string> {
    set l | l in lines && EndpointName(l).Some? :: EndpointName(l).value
  }

  /** A new endpoint is unavailable. */
  function WithEndpoints(endpoints: map<string, string>, names: set<string>): map<string, string> {
    endpoints + map name | name in names - endpoints.Keys :: "unavailable"
  }

  function AddMissingEndpoints(db: DB, users: seq<UserInfo>): DB {
    db.(endpoints := WithEndpoints(db.endpoints, EndpointNames(AllLines(users))))
  }

  function Associate(db: DB, users: seq<UserInfo>): DB {
    var desired := Dict(AllLines(users), LineEndpoint);
    db.(lines := map id | id in db.lines ::
          if id in desired then db.lines[id].(endpoint := Some(desired[id])) else db.lines[id])
  }

  // ---- do-not-disturb ----

  function UserDnd(x: UserInfo): Option<Item<string, bool>> {
    Some(Item(x.uuid, x.dnd))
  }

  function UpdateDnd(db: DB, users: seq<UserInfo>): DB {
    var desired := Dict(users, UserDnd);
    db.(users := map u | u in db.users ::
          if u in desired then db.users[u].(dnd := desired[u]) else db.users[u])
  }

  // ---- sessions ----

  function WantedSessions(sessions: seq<SessionInfo>): set<Entry<string, Owner>> {
    set x | x in sessions :: Entry(x.uuid, Owner(x.user, x.tenant))
  }

  function SessionOwner(users: map<string, User>): (string, Session) -> Owner {
    (uuid, session: Session) => OwnerOf(users, session.user)
  }

  function StoredSessions(db: DB): set<Entry<string, Owner>> {
    Rows(db.sessions, SessionOwner(db.users))
  }

  function NewSession(e: Entry<string, Owner>): Session {
    Session(e.value.user, false)
  }

  function OfUsers<K(==)>(entries: set<Entry<K, Owner>>, users: set<string>): set<Entry<K, Owner>> {
    set e | e in entries && e.value.user in users
  }

  ghost function SessionsStep(db: DB, sessions: seq<SessionInfo>): Option<DB> {
    var missing, expired :=
        WantedSessions(sessions) - StoredSessions(db), StoredSessions(db) - WantedSessions(sessions);
    var created := OfUsers(missing, db.users.Keys);
    if Insertable(created, db.sessions.Keys) then
      Some(db.(sessions := Created(db.sessions, created, NewSession) - Keys(expired)))
    else None
  }

  function SessionMobile(x: SessionInfo): Option<Item<string, bool>> {
    Some(Item(x.uuid, x.mobile))
  }

  function UpdateSessions(db: DB, sessions: seq<SessionInfo>): DB {
    var mobile := Dict(sessions, SessionMobile);
    db.(sessions := map s | s in db.sessions ::
          if s in mobile then db.sessions[s].(mobile := mobile[s]) else db.sessions[s])
  }

  // ---- refresh tokens ----

  /** The user is part of the key, but is compared all the same. */
  function WantedTokens(tokens: seq<TokenInfo>): set<Entry<TokenKey, Owner>> {
    set x | x in tokens :: Entry(TokenKey(x.client, x.user), Owner(x.user, x.tenant))
  }

  function TokenOwner(users: map<string, User>): (TokenKey, bool) -> Owner {
    (key: TokenKey, mobile) => OwnerOf(users, key.user)
  }

  function StoredTokens(db: DB): set<Entry<TokenKey, Owner>> {
    Rows(db.tokens, TokenOwner(db.users))
  }

  function NewToken(e: Entry<TokenKey, Owner>): bool {
    false
  }

  ghost function TokensStep(db: DB, tokens: seq<TokenInfo>): Option<DB> {
    var missing, expired := WantedTokens(tokens) - StoredTokens(db), StoredTokens(db) - WantedTokens(tokens);
    var created := OfUsers(missing, db.users.Keys);
    if Insertable(created, db.tokens.Keys) then
      Some(db.(tokens := Created(db.tokens, created, NewToken) - Keys(expired)))
    else None
  }

  function TokenMobile(x: TokenInfo): Option<Item<TokenKey, bool>> {
    Some(Item(TokenKey(x.client, x.user), x.mobile))
  }

  function UpdateTokens(db: DB, tokens: seq<TokenInfo>): DB {
    var mobile := Dict(tokens, TokenMobile);
    db.(tokens := map k | k in db.tokens :: if k in mobile then mobile[k] else db.tokens[k])
  }

  // ---- the whole initialization ----

  ghost function AfterUsers(db: DB, snap: Snapshot): Option<DB> {
    UsersStep(TenantsStep(EndpointsStep(db, snap.events), snap.tenants), snap.users)
  }

  /** `lines` is a table that line reconciliation may come to, if the run gets that far. */
  ghost predicate Reconciles(db: DB, snap: Snapshot, lines: map<int, Line>) {
    AfterUsers(db, snap).Some? ==> LinesReconciled(AfterUsers(db, snap).value, snap.users, lines)
  }

  /** The rest of the users step, with the line table that reconciliation came to. */
  function AfterLines(db: DB, users: seq<UserInfo>, lines: map<int, Line>): DB {
    UpdateDnd(Associate(AddMissingEndpoints(db.(lines := lines), users), users), users)
  }

  ghost function AfterSessions(db: DB, sessions: seq<SessionInfo>): Option<DB> {
    match SessionsStep(db, sessions)
    case None => None
    case Some(d) => Some(UpdateSessions(d, sessions))
  }

  ghost function AfterTokens(db: DB, tokens: seq<TokenInfo>): Option<DB> {
    match TokensStep(db, tokens)
    case None => None
    case Some(d) => Some(UpdateTokens(d, tokens))
  }

  /** All steps, without channels; `lines` is what line reconciliation came to. */
  ghost function Initiate(db: DB, snap: Snapshot, lines: map<int, Line>): Option<DB> {
    match AfterUsers(db, snap)
    case None => None
    case Some(d) =>
      match AfterSessions(AfterLines(d, snap.users, lines), snap.sessions)
      case None => None
      case Some(e) => AfterTokens(e, snap.tokens)
  }

  /** The database after the last step that was committed: a step that fails ends the run. */
  ghost function Committed(db: DB, snap: Snapshot, lines: map<int, Line>): DB {
    match AfterUsers(db, snap)
    case None => TenantsStep(EndpointsStep(db, snap.events), snap.tenants)
    case Some(d) => CommittedAccounts(AfterLines(d, snap.users, lines), snap)
  }

  ghost function CommittedAccounts(db: DB, snap: Snapshot): DB {
    match AfterSessions(db, snap.sessions)
    case None => db
    case Some(d) => if AfterTokens(d, snap.tokens).Some? then AfterTokens(d, snap.tokens).value else d
  }
}
