/**
  Which identities a room member may send with, and which rooms may exist: the reachability checks of the
  connector service over the identity table and the registry.
 */
module Reachability {
  import opened Options
  import opened Registry

  /** A row of the user identity table. */
  datatype Identity = Identity(
    uuid: string, user: string, tenant: string, backend: string, type_: string, identity: string)

  /** A room member; `None` also stands for an empty identity. */
  datatype Member = Member(uuid: string, identity: Option<string>)

  /** Everything the service consults. Rows come in some order, each uuid once. */
  datatype World = World(backends: map<string, Backend>, table: seq<Identity>)

  ghost predicate UniqueRows(table: seq<Identity>) {
    forall i, j :: 0 <= i < j < |table| ==> table[i].uuid != table[j].uuid
  }

  function Others(room: seq<Member>, me: string): seq<Member> {
    if room == [] then []
    else Others(room[..|room| - 1], me) + if room[|room| - 1].uuid != me then [room[|room| - 1]] else []
  }

  /** `list_bound_identities` for one identity. */
  predicate Bound(w: World, tenants: set<string>, identity: string) {
    exists i :: 0 <= i < |w.table| && w.table[i].identity == identity && w.table[i].tenant in tenants
  }

  /** `list_types_by_users` for one user. */
  function TypesOf(w: World, user: string): set<string> {
    set i | 0 <= i < |w.table| && w.table[i].user == user :: w.table[i].type_
  }

  // ---- the three operations of a sender ----

  datatype Listing = UnknownRoom | Listing(identities: seq<Identity>)

  function Offered(table: seq<Identity>, me: string, types: set<string>, backends: set<string>): (r: seq<Identity>)
    ensures forall x :: x in r <==> x in table && x.user == me && x.type_ in types && x.backend in backends
  {
    if table == [] then []
    else Offered(table[..|table| - 1], me, types, backends)
         + var last := table[|table| - 1];
           if last.user == me && last.type_ in types && last.backend in backends then [last] else []
  }

  /** The types that reach one other member: from the registry for an unbound external identity, from the identity
      table otherwise. */
  function TypesReaching(w: World, tenants: set<string>, other: Member): set<string> {
    if other.identity.Some? && !Bound(w, tenants, other.identity.value)
    then Reachable(w.backends, other.identity.value)
    else TypesOf(w, other.uuid)
  }

  function ListRoomIdentities(w: World, tenants: set<string>, room: seq<Member>, me: string): Listing {
    if !exists m :: m in room && m.uuid == me then UnknownRoom else
    var others := Others(room, me);
    if |others| != 1 then Listing([]) else
    var types := TypesReaching(w, tenants, others[0]);
    if types == {} then Listing([]) else Listing(Offered(w.table, me, types, w.backends.Keys))
  }

  datatype Validation = InvalidIdentity | Unreachable | Valid(identity: Identity)

  /** `find(identity_uuid, user_uuid=me)`. */
  function Find(table: seq<Identity>, uuid: string, me: string): (r: Option<Identity>)
    ensures r.Some? ==> r.value in table && r.value.uuid == uuid && r.value.user == me
    ensures r.None? ==> forall x :: x in table ==> !(x.uuid == uuid && x.user == me)
  {
    if table == [] then None
    else if table[0].uuid == uuid && table[0].user == me then Some(table[0])
    else Find(table[1..], uuid, me)
  }

  predicate Reaches(w: World, type_: string, other: Member) {
    if other.identity.None? then type_ in TypesOf(w, other.uuid)
    else type_ in Reachable(w.backends, other.identity.value)
  }

  function ValidateIdentity(w: World, room: seq<Member>, me: string, uuid: string): Validation {
    match Find(w.table, uuid, me)
    case None => InvalidIdentity
    case Some(record) =>
      if forall m :: m in Others(room, me) ==> Reaches(w, record.type_, m) then Valid(record) else Unreachable
  }

  /** `list_identities_by_users` for one user: the last row on the backend. */
  function IdentityOn(table: seq<Identity>, user: string, backend: string): (r: Option<string>)
    ensures r.Some? <==> exists x :: x in table && x.user == user && x.backend == backend
  {
    if table == [] then None
    else if table[|table| - 1].user == user && table[|table| - 1].backend == backend
    then Some(table[|table| - 1].identity)
    else
      assert table == table[..|table| - 1] + [table[|table| - 1]];
      IdentityOn(table[..|table| - 1], user, backend)
  }

  function Addresses(w: World, others: seq<Member>, backend: string): seq<string> {
    External(others) + Internal(w, others, backend)
  }

  function External(others: seq<Member>): seq<string> {
    if others == [] then []
    else External(others[..|others| - 1])
         + if others[|others| - 1].identity.Some? then [others[|others| - 1].identity.value] else []
  }

  function Internal(w: World, others: seq<Member>, backend: string): seq<string> {
    if others == [] then [] else
    var last := others[|others| - 1];
    Internal(w, others[..|others| - 1], backend)
    + if last.identity.None? && IdentityOn(w.table, last.uuid, backend).Some?
      then [IdentityOn(w.table, last.uuid, backend).value] else []
  }

  /** `_resolve_outbound_recipients`; `prepare_outbound_delivery` goes on only with exactly one. */
  function Recipients(w: World, room: seq<Member>, me: string, backend: string): seq<string> {
    Addresses(w, Others(room, me), backend)
  }

  method ResolveOutboundRecipients(w: World, room: seq<Member>, me: string, backend: string)
    returns (identities: seq<string>)
    ensures identities == Recipients(w, room, me, backend)
  {
    hide IdentityOn;
    var others := [];
    for i := 0 to |room|
      invariant others == Others(room[..i], me)
    {
      assert room[..i + 1][..i] == room[..i];
      if room[i].uuid != me {
        others := others + [room[i]];
      }
    }
    assert room[..|room|] == room;
    hide Others;
    identities := [];
    for i := 0 to |others|
      invariant identities == External(others[..i])
    {
      assert others[..i + 1][..i] == others[..i];
      if others[i].identity.Some? {
        identities := identities + [others[i].identity.value];
      }
    }
    assert others[..|others|] == others;
    ghost var external := identities;
    hide External;
    assert external == External(others) && Internal(w, others[..0], backend) == [];
    for i := 0 to |others|
      invariant identities == external + Internal(w, others[..i], backend)
    {
      assert others[..i + 1][..i] == others[..i];
      if others[i].identity.None? {
        var found := IdentityOn(w.table, others[i].uuid, backend);
        if found.Some? {
          identities := identities + [found.value];
        }
      }
    }
    assert others[..|others|] == others;
  }

  // ---- what is offered can be sent with ----

  ghost predicate TwoParty(room: seq<Member>, me: Member, other: Member) {
    me.uuid != other.uuid && (room == [me, other] || room == [other, me])
  }

  lemma OneOther(room: seq<Member>, me: Member, other: Member)
    requires TwoParty(room, me, other)
    ensures Others(room, me.uuid) == [other]
  {
    assert room[..1] == [room[0]];
    assert Others(room[..1][..0], me.uuid) == [];
    assert Others(room[..1], me.uuid) == if room[0] == other then [other] else [];
  }

  /** The addresses of a single other member. */
  lemma OneAddress(w: World, other: Member, backend: string)
    ensures Addresses(w, [other], backend) ==
            match other.identity
            case Some(identity) => [identity]
            case None =>
              match IdentityOn(w.table, other.uuid, backend)
              case Some(identity) => [identity]
              case None => []
  {
    assert [other][..0] == [];
    assert External([other]) == if other.identity.Some? then [other.identity.value] else [];
    var found := IdentityOn(w.table, other.uuid, backend);
    assert Internal(w, [other], backend) == if other.identity.None? && found.Some? then [found.value] else [];
  }

  lemma FindFinds(table: seq<Identity>, r: Identity, me: string)
    requires UniqueRows(table) && r in table && r.user == me
    ensures Find(table, r.uuid, me) == Some(r)
  {
    var found := Find(table, r.uuid, me);
    assert found.Some?;
    var i :| 0 <= i < |table| && table[i] == r;
    var j :| 0 <= j < |table| && table[j] == found.value;
  }

  /** Listing and validation in a two-party room, in terms of the two sources of reachable types. */
  lemma TwoPartyMeaning(w: World, tenants: set<string>, room: seq<Member>, me: Member, other: Member, r: Identity)
    requires UniqueRows(w.table) && TwoParty(room, me, other)
    ensures
      var listing := ListRoomIdentities(w, tenants, room, me.uuid);
      && listing.Listing?
      && (r in listing.identities <==>
            r in w.table && r.user == me.uuid && r.backend in w.backends && r.type_ in TypesReaching(w, tenants, other))
    ensures r in w.table ==>
              (ValidateIdentity(w, room, me.uuid, r.uuid) == Valid(r) <==>
                  r.user == me.uuid && Reaches(w, r.type_, other))
  {
    ListingMeaning(w, tenants, room, me, other);
    hide ListRoomIdentities, TypesReaching, Reaches, Reachable, TypesOf, Bound;
    if r in w.table {
      ValidationMeaning(w, room, me, other, r);
    }
  }

  lemma ListingMeaning(w: World, tenants: set<string>, room: seq<Member>, me: Member, other: Member)
    requires TwoParty(room, me, other)
    ensures
      var listing := ListRoomIdentities(w, tenants, room, me.uuid);
      && listing.Listing?
      && forall r :: r in listing.identities <==>
           r in w.table && r.user == me.uuid && r.backend in w.backends && r.type_ in TypesReaching(w, tenants, other)
  {
    OneOther(room, me, other);
    assert me in room;
    hide TypesReaching, Others, UniqueRows;
  }

  lemma ValidationMeaning(w: World, room: seq<Member>, me: Member, other: Member, r: Identity)
    requires UniqueRows(w.table) && TwoParty(room, me, other) && r in w.table
    ensures ValidateIdentity(w, room, me.uuid, r.uuid) == Valid(r) <==> r.user == me.uuid && Reaches(w, r.type_, other)
  {
    OneOther(room, me, other);
    if r.user == me.uuid {
      FindFinds(w.table, r, me.uuid);
    }
    hide Reaches, Others, UniqueRows;
    assert forall m :: m in [other] <==> m == other;
  }

  // ---- the same, said of rows and backends ----

  /** Some identity row of the user has the type. */
  ghost predicate HasRowOf(table: seq<Identity>, user: string, type_: string) {
    exists x :: x in table && x.user == user && x.type_ == type_
  }

  /** Some registered backend accepts the identity and supports the type. */
  ghost predicate SomeBackendReaches(backends: map<string, Backend>, identity: string, type_: string) {
    exists name :: name in backends && backends[name].accepts(identity) && type_ in backends[name].supported
  }

  /** The identity has a row of one of the tenants. */
  ghost predicate BelongsToTenant(table: seq<Identity>, tenants: set<string>, identity: string) {
    exists x :: x in table && x.identity == identity && x.tenant in tenants
  }

  lemma TypesReachingMeans(w: World, tenants: set<string>, m: Member, t: string)
    ensures t in TypesReaching(w, tenants, m) <==>
              if m.identity.None? || BelongsToTenant(w.table, tenants, m.identity.value)
              then HasRowOf(w.table, m.uuid, t) else SomeBackendReaches(w.backends, m.identity.value, t)
  {
    TypesOfMeans(w, m.uuid, t);
    if m.identity.Some? {
      BoundMeans(w, tenants, m.identity.value);
    }
    hide TypesOf, Bound, HasRowOf;
  }

  lemma TypesOfMeans(w: World, user: string, t: string)
    ensures t in TypesOf(w, user) <==> HasRowOf(w.table, user, t)
  {
    if x :| x in w.table && x.user == user && x.type_ == t {
      var i :| 0 <= i < |w.table| && w.table[i] == x;
    }
    if t in TypesOf(w, user) {
      var i :| 0 <= i < |w.table| && w.table[i].user == user && w.table[i].type_ == t;
      assert w.table[i] in w.table;
    }
  }

  lemma BoundMeans(w: World, tenants: set<string>, identity: string)
    ensures Bound(w, tenants, identity) <==> BelongsToTenant(w.table, tenants, identity)
  {
    if x :| x in w.table && x.identity == identity && x.tenant in tenants {
      var i :| 0 <= i < |w.table| && w.table[i] == x;
    }
    if i :| 0 <= i < |w.table| && w.table[i].identity == identity && w.table[i].tenant in tenants {
      assert w.table[i] in w.table;
    }
  }

  /** Listing is refused exactly to those who are not in the room, and offers nothing unless there is exactly one other
      member; to the user of a two-party room it offers each own identity on a registered backend whose type reaches the
      other member: for an outside party, through some backend; for a user, or an identity of the tenant, because the
      other one has a row of that type. */
  lemma OfferedExactlyWhen(w: World, tenants: set<string>, room: seq<Member>, me: Member, other: Member, r: Identity)
    requires UniqueRows(w.table) && TwoParty(room, me, other)
    ensures
      var listing := ListRoomIdentities(w, tenants, room, me.uuid);
      && listing.Listing?
      && (r in listing.identities <==>
            && r in w.table && r.user == me.uuid && r.backend in w.backends
            && if other.identity.None? || BelongsToTenant(w.table, tenants, other.identity.value)
               then HasRowOf(w.table, other.uuid, r.type_)
               else SomeBackendReaches(w.backends, other.identity.value, r.type_))
  {
    TwoPartyMeaning(w, tenants, room, me, other, r);
    TypesReachingMeans(w, tenants, other, r.type_);
    hide ListRoomIdentities, TypesReaching, HasRowOf, SomeBackendReaches, BelongsToTenant;
  }

  lemma NothingOfferedUnlessTwoParty(w: World, tenants: set<string>, room: seq<Member>, me: string)
    ensures ListRoomIdentities(w, tenants, room, me) == UnknownRoom <==> forall m :: m in room ==> m.uuid != me
    ensures
      var listing := ListRoomIdentities(w, tenants, room, me);
      listing.Listing? && listing.identities != [] ==>
        exists i :: 0 <= i < |room| && room[i].uuid != me
                    && forall j :: 0 <= j < |room| && j != i ==> room[j].uuid == me
  {
    hide TypesReaching;
    OthersCounted(room, me);
  }

  lemma {:induction false} OthersCounted(room: seq<Member>, me: string)
    ensures forall m :: m in Others(room, me) <==> m in room && m.uuid != me
    ensures Others(room, me) == [] ==> forall j :: 0 <= j < |room| ==> room[j].uuid == me
    ensures |Others(room, me)| == 1 ==>
              exists i :: 0 <= i < |room| && room[i].uuid != me
                && forall j :: 0 <= j < |room| && j != i ==> room[j].uuid == me
  {
    if room != [] {
      var n := |room| - 1;
      OthersCounted(room[..n], me);
      assert room == room[..n] + [room[n]];
      if |Others(room, me)| == 1 && room[n].uuid != me {
        assert Others(room[..n], me) == [];
        forall j | 0 <= j < n ensures room[j].uuid == me { assert room[..n][j] == room[j]; }
      }
    }
  }

  /** Validation, in a room of any size: a sender identity is invalid exactly if no row of the user has that uuid;
      otherwise the row is accepted exactly if its type reaches every other member, a user by a row of its own and
      anybody else through some backend. */
  lemma AcceptedExactlyWhen(w: World, room: seq<Member>, me: string, uuid: string, r: Identity)
    requires UniqueRows(w.table)
    ensures ValidateIdentity(w, room, me, uuid) == InvalidIdentity <==>
              forall x :: x in w.table ==> !(x.uuid == uuid && x.user == me)
    ensures ValidateIdentity(w, room, me, uuid) == Valid(r) <==>
              && r in w.table && r.uuid == uuid && r.user == me
              && forall m :: m in room && m.uuid != me ==>
                   if m.identity.None? then HasRowOf(w.table, m.uuid, r.type_)
                   else SomeBackendReaches(w.backends, m.identity.value, r.type_)
  {
    OthersCounted(room, me);
    if r in w.table && r.uuid == uuid && r.user == me {
      FindFinds(w.table, r, me);
    }
    forall m | m in room
      ensures Reaches(w, r.type_, m) <==>
                if m.identity.None? then HasRowOf(w.table, m.uuid, r.type_)
                else SomeBackendReaches(w.backends, m.identity.value, r.type_)
    {
      TypesOfMeans(w, m.uuid, r.type_);
      hide HasRowOf, TypesOf;
    }
    hide Reaches, Others, UniqueRows, HasRowOf, SomeBackendReaches;
  }

  /** The identity chosen for another user is that of its last row on the backend. */
  lemma {:induction false} LastIdentityOn(table: seq<Identity>, user: string, backend: string, i: nat)
    requires i < |table| && table[i].user == user && table[i].backend == backend
    requires forall j :: i < j < |table| ==> !(table[j].user == user && table[j].backend == backend)
    ensures IdentityOn(table, user, backend) == Some(table[i].identity)
  {
    if i < |table| - 1 {
      LastIdentityOn(table[..|table| - 1], user, backend, i);
    }
  }

  /** Who a message is sent to: the outside identities of the room, and for each other user an identity on the
      backend. */
  lemma RecipientsMeaning(w: World, room: seq<Member>, me: string, backend: string, address: string)
    ensures address in Recipients(w, room, me, backend) <==>
              exists m :: m in room && m.uuid != me
                && (m.identity == Some(address)
                    || (m.identity.None? && IdentityOn(w.table, m.uuid, backend) == Some(address)))
  {
    OthersCounted(room, me);
    hide Others, IdentityOn;
    AddressedMembers(w, Others(room, me), backend, address);
    if m :| m in room && m.uuid != me
            && (m.identity == Some(address)
                || (m.identity.None? && IdentityOn(w.table, m.uuid, backend) == Some(address))) {
      assert m in Others(room, me);
    }
  }

  lemma {:induction false} AddressedMembers(w: World, others: seq<Member>, backend: string, address: string)
    ensures address in External(others) <==> exists m :: m in others && m.identity == Some(address)
    ensures address in Internal(w, others, backend) <==>
              exists m :: m in others && m.identity.None? && IdentityOn(w.table, m.uuid, backend) == Some(address)
  {
    hide IdentityOn;
    if others != [] {
      var n := |others| - 1;
      AddressedMembers(w, others[..n], backend, address);
      assert others == others[..n] + [others[n]];
    }
  }

  /** In a two-party room with an unbound external member, the identities offered are exactly those of registered
      backends that validation accepts, and each yields exactly one recipient, the external identity. */
  lemma OfferedIffAccepted(w: World, tenants: set<string>, room: seq<Member>, me: Member, other: Member, r: Identity)
    requires UniqueRows(w.table) && TwoParty(room, me, other)
    requires other.identity.Some? && !Bound(w, tenants, other.identity.value)
    ensures
      var listing := ListRoomIdentities(w, tenants, room, me.uuid);
      && listing.Listing?
      && (r in listing.identities <==>
            r in w.table && r.backend in w.backends && ValidateIdentity(w, room, me.uuid, r.uuid) == Valid(r))
    ensures Recipients(w, room, me.uuid, r.backend) == [other.identity.value]
  {
    hide ListRoomIdentities, ValidateIdentity, Others, Addresses;
    TwoPartyMeaning(w, tenants, room, me, other, r);
    OneOther(room, me, other);
    OneAddress(w, other, r.backend);
  }

  /** Between two users, what is offered is also accepted, but it yields a recipient exactly when the other user has
      an identity on the same backend, not merely one of the same type. */
  lemma OfferedBetweenUsers(w: World, tenants: set<string>, room: seq<Member>, me: Member, other: Member, r: Identity)
    requires UniqueRows(w.table) && TwoParty(room, me, other) && other.identity.None?
    requires
      var listing := ListRoomIdentities(w, tenants, room, me.uuid);
      listing.Listing? && r in listing.identities
    ensures ValidateIdentity(w, room, me.uuid, r.uuid) == Valid(r)
    ensures |Recipients(w, room, me.uuid, r.backend)| == 1 <==>
            exists x :: x in w.table && x.user == other.uuid && x.backend == r.backend
  {
    hide ListRoomIdentities, ValidateIdentity, Others, Addresses, TypesOf;
    TwoPartyMeaning(w, tenants, room, me, other, r);
    OneOther(room, me, other);
    OneAddress(w, other, r.backend);
  }

  /** For an external member whose identity is bound in the tenant the two checks consult different sources: an
      offered identity is accepted exactly when the registry, too, lets its type reach the identity. */
  lemma OfferedToBoundIdentity(
    w: World, tenants: set<string>, room: seq<Member>, me: Member, other: Member, r: Identity)
    requires UniqueRows(w.table) && TwoParty(room, me, other)
    requires other.identity.Some? && Bound(w, tenants, other.identity.value)
    requires
      var listing := ListRoomIdentities(w, tenants, room, me.uuid);
      listing.Listing? && r in listing.identities
    ensures ValidateIdentity(w, room, me.uuid, r.uuid) == Valid(r) <==>
        r.type_ in Reachable(w.backends, other.identity.value)
    ensures Recipients(w, room, me.uuid, r.backend) == [other.identity.value]
  {
    hide ListRoomIdentities, ValidateIdentity, Others, Addresses;
    TwoPartyMeaning(w, tenants, room, me, other, r);
    OneOther(room, me, other);
    OneAddress(w, other, r.backend);
  }
}

/** The check made when a room is created. It intersects in place a set that the registry handed out. */
module RoomValidation {
  import opened Options
  import opened Registry
  import opened Reachability

  datatype Verdict = Accepted | UnreachableMember | NoCommonType

  datatype Kind = UnboundExternal | BoundExternal | InternalMember

  function KindOf(w: World, tenant: string, m: Member): Kind {
    if m.identity.None? then InternalMember
    else if Bound(w, {tenant}, m.identity.value) then BoundExternal
    else UnboundExternal
  }

  /** The members of one kind, in room order. */
  function Pick(w: World, tenant: string, room: seq<Member>, kind: Kind): (r: seq<Member>)
    ensures forall m :: m in r <==> m in room && KindOf(w, tenant, m) == kind
  {
    if room == [] then [] else
    assert room == room[..|room| - 1] + [room[|room| - 1]];
    Pick(w, tenant, room[..|room| - 1], kind)
    + if KindOf(w, tenant, room[|room| - 1]) == kind then [room[|room| - 1]] else []
  }

  /** The order in which the check fills its dictionary. */
  function Visited(w: World, tenant: string, room: seq<Member>): seq<Member> {
    Pick(w, tenant, room, UnboundExternal) + Pick(w, tenant, room, BoundExternal)
        + Pick(w, tenant, room, InternalMember)
  }

  /** The dictionary of types by member uuid. */
  function TypesByMember(w: World, tenant: string, members: seq<Member>): map<string, set<string>> {
    if members == [] then map[] else
    var last := members[|members| - 1];
    TypesByMember(w, tenant, members[..|members| - 1])[last.uuid := TypesReaching(w, {tenant}, last)]
  }

  predicate InAll(types: map<string, set<string>>, t: string) {
    forall uuid :: uuid in types ==> t in types[uuid]
  }

  ghost predicate SomeoneUnreachable(w: World, tenant: string, members: seq<Member>) {
    exists m :: m in members && TypesReaching(w, {tenant}, m) == {}
  }

  ghost function CommonVerdict(w: World, tenant: string, members: seq<Member>): Verdict {
    if SomeoneUnreachable(w, tenant, members) then UnreachableMember
    else if exists t :: InAll(TypesByMember(w, tenant, members), t) then Accepted
    else NoCommonType
  }

  ghost function RoomVerdict(w: World, tenant: string, room: seq<Member>): Verdict {
    if |room| < 2 || forall m :: m in room ==> m.identity.None? then Accepted
    else if |room| > 2 then UnreachableMember
    else CommonVerdict(w, tenant, Visited(w, tenant, room))
  }

  /** The intersection of the dictionary's values, in whatever order they come, accumulated in place in the first. */
  method CommonTypes(types: map<string, TypeSet>) returns (common: TypeSet?)
    requires forall a, b :: a in types && b in types && a != b ==> types[a] != types[b]
    modifies types.Values
    ensures types == map[] <==> common == null
    ensures common != null ==>
              forall t :: t in common.elems <==> forall uuid :: uuid in types ==> t in old(types[uuid].elems)
  {
    common := null;
    var todo := types.Keys;
    while todo != {}
      invariant todo <= types.Keys
      invariant common == null <==> todo == types.Keys
      invariant common != null ==> common in types.Values && forall uuid :: uuid in todo ==> types[uuid] != common
      invariant forall uuid :: uuid in todo ==> types[uuid].elems == old(types[uuid].elems)
      invariant common != null ==>
                  forall t :: t in common.elems <==> forall uuid :: uuid in types && uuid !in todo ==>
                      t in old(types[uuid].elems)
    {
      var uuid :| uuid in todo;
      todo := todo - {uuid};
      if common == null {
        common := types[uuid];
      } else {
        common.IntersectWith(types[uuid]);
      }
    }
  }

  ghost predicate Filled(w: World, tenant: string, members: seq<Member>, types: map<string, TypeSet>)
    reads types.Values
  {
    var spec := TypesByMember(w, tenant, members);
    && types.Keys == spec.Keys
    && (forall uuid :: uuid in types ==> types[uuid].elems == spec[uuid])
    && (forall a, b :: a in types && b in types && a != b ==> types[a] != types[b])
  }

  lemma FilledOneMore(
    w: World, tenant: string, members: seq<Member>, m: Member, types: map<string, TypeSet>, added: TypeSet)
    requires Filled(w, tenant, members, types) && added !in types.Values && added.elems == TypesReaching(w, {tenant}, m)
    ensures Filled(w, tenant, members + [m], types[m.uuid := added])
  {
    assert (members + [m])[..|members|] == members;
    assert forall uuid :: uuid in types ==> types[uuid] in types.Values;
  }

  lemma OneMoreReachable(w: World, tenant: string, members: seq<Member>, m: Member)
    ensures SomeoneUnreachable(w, tenant, members + [m]) <==>
            SomeoneUnreachable(w, tenant, members) || TypesReaching(w, {tenant}, m) == {}
  {
    hide TypesReaching;
    assert m in members + [m];
    assert forall x :: x in members + [m] <==> x in members || x == m;
  }

  lemma UnreachableStays(w: World, tenant: string, members: seq<Member>, m: Member)
    requires m in members && TypesReaching(w, {tenant}, m) == {}
    ensures SomeoneUnreachable(w, tenant, members)
  {
  }

  /** The first loop: unbound external members, by the registry. */
  method FillFromRegistry(registry: ConnectorRegistry, ghost w: World, tenant: string, members: seq<Member>)
    returns (ok: bool, types: map<string, TypeSet>)
    requires registry.Valid() && w.backends == registry.backends
    requires forall m :: m in members ==> KindOf(w, tenant, m) == UnboundExternal
    modifies registry
    ensures registry.Valid() && registry.backends == old(registry.backends)
    ensures ok <==> !SomeoneUnreachable(w, tenant, members)
    ensures ok ==> fresh(types.Values) && Filled(w, tenant, members, types)
  {
    types := map[];
    for i := 0 to |members|
      invariant registry.Valid() && registry.backends == old(registry.backends)
      invariant fresh(types.Values)
      invariant Filled(w, tenant, members[..i], types)
      invariant !SomeoneUnreachable(w, tenant, members[..i])
    {
      hide SomeoneUnreachable, TypesByMember, Reachable;
      var m := members[i];
      assert m in members;
      var reachable := registry.ResolveReachableTypes(m.identity.value);
      assert reachable.elems == TypesReaching(w, {tenant}, m);
      if reachable.elems == {} {
        UnreachableStays(w, tenant, members, m);
        return false, types;
      }
      assert members[..i + 1] == members[..i] + [m];
      OneMoreReachable(w, tenant, members[..i], m);
      FilledOneMore(w, tenant, members[..i], m, types, reachable);
      assert types[m.uuid := reachable].Values <= types.Values + {reachable};
      types := types[m.uuid := reachable];
    }
    assert members[..|members|] == members;
    ok := true;
  }

  /** The second loop: bound external and internal members, by the identity table. */
  method FillFromTable(
    w: World, tenant: string, before: seq<Member>, members: seq<Member>, filled: map<string, TypeSet>)
    returns (ok: bool, types: map<string, TypeSet>)
    requires Filled(w, tenant, before, filled) && !SomeoneUnreachable(w, tenant, before)
    requires forall m :: m in members ==> KindOf(w, tenant, m) != UnboundExternal
    ensures ok <==> !SomeoneUnreachable(w, tenant, before + members)
    ensures ok ==> fresh(types.Values - filled.Values) && Filled(w, tenant, before + members, types)
  {
    types := filled;
    assert before + members[..0] == before;
    for i := 0 to |members|
      invariant fresh(types.Values - filled.Values)
      invariant Filled(w, tenant, before + members[..i], types)
      invariant !SomeoneUnreachable(w, tenant, before + members[..i])
    {
      hide SomeoneUnreachable, TypesByMember;
      var m := members[i];
      assert m in members && m in before + members;
      var userTypes := new TypeSet(TypesOf(w, m.uuid));
      if userTypes.elems == {} {
        UnreachableStays(w, tenant, before + members, m);
        return false, types;
      }
      assert before + members[..i + 1] == before + members[..i] + [m];
      OneMoreReachable(w, tenant, before + members[..i], m);
      FilledOneMore(w, tenant, before + members[..i], m, types, userTypes);
      types := types[m.uuid := userTypes];
    }
    assert members[..|members|] == members;
    ok := true;
  }

  /** The part of the check that consults the registry and the identity table. */
  method CheckMembers(registry: ConnectorRegistry, w: World, tenant: string, unbound: seq<Member>, looked: seq<Member>)
    returns (verdict: Verdict)
    requires registry.Valid() && w.backends == registry.backends && |unbound + looked| > 0
    requires forall m :: m in unbound ==> KindOf(w, tenant, m) == UnboundExternal
    requires forall m :: m in looked ==> KindOf(w, tenant, m) != UnboundExternal
    modifies registry
    ensures registry.Valid() && registry.backends == old(registry.backends)
    ensures verdict == CommonVerdict(w, tenant, unbound + looked)
  {
    hide TypesByMember, TypesReaching, KindOf, InAll, Filled, SomeoneUnreachable;
    var ok, types := FillFromRegistry(registry, w, tenant, unbound);
    if !ok {
      MoreMembers(w, tenant, unbound, looked);
      return UnreachableMember;
    }
    ok, types := FillFromTable(w, tenant, unbound, looked, types);
    if !ok {
      return UnreachableMember;
    }
    FilledMeans(w, tenant, unbound + looked, types);
    ghost var spec := TypesByMember(w, tenant, unbound + looked);
    label before:
    var common := CommonTypes(types);
    assert forall t :: t in common.elems <==> forall uuid :: uuid in types ==> t in old@before(types[uuid].elems);
    assert forall t :: t in common.elems <==> InAll(spec, t);
    verdict := if common == null || common.elems == {} then NoCommonType else Accepted;
    if t :| t in common.elems {
      assert InAll(spec, t);
    }
  }

  method ValidateRoomReachability(registry: ConnectorRegistry, table: seq<Identity>, tenant: string, room: seq<Member>)
    returns (verdict: Verdict)
    requires registry.Valid()
    modifies registry
    ensures registry.Valid() && registry.backends == old(registry.backends)
    ensures verdict == RoomVerdict(World(registry.backends, table), tenant, room)
  {
    var w := World(registry.backends, table);
    if |room| < 2 || forall m :: m in room ==> m.identity.None? {
      return Accepted;
    }
    if |room| > 2 {
      return UnreachableMember;
    }
    hide CommonVerdict, KindOf, Pick;
    assert room[0] in room;
    EveryoneVisited(w, tenant, room);
    var unbound := Pick(w, tenant, room, UnboundExternal);
    var looked := Pick(w, tenant, room, BoundExternal) + Pick(w, tenant, room, InternalMember);
    assert Visited(w, tenant, room) == unbound + looked;
    verdict := CheckMembers(registry, w, tenant, unbound, looked);
  }

  lemma MoreMembers(w: World, tenant: string, a: seq<Member>, b: seq<Member>)
    requires SomeoneUnreachable(w, tenant, a)
    ensures SomeoneUnreachable(w, tenant, a + b)
  {
    var m :| m in a && TypesReaching(w, {tenant}, m) == {};
    assert m in a + b;
  }

  lemma FilledMeans(w: World, tenant: string, members: seq<Member>, types: map<string, TypeSet>)
    requires Filled(w, tenant, members, types)
    ensures forall a, b :: a in types && b in types && a != b ==> types[a] != types[b]
    ensures forall t :: InAll(TypesByMember(w, tenant, members), t) <==>
              forall uuid :: uuid in types ==> t in types[uuid].elems
    ensures types == map[] <==> members == []
  {
    hide TypesReaching;
    if members != [] {
      assert members[|members| - 1].uuid in types;
    }
  }

  lemma EveryoneVisited(w: World, tenant: string, room: seq<Member>)
    ensures forall m :: m in room <==> m in Visited(w, tenant, room)
  {
  }

  /** The verdict on any room, said of rows and backends: rooms of users, or of one member, are accepted; with an
      outside party a room of more than two is refused; of two members (with different ids) neither may be without any
      type that reaches it, and some type must reach both. */
  lemma VerdictExactlyWhen(w: World, tenant: string, room: seq<Member>)
    ensures |room| < 2 || (forall m :: m in room ==> m.identity.None?) ==> RoomVerdict(w, tenant, room) == Accepted
    ensures |room| > 2 && (exists m :: m in room && m.identity.Some?) ==>
              RoomVerdict(w, tenant, room) == UnreachableMember
    ensures |room| == 2 && (exists m :: m in room && m.identity.Some?) && room[0].uuid != room[1].uuid ==>
              RoomVerdict(w, tenant, room) ==
                if (forall t :: !ReachedBy(w, tenant, room[0], t)) || (forall t :: !ReachedBy(w, tenant, room[1], t))
                then UnreachableMember
                else if exists t :: ReachedBy(w, tenant, room[0], t) && ReachedBy(w, tenant, room[1], t) then Accepted
                else NoCommonType
  {
    hide CommonVerdict, Visited, ReachedBy;
    if |room| == 2 && (exists m :: m in room && m.identity.Some?) && room[0].uuid != room[1].uuid {
      VerdictOnPair(w, tenant, room);
    }
  }

  lemma VerdictOnPair(w: World, tenant: string, room: seq<Member>)
    requires |room| == 2 && room[0].uuid != room[1].uuid
    ensures CommonVerdict(w, tenant, Visited(w, tenant, room)) ==
              if (forall t :: !ReachedBy(w, tenant, room[0], t)) || (forall t :: !ReachedBy(w, tenant, room[1], t))
              then UnreachableMember
              else if exists t :: ReachedBy(w, tenant, room[0], t) && ReachedBy(w, tenant, room[1], t) then Accepted
              else NoCommonType
  {
    VisitedTwo(w, tenant, room);
    hide Visited, CommonVerdict, ReachedBy;
    if Visited(w, tenant, room) == [room[0], room[1]] {
      VerdictOnTwo(w, tenant, room[0], room[1]);
    } else {
      VerdictOnTwo(w, tenant, room[1], room[0]);
    }
  }

  /** The type reaches the member: a user, or an identity of the tenant, by an identity row; anybody else through some
      backend. */
  ghost predicate ReachedBy(w: World, tenant: string, m: Member, t: string) {
    if m.identity.None? || BelongsToTenant(w.table, {tenant}, m.identity.value)
    then HasRowOf(w.table, m.uuid, t) else SomeBackendReaches(w.backends, m.identity.value, t)
  }

  lemma VisitedTwo(w: World, tenant: string, room: seq<Member>)
    requires |room| == 2
    ensures Visited(w, tenant, room) == [room[0], room[1]] || Visited(w, tenant, room) == [room[1], room[0]]
  {
    assert room == [room[0], room[1]];
    PickTwo(w, tenant, room[0], room[1], UnboundExternal);
    PickTwo(w, tenant, room[0], room[1], BoundExternal);
    PickTwo(w, tenant, room[0], room[1], InternalMember);
    hide KindOf, Pick;
  }

  lemma VerdictOnTwo(w: World, tenant: string, a: Member, b: Member)
    requires a.uuid != b.uuid
    ensures CommonVerdict(w, tenant, [a, b]) ==
              if (forall t :: !ReachedBy(w, tenant, a, t)) || (forall t :: !ReachedBy(w, tenant, b, t))
              then UnreachableMember
              else if exists t :: ReachedBy(w, tenant, a, t) && ReachedBy(w, tenant, b, t) then Accepted
              else NoCommonType
  {
    TypesOfTwo(w, tenant, a, b);
    forall t, m | m == a || m == b
      ensures t in TypesReaching(w, {tenant}, m) <==> ReachedBy(w, tenant, m, t)
    {
      TypesReachingMeans(w, {tenant}, m, t);
    }
    hide TypesByMember, TypesReaching, ReachedBy;
    var ofA, ofB := TypesReaching(w, {tenant}, a), TypesReaching(w, {tenant}, b);
    var types := TypesByMember(w, tenant, [a, b]);
    assert types[a.uuid] == ofA && types[b.uuid] == ofB;
    assert forall t :: InAll(types, t) <==> t in ofA && t in ofB;
    assert ofA == {} <==> forall t :: !ReachedBy(w, tenant, a, t);
    assert ofB == {} <==> forall t :: !ReachedBy(w, tenant, b, t);
    assert forall m :: m in [a, b] <==> m == a || m == b;
  }

  /** A two-party room of a user and an unbound external member is accepted exactly when some identity of the user has
      a type that reaches the external one; then, if the user's backends are registered, a sender is offered. */
  lemma AcceptedRoomHasSender(w: World, tenant: string, room: seq<Member>, me: Member, other: Member)
    requires UniqueRows(w.table) && TwoParty(room, me, other) && me.identity.None?
    requires other.identity.Some? && !Bound(w, {tenant}, other.identity.value)
    ensures RoomVerdict(w, tenant, room) == Accepted <==>
            exists x :: x in w.table && x.user == me.uuid && x.type_ in Reachable(w.backends, other.identity.value)
    ensures RoomVerdict(w, tenant, room) == Accepted
            && (forall x :: x in w.table && x.user == me.uuid ==> x.backend in w.backends) ==>
              ListRoomIdentities(w, {tenant}, room, me.uuid).Listing?
              && ListRoomIdentities(w, {tenant}, room, me.uuid).identities != []
  {
    hide TypesByMember, Visited, ListRoomIdentities, Reachable, Bound, TypesReaching;
    PairVerdict(w, tenant, room, me, other);
    var reachable := Reachable(w.backends, other.identity.value);
    if x :| x in w.table && x.user == me.uuid && x.type_ in reachable {
      assert x.type_ in TypesOf(w, me.uuid);
      ReachingExternal(w, tenant, other);
      TwoPartyMeaning(w, {tenant}, room, me, other, x);
    }
    if t :| t in TypesOf(w, me.uuid) && t in reachable {
      var i :| 0 <= i < |w.table| && w.table[i].user == me.uuid && w.table[i].type_ == t;
      assert w.table[i] in w.table;
    }
  }

  lemma ReachingExternal(w: World, tenant: string, other: Member)
    requires other.identity.Some? && !Bound(w, {tenant}, other.identity.value)
    ensures TypesReaching(w, {tenant}, other) == Reachable(w.backends, other.identity.value)
  {
  }

  lemma PairVerdict(w: World, tenant: string, room: seq<Member>, me: Member, other: Member)
    requires TwoParty(room, me, other) && me.identity.None?
    requires other.identity.Some? && !Bound(w, {tenant}, other.identity.value)
    ensures RoomVerdict(w, tenant, room) == Accepted <==>
            exists t :: t in TypesOf(w, me.uuid) && t in Reachable(w.backends, other.identity.value)
  {
    var reachable, mine := Reachable(w.backends, other.identity.value), TypesOf(w, me.uuid);
    TwoPartyTypes(w, tenant, room, me, other);
    EveryoneVisited(w, tenant, room);
    ReachingExternal(w, tenant, other);
    hide TypesByMember, Visited, TypesOf, Reachable, Bound;
    assert TypesReaching(w, {tenant}, me) == mine;
    hide TypesReaching;
    assert me in room && other in room;
    var types := TypesByMember(w, tenant, Visited(w, tenant, room));
    assert types[me.uuid] == mine && types[other.uuid] == reachable;
    assert forall t :: InAll(types, t) <==> t in reachable && t in mine;
    if RoomVerdict(w, tenant, room) == Accepted {
      var t :| InAll(types, t);
    }
    if t :| t in mine && t in reachable {
      assert InAll(types, t);
      assert !SomeoneUnreachable(w, tenant, Visited(w, tenant, room));
    }
  }

  lemma PickTwo(w: World, tenant: string, a: Member, b: Member, kind: Kind)
    ensures Pick(w, tenant, [a, b], kind) ==
            (if KindOf(w, tenant, a) == kind then [a] else []) + (if KindOf(w, tenant, b) == kind then [b] else [])
  {
    assert [a, b][..1] == [a] && [a][..0] == [];
    assert Pick(w, tenant, [a], kind) == if KindOf(w, tenant, a) == kind then [a] else [];
  }

  lemma TwoPartyTypes(w: World, tenant: string, room: seq<Member>, me: Member, other: Member)
    requires TwoParty(room, me, other) && me.identity.None?
    requires other.identity.Some? && !Bound(w, {tenant}, other.identity.value)
    ensures TypesByMember(w, tenant, Visited(w, tenant, room)) ==
            map[other.uuid := Reachable(w.backends, other.identity.value), me.uuid := TypesOf(w, me.uuid)]
  {
    OneOfEach(w, tenant, room, me, other);
    ReachingExternal(w, tenant, other);
    hide Pick, KindOf, TypesByMember, Reachable, TypesOf, Bound;
    assert Visited(w, tenant, room) == [other, me];
    TypesOfTwo(w, tenant, other, me);
    assert TypesReaching(w, {tenant}, me) == TypesOf(w, me.uuid);
    hide TypesReaching, Visited;
  }

  lemma TypesOfTwo(w: World, tenant: string, a: Member, b: Member)
    ensures TypesByMember(w, tenant, [a, b]) ==
            map[a.uuid := TypesReaching(w, {tenant}, a), b.uuid := TypesReaching(w, {tenant}, b)]
  {
    hide TypesReaching;
    assert [a, b][..1] == [a] && [a][..0] == [];
    assert TypesByMember(w, tenant, [a]) == map[a.uuid := TypesReaching(w, {tenant}, a)];
  }

  lemma OneOfEach(w: World, tenant: string, room: seq<Member>, me: Member, other: Member)
    requires TwoParty(room, me, other)
    requires KindOf(w, tenant, me) == InternalMember && KindOf(w, tenant, other) == UnboundExternal
    ensures Pick(w, tenant, room, UnboundExternal) == [other] && Pick(w, tenant, room, BoundExternal) == []
    ensures Pick(w, tenant, room, InternalMember) == [me]
  {
    PickTwo(w, tenant, room[0], room[1], UnboundExternal);
    PickTwo(w, tenant, room[0], room[1], BoundExternal);
    PickTwo(w, tenant, room[0], room[1], InternalMember);
    hide KindOf, Pick;
    assert room == [room[0], room[1]];
  }
}
