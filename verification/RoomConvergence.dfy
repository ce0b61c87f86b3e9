/**
  How the outbound side (room creation) and the inbound side (an incoming message) turn an identity into a room
  member, and how each side matches the members of existing rooms.
 */
module RoomConvergence {
  import opened Options

  /** A row of the user identity table, with its user's tenant. */
  datatype Binding = Binding(row: string, identity: string, user: string, tenant: string)

  /** A user of the room creation request; its dictionary may lack either key. */
  datatype Entry = Entry(uuid: Option<string>, identity: Option<string>)

  /** A room member; `identity` is kept for external ones only. */
  datatype Member = Member(uuid: string, identity: Option<string>)

  /** The dictionary built from query rows keeps the last row of an identity. */
  function LastFor(rows: seq<Binding>, identity: string): (last: Option<Binding>)
    ensures last.Some? ==> last.value in rows && last.value.identity == identity
    ensures last.None? ==> forall b :: b in rows ==> b.identity != identity
  {
    if rows == [] then None
    else if rows[|rows| - 1].identity == identity then Some(rows[|rows| - 1])
    else LastFor(rows[..|rows| - 1], identity)
  }

  /** The result of a query in some order: the rows of the table that satisfy it, each once. */
  ghost predicate Answers(rows: seq<Binding>, table: set<Binding>, wanted: Binding -> bool) {
    && (forall i, j :: 0 <= i < j < |rows| ==> rows[i] != rows[j])
    && (forall b :: b in rows <==> b in table && wanted(b))
  }

  /** `resolve_room_participants` asks within the tenant. */
  function OutboundMember(
    rows: seq<Binding>, tenant: string, identity: string, uuid5: (string, string) -> string): Member
  {
    match LastFor(rows, identity)
    case Some(b) => Member(b.user, None)
    case None => Member(uuid5(tenant, identity), Some(identity))
  }

  /** `_resolve_inbound_room` asks across tenants and treats a user of another tenant as external. */
  function InboundMember(
    rows: seq<Binding>, tenant: string, identity: string, uuid5: (string, string) -> string): Member
  {
    match LastFor(rows, identity)
    case Some(b) => if b.tenant == tenant then Member(b.user, None) else Member(uuid5(tenant, identity), Some(identity))
    case None => Member(uuid5(tenant, identity), Some(identity))
  }

  /** An entry that has an identity and no uuid is resolved; any other is left alone. */
  function ResolvedEntry(rows: seq<Binding>, tenant: string, e: Entry, uuid5: (string, string) -> string): Entry {
    if e.identity.None? || e.identity.value == "" || e.uuid.Some? then e
    else
      var m := OutboundMember(rows, tenant, e.identity.value, uuid5);
      Entry(Some(m.uuid), m.identity)
  }

  method ResolveRoomParticipants(
    users: array<Entry>, rows: seq<Binding>, tenant: string, uuid5: (string, string) -> string)
    modifies users
    ensures forall i :: 0 <= i < users.Length ==> users[i] == ResolvedEntry(rows, tenant, old(users[i]), uuid5)
  {
    for i := 0 to users.Length
      invariant forall j :: 0 <= j < i ==> users[j] == ResolvedEntry(rows, tenant, old(users[j]), uuid5)
      invariant forall j :: i <= j < users.Length ==> users[j] == old(users[j])
    {
      var e := users[i];
      if e.identity.Some? && e.identity.value != "" && e.uuid.None? {
        var found := LastFor(rows, e.identity.value);
        users[i] := if found.Some? then Entry(Some(found.value.user), None)
                    else Entry(Some(uuid5(tenant, e.identity.value)), e.identity);
      }
    }
  }

  // ---- when both sides agree ----

  /** A user belongs to one tenant, and derived ids are not user ids. */
  ghost predicate Coherent(table: set<Binding>, uuid5: (string, string) -> string) {
    && (forall a, b :: a in table && b in table && a.user == b.user ==> a.tenant == b.tenant)
    && (forall tenant, identity, b :: b in table ==> b.user != uuid5(tenant, identity))
  }

  ghost predicate InTenant(table: set<Binding>, tenant: string, identity: string, rows: seq<Binding>) {
    Answers(rows, table, (b: Binding) => b.identity == identity && b.tenant == tenant)
  }

  ghost predicate AnyTenant(table: set<Binding>, identity: string, rows: seq<Binding>) {
    Answers(rows, table, (b: Binding) => b.identity == identity)
  }

  /** If some user of the tenant has the identity, nobody else does. */
  ghost predicate BoundToOne(table: set<Binding>, tenant: string, identity: string) {
    forall a, b ::
      a in table && b in table && a.identity == identity && b.identity == identity && a.tenant == tenant ==>
      a.user == b.user
  }

  /** Both sides compute the same member in whatever order the database returns its rows, if and only if the
      identity is not shared between a user of the tenant and another user. */
  lemma MembersAgreeExactlyWhen(
    table: set<Binding>, tenant: string, identity: string, uuid5: (string, string) -> string)
    requires Coherent(table, uuid5)
    ensures
      (forall mine, all :: InTenant(table, tenant, identity, mine) && AnyTenant(table, identity, all) ==>
         OutboundMember(mine, tenant, identity, uuid5) == InboundMember(all, tenant, identity, uuid5))
      <==> BoundToOne(table, tenant, identity)
  {
    hide OutboundMember, InboundMember, InTenant, AnyTenant;
    if BoundToOne(table, tenant, identity) {
      forall mine, all | InTenant(table, tenant, identity, mine) && AnyTenant(table, identity, all)
        ensures OutboundMember(mine, tenant, identity, uuid5) == InboundMember(all, tenant, identity, uuid5)
      {
        OneUserAgrees(table, tenant, identity, uuid5, mine, all);
      }
    } else {
      var a, b :| a in table && b in table && a.identity == identity && b.identity == identity
                  && a.tenant == tenant && a.user != b.user;
      var mine, all := DisagreeingOrders(table, tenant, identity, uuid5, a, b);
    }
  }

  /** Rows in which the tenant's user comes last for one side and another user comes last for the other. */
  lemma DisagreeingOrders(
    table: set<Binding>, tenant: string, identity: string, uuid5: (string, string) -> string, a: Binding, b: Binding)
    returns (mine: seq<Binding>, all: seq<Binding>)
    requires Coherent(table, uuid5)
    requires a in table && b in table && a.identity == identity && b.identity == identity
    requires a.tenant == tenant && a.user != b.user
    ensures InTenant(table, tenant, identity, mine) && AnyTenant(table, identity, all)
    ensures OutboundMember(mine, tenant, identity, uuid5) != InboundMember(all, tenant, identity, uuid5)
  {
    mine := EndingWith((set x | x in table && x.identity == identity && x.tenant == tenant), a);
    all := EndingWith((set x | x in table && x.identity == identity), b);
    hide InTenant, AnyTenant, EndingWith, LastFor;
    LastRowWins(mine, identity);
    LastRowWins(all, identity);
    assert InTenant(table, tenant, identity, mine) by {
      InTenantMeans(table, tenant, identity, mine);
    }
    assert AnyTenant(table, identity, all) by {
      AnyTenantMeans(table, identity, all);
    }
  }

  lemma LastRowWins(rows: seq<Binding>, identity: string)
    requires rows != [] && rows[|rows| - 1].identity == identity
    ensures LastFor(rows, identity) == Some(rows[|rows| - 1])
  {
  }

  lemma InTenantMeans(table: set<Binding>, tenant: string, identity: string, rows: seq<Binding>)
    requires forall i, j :: 0 <= i < j < |rows| ==> rows[i] != rows[j]
    requires forall b :: b in rows <==> b in table && b.identity == identity && b.tenant == tenant
    ensures InTenant(table, tenant, identity, rows)
  {
  }

  lemma AnyTenantMeans(table: set<Binding>, identity: string, rows: seq<Binding>)
    requires forall i, j :: 0 <= i < j < |rows| ==> rows[i] != rows[j]
    requires forall b :: b in rows <==> b in table && b.identity == identity
    ensures AnyTenant(table, identity, rows)
  {
  }

  lemma OneUserAgrees(
    table: set<Binding>, tenant: string, identity: string, uuid5: (string, string) -> string,
    mine: seq<Binding>, all: seq<Binding>)
    requires Coherent(table, uuid5) && BoundToOne(table, tenant, identity)
    requires InTenant(table, tenant, identity, mine) && AnyTenant(table, identity, all)
    ensures OutboundMember(mine, tenant, identity, uuid5) == InboundMember(all, tenant, identity, uuid5)
  {
    var a, b := LastFor(mine, identity), LastFor(all, identity);
    if b.Some? && b.value.tenant == tenant {
      assert b.value in mine;
    }
    if a.Some? {
      assert a.value in all;
    }
  }

  /** Some order of a set that ends with a chosen element. */
  ghost function EndingWith(s: set<Binding>, last: Binding): (rows: seq<Binding>)
    requires last in s
    ensures rows != [] && rows[|rows| - 1] == last
    ensures forall i, j :: 0 <= i < j < |rows| ==> rows[i] != rows[j]
    ensures forall b :: b in rows <==> b in s
  {
    InSomeOrder(s - {last}) + [last]
  }

  ghost function InSomeOrder<T(!new)>(s: set<T>): (rows: seq<T>)
    ensures forall i, j :: 0 <= i < j < |rows| ==> rows[i] != rows[j]
    ensures forall b :: b in rows <==> b in s
    ensures |rows| == |s|
  {
    if s == {} then [] else
    var x :| x in s;
    [x] + InSomeOrder(s - {x})
  }

  // ---- matching rooms ----

  /** `count(nullif(uuid in ids, false))` over the members of a room. */
  function CountIn(room: seq<string>, ids: seq<string>): nat {
    if room == [] then 0 else CountIn(room[..|room| - 1], ids) + if room[|room| - 1] in ids then 1 else 0
  }

  /** The two counts of `find_room`. */
  predicate CountingMatch(room: seq<string>, ids: seq<string>) {
    |room| == |ids| && CountIn(room, ids) == |ids|
  }

  /** The contains and contained-by test of the room listing. */
  predicate ExactMatch(room: seq<string>, ids: seq<string>) {
    (forall x :: x in ids ==> x in room) && (forall x :: x in room ==> x in ids)
  }

  ghost predicate Distinct(ids: seq<string>) {
    forall i, j :: 0 <= i < j < |ids| ==> ids[i] != ids[j]
  }

  lemma {:induction false} CountInAll(room: seq<string>, ids: seq<string>)
    ensures CountIn(room, ids) <= |room|
    ensures CountIn(room, ids) == |room| <==> forall x :: x in room ==> x in ids
  {
    if room != [] {
      var before, last := room[..|room| - 1], room[|room| - 1];
      CountInAll(before, ids);
      assert room == before + [last];
    }
  }

  function Elements(ids: seq<string>): set<string> { set x | x in ids }

  lemma {:induction false} ElementCount(ids: seq<string>)
    ensures |Elements(ids)| <= |ids|
    ensures |Elements(ids)| == |ids| <==> Distinct(ids)
  {
    if ids != [] {
      var before, last := ids[..|ids| - 1], ids[|ids| - 1];
      ElementCount(before);
      assert ids == before + [last];
      assert Elements(ids) == Elements(before) + {last};
      if last in before {
        var i :| 0 <= i < |before| && before[i] == last;
        assert ids[i] == ids[|ids| - 1];
        assert Elements(ids) == Elements(before);
      } else {
        assert |Elements(ids)| == |Elements(before)| + 1;
        assert Distinct(before) <==> Distinct(ids);
      }
    }
  }

  lemma SubsetOfSameSize(a: set<string>, b: set<string>)
    requires a <= b && |a| == |b|
    ensures a == b
  {
    assert b == a + (b - a);
    assert |b| == |a| + |b - a|;
  }

  lemma DistinctIdsMatchAlike(room: seq<string>, ids: seq<string>)
    requires Distinct(room) && Distinct(ids)
    ensures CountingMatch(room, ids) <==> ExactMatch(room, ids)
  {
    CountInAll(room, ids);
    ElementCount(room);
    ElementCount(ids);
    if ExactMatch(room, ids) {
      assert Elements(room) == Elements(ids);
    }
    if CountingMatch(room, ids) {
      assert Elements(room) <= Elements(ids);
      SubsetOfSameSize(Elements(room), Elements(ids));
      forall x | x in ids ensures x in room { assert x in Elements(room); }
    }
  }

  /** The counting test decides set equality on all rooms if and only if the wanted ids are distinct. */
  lemma CountingDecidesExactlyWhen(ids: seq<string>)
    ensures (forall room :: Distinct(room) ==> (CountingMatch(room, ids) <==> ExactMatch(room, ids))) <==> Distinct(ids)
  {
    if Distinct(ids) {
      forall room | Distinct(room) ensures CountingMatch(room, ids) <==> ExactMatch(room, ids) {
        DistinctIdsMatchAlike(room, ids);
      }
    } else {
      var room := InSomeOrder(Elements(ids));
      ElementCount(ids);
      assert Distinct(room) && ExactMatch(room, ids) && !CountingMatch(room, ids);
    }
  }

  // ---- a reply ----

  /** The inbound lookup asks for both identities at once, across tenants and backends. */
  ghost predicate EitherIdentity(table: set<Binding>, recipient: string, sender: string, rows: seq<Binding>) {
    Answers(rows, table, (b: Binding) => b.identity == recipient || b.identity == sender)
  }

  /** What an incoming message asks `find_room` for. */
  datatype Wanted = Wanted(tenant: string, ids: seq<string>)

  /** `_resolve_inbound_room`: the recipient's user decides the tenant; a message to nobody is dropped. */
  function InboundRoom(
    rows: seq<Binding>, recipient: string, sender: string, uuid5: (string, string) -> string): Option<Wanted>
  {
    match LastFor(rows, recipient)
    case None => None
    case Some(b) => Some(Wanted(b.tenant, [InboundMember(rows, b.tenant, sender, uuid5).uuid, b.user]))
  }

  /** `find_room` returns the room of that tenant with those members. */
  predicate Finds(wanted: Option<Wanted>, tenant: string, members: seq<string>) {
    wanted.Some? && wanted.value.tenant == tenant && CountingMatch(members, wanted.value.ids)
  }

  /** The room a user opens with an external party, for some order of the rows. */
  function Opened(
    user: string, mine: seq<Binding>, tenant: string, party: string, uuid5: (string, string) -> string): seq<string>
  {
    [user, OutboundMember(mine, tenant, party, uuid5).uuid]
  }

  /** The identity is some user's, and of no other user. */
  ghost predicate HasOneUser(table: set<Binding>, identity: string, user: string) {
    forall b :: b in table && b.identity == identity ==> b.user == user
  }

  /** The party need not be taken for the user itself (a room of one user is refused). */
  ghost predicate SomebodyElse(table: set<Binding>, tenant: string, party: string, user: string) {
    (exists b :: b in table && b.identity == party && b.tenant == tenant) ==>
      exists b :: b in table && b.identity == party && b.tenant == tenant && b.user != user
  }

  ghost predicate RepliesArrive(
    table: set<Binding>, own: Binding, party: string, uuid5: (string, string) -> string)
  {
    forall mine, rows ::
      InTenant(table, own.tenant, party, mine) && EitherIdentity(table, own.identity, party, rows)
      && OutboundMember(mine, own.tenant, party, uuid5).uuid != own.user ==>
        Finds(InboundRoom(rows, own.identity, party, uuid5), own.tenant,
            Opened(own.user, mine, own.tenant, party, uuid5))
  }

  /** A user opens a room with a party, sending from an identity of its own; the party answers to that identity. The
      answer finds that room in whatever order the database returns its rows, on both sides, if and only if the user's
      identity has one user, on all backends and in all tenants, and the party's identity is not shared between a user
      of the tenant and another user. */
  lemma ReplyFindsItsRoomExactlyWhen(
    table: set<Binding>, own: Binding, party: string, uuid5: (string, string) -> string)
    requires Coherent(table, uuid5) && own in table && SomebodyElse(table, own.tenant, party, own.user)
    ensures RepliesArrive(table, own, party, uuid5) <==>
              HasOneUser(table, own.identity, own.user) && BoundToOne(table, own.tenant, party)
  {
    if HasOneUser(table, own.identity, own.user) && BoundToOne(table, own.tenant, party) {
      forall mine, rows |
        InTenant(table, own.tenant, party, mine) && EitherIdentity(table, own.identity, party, rows)
        && OutboundMember(mine, own.tenant, party, uuid5).uuid != own.user
        ensures Finds(InboundRoom(rows, own.identity, party, uuid5), own.tenant,
            Opened(own.user, mine, own.tenant, party, uuid5))
      {
        ReplyArrives(table, own, party, uuid5, mine, rows);
      }
    } else {
      var mine, rows := LostReply(table, own, party, uuid5);
    }
  }

  lemma ReplyArrives(
    table: set<Binding>, own: Binding, party: string, uuid5: (string, string) -> string, mine: seq<Binding>,
    rows: seq<Binding>)
    requires Coherent(table, uuid5) && own in table
    requires HasOneUser(table, own.identity, own.user) && BoundToOne(table, own.tenant, party)
    requires InTenant(table, own.tenant, party, mine) && EitherIdentity(table, own.identity, party, rows)
    requires OutboundMember(mine, own.tenant, party, uuid5).uuid != own.user
    ensures InboundRoom(rows, own.identity, party, uuid5) ==
              Some(Wanted(own.tenant, [OutboundMember(mine, own.tenant, party, uuid5).uuid, own.user]))
    ensures Finds(InboundRoom(rows, own.identity, party, uuid5), own.tenant,
        Opened(own.user, mine, own.tenant, party, uuid5))
  {
    assert own in rows;
    EitherAgrees(table, own, party, uuid5, mine, rows);
    var other := OutboundMember(mine, own.tenant, party, uuid5).uuid;
    hide InTenant, EitherIdentity, OutboundMember, InboundMember, Coherent, BoundToOne, HasOneUser;
    DistinctIdsMatchAlike([own.user, other], [other, own.user]);
  }

  lemma EitherAgrees(
    table: set<Binding>, own: Binding, party: string, uuid5: (string, string) -> string, mine: seq<Binding>,
    rows: seq<Binding>)
    requires Coherent(table, uuid5) && BoundToOne(table, own.tenant, party)
    requires InTenant(table, own.tenant, party, mine) && EitherIdentity(table, own.identity, party, rows)
    ensures OutboundMember(mine, own.tenant, party, uuid5) == InboundMember(rows, own.tenant, party, uuid5)
  {
    var a, b := LastFor(mine, party), LastFor(rows, party);
    if b.Some? && b.value.tenant == own.tenant {
      assert b.value in mine;
    }
    if a.Some? {
      assert a.value in rows;
    }
  }

  /** And it finds no room with other members. */
  lemma ReplyFindsItsRoom(
    table: set<Binding>, own: Binding, party: string, uuid5: (string, string) -> string,
    mine: seq<Binding>, rows: seq<Binding>, room: seq<string>)
    requires Coherent(table, uuid5) && own in table && Distinct(room)
    requires HasOneUser(table, own.identity, own.user) && BoundToOne(table, own.tenant, party)
    requires InTenant(table, own.tenant, party, mine) && EitherIdentity(table, own.identity, party, rows)
    requires OutboundMember(mine, own.tenant, party, uuid5).uuid != own.user
    ensures Finds(InboundRoom(rows, own.identity, party, uuid5), own.tenant, room) <==>
              ExactMatch(room, Opened(own.user, mine, own.tenant, party, uuid5))
  {
    ReplyArrives(table, own, party, uuid5, mine, rows);
    var other := OutboundMember(mine, own.tenant, party, uuid5).uuid;
    hide InTenant, EitherIdentity, OutboundMember, InboundRoom, Coherent, BoundToOne, HasOneUser;
    DistinctIdsMatchAlike(room, [other, own.user]);
  }

  /** Orders of the rows in which the answer misses the room. */
  lemma LostReply(table: set<Binding>, own: Binding, party: string, uuid5: (string, string) -> string)
    returns (mine: seq<Binding>, rows: seq<Binding>)
    requires Coherent(table, uuid5) && own in table && SomebodyElse(table, own.tenant, party, own.user)
    requires !HasOneUser(table, own.identity, own.user) || !BoundToOne(table, own.tenant, party)
    ensures InTenant(table, own.tenant, party, mine) && EitherIdentity(table, own.identity, party, rows)
    ensures OutboundMember(mine, own.tenant, party, uuid5).uuid != own.user
    ensures !Finds(InboundRoom(rows, own.identity, party, uuid5), own.tenant,
        Opened(own.user, mine, own.tenant, party, uuid5))
  {
    if BoundToOne(table, own.tenant, party) {
      var other :| other in table && other.identity == own.identity && other.user != own.user;
      mine := TakenForSomebodyElse(table, own, party, uuid5);
      rows := EndingWith((set x | x in table && (x.identity == own.identity || x.identity == party)), other);
      EitherMeans(table, own.identity, party, rows);
      LastRowWins(rows, own.identity);
      if other.tenant == own.tenant {
        EitherAgrees(table, own, party, uuid5, mine, rows);
        var o := OutboundMember(mine, own.tenant, party, uuid5).uuid;
        hide OutboundMember, InboundMember, InTenant, EitherIdentity, BoundToOne, Coherent, EndingWith, LastFor;
        NoMatchWithout([own.user, o], [o, other.user], own.user);
      }
    } else {
      mine, rows := LostToSharedParty(table, own, party, uuid5);
    }
  }

  lemma NoMatchWithout(room: seq<string>, ids: seq<string>, x: string)
    requires x in room && x !in ids
    ensures !CountingMatch(room, ids)
  {
    CountInAll(room, ids);
  }

  lemma TakenForSomebodyElse(table: set<Binding>, own: Binding, party: string, uuid5: (string, string) -> string)
    returns (mine: seq<Binding>)
    requires Coherent(table, uuid5) && own in table && SomebodyElse(table, own.tenant, party, own.user)
    ensures InTenant(table, own.tenant, party, mine)
    ensures OutboundMember(mine, own.tenant, party, uuid5).uuid != own.user
  {
    var answer := set x | x in table && x.identity == party && x.tenant == own.tenant;
    if b :| b in table && b.identity == party && b.tenant == own.tenant && b.user != own.user {
      mine := EndingWith(answer, b);
      LastRowWins(mine, party);
    } else {
      mine := [];
      assert answer == {};
    }
    InTenantMeans(table, own.tenant, party, mine);
  }

  lemma EitherMeans(table: set<Binding>, recipient: string, sender: string, rows: seq<Binding>)
    requires forall i, j :: 0 <= i < j < |rows| ==> rows[i] != rows[j]
    requires forall b :: b in rows <==> b in table && (b.identity == recipient || b.identity == sender)
    ensures EitherIdentity(table, recipient, sender, rows)
  {
  }

  /** The party is somebody else for the opener, and a third one, or the opener itself, for the answer. */
  lemma LostToSharedParty(table: set<Binding>, own: Binding, party: string, uuid5: (string, string) -> string)
    returns (mine: seq<Binding>, rows: seq<Binding>)
    requires Coherent(table, uuid5) && own in table && SomebodyElse(table, own.tenant, party, own.user)
    requires !BoundToOne(table, own.tenant, party)
    ensures InTenant(table, own.tenant, party, mine) && EitherIdentity(table, own.identity, party, rows)
    ensures OutboundMember(mine, own.tenant, party, uuid5).uuid != own.user
    ensures !Finds(InboundRoom(rows, own.identity, party, uuid5), own.tenant,
        Opened(own.user, mine, own.tenant, party, uuid5))
  {
    var a, b :| a in table && b in table && a.identity == party && b.identity == party
                && a.tenant == own.tenant && a.user != b.user;
    var c :| c in table && c.identity == party && c.tenant == own.tenant && c.user != own.user;
    var answered := if c.user != a.user then a else b;
    assert answered.user != c.user;
    mine := EndingWith((set x | x in table && x.identity == party && x.tenant == own.tenant), c);
    InTenantMeans(table, own.tenant, party, mine);
    LastRowWins(mine, party);
    rows := OrderForBoth(table, own, answered);
    WantsOthers(table, own, answered, c, uuid5, rows);
    hide InTenant, EitherIdentity, EndingWith, LastFor, Coherent, InboundMember, InboundRoom;
    NoMatchWithout([own.user, c.user], InboundRoom(rows, own.identity, party, uuid5).value.ids, c.user);
  }

  lemma WantsOthers(
    table: set<Binding>, own: Binding, answered: Binding, c: Binding, uuid5: (string, string) -> string,
    rows: seq<Binding>)
    requires Coherent(table, uuid5) && c in table && c.user != own.user && c.user != answered.user
    requires LastFor(rows, answered.identity) == Some(answered)
    requires LastFor(rows, own.identity) in {Some(own), Some(answered)}
    ensures
      var wanted := InboundRoom(rows, own.identity, answered.identity, uuid5);
      wanted.Some? && c.user !in wanted.value.ids
  {
    hide LastFor;
  }

  /** An order in which the party resolves to a chosen row, and the recipient to its own or to that one. */
  lemma OrderForBoth(table: set<Binding>, own: Binding, answered: Binding) returns (rows: seq<Binding>)
    requires own in table && answered in table
    ensures EitherIdentity(table, own.identity, answered.identity, rows)
    ensures LastFor(rows, answered.identity) == Some(answered)
    ensures LastFor(rows, own.identity) in {Some(own), Some(answered)}
  {
    var both := set x | x in table && (x.identity == own.identity || x.identity == answered.identity);
    if own.identity == answered.identity {
      rows := EndingWith(both, answered);
      hide EndingWith, LastFor;
      LastRowWins(rows, own.identity);
    } else {
      rows := EndingWithTwo(both, own, answered);
    }
    hide EndingWith, LastFor;
    EitherMeans(table, own.identity, answered.identity, rows);
  }

  lemma EndingWithTwo(s: set<Binding>, a: Binding, b: Binding) returns (rows: seq<Binding>)
    requires a in s && b in s && a.identity != b.identity
    ensures forall i, j :: 0 <= i < j < |rows| ==> rows[i] != rows[j]
    ensures forall x :: x in rows <==> x in s
    ensures LastFor(rows, a.identity) == Some(a) && LastFor(rows, b.identity) == Some(b)
  {
    var before := EndingWith(s - {b}, a);
    rows := before + [b];
    assert rows[..|rows| - 1] == before;
    LastRowWins(rows, b.identity);
    LastRowWins(before, a.identity);
    hide EndingWith;
    assert LastFor(rows, a.identity) == LastFor(before, a.identity);
    hide LastFor;
    assert b !in before;
  }

  // ---- different parties ----

  /** Derived ids of different parties, or in different tenants, differ. */
  ghost predicate Injective(uuid5: (string, string) -> string) {
    forall t1, i1, t2, i2 :: uuid5(t1, i1) == uuid5(t2, i2) ==> t1 == t2 && i1 == i2
  }

  /** Some user of the tenant has the identity. */
  ghost predicate HasUser(table: set<Binding>, tenant: string, identity: string, user: string) {
    exists b :: b in table && b.identity == identity && b.tenant == tenant && b.user == user
  }

  /** Who a party is taken for as a room is created: a user of the tenant who has the identity, without keeping it; an
      external member under the derived id, with it, if there is none. */
  lemma OutboundMemberMeaning(
    table: set<Binding>, tenant: string, identity: string, uuid5: (string, string) -> string, mine: seq<Binding>)
    requires InTenant(table, tenant, identity, mine)
    ensures
      var m := OutboundMember(mine, tenant, identity, uuid5);
      if exists user :: HasUser(table, tenant, identity, user)
      then m.identity.None? && HasUser(table, tenant, identity, m.uuid)
      else m == Member(uuid5(tenant, identity), Some(identity))
  {
    hide LastFor;
    var last := LastFor(mine, identity);
    if last.Some? {
      assert last.value in table && last.value.tenant == tenant;
      assert HasUser(table, tenant, identity, last.value.user);
    }
  }

  /** And who an incoming message is taken to come from, when the tenant's users do not share the identity with others:
      the same. */
  lemma InboundMemberMeaning(
    table: set<Binding>, tenant: string, identity: string, uuid5: (string, string) -> string, all: seq<Binding>)
    requires AnyTenant(table, identity, all) && BoundToOne(table, tenant, identity) && Coherent(table, uuid5)
    ensures
      var m := InboundMember(all, tenant, identity, uuid5);
      if exists user :: HasUser(table, tenant, identity, user)
      then m.identity.None? && HasUser(table, tenant, identity, m.uuid)
      else m == Member(uuid5(tenant, identity), Some(identity))
  {
    hide LastFor;
    var last := LastFor(all, identity);
    if last.Some? && last.value.tenant == tenant {
      assert last.value in table;
      assert HasUser(table, tenant, identity, last.value.user);
    }
  }

  /** Two parties with different identities are taken for one member, and so share their rooms with a user, only if one
      user of the tenant has both identities; and then they do, unless an identity is shared. */
  lemma DifferentPartiesMeetOnlyInAUser(
    table: set<Binding>, tenant: string, a: string, b: string, uuid5: (string, string) -> string,
    mineA: seq<Binding>, mineB: seq<Binding>)
    requires Coherent(table, uuid5) && Injective(uuid5) && a != b
    requires InTenant(table, tenant, a, mineA) && InTenant(table, tenant, b, mineB)
    ensures
      var sameMember := OutboundMember(mineA, tenant, a, uuid5).uuid == OutboundMember(mineB, tenant, b, uuid5).uuid;
      var sameUser := exists user :: HasUser(table, tenant, a, user) && HasUser(table, tenant, b, user);
      && (sameMember ==> sameUser)
      && (sameUser && BoundToOne(table, tenant, a) && BoundToOne(table, tenant, b) ==> sameMember)
  {
    OutboundMemberMeaning(table, tenant, a, uuid5, mineA);
    OutboundMemberMeaning(table, tenant, b, uuid5, mineB);
    hide OutboundMember, InTenant;
    var x, y := OutboundMember(mineA, tenant, a, uuid5).uuid, OutboundMember(mineB, tenant, b, uuid5).uuid;
    if user :| HasUser(table, tenant, a, user) && HasUser(table, tenant, b, user) {
      if BoundToOne(table, tenant, a) && BoundToOne(table, tenant, b) {
        OneUserHasIt(table, tenant, a, user, x);
        OneUserHasIt(table, tenant, b, user, y);
      }
    } else if x == y {
      DerivedIsNoUser(table, tenant, a, b, uuid5, x);
    }
  }

  lemma OneUserHasIt(table: set<Binding>, tenant: string, identity: string, user: string, other: string)
    requires BoundToOne(table, tenant, identity)
    requires HasUser(table, tenant, identity, user) && HasUser(table, tenant, identity, other)
    ensures user == other
  {
  }

  lemma DerivedIsNoUser(
    table: set<Binding>, tenant: string, a: string, b: string, uuid5: (string, string) -> string, uuid: string)
    requires Coherent(table, uuid5) && Injective(uuid5) && a != b
    ensures uuid == uuid5(tenant, a) ==> uuid != uuid5(tenant, b) && !HasUser(table, tenant, b, uuid)
    ensures uuid == uuid5(tenant, b) ==> !HasUser(table, tenant, a, uuid)
  {
  }

  /** So a user's conversations with different parties stay apart. */
  lemma DifferentPartiesDifferentRooms(
    table: set<Binding>, user: string, tenant: string, a: string, b: string, uuid5: (string, string) -> string,
    mineA: seq<Binding>, mineB: seq<Binding>)
    requires Coherent(table, uuid5) && Injective(uuid5) && a != b
    requires InTenant(table, tenant, a, mineA) && InTenant(table, tenant, b, mineB)
    requires forall other :: !(HasUser(table, tenant, a, other) && HasUser(table, tenant, b, other))
    requires OutboundMember(mineA, tenant, a, uuid5).uuid != user
    ensures !ExactMatch(Opened(user, mineA, tenant, a, uuid5), Opened(user, mineB, tenant, b, uuid5))
  {
    DifferentPartiesMeetOnlyInAUser(table, tenant, a, b, uuid5, mineA, mineB);
    hide OutboundMember, InTenant, HasUser;
    assert OutboundMember(mineA, tenant, a, uuid5).uuid in Opened(user, mineA, tenant, a, uuid5);
  }
}
