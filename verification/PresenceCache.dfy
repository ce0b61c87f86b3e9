/**
  The presence tables of the database, with their primary keys (a table is a map from its key) and what deleting a
  row does to the rows that refer to it.
 */
module PresenceCache {
  import opened Options

  datatype User = User(tenant: string, state: string, status: Option<string>, dnd: bool)

  datatype Line = Line(user: string, endpoint: Option<string>)

  datatype Session = Session(user: string, mobile: bool)

  datatype TokenKey = TokenKey(client: string, user: string)

  datatype DB = DB(
    tenants: set<string>,
    users: map<string, User>,
    lines: map<int, Line>,
    endpoints: map<string, string>,
    sessions: map<string, Session>,
    tokens: map<TokenKey, bool>)

  /** Every foreign key resolves. */
  ghost predicate Integrity(db: DB) {
    && (forall u :: u in db.users ==> db.users[u].tenant in db.tenants)
    && (forall id :: id in db.lines ==> db.lines[id].user in db.users)
    && (forall id :: id in db.lines && db.lines[id].endpoint.Some? ==> db.lines[id].endpoint.value in db.endpoints)
    && (forall s :: s in db.sessions ==> db.sessions[s].user in db.users)
    && (forall k :: k in db.tokens ==> k.user in db.users)
  }

  /** Deleting users deletes their lines, sessions and tokens. */
  function DeleteUsers(db: DB, uuids: set<string>): DB {
    db.(users := db.users - uuids,
        lines := map id | id in db.lines && db.lines[id].user !in uuids :: db.lines[id],
        sessions := map s | s in db.sessions && db.sessions[s].user !in uuids :: db.sessions[s],
        tokens := map k | k in db.tokens && k.user !in uuids :: db.tokens[k])
  }

  /** Deleting tenants deletes their users. */
  function DeleteTenants(db: DB, uuids: set<string>): DB {
    DeleteUsers(db, set u | u in db.users && db.users[u].tenant in uuids).(tenants := db.tenants - uuids)
  }

  /** Deleting endpoints leaves the lines without one. */
  function DeleteAllEndpoints(db: DB): DB {
    db.(endpoints := map[], lines := map id | id in db.lines :: db.lines[id].(endpoint := None))
  }

  lemma DeletionsKeepIntegrity(db: DB, uuids: set<string>)
    requires Integrity(db)
    ensures Integrity(DeleteUsers(db, uuids)) && Integrity(DeleteTenants(db, uuids))
        && Integrity(DeleteAllEndpoints(db))
  {
  }

  /** A deletion takes what depends on the rows deleted, and leaves every other row as it is. */
  lemma DeletionsTakeOnlyDependents(db: DB, uuids: set<string>)
    ensures
      var d := DeleteUsers(db, uuids);
      && d.tenants == db.tenants && d.endpoints == db.endpoints
      && (forall u :: u in d.users <==> u in db.users && u !in uuids)
      && (forall u :: u in d.users ==> d.users[u] == db.users[u])
      && (forall id :: id in d.lines <==> id in db.lines && db.lines[id].user !in uuids)
      && (forall id :: id in d.lines ==> d.lines[id] == db.lines[id])
      && (forall s :: s in d.sessions <==> s in db.sessions && db.sessions[s].user !in uuids)
      && (forall s :: s in d.sessions ==> d.sessions[s] == db.sessions[s])
      && (forall k :: k in d.tokens <==> k in db.tokens && k.user !in uuids)
      && (forall k :: k in d.tokens ==> d.tokens[k] == db.tokens[k])
    ensures
      var d := DeleteTenants(db, uuids);
      && (forall t :: t in d.tenants <==> t in db.tenants && t !in uuids)
      && (forall u :: u in d.users <==> u in db.users && db.users[u].tenant !in uuids)
      && (forall u :: u in d.users ==> d.users[u] == db.users[u])
    ensures
      var d := DeleteAllEndpoints(db);
      d.users == db.users && d.sessions == db.sessions && d.tokens == db.tokens && d.lines.Keys == db.lines.Keys
      && forall id :: id in d.lines ==> d.lines[id] == db.lines[id].(endpoint := None)
  {
  }

  // ---- entries compared by reconciliation ----

  /** What is compared of a row: its key, and the columns that must match. */
  datatype Entry<K, V> = Entry(key: K, value: V)

  datatype Owner = Owner(user: string, tenant: string)

  ghost predicate Functional<K, V>(entries: set<Entry<K, V>>) {
    forall a, b :: a in entries && b in entries && a.key == b.key ==> a == b
  }

  function Keys<K(==), V(==)>(entries: set<Entry<K, V>>): set<K> {
    set e | e in entries :: e.key
  }

  /** The rows to create have different keys, none of which is stored: otherwise the primary key refuses them. */
  ghost predicate Insertable<K, V>(created: set<Entry<K, V>>, stored: set<K>) {
    Functional(created) && forall e :: e in created ==> e.key !in stored
  }

  /** No wanted entry has the key of a different wanted or stored entry. */
  ghost predicate NoneMoves<K, V>(wanted: set<Entry<K, V>>, stored: set<Entry<K, V>>) {
    Functional(wanted) && forall a, b :: a in wanted && b in stored && a.key == b.key ==> a == b
  }

  /** Creating what is missing before deleting what has expired: it succeeds exactly when nothing moves, and then
      leaves exactly what is wanted. `wanted` is the part of the snapshot that can be stored. */
  lemma CreateThenDelete<K, V>(snapshot: set<Entry<K, V>>, wanted: set<Entry<K, V>>, stored: set<Entry<K, V>>)
    requires wanted <= snapshot && snapshot * stored <= wanted && Functional(stored)
    ensures Insertable(wanted - stored, Keys(stored)) <==> NoneMoves(wanted, stored)
    ensures NoneMoves(wanted, stored) ==>
              forall e :: e in wanted <==> e in stored + (wanted - stored) && e.key !in Keys(stored - snapshot)
  {
    if Insertable(wanted - stored, Keys(stored)) {
      forall a, b | a in wanted && b in wanted && a.key == b.key ensures a == b {
        if a in stored || b in stored {
          assert a.key in Keys(stored);
        }
      }
      forall a, b | a in wanted && b in stored && a.key == b.key ensures a == b {
        assert a.key in Keys(stored);
      }
    }
    if NoneMoves(wanted, stored) {
      forall e | e in wanted ensures e.key !in Keys(stored - snapshot) {
        if b :| b in stored - snapshot && b.key == e.key {
          assert false;
        }
      }
      forall e | e in stored && e.key !in Keys(stored - snapshot) ensures e in wanted {
        assert e in snapshot * stored;
      }
    }
  }

  /** What is compared of the rows of a table. */
  function Rows<K(==), R, V(==)>(table: map<K, R>, view: (K, R) -> V): set<Entry<K, V>> {
    set k | k in table :: Entry(k, view(k, table[k]))
  }

  ghost function Created<K, R, V>(table: map<K, R>, created: set<Entry<K, V>>, make: Entry<K, V> -> R): map<K, R>
    requires Functional(created)
  {
    table + map e | e in created :: e.key := make(e)
  }

  lemma RowsMeans<K, R, V>(table: map<K, R>, view: (K, R) -> V, e: Entry<K, V>)
    ensures e in Rows(table, view) <==> e.key in table && view(e.key, table[e.key]) == e.value
  {
    if e.key in table && view(e.key, table[e.key]) == e.value {
      assert e == Entry(e.key, view(e.key, table[e.key]));
    }
  }

  lemma RowCreated<K, R, V>(
    table: map<K, R>, view: (K, R) -> V, created: set<Entry<K, V>>, make: Entry<K, V> -> R, e: Entry<K, V>)
    requires Insertable(created, table.Keys)
    requires forall c :: c in created ==> view(c.key, make(c)) == c.value
    ensures e in Rows(Created(table, created, make), view) <==> e in Rows(table, view) || e in created
    ensures e.key in Created(table, created, make) && e.key !in table ==>
              Created(table, created, make)[e.key] ==
                  make(Entry(e.key, view(e.key, Created(table, created, make)[e.key])))
    ensures e.key in table ==>
        e.key in Created(table, created, make) && Created(table, created, make)[e.key] == table[e.key]
  {
    var after := Created(table, created, make);
    RowsMeans(after, view, e);
    RowsMeans(table, view, e);
    hide Rows;
    if e in created {
      assert after[e.key] == make(e);
    }
    if e.key in after && e.key !in table {
      var c :| c in created && c.key == e.key;
      assert after[c.key] == make(c);
      assert c == Entry(e.key, view(e.key, after[e.key]));
    }
  }

  lemma RowsWithout<K, R, V>(table: map<K, R>, view: (K, R) -> V, gone: set<K>, e: Entry<K, V>)
    ensures e in Rows(table - gone, view) <==> e in Rows(table, view) && e.key !in gone
  {
    RowsMeans(table - gone, view, e);
    RowsMeans(table, view, e);
    hide Rows;
  }

  /** A table reconciled by creating first: it holds exactly the wanted rows, old ones untouched and the others as
      they are made; unless something moves, and then the creation fails. */
  lemma TableReconciled<K, R, V>(
    table: map<K, R>, view: (K, R) -> V, make: Entry<K, V> -> R, snapshot: set<Entry<K, V>>, wanted: set<Entry<K, V>>)
    requires wanted <= snapshot && snapshot * Rows(table, view) <= wanted
    requires forall e :: e in wanted ==> view(e.key, make(e)) == e.value
    ensures Insertable(wanted - Rows(table, view), table.Keys) <==> NoneMoves(wanted, Rows(table, view))
    ensures NoneMoves(wanted, Rows(table, view)) ==>
      var after := Created(table, wanted - Rows(table, view), make) - Keys(Rows(table, view) - snapshot);
      && Rows(after, view) == wanted
      && forall k :: k in after ==> after[k] == if k in table then table[k] else make(Entry(k, view(k, after[k])))
  {
    var stored := Rows(table, view);
    KeysOfRows(table, view);
    CreateThenDelete(snapshot, wanted, stored);
    if NoneMoves(wanted, stored) {
      hide NoneMoves, Rows, Keys, Functional;
      var created, gone := wanted - stored, Keys(stored - snapshot);
      var all := Created(table, created, make);
      hide Created;
      forall e ensures e in Rows(all - gone, view) <==> e in wanted {
        RowCreated(table, view, created, make, e);
        RowsWithout(all, view, gone, e);
      }
      forall k | k in all - gone ensures all[k] == if k in table then table[k] else make(Entry(k, view(k, all[k]))) {
        RowCreated(table, view, created, make, Entry(k, view(k, all[k])));
      }
    }
  }

  /** When the creation is accepted; nothing is asked of the new rows. */
  lemma CreationAccepted<K, R, V>(
    table: map<K, R>, view: (K, R) -> V, snapshot: set<Entry<K, V>>, wanted: set<Entry<K, V>>)
    requires wanted <= snapshot && snapshot * Rows(table, view) <= wanted
    ensures Insertable(wanted - Rows(table, view), table.Keys) <==> NoneMoves(wanted, Rows(table, view))
  {
    KeysOfRows(table, view);
    CreateThenDelete(snapshot, wanted, Rows(table, view));
  }

  lemma KeysOfRows<K, R, V>(table: map<K, R>, view: (K, R) -> V)
    ensures Keys(Rows(table, view)) == table.Keys && Functional(Rows(table, view))
  {
    forall k | k in table ensures k in Keys(Rows(table, view)) {
      assert Entry(k, view(k, table[k])) in Rows(table, view);
    }
  }

  // ---- dictionaries ----

  datatype Item<K, V> = Item(key: K, value: V)

  /** A dictionary filled in order from a list: a later item for a key replaces an earlier one, and some elements of
      the list are skipped. */
  function Dict<T, K(==), V>(list: seq<T>, item: T -> Option<Item<K, V>>): map<K, V> {
    if list == [] then map[] else
    var before := Dict(list[..|list| - 1], item);
    match item(list[|list| - 1])
    case None => before
    case Some(Item(key, value)) => before[key := value]
  }

  ghost predicate LastItem<T, K, V>(list: seq<T>, item: T -> Option<Item<K, V>>, i: nat, k: K, v: V) {
    && i < |list| && item(list[i]) == Some(Item(k, v))
    && forall j :: i < j < |list| && item(list[j]).Some? ==> item(list[j]).value.key != k
  }

  lemma {:induction false} DictMeans<T, K, V>(list: seq<T>, item: T -> Option<Item<K, V>>, k: K)
    ensures k in Dict(list, item) ==> exists i: nat :: LastItem(list, item, i, k, Dict(list, item)[k])
    ensures k !in Dict(list, item) ==> forall x :: x in list && item(x).Some? ==> item(x).value.key != k
  {
    if list != [] {
      var n := |list| - 1;
      DictMeans(list[..n], item, k);
      assert list == list[..n] + [list[n]];
      if item(list[n]).Some? && item(list[n]).value.key == k {
        assert LastItem(list, item, n, k, Dict(list, item)[k]);
      } else if k in Dict(list, item) {
        var i: nat :| LastItem(list[..n], item, i, k, Dict(list[..n], item)[k]);
        assert LastItem(list, item, i, k, Dict(list, item)[k]);
      }
    }
  }

  ghost predicate UniqueItems<T, K, V>(list: seq<T>, item: T -> Option<Item<K, V>>) {
    forall i, j :: 0 <= i < j < |list| && item(list[i]).Some? && item(list[j]).Some? ==>
      item(list[i]).value.key != item(list[j]).value.key
  }

  /** Without repetitions no item is lost. */
  lemma DictHas<T, K, V>(list: seq<T>, item: T -> Option<Item<K, V>>, x: T)
    requires UniqueItems(list, item) && x in list && item(x).Some?
    ensures item(x).value.key in Dict(list, item) && Dict(list, item)[item(x).value.key] == item(x).value.value
  {
    var k := item(x).value.key;
    DictMeans(list, item, k);
    var j :| 0 <= j < |list| && list[j] == x;
    var i: nat :| LastItem(list, item, i, k, Dict(list, item)[k]);
  }
}
