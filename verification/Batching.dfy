/**
  Fetching a listing page by page. The remote server is arbitrary: what it answers may depend on how many calls were
  made before, and need not be consistent.
 */
module Pagination {
  datatype Page<+T> = Page(items: seq<T>, total: int)

  /** The answer to the n-th call, asked from an offset on. The page size is the server's business. */
  type Server<T> = (nat, nat) -> Page<T>

  /** What the calls after the first add: up to the total first reported, or to the first empty page. */
  function Rest<T>(server: Server<T>, call: nat, offset: nat, total: int): seq<T>
    decreases total - offset
  {
    if offset >= total then [] else
    var page := server(call, offset).items;
    if |page| == 0 then [] else page + Rest(server, call + 1, offset + |page|, total)
  }

  function Fetched<T>(server: Server<T>): seq<T> {
    var first := server(0, 0);
    first.items + Rest(server, 1, |first.items|, first.total)
  }

  /** `_paginate_proxy` ends against any server. */
  method PaginateProxy<T>(server: Server<T>) returns (result: Page<T>, ghost calls: nat)
    ensures result == Page(Fetched(server), server(0, 0).total)
    ensures calls == 1 || calls <= 1 + server(0, 0).total - |server(0, 0).items|
  {
    var first := server(0, 0);
    var total, items := first.total, first.items;
    var offset, call := |items|, 1;
    while offset < total
      invariant offset == |items| && call >= 1
      invariant offset >= |first.items| + call - 1
      invariant call == 1 || call <= 1 + total - |first.items|
      invariant items + Rest(server, call, offset, total) == Fetched(server)
      decreases total - offset
    {
      var page, before := server(call, offset), items;
      items := items + page.items;
      offset := offset + |page.items|;
      call := call + 1;
      if |page.items| == 0 {
        assert items == before;
        break;
      }
      ghost var rest := Rest(server, call, offset, total);
      assert items + rest == before + (page.items + rest);
    }
    return Page(items, total), call;
  }

  ghost predicate Stalls<T>(server: Server<T>, offset: nat) {
    exists call: nat :: |server(call, offset).items| == 0
  }

  /** The listing is as long as the total, unless the server stalled: it answered an empty page where the listing
      stopped. */
  lemma {:induction false} ReachesTotalUnlessStalled<T>(server: Server<T>)
    ensures
      |Fetched(server)| >= server(0, 0).total || Stalls(server, |Fetched(server)|)
  {
    var first := server(0, 0);
    RestReaches(server, 1, |first.items|, first.total);
  }

  lemma {:induction false} RestReaches<T>(server: Server<T>, call: nat, offset: nat, total: int)
    ensures offset + |Rest(server, call, offset, total)| >= total ||
            Stalls(server, offset + |Rest(server, call, offset, total)|)
    decreases total - offset
  {
    if offset < total {
      var page := server(call, offset).items;
      if |page| == 0 {
        assert |server(call, offset + 0).items| == 0;
      } else {
        RestReaches(server, call + 1, offset + |page|, total);
        var rest := Rest(server, call + 1, offset + |page|, total);
        assert offset + |Rest(server, call, offset, total)| == offset + |page| + |rest|;
      }
    }
  }

  /** A server of a fixed source: it reports the right total, and a page is a beginning of what follows the offset. */
  ghost predicate Serves<T(!new)>(server: Server<T>, source: seq<T>) {
    forall call: nat, offset: nat :: offset <= |source| ==>
      server(call, offset).total == |source| && server(call, offset).items <= source[offset..]
  }

  /** From a fixed source nothing is repeated, reordered or invented, and it is complete if the server does
      not stall on the way. */
  lemma {:induction false} ListsABeginning<T(!new)>(server: Server<T>, source: seq<T>)
    requires Serves(server, source)
    ensures Fetched(server) <= source
    ensures (forall call: nat, offset: nat :: offset < |source| ==> |server(call, offset).items| > 0) ==>
        Fetched(server) == source
  {
    var first := server(0, 0);
    assert source[0..] == source;
    RestIsABeginning(server, source, 1, |first.items|);
    assert source == first.items + source[|first.items|..];
    if forall call: nat, offset: nat :: offset < |source| ==> |server(call, offset).items| > 0 {
      ReachesTotalUnlessStalled(server);
    }
  }

  lemma {:induction false} RestIsABeginning<T(!new)>(server: Server<T>, source: seq<T>, call: nat, offset: nat)
    requires Serves(server, source) && offset <= |source|
    ensures Rest(server, call, offset, |source|) <= source[offset..]
    decreases |source| - offset
  {
    var page := server(call, offset).items;
    if offset < |source| && |page| > 0 {
      RestIsABeginning(server, source, call + 1, offset + |page|);
      assert source[offset..] == page + source[offset + |page|..];
    }
  }

  function PageServer<T>(source: seq<T>, limit: nat): Server<T> {
    (call: nat, offset: nat) =>
      Page(if offset > |source| then []
           else if offset + limit <= |source| then source[offset..offset + limit]
           else source[offset..],
           |source|)
  }

  /** With pages of a fixed size the whole source comes back, in order, exactly when the size is positive or there is
      nothing to list. */
  lemma CompleteExactlyWhen<T(!new)>(source: seq<T>, limit: nat)
    ensures Fetched(PageServer(source, limit)) == source <==> limit > 0 || source == []
  {
    ListsABeginning(PageServer(source, limit), source);
  }

  /** A source that loses its first item after the first call: an item that was in it all the time, the one the second
      page should begin with, is skipped, and only that one. */
  lemma ShrinkingSourceLosesAnItem<T(!new)>(source: seq<T>, limit: nat)
    requires 0 < limit < |source|
    ensures
      var server: Server<T> := (call: nat, offset: nat) =>
        PageServer(if call == 0 then source else source[1..], limit)(call, offset);
      Fetched(server) == source[..limit] + source[limit + 1..]
  {
    var server: Server<T> := (call: nat, offset: nat) =>
      PageServer(if call == 0 then source else source[1..], limit)(call, offset);
    RestOfPages(server, source[1..], limit, 1, limit, |source|);
    assert source[1..][limit..] == source[limit + 1..];
    assert server(0, 0) == Page(source[..limit], |source|);
    assert Fetched(server) == source[..limit] + Rest(server, 1, limit, |source|);
  }

  /** From a source that is fixed from some call on, the rest is what follows the offset. */
  lemma {:induction false} RestOfPages<T(!new)>(
    server: Server<T>, source: seq<T>, limit: nat, call: nat, offset: nat, total: int)
    requires limit > 0 && offset <= |source| <= total
    requires forall c: nat, o: nat :: c >= call ==> server(c, o) == PageServer(source, limit)(c, o)
    ensures Rest(server, call, offset, total) == source[offset..]
    decreases total - offset
  {
    if offset < total {
      var page := server(call, offset).items;
      if |page| > 0 {
        RestOfPages(server, source, limit, call + 1, offset + |page|, total);
        assert source[offset..] == page + source[offset + |page|..];
      }
    }
  }

  /** A source that only grows at its end. */
  ghost predicate Grows<T(!new)>(sources: nat -> seq<T>) {
    forall call: nat :: sources(call) <= sources(call + 1)
  }

  /** Each call is answered from the source as it is then; a page is empty only where the source ends. */
  ghost predicate ServesGrowing<T(!new)>(server: Server<T>, sources: nat -> seq<T>) {
    && server(0, 0).total == |sources(0)|
    && forall call: nat, offset: nat :: offset <= |sources(call)| ==>
         && server(call, offset).items <= sources(call)[offset..]
         && (offset < |sources(call)| ==> |server(call, offset).items| > 0)
  }

  /** From a source that grows at its end everything is listed, in order, that was in it at the first call. */
  lemma {:induction false} GrowingSourceLosesNothing<T(!new)>(server: Server<T>, sources: nat -> seq<T>)
    requires Grows(sources) && ServesGrowing(server, sources)
    ensures sources(0) <= Fetched(server)
  {
    var first := server(0, 0).items;
    assert sources(0)[0..] == sources(0) && sources(0) <= sources(1);
    GrowingRest(server, sources, 1, first);
  }

  lemma {:induction false} GrowingRest<T(!new)>(server: Server<T>, sources: nat -> seq<T>, call: nat, listed: seq<T>)
    requires Grows(sources) && ServesGrowing(server, sources)
    requires listed <= sources(call) && sources(0) <= sources(call)
    ensures sources(0) <= listed + Rest(server, call, |listed|, |sources(0)|)
    decreases |sources(0)| - |listed|
  {
    if |listed| < |sources(0)| {
      var page := server(call, |listed|).items;
      var source := sources(call);
      assert source == listed + source[|listed|..];
      assert listed + page <= source;
      assert source <= sources(call + 1);
      GrowingRest(server, sources, call + 1, listed + page);
      var rest := Rest(server, call + 1, |listed + page|, |sources(0)|);
      assert listed + (page + rest) == listed + page + rest;
    }
  }
}

/** The bulk statements: each works through its rows a chunk at a time, inside one transaction. */
module Bulk {
  const BULK_BATCH_SIZE := 1000

  function Chunks<T>(items: seq<T>, size: nat): seq<seq<T>>
    requires size > 0
  {
    if |items| == 0 then []
    else if |items| <= size then [items]
    else [items[..size]] + Chunks(items[size..], size)
  }

  function Flatten<T>(chunks: seq<seq<T>>): seq<T> {
    if chunks == [] then [] else chunks[0] + Flatten(chunks[1..])
  }

  method Chunked<T>(items: seq<T>, size: nat) returns (chunks: seq<seq<T>>)
    requires size > 0
    ensures chunks == Chunks(items, size)
  {
    chunks := [];
    var start := 0;
    ghost var left := items;
    assert chunks + Chunks(left, size) == Chunks(items, size);
    while start < |items|
      invariant 0 <= start && left == items[if start < |items| then start else |items|..]
      invariant chunks + Chunks(left, size) == Chunks(items, size)
    {
      var end := if start + size < |items| then start + size else |items|;
      assert left[..end - start] == items[start..end] && left[end - start..] == items[end..];
      FirstChunk(left, size, end - start);
      hide Chunks;
      assert chunks + Chunks(left, size) == (chunks + [items[start..end]]) + Chunks(items[end..], size);
      chunks := chunks + [items[start..end]];
      left := items[end..];
      start := start + size;
    }
  }

  lemma FirstChunk<T>(items: seq<T>, size: nat, end: nat)
    requires size > 0 && |items| > 0 && end == if size < |items| then size else |items|
    ensures Chunks(items, size) == [items[..end]] + Chunks(items[end..], size)
  {
    if |items| <= size {
      assert items[..end] == items && items[end..] == [];
    }
  }

  /** The chunks are a partition in order: none is empty, all but the last have the full size. */
  lemma {:induction false} ChunksPartition<T>(items: seq<T>, size: nat)
    requires size > 0
    ensures Flatten(Chunks(items, size)) == items
    ensures forall i :: 0 <= i < |Chunks(items, size)| ==>
              0 < |Chunks(items, size)[i]| <= size
                  && (i < |Chunks(items, size)| - 1 ==> |Chunks(items, size)[i]| == size)
  {
    if |items| > size {
      var first, rest := items[..size], Chunks(items[size..], size);
      ChunksPartition(items[size..], size);
      assert Chunks(items, size)[1..] == rest;
      assert items == first + items[size..];
    } else if |items| > 0 {
      assert Chunks(items, size)[1..] == [];
    }
  }

  // ---- the statements on one chunk ----

  /** The columns of a row other than its key. */
  type Row = map<string, string>

  datatype Keyed<K> = Keyed(key: K, values: Row)

  ghost predicate UniqueKeys<K>(rows: seq<Keyed<K>>) {
    forall i, j :: 0 <= i < j < |rows| ==> rows[i].key != rows[j].key
  }

  predicate HasKey<K(==)>(rows: seq<Keyed<K>>, key: K) {
    exists i :: 0 <= i < |rows| && rows[i].key == key
  }

  /** What one UPDATE joined with a list of values may do. When several values have the key of a row the database
      picks one of them, and does not say which. */
  ghost predicate RowUpdatedBy<K>(before: Row, rows: seq<Keyed<K>>, k: K, after: Row) {
    if HasKey(rows, k) then exists i :: 0 <= i < |rows| && rows[i].key == k && after == before + rows[i].values
    else after == before
  }

  ghost predicate UpdatedBy<K>(before: map<K, Row>, rows: seq<Keyed<K>>, after: map<K, Row>) {
    && after.Keys == before.Keys
    && forall k :: k in before ==> RowUpdatedBy(before[k], rows, k, after[k])
  }

  /** The update that unique keys determine. */
  function Updated<K>(before: map<K, Row>, rows: seq<Keyed<K>>): map<K, Row> {
    if rows == [] then before else
    var last, t := rows[|rows| - 1], Updated(before, rows[..|rows| - 1]);
    if last.key in t then t[last.key := t[last.key] + last.values] else t
  }

  function Inserted<K>(before: map<K, Row>, rows: seq<Keyed<K>>): map<K, Row> {
    if rows == [] then before
    else Inserted(before, rows[..|rows| - 1])[rows[|rows| - 1].key := rows[|rows| - 1].values]
  }

  /** No row of an insert has a key that is stored, or that another row of it has. */
  ghost predicate Insertable<K>(before: map<K, Row>, rows: seq<Keyed<K>>) {
    UniqueKeys(rows) && forall i :: 0 <= i < |rows| ==> rows[i].key !in before
  }

  ghost predicate SameColumns<K>(rows: seq<Keyed<K>>, columns: set<string>) {
    forall i :: 0 <= i < |rows| ==> rows[i].values.Keys == columns
  }

  class Table<K(==)> {
    var rows: map<K, Row>

    method Update(chunk: seq<Keyed<K>>)
      modifies this
      ensures UpdatedBy(old(rows), chunk, rows)
    {
      var todo := rows.Keys;
      while todo != {}
        invariant rows.Keys == old(rows.Keys) && todo <= rows.Keys
        invariant forall k :: k in todo ==> rows[k] == old(rows[k])
        invariant forall k :: k in rows && k !in todo ==> RowUpdatedBy(old(rows)[k], chunk, k, rows[k])
      {
        var key :| key in todo;
        todo := todo - {key};
        if HasKey(chunk, key) {
          var i :| 0 <= i < |chunk| && chunk[i].key == key;
          rows := rows[key := rows[key] + chunk[i].values];
        }
      }
    }

    method Delete(chunk: seq<K>)
      modifies this
      ensures rows == old(rows) - set k | k in chunk
    {
      rows := rows - set k | k in chunk;
    }

    /** The primary key refuses a second row with a key. */
    method Insert(chunk: seq<Keyed<K>>) returns (ok: bool)
      modifies this
      ensures ok <==> Insertable(old(rows), chunk)
      ensures ok ==> rows == Inserted(old(rows), chunk)
    {
      ghost var before := rows;
      for i := 0 to |chunk|
        invariant Insertable(before, chunk[..i]) && rows == Inserted(before, chunk[..i])
      {
        InsertedKeys(before, chunk[..i]);
        assert chunk[..i + 1] == chunk[..i] + [chunk[i]];
        if chunk[i].key in rows {
          return false;
        }
        rows := rows[chunk[i].key := chunk[i].values];
        assert chunk[..i + 1][..i] == chunk[..i];
      }
      assert chunk[..|chunk|] == chunk;
      ok := true;
    }
  }

  lemma {:induction false} InsertedKeys<K>(before: map<K, Row>, rows: seq<Keyed<K>>)
    ensures forall k :: k in Inserted(before, rows) <==> k in before || HasKey(rows, k)
  {
    if rows != [] {
      var n := |rows| - 1;
      InsertedKeys(before, rows[..n]);
      assert forall k :: HasKey(rows, k) <==> HasKey(rows[..n], k) || k == rows[n].key by {
        assert forall i :: 0 <= i < n ==> rows[..n][i] == rows[i];
      }
    }
  }

  /** After an accepted insert each of its rows is stored with its values, and every row stored before is as it was. */
  lemma {:induction false} InsertedMeans<K>(before: map<K, Row>, rows: seq<Keyed<K>>)
    requires Insertable(before, rows)
    ensures forall i :: 0 <= i < |rows| ==>
              rows[i].key in Inserted(before, rows) && Inserted(before, rows)[rows[i].key] == rows[i].values
    ensures forall k :: k in before ==> k in Inserted(before, rows) && Inserted(before, rows)[k] == before[k]
    ensures forall k :: k in Inserted(before, rows) ==> k in before || exists i :: 0 <= i < |rows| && rows[i].key == k
  {
    InsertedKeys(before, rows);
    if rows != [] {
      var n := |rows| - 1;
      InsertedMeans(before, rows[..n]);
      forall i | 0 <= i < n
        ensures rows[i].key in Inserted(before, rows) && Inserted(before, rows)[rows[i].key] == rows[i].values
      {
        assert rows[..n][i] == rows[i];
      }
    }
  }

  // ---- chunked equals one-shot ----

  lemma UpdateInTwo<K>(
    t0: map<K, Row>, a: seq<Keyed<K>>, t1: map<K, Row>, b: seq<Keyed<K>>, t2: map<K, Row>, columns: set<string>)
    requires UpdatedBy(t0, a, t1) && UpdatedBy(t1, b, t2) && SameColumns(a + b, columns)
    ensures UpdatedBy(t0, a + b, t2)
  {
    hide RowUpdatedBy;
    forall k | k in t0 ensures RowUpdatedBy(t0[k], a + b, k, t2[k]) {
      RowUpdatedInTwo(t0[k], a, t1[k], b, t2[k], k, columns);
    }
  }

  lemma RowUpdatedInTwo<K>(r0: Row, a: seq<Keyed<K>>, r1: Row, b: seq<Keyed<K>>, r2: Row, k: K, columns: set<string>)
    requires RowUpdatedBy(r0, a, k, r1) && RowUpdatedBy(r1, b, k, r2) && SameColumns(a + b, columns)
    ensures RowUpdatedBy(r0, a + b, k, r2)
  {
    EitherHasKey(a, b, k);
    if HasKey(b, k) {
      var j :| 0 <= j < |b| && b[j].key == k && r2 == r1 + b[j].values;
      assert (a + b)[|a| + j] == b[j];
      if HasKey(a, k) {
        var i :| 0 <= i < |a| && a[i].key == k && r1 == r0 + a[i].values;
        assert (a + b)[i] == a[i];
        SecondWins(r0, a[i].values, b[j].values);
      }
    } else if HasKey(a, k) {
      var i :| 0 <= i < |a| && a[i].key == k && r1 == r0 + a[i].values;
      assert (a + b)[i] == a[i];
    }
  }

  lemma EitherHasKey<K>(a: seq<Keyed<K>>, b: seq<Keyed<K>>, k: K)
    ensures HasKey(a + b, k) <==> HasKey(a, k) || HasKey(b, k)
  {
    if i :| 0 <= i < |a| && a[i].key == k {
      assert (a + b)[i] == a[i];
    }
    if j :| 0 <= j < |b| && b[j].key == k {
      assert (a + b)[|a| + j] == b[j];
    }
  }

  lemma SecondWins(r: Row, first: Row, second: Row)
    requires first.Keys == second.Keys
    ensures r + first + second == r + second
  {
  }

  /** With unique keys there is only one way to update. */
  lemma {:induction false} UniqueKeysDecide<K>(before: map<K, Row>, rows: seq<Keyed<K>>, after: map<K, Row>)
    requires UniqueKeys(rows)
    ensures UpdatedBy(before, rows, after) <==> after == Updated(before, rows)
  {
    UpdatedOnce(before, rows);
    if UpdatedBy(before, rows, after) {
      var one := Updated(before, rows);
      assert after.Keys == one.Keys;
      forall k | k in before ensures after[k] == one[k] {
        if HasKey(rows, k) {
          var i :| 0 <= i < |rows| && rows[i].key == k && after[k] == before[k] + rows[i].values;
          var j :| 0 <= j < |rows| && rows[j].key == k && one[k] == before[k] + rows[j].values;
          assert i == j;
        }
      }
    }
  }

  lemma {:induction false} UpdatedOnce<K>(before: map<K, Row>, rows: seq<Keyed<K>>)
    requires UniqueKeys(rows)
    ensures UpdatedBy(before, rows, Updated(before, rows))
  {
    if rows != [] {
      var n := |rows| - 1;
      var t, r := Updated(before, rows[..n]), Updated(before, rows);
      UpdatedOnce(before, rows[..n]);
      forall k | k in before ensures RowUpdatedBy(before[k], rows, k, r[k]) {
        assert forall i :: 0 <= i < n ==> rows[..n][i] == rows[i];
        if k == rows[n].key {
          assert !HasKey(rows[..n], k);
        } else if HasKey(rows[..n], k) {
          var i :| 0 <= i < n && rows[..n][i].key == k && t[k] == before[k] + rows[..n][i].values;
        }
      }
    }
  }

  lemma SomeColumns<K>(a: seq<Keyed<K>>, b: seq<Keyed<K>>, rows: seq<Keyed<K>>, columns: set<string>)
    requires SameColumns(rows, columns) && rows == a + b
    ensures SameColumns(a, columns)
  {
    assert forall i :: 0 <= i < |a| ==> rows[i] == a[i];
  }

  /** `bulk_update`, in chunks, does only what one statement over all rows may do; with unique keys that is one
      thing. Each row sets the same columns. */
  method BulkUpdate<K(==)>(table: Table<K>, columns: set<string>, rows: seq<Keyed<K>>)
    requires SameColumns(rows, columns)
    modifies table
    ensures UpdatedBy(old(table.rows), rows, table.rows)
    ensures UniqueKeys(rows) ==> table.rows == Updated(old(table.rows), rows)
  {
    var chunks := Chunked(rows, BULK_BATCH_SIZE);
    ChunksPartition(rows, BULK_BATCH_SIZE);
    ghost var before := table.rows;
    ghost var done: seq<Keyed<K>> := [];
    for i := 0 to |chunks|
      invariant done + Flatten(chunks[i..]) == rows
      invariant UpdatedBy(before, done, table.rows)
    {
      hide UpdatedBy, Chunks;
      ghost var between := table.rows;
      table.Update(chunks[i]);
      assert chunks[i..][1..] == chunks[i + 1..];
      SomeColumns(done + chunks[i], Flatten(chunks[i + 1..]), rows, columns);
      UpdateInTwo(before, done, between, chunks[i], table.rows, columns);
      done := done + chunks[i];
    }
    assert done == rows;
    if UniqueKeys(rows) {
      UniqueKeysDecide(before, rows, table.rows);
    }
  }

  lemma FlattenFirst<T>(chunks: seq<seq<T>>, i: nat)
    requires i < |chunks|
    ensures Flatten(chunks[i..]) == chunks[i] + Flatten(chunks[i + 1..])
  {
    assert chunks[i..][1..] == chunks[i + 1..];
  }

  lemma ListedInEither<K>(a: seq<K>, b: seq<K>)
    ensures (set k | k in a + b) == (set k | k in a) + set k | k in b
  {
  }

  /** `bulk_delete` removes exactly the listed keys. */
  method BulkDelete<K(==)>(table: Table<K>, items: seq<K>)
    modifies table
    ensures table.rows == old(table.rows) - set k | k in items
  {
    var chunks := Chunked(items, BULK_BATCH_SIZE);
    ChunksPartition(items, BULK_BATCH_SIZE);
    ghost var done: seq<K> := [];
    for i := 0 to |chunks|
      invariant done + Flatten(chunks[i..]) == items
      invariant table.rows == old(table.rows) - set k | k in done
    {
      hide Chunks, Flatten;
      table.Delete(chunks[i]);
      FlattenFirst(chunks, i);
      ListedInEither(done, chunks[i]);
      assert items == (done + chunks[i]) + Flatten(chunks[i + 1..]);
      done := done + chunks[i];
    }
    assert done == items;
  }

  lemma {:induction false} InsertInTwo<K>(before: map<K, Row>, a: seq<Keyed<K>>, b: seq<Keyed<K>>)
    requires Insertable(before, a)
    ensures Insertable(before, a + b) <==> Insertable(Inserted(before, a), b)
    ensures Inserted(before, a + b) == Inserted(Inserted(before, a), b)
  {
    InsertedKeys(before, a);
    var both := a + b;
    assert forall i :: 0 <= i < |a| ==> both[i] == a[i];
    assert forall i :: 0 <= i < |b| ==> both[|a| + i] == b[i];
    if Insertable(before, both) {
      forall i | 0 <= i < |b| ensures b[i].key !in Inserted(before, a) {
        assert forall j :: 0 <= j < |a| ==> both[j].key != both[|a| + i].key;
      }
      assert UniqueKeys(b) by {
        forall i, j | 0 <= i < j < |b| ensures b[i].key != b[j].key {
          assert both[|a| + i].key != both[|a| + j].key;
        }
      }
    }
    if Insertable(Inserted(before, a), b) {
      forall i, j | 0 <= i < j < |both| ensures both[i].key != both[j].key {
        if i < |a| <= j {
          assert HasKey(a, both[i].key) && b[j - |a|] == both[j];
        }
        if |a| <= i {
          assert b[i - |a|] == both[i] && b[j - |a|] == both[j];
        }
      }
      forall i | 0 <= i < |both| ensures both[i].key !in before {
        assert both[i] == if i < |a| then a[i] else b[i - |a|];
      }
    }
    InsertedSplits(before, a, b);
  }

  lemma {:induction false} InsertedSplits<K>(before: map<K, Row>, a: seq<Keyed<K>>, b: seq<Keyed<K>>)
    ensures Inserted(before, a + b) == Inserted(Inserted(before, a), b)
  {
    if b == [] {
      assert a + b == a;
    } else {
      InsertedSplits(before, a, b[..|b| - 1]);
      assert (a + b)[..|a + b| - 1] == a + b[..|b| - 1];
    }
  }

  /** A `session_scope` around `bulk_insert`: every row is stored, or an exception leaves the table as it was. */
  method InsertInSession<K(==)>(table: Table<K>, rows: seq<Keyed<K>>) returns (ok: bool)
    modifies table
    ensures ok <==> Insertable(old(table.rows), rows)
    ensures table.rows == if ok then Inserted(old(table.rows), rows) else old(table.rows)
  {
    var before := table.rows;
    ok := BulkInsert(table, rows);
    if !ok {
      table.rows := before;
    }
  }

  method BulkInsert<K(==)>(table: Table<K>, rows: seq<Keyed<K>>) returns (ok: bool)
    modifies table
    ensures ok <==> Insertable(old(table.rows), rows)
    ensures ok ==> table.rows == Inserted(old(table.rows), rows)
  {
    var chunks := Chunked(rows, BULK_BATCH_SIZE);
    ChunksPartition(rows, BULK_BATCH_SIZE);
    ghost var before := table.rows;
    ghost var done: seq<Keyed<K>> := [];
    for i := 0 to |chunks|
      invariant done + Flatten(chunks[i..]) == rows
      invariant Insertable(before, done) && table.rows == Inserted(before, done)
    {
      assert chunks[i..][1..] == chunks[i + 1..];
      ghost var rest := Flatten(chunks[i + 1..]);
      assert rows == (done + chunks[i]) + rest;
      InsertInTwo(before, done, chunks[i]);
      ok := table.Insert(chunks[i]);
      if !ok {
        if Insertable(before, rows) {
          SomeInsertable(before, done + chunks[i], rest);
        }
        return;
      }
      done := done + chunks[i];
    }
    assert done == rows;
    ok := true;
  }

  lemma SomeInsertable<K>(before: map<K, Row>, a: seq<Keyed<K>>, b: seq<Keyed<K>>)
    requires Insertable(before, a + b)
    ensures Insertable(before, a)
  {
    assert forall i :: 0 <= i < |a| ==> (a + b)[i] == a[i];
  }
}
