/**
 The reconciler that deletes notification rows whose owner is gone. A collection
 is its rows in `_id` order, as its unique index enumerates them.
 */
module Orphans {
  import opened Wrappers

  const RECONCILE_BATCH_SIZE: nat := 500

  /** A row and its owner; None when the field is not a string. */
  datatype Row = Row(id: int, owner: Option<string>)

  ghost predicate ById(rows: seq<Row>) {
    forall i, j :: 0 <= i < j < |rows| ==> rows[i].id < rows[j].id
  }

  predicate OwnedBy(row: Row, owners: set<string>) {
    row.owner.Some? && row.owner.value in owners
  }

  /** The rows whose owner is not among the given ones, in order. */
  function Without(rows: seq<Row>, owners: set<string>): seq<Row> {
    if rows == [] then []
    else if OwnedBy(rows[0], owners) then Without(rows[1..], owners)
    else [rows[0]] + Without(rows[1..], owners)
  }

  /** The rows to keep: those whose owner exists, and those with no string owner. */
  function Kept(rows: seq<Row>, customers: set<string>): seq<Row> {
    if rows == [] then []
    else if rows[0].owner.None? || rows[0].owner.value in customers then [rows[0]] + Kept(rows[1..], customers)
    else Kept(rows[1..], customers)
  }

  /** The rows after a cursor; None is the start. */
  function Beyond(rows: seq<Row>, cursor: Option<int>): seq<Row> {
    if rows == [] then []
    else if cursor.None? || rows[0].id > cursor.value then [rows[0]] + Beyond(rows[1..], cursor)
    else Beyond(rows[1..], cursor)
  }

  lemma {:induction false} BeyondHolds(rows: seq<Row>, cursor: Option<int>, row: Row)
    ensures row in Beyond(rows, cursor) <==> row in rows && (cursor.Some? ==> row.id > cursor.value)
  {
    if rows == [] {
    } else {
      BeyondHolds(rows[1..], cursor, row);
      assert row in rows <==> row == rows[0] || row in rows[1..];
    }
  }

  lemma {:induction false} BeyondKeepsOrder(rows: seq<Row>, cursor: Option<int>)
    requires ById(rows)
    ensures ById(Beyond(rows, cursor))
  {
    if rows == [] {
    } else {
      var rest := Beyond(rows[1..], cursor);
      BeyondKeepsOrder(rows[1..], cursor);
      forall i | 0 <= i < |rest| ensures rows[0].id < rest[i].id {
        BeyondHolds(rows[1..], cursor, rest[i]);
      }
    }
  }

  /** find(filter).sort({ _id: 1 }).limit(RECONCILE_BATCH_SIZE) */
  function Page(rows: seq<Row>, cursor: Option<int>): seq<Row> {
    var beyond := Beyond(rows, cursor);
    if |beyond| <= RECONCILE_BATCH_SIZE then beyond else beyond[..RECONCILE_BATCH_SIZE]
  }

  lemma {:induction false} WithoutKeepsOrder(rows: seq<Row>, owners: set<string>)
    requires ById(rows)
    ensures ById(Without(rows, owners)) && |Without(rows, owners)| <= |rows|
    ensures forall row :: row in Without(rows, owners) <==> row in rows && !OwnedBy(row, owners)
  {
    if rows == [] {
    } else {
      WithoutKeepsOrder(rows[1..], owners);
      var rest := Without(rows[1..], owners);
      forall i | 0 <= i < |rest| ensures rows[0].id < rest[i].id {
        assert rest[i] in rest;
      }
    }
  }

  lemma {:induction false} WithoutTwice(rows: seq<Row>, a: set<string>, b: set<string>)
    ensures Without(Without(rows, a), b) == Without(rows, a + b)
  {
    if rows == [] {
    } else {
      WithoutTwice(rows[1..], a, b);
    }
  }

  /** Fewer rows lie beyond a cursor in a smaller collection, and fewer still beyond
      a later one. */
  lemma {:induction false} BeyondWithout(rows: seq<Row>, owners: set<string>, cursor: Option<int>)
    ensures |Beyond(Without(rows, owners), cursor)| <= |Beyond(rows, cursor)|
  {
    if rows == [] {
    } else {
      BeyondWithout(rows[1..], owners, cursor);
    }
  }

  lemma {:induction false} BeyondLater(rows: seq<Row>, cursor: Option<int>, later: int)
    requires cursor.Some? ==> cursor.value <= later
    ensures |Beyond(rows, Some(later))| <= |Beyond(rows, cursor)|
    ensures (exists row :: row in Beyond(rows, cursor) && row.id <= later) ==>
      |Beyond(rows, Some(later))| < |Beyond(rows, cursor)|
  {
    if rows == [] {
    } else {
      BeyondLater(rows[1..], cursor, later);
      if row :| row in Beyond(rows, cursor) && row.id <= later {
        assert row == rows[0] || row in Beyond(rows[1..], cursor);
      }
    }
  }

  /** What a reconciliation leaves: the rows with an existing or no string owner, in order. */
  lemma {:induction false} KeptIsExact(rows: seq<Row>, customers: set<string>)
    requires ById(rows)
    ensures ById(Kept(rows, customers))
    ensures forall row :: row in Kept(rows, customers) <==>
      row in rows && (row.owner.None? || row.owner.value in customers)
  {
    if rows == [] {
    } else {
      KeptIsExact(rows[1..], customers);
      var rest := Kept(rows[1..], customers);
      forall i | 0 <= i < |rest| ensures rows[0].id < rest[i].id {
        assert rest[i] in rest;
      }
    }
  }

  /** A second reconciliation finds nothing to delete. */
  lemma {:induction false} KeptIsKept(rows: seq<Row>, customers: set<string>)
    ensures Kept(Kept(rows, customers), customers) == Kept(rows, customers)
  {
    if rows == [] {
    } else {
      KeptIsKept(rows[1..], customers);
    }
  }

  /** Deleting every orphan owner and nobody else leaves exactly the rows to keep. */
  lemma {:induction false} WithoutOrphansIsKept(rows: seq<Row>, orphans: set<string>, customers: set<string>)
    requires orphans !! customers
    requires forall row :: row in rows && row.owner.Some? ==> row.owner.value in customers + orphans
    ensures Without(rows, orphans) == Kept(rows, customers)
  {
    if rows == [] {
    } else {
      assert rows[0] in rows;
      WithoutOrphansIsKept(rows[1..], orphans, customers);
    }
  }

  ghost predicate SeenOn(o: string, page: seq<Row>) {
    exists i :: 0 <= i < |page| && page[i].owner == Some(o)
  }

  lemma SeenOnAppend(page: seq<Row>, i: nat)
    requires i < |page|
    ensures forall o :: SeenOn(o, page[..i + 1]) <==> SeenOn(o, page[..i]) || page[i].owner == Some(o)
  {
    forall o ensures SeenOn(o, page[..i + 1]) <==> SeenOn(o, page[..i]) || page[i].owner == Some(o) {
      if SeenOn(o, page[..i]) {
        var j :| 0 <= j < i && page[..i][j].owner == Some(o);
        assert page[..i + 1][j].owner == Some(o);
      }
      if page[i].owner == Some(o) {
        assert page[..i + 1][i].owner == Some(o);
      }
      if SeenOn(o, page[..i + 1]) {
        var j :| 0 <= j <= i && page[..i + 1][j].owner == Some(o);
        assert j < i ==> page[..i][j].owner == Some(o);
      }
    }
  }

  /** No orphan is left up to the cursor. */
  ghost predicate Swept(rows: seq<Row>, cursor: Option<int>, customers: set<string>) {
    forall row :: row in rows && cursor.Some? && row.id <= cursor.value && row.owner.Some? ==>
      row.owner.value in customers
  }

  /** The owners to delete: seen on the page, and without a customer. */
  ghost predicate OrphansOf(page: seq<Row>, gone: set<string>, customers: set<string>) {
    forall o :: o in gone <==> o !in customers && SeenOn(o, page)
  }

  lemma AreOrphans(
    page: seq<Row>, userIds: seq<string>, orphans: seq<string>, gone: set<string>, customers: set<string>)
    requires forall o :: o in userIds <==> SeenOn(o, page)
    requires forall o :: o in orphans <==> o in userIds && o !in customers
    requires gone == set o | o in orphans
    ensures OrphansOf(page, gone, customers) && gone !! customers
  {
  }

  class Collection {
    var rows: seq<Row>

    constructor (rows: seq<Row>)
      ensures this.rows == rows
    {
      this.rows := rows;
    }

    /** deleteMany({ owner: { $in: owners } }) */
    method DeleteMany(owners: seq<string>) returns (deletedCount: int)
      modifies this
      ensures rows == Without(old(rows), set o | o in owners)
      ensures deletedCount == |old(rows)| - |rows|
    {
      var before := |rows|;
      rows := Without(rows, set o | o in owners);
      deletedCount := before - |rows|;
    }
  }

  class Reconciler {
    const customers: set<string>

    constructor (customers: set<string>)
      ensures this.customers == customers
    {
      this.customers := customers;
    }

    /** The distinct string owners of a page, in order of first appearance. */
    method UserIds(page: seq<Row>) returns (userIds: seq<string>)
      ensures forall o :: o in userIds <==> SeenOn(o, page)
      ensures forall i, j :: 0 <= i < j < |userIds| ==> userIds[i] != userIds[j]
    {
      userIds := [];
      for i := 0 to |page|
        invariant forall o :: o in userIds <==> SeenOn(o, page[..i])
        invariant forall j, k :: 0 <= j < k < |userIds| ==> userIds[j] != userIds[k]
      {
        SeenOnAppend(page, i);
        if page[i].owner.Some? && page[i].owner.value !in userIds {
          userIds := userIds + [page[i].owner.value];
        }
      }
      assert page[..|page|] == page;
    }

    method FindOrphanUserIds(userIds: seq<string>) returns (orphans: seq<string>)
      ensures forall o :: o in orphans <==> o in userIds && o !in customers
    {
      orphans := [];
      for i := 0 to |userIds|
        invariant forall o :: o in orphans <==> o in userIds[..i] && o !in customers
      {
        assert userIds[..i + 1] == userIds[..i] + [userIds[i]];
        if userIds[i] !in customers {
          orphans := orphans + [userIds[i]];
        }
      }
      assert userIds[..|userIds|] == userIds;
    }

    /** One turn of the loop: the orphan owners seen on a page lose all their rows,
        behind the page, on it and ahead of it. */
    method SweepPage(collection: Collection, page: seq<Row>, ghost cursor: Option<int>)
      returns (deletedCount: int, ghost gone: set<string>)
      requires page == Page(collection.rows, cursor) != []
      requires ById(collection.rows) && Swept(collection.rows, cursor, customers)
      modifies collection
      ensures collection.rows == Without(old(collection.rows), gone) && gone !! customers
      ensures deletedCount == |old(collection.rows)| - |collection.rows|
      ensures ById(collection.rows) && Swept(collection.rows, Some(page[|page| - 1].id), customers)
      ensures |Beyond(collection.rows, Some(page[|page| - 1].id))| < |Beyond(old(collection.rows), cursor)|
    {
      ghost var before := collection.rows;
      deletedCount := 0;
      var userIds := UserIds(page);
      var orphanUserIds := FindOrphanUserIds(userIds);
      gone := set o | o in orphanUserIds;
      AreOrphans(page, userIds, orphanUserIds, gone, customers);
      if |orphanUserIds| > 0 {
        deletedCount := collection.DeleteMany(orphanUserIds);
      } else {
        assert gone == {};
        WithoutNobody(before);
      }
      WithoutKeepsOrder(before, gone);
      PageIsSwept(before, collection.rows, cursor, gone, customers);
    }

    /** One collection, nobody else writing: exactly the orphans go, and are counted. */
    method Reconcile(collection: Collection) returns (deletedTotal: int)
      requires ById(collection.rows)
      modifies collection
      ensures collection.rows == Kept(old(collection.rows), customers)
      ensures deletedTotal == |old(collection.rows)| - |collection.rows|
    {
      ghost var start := collection.rows;
      ghost var removed: set<string> := {};
      var lastId: Option<int> := None;
      deletedTotal := 0;
      WithoutNobody(start);
      while true
        invariant collection.rows == Without(start, removed) && removed !! customers
        invariant ById(collection.rows) && Swept(collection.rows, lastId, customers)
        invariant deletedTotal == |start| - |collection.rows|
        decreases |Beyond(collection.rows, lastId)|
      {
        var page := Page(collection.rows, lastId);
        if page == [] {
          break;
        }
        var deletedCount, gone := SweepPage(collection, page, lastId);
        deletedTotal := deletedTotal + deletedCount;
        WithoutTwice(start, removed, gone);
        removed := removed + gone;
        lastId := Some(page[|page| - 1].id);
      }
      NothingAheadLeavesKept(start, collection.rows, lastId, removed, customers);
    }

    /** Both collections; the total is what left them. */
    method ReconcileOrphans(notifications: Collection, settings: Collection) returns (totalDeleted: int)
      requires notifications != settings && ById(notifications.rows) && ById(settings.rows)
      modifies notifications, settings
      ensures notifications.rows == Kept(old(notifications.rows), customers)
      ensures settings.rows == Kept(old(settings.rows), customers)
      ensures totalDeleted == |old(notifications.rows)| + |old(settings.rows)| - |notifications.rows| - |settings.rows|
    {
      var notificationsDeleted := Reconcile(notifications);
      var settingsDeleted := Reconcile(settings);
      totalDeleted := notificationsDeleted + settingsDeleted;
    }
  }

  lemma {:induction false} WithoutNobody(rows: seq<Row>)
    ensures Without(rows, {}) == rows
  {
    if rows == [] {
    } else {
      WithoutNobody(rows[1..]);
    }
  }

  /** After a page's orphans are deleted everywhere, no orphan is left up to the
      page's last id, and fewer rows remain ahead. */
  lemma PageIsSwept(
    before: seq<Row>, after: seq<Row>, cursor: Option<int>, orphans: set<string>, customers: set<string>)
    requires ById(before) && after == Without(before, orphans)
    requires Page(before, cursor) != []
    requires OrphansOf(Page(before, cursor), orphans, customers)
    requires Swept(before, cursor, customers)
    ensures var page := Page(before, cursor);
      var last := page[|page| - 1].id;
      && Swept(after, Some(last), customers)
      && |Beyond(after, Some(last))| < |Beyond(before, cursor)|
  {
    var beyond, page := Beyond(before, cursor), Page(before, cursor);
    var last := page[|page| - 1].id;
    WithoutKeepsOrder(before, orphans);
    BeyondKeepsOrder(before, cursor);
    forall row | row in after && row.id <= last && row.owner.Some? ensures row.owner.value in customers {
      if !(cursor.Some? && row.id <= cursor.value) {
        BeyondHolds(before, cursor, row);
        var i :| 0 <= i < |beyond| && beyond[i] == row;
        assert beyond[|page| - 1].id == last;
        assert i < |page|;
        assert row in page && SeenOn(row.owner.value, page);
      }
    }
    assert page[|page| - 1] in beyond;
    BeyondHolds(before, cursor, page[|page| - 1]);
    BeyondLater(before, cursor, last);
    BeyondWithout(before, orphans, Some(last));
  }

  lemma NothingAheadLeavesKept(
    start: seq<Row>, rows: seq<Row>, cursor: Option<int>, removed: set<string>, customers: set<string>)
    requires ById(start) && rows == Without(start, removed) && removed !! customers
    requires Swept(rows, cursor, customers) && Page(rows, cursor) == []
    ensures rows == Kept(start, customers)
  {
    WithoutKeepsOrder(start, removed);
    assert Beyond(rows, cursor) == [];
    forall row | row in start && row.owner.Some? ensures row.owner.value in customers + removed {
      BeyondHolds(rows, cursor, row);
    }
    WithoutOrphansIsKept(start, removed, customers);
  }
}
