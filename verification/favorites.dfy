/** The favourites hook: a user's favourite suppliers, kept as rows of the
    `favorite_suppliers` table, fetched newest first, and toggled one
    supplier at a time. The remote table is an explicit value; whether a
    remote write succeeds is the `writeOk` argument and the new row's id the
    `freshId` argument. */
module Favorites {
  import opened Options
  import opened Seqs

  datatype Row = Row(id: int, userId: string, supplierId: string)

  /** The table, newest row first (the order `created_at` descending gives). */
  type Table = seq<Row>

  /** The hook's state: the fetched rows and whether a fetch is pending. */
  datatype Hook = Hook(favorites: seq<Row>, loading: bool)

  /** What a toggle reports to the visitor. */
  datatype Outcome = MustLogIn | Removed | Added | Failed

  /** The remote write a toggle decides on. */
  datatype Write = DeleteRow(id: int) | InsertRow(supplierId: string)

  /** `userId` is truthy: present and not empty. */
  predicate LoggedIn(user: Option<string>) {
    user.Some? && user.value != ""
  }

  /** `fetchFavorites`: the user's rows, in table order. */
  function Fetch(table: Table, user: string): (r: seq<Row>)
    ensures forall i :: 0 <= i < |r| ==> r[i].userId == user && r[i] in table
    ensures forall i :: 0 <= i < |table| && table[i].userId == user ==> table[i] in r
    ensures forall x :: multiset(r)[x] == if x.userId == user then multiset(table)[x] else 0
    ensures IsSubsequence(r, table)
  {
    var mine := (row: Row) => row.userId == user;
    FilterMultiset(table, mine);
    FilterIsSubsequence(table, mine);
    Filter(table, mine)
  }

  /** `isFavorite`: some fetched row names the supplier. */
  predicate IsFavorite(favorites: seq<Row>, supplierId: string) {
    exists i :: 0 <= i < |favorites| && favorites[i].supplierId == supplierId
  }

  /** `favorites.find(f => f.supplier_id === supplierId)`: the first row that
      names the supplier. */
  function FindRow(favorites: seq<Row>, supplierId: string): (r: Option<Row>)
    ensures r.Some? <==> IsFavorite(favorites, supplierId)
    ensures r.Some? ==> r.value in favorites && r.value.supplierId == supplierId
    ensures r.Some? ==> exists i :: 0 <= i < |favorites| && favorites[i] == r.value &&
                          forall j :: 0 <= j < i ==> favorites[j].supplierId != supplierId
  {
    if favorites == [] then None
    else if favorites[0].supplierId == supplierId then Some(favorites[0])
    else FindRow(favorites[1..], supplierId)
  }

  /** The write a toggle makes: delete the first matching row if the
      supplier is a favourite, otherwise insert a row for the user. */
  function Decide(favorites: seq<Row>, supplierId: string): (r: Write)
    ensures r.DeleteRow? <==> IsFavorite(favorites, supplierId)
    ensures r.DeleteRow? ==> FindRow(favorites, supplierId).Some? && r.id == FindRow(favorites, supplierId).value.id
    ensures r.InsertRow? ==> r.supplierId == supplierId
  {
    match FindRow(favorites, supplierId)
    case Some(row) => DeleteRow(row.id)
    case None => InsertRow(supplierId)
  }

  /** Rows whose id is not `id`. */
  function OtherId(id: int): Row -> bool {
    (row: Row) => row.id != id
  }

  /** The table after a successful write: a delete removes every row with
      the id, an insert adds the newest row. */
  function ApplyWrite(table: Table, w: Write, user: string, freshId: int): (r: Table)
    ensures w.InsertRow? ==> r == [Row(freshId, user, w.supplierId)] + table
    ensures w.DeleteRow? ==> forall i :: 0 <= i < |r| ==> r[i].id != w.id && r[i] in table
    ensures w.DeleteRow? ==> forall i :: 0 <= i < |table| && table[i].id != w.id ==> table[i] in r
    ensures w.DeleteRow? ==> forall x :: multiset(r)[x] == if x.id != w.id then multiset(table)[x] else 0
    ensures w.DeleteRow? ==> IsSubsequence(r, table)
  {
    match w
    case DeleteRow(id) =>
      FilterMultiset(table, OtherId(id));
      FilterIsSubsequence(table, OtherId(id));
      Filter(table, OtherId(id))
    case InsertRow(sid) => [Row(freshId, user, sid)] + table
  }

  /** `toggleFavorite`: without a user only the "log in" message; a failed
      write leaves table and hook as they were; a successful write is
      followed by a refetch. */
  function Toggle(hook: Hook, table: Table, user: Option<string>, supplierId: string,
                  freshId: int, writeOk: bool): (r: (Hook, Table, Outcome))
    ensures !LoggedIn(user) ==> r == (hook, table, MustLogIn)
    ensures LoggedIn(user) && !writeOk ==> r == (hook, table, Failed)
    ensures LoggedIn(user) && writeOk ==>
      && r.1 == ApplyWrite(table, Decide(hook.favorites, supplierId), user.value, freshId)
      && r.0 == Hook(Fetch(r.1, user.value), false)
      && (r.2 == Removed <==> IsFavorite(hook.favorites, supplierId))
      && (r.2 == Added <==> !IsFavorite(hook.favorites, supplierId))
  {
    if !LoggedIn(user) then (hook, table, MustLogIn)
    else if !writeOk then (hook, table, Failed)
    else
      var w := Decide(hook.favorites, supplierId);
      var t := ApplyWrite(table, w, user.value, freshId);
      (Hook(Fetch(t, user.value), false), t, if w.DeleteRow? then Removed else Added)
  }

  /** The hook shows exactly the user's rows of the table. */
  predicate InSync(hook: Hook, table: Table, user: string) {
    hook.favorites == Fetch(table, user)
  }

  /** The id is not used by any row. */
  predicate FreshId(table: Table, id: int) {
    forall i :: 0 <= i < |table| ==> table[i].id != id
  }

  /** Row ids are unique. */
  predicate UniqueIds(table: Table) {
    forall i, j :: 0 <= i < j < |table| ==> table[i].id != table[j].id
  }

  /** The user has at most one row for the supplier. */
  predicate AtMostOne(table: Table, user: string, supplierId: string) {
    forall i, j ::
      (0 <= i < j < |table| && table[i].userId == user && table[j].userId == user &&
       table[i].supplierId == supplierId) ==> table[j].supplierId != supplierId
  }

  /** The table has a row of the user for the supplier. */
  predicate HasRow(table: Table, user: string, supplierId: string) {
    exists i :: 0 <= i < |table| && table[i].userId == user && table[i].supplierId == supplierId
  }

  lemma FavoriteIffRow(table: Table, user: string, supplierId: string)
    ensures IsFavorite(Fetch(table, user), supplierId) <==> HasRow(table, user, supplierId)
  {
    var f := Fetch(table, user);
    if HasRow(table, user, supplierId) {
      var i :| 0 <= i < |table| && table[i].userId == user && table[i].supplierId == supplierId;
      assert table[i] in f;
    }
  }

  /** A successful toggle on a hook in sync with the table flips the
      supplier's favourite status, when the user has at most one row for it
      and row ids are unique, and the hook is in sync again afterwards. */
  lemma ToggleFlips(hook: Hook, table: Table, user: string, supplierId: string, freshId: int)
    requires user != "" && InSync(hook, table, user)
    requires UniqueIds(table) && AtMostOne(table, user, supplierId)
    ensures var r := Toggle(hook, table, Some(user), supplierId, freshId, true);
      && InSync(r.0, r.1, user)
      && (IsFavorite(r.0.favorites, supplierId) <==> !IsFavorite(hook.favorites, supplierId))
  {
    var r := Toggle(hook, table, Some(user), supplierId, freshId, true);
    FavoriteIffRow(table, user, supplierId);
    FavoriteIffRow(r.1, user, supplierId);
    var w := Decide(hook.favorites, supplierId);
    if w.DeleteRow? {
      var row := FindRow(hook.favorites, supplierId).value;
      assert row in table && row.userId == user && row.supplierId == supplierId;
    } else {
      assert r.1[0].userId == user && r.1[0].supplierId == supplierId;
    }
  }

  /** Dropping rows keeps row ids unique. */
  lemma {:induction false} FilterKeepsUniqueIds(table: Table, keep: Row -> bool)
    requires UniqueIds(table)
    ensures UniqueIds(Filter(table, keep))
    decreases |table|
  {
    if table != [] {
      var tail := table[1..];
      FilterKeepsUniqueIds(tail, keep);
      var rest := Filter(tail, keep);
      if keep(table[0]) {
        forall j | 0 <= j < |rest|
          ensures rest[j].id != table[0].id
        {
          var k :| 0 <= k < |tail| && tail[k] == rest[j];
          assert table[k + 1] == rest[j];
        }
      }
    }
  }

  /** Deleting the user's one row for the supplier leaves ids unique and
      no row of the user for it. */
  lemma DeleteLeavesNoRow(table: Table, user: string, supplierId: string, row: Row)
    requires UniqueIds(table) && AtMostOne(table, user, supplierId)
    requires row in table && row.userId == user && row.supplierId == supplierId
    ensures var t := Filter(table, OtherId(row.id));
      UniqueIds(t) && !HasRow(t, user, supplierId)
  {
    var t := Filter(table, OtherId(row.id));
    FilterKeepsUniqueIds(table, OtherId(row.id));
    var m :| 0 <= m < |table| && table[m] == row;
    forall i | 0 <= i < |t|
      ensures !(t[i].userId == user && t[i].supplierId == supplierId)
    {
      var k :| 0 <= k < |table| && table[k] == t[i];
      assert OtherId(row.id)(t[i]);
      assert k != m;
    }
  }

  /** Inserting a row with a fresh id for a supplier the user has no row
      for leaves ids unique and exactly one such row. */
  lemma InsertKeepsInvariants(table: Table, user: string, supplierId: string, freshId: int)
    requires UniqueIds(table) && FreshId(table, freshId) && !HasRow(table, user, supplierId)
    ensures var t := [Row(freshId, user, supplierId)] + table;
      UniqueIds(t) && AtMostOne(t, user, supplierId)
  {
  }

  /** A successful toggle with a fresh id for a possible new row keeps the
      table's row ids unique and the user's rows for the supplier at most
      one, so the toggle can be repeated. */
  lemma ToggleKeepsInvariants(hook: Hook, table: Table, user: string, supplierId: string, freshId: int)
    requires user != "" && InSync(hook, table, user) && FreshId(table, freshId)
    requires UniqueIds(table) && AtMostOne(table, user, supplierId)
    ensures var r := Toggle(hook, table, Some(user), supplierId, freshId, true);
      UniqueIds(r.1) && AtMostOne(r.1, user, supplierId) && InSync(r.0, r.1, user)
  {
    FavoriteIffRow(table, user, supplierId);
    var w := Decide(hook.favorites, supplierId);
    if w.DeleteRow? {
      var row := FindRow(hook.favorites, supplierId).value;
      DeleteLeavesNoRow(table, user, supplierId, row);
    } else {
      InsertKeepsInvariants(table, user, supplierId, freshId);
    }
  }

  /** Two successful toggles give the supplier back its original status,
      whichever status it started with. */
  lemma ToggleTwiceRestoresStatus(hook: Hook, table: Table, user: string, supplierId: string,
                                  freshId: int, laterId: int)
    requires user != "" && InSync(hook, table, user) && FreshId(table, freshId)
    requires UniqueIds(table) && AtMostOne(table, user, supplierId)
    ensures var once := Toggle(hook, table, Some(user), supplierId, freshId, true);
      var twice := Toggle(once.0, once.1, Some(user), supplierId, laterId, true);
      && InSync(twice.0, twice.1, user)
      && (IsFavorite(twice.0.favorites, supplierId) <==> IsFavorite(hook.favorites, supplierId))
  {
    var once := Toggle(hook, table, Some(user), supplierId, freshId, true);
    ToggleFlips(hook, table, user, supplierId, freshId);
    ToggleKeepsInvariants(hook, table, user, supplierId, freshId);
    ToggleFlips(once.0, once.1, user, supplierId, laterId);
  }

  /** Toggling a supplier that is not yet a favourite twice, both writes
      succeeding, gives back the original table when the new row's id was
      fresh. */
  lemma AddThenRemoveRestoresTable(hook: Hook, table: Table, user: string, supplierId: string,
                                   freshId: int, laterId: int)
    requires user != "" && InSync(hook, table, user) && FreshId(table, freshId)
    requires !IsFavorite(hook.favorites, supplierId)
    ensures var once := Toggle(hook, table, Some(user), supplierId, freshId, true);
      var twice := Toggle(once.0, once.1, Some(user), supplierId, laterId, true);
      twice.1 == table && twice.0 == hook.(loading := false)
  {
    var once := Toggle(hook, table, Some(user), supplierId, freshId, true);
    var row := Row(freshId, user, supplierId);
    assert once.1 == [row] + table;
    var keepUser := (x: Row) => x.userId == user;
    assert once.0.favorites == Filter([row] + table, keepUser);
    assert once.0.favorites[0] == row;
    assert FindRow(once.0.favorites, supplierId) == Some(row);
    var keep := (x: Row) => x.id != freshId;
    FilterAppend([row], table, keep);
    FilterAll(table, keep);
    assert Filter([row], keep) == [];
  }

  /** With two rows for the supplier a toggle removes only the first, so the
      supplier stays a favourite. */
  lemma DuplicateStaysFavorite(hook: Hook, table: Table, user: string, supplierId: string, freshId: int)
    requires user != "" && InSync(hook, table, user) && UniqueIds(table)
    requires exists i, j :: 0 <= i < j < |table| && table[i].userId == user && table[j].userId == user &&
                            table[i].supplierId == supplierId && table[j].supplierId == supplierId
    ensures var r := Toggle(hook, table, Some(user), supplierId, freshId, true);
      r.2 == Removed && IsFavorite(r.0.favorites, supplierId)
  {
    var i, j :| 0 <= i < j < |table| && table[i].userId == user && table[j].userId == user
      && table[i].supplierId == supplierId && table[j].supplierId == supplierId;
    FavoriteIffRow(table, user, supplierId);
    var r := Toggle(hook, table, Some(user), supplierId, freshId, true);
    var row := FindRow(hook.favorites, supplierId).value;
    var survivor := if table[i].id == row.id then table[j] else table[i];
    assert survivor in r.1;
    FavoriteIffRow(r.1, user, supplierId);
  }

  /** A toggle only changes the status of the supplier it names. */
  lemma ToggleLeavesOthers(hook: Hook, table: Table, user: string, supplierId: string,
                           other: string, freshId: int)
    requires user != "" && InSync(hook, table, user) && UniqueIds(table)
    requires other != supplierId
    ensures var r := Toggle(hook, table, Some(user), supplierId, freshId, true);
      IsFavorite(r.0.favorites, other) <==> IsFavorite(hook.favorites, other)
  {
    var r := Toggle(hook, table, Some(user), supplierId, freshId, true);
    FavoriteIffRow(table, user, other);
    FavoriteIffRow(r.1, user, other);
    var w := Decide(hook.favorites, supplierId);
    if w.DeleteRow? && HasRow(table, user, other) {
      var row := FindRow(hook.favorites, supplierId).value;
      var i :| 0 <= i < |table| && table[i].userId == user && table[i].supplierId == other;
      assert row in table;
      assert table[i].id != w.id;
      assert table[i] in r.1;
    }
    if w.InsertRow? && HasRow(table, user, other) {
      var i :| 0 <= i < |table| && table[i].userId == user && table[i].supplierId == other;
      assert r.1[i + 1] == table[i];
    }
  }
}
