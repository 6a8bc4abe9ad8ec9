/** The user admin screen: the registered users read from the store, shown
    with a label and badge for their type, and deletable. The screen's list
    and the store are written together. */
module UserAdmin {
  import opened Options
  import opened Entities
  import opened Seqs
  import MockStore

  /** What opening the screen yields: the list it shows, and whether it sent
      the visitor to the admin login instead. */
  datatype Loaded = Loaded(users: seq<User>, redirected: bool)

  /** Opening the screen: without a truthy `isAdmin` key the visitor is sent
      to the login page and the list stays empty; otherwise the list is what
      `getUsers` returns. */
  function Load(st: MockStore.Store): (r: Loaded)
    ensures r.redirected <==> !MockStore.IsAdmin(st)
    ensures r.redirected ==> r.users == []
    ensures !r.redirected ==> r.users == MockStore.GetUsers(st)
  {
    if MockStore.IsAdmin(st) then Loaded(MockStore.GetUsers(st), false) else Loaded([], true)
  }

  /** `updateUsers`: the screen's list and the stored list both become
      `newUsers`; no other key changes. */
  function UpdateUsers(st: MockStore.Store, newUsers: seq<User>): (r: (seq<User>, MockStore.Store))
    ensures r.0 == newUsers && MockStore.GetUsers(r.1) == newUsers
    ensures r.1.suppliers == st.suppliers && r.1.categories == st.categories
    ensures r.1.backup == st.backup && r.1.isAdmin == st.isAdmin
  {
    (newUsers, MockStore.SetUsers(st, newUsers))
  }

  /** `handleDeleteUser`: when confirmed, the shown list without every user
      with the id, written to the screen and the store alike; when declined
      nothing changes. */
  function DeleteUser(shown: seq<User>, st: MockStore.Store, id: int, confirmed: bool)
    : (r: (seq<User>, MockStore.Store))
    ensures !confirmed ==> r == (shown, st)
    ensures confirmed ==> MockStore.GetUsers(r.1) == r.0
    ensures confirmed ==> forall i :: 0 <= i < |r.0| ==> r.0[i].id != id && r.0[i] in shown
    ensures confirmed ==> forall i :: 0 <= i < |shown| && shown[i].id != id ==> shown[i] in r.0
    ensures confirmed ==> forall u :: multiset(r.0)[u] == if u.id != id then multiset(shown)[u] else 0
    ensures IsSubsequence(r.0, shown)
  {
    if confirmed then
      var keep := (u: User) => u.id != id;
      FilterIsSubsequence(shown, keep);
      FilterMultiset(shown, keep);
      UpdateUsers(st, Filter(shown, keep))
    else
      SubsequenceRefl(shown);
      (shown, st)
  }

  /** After a confirmed delete, reopening the screen shows exactly the list
      the delete left, for as long as the visitor is an admin. */
  lemma DeleteSurvivesReload(shown: seq<User>, st: MockStore.Store, id: int)
    requires MockStore.IsAdmin(st)
    ensures var r := DeleteUser(shown, st, id, true);
      Load(r.1) == Loaded(r.0, false)
  {
  }

  /** Deleting an id nobody has still rewrites the store with the shown list. */
  lemma DeleteAbsentIdStoresShown(shown: seq<User>, st: MockStore.Store, id: int)
    requires forall i :: 0 <= i < |shown| ==> shown[i].id != id
    ensures DeleteUser(shown, st, id, true) == (shown, MockStore.SetUsers(st, shown))
  {
    FilterAll(shown, (u: User) => u.id != id);
  }

  const BadgeBase: string := "text-xs px-2 py-1 rounded-full"

  /** `getUserTypeLabel`: "Comprador" for 'buyer', "Fornecedor" for any other
      type string. */
  function TypeLabel(kind: string): (r: string)
    ensures r == "Comprador" <==> kind == "buyer"
    ensures r == "Comprador" || r == "Fornecedor"
  {
    if kind == "buyer" then "Comprador" else "Fornecedor"
  }

  /** `getUserTypeBadge`: the base classes followed by blue colours for
      'buyer' and green colours for any other type string. */
  function TypeBadge(kind: string): (r: string)
    ensures |r| > |BadgeBase| && r[..|BadgeBase|] == BadgeBase
    ensures kind == "buyer" <==> r[|BadgeBase|..] == " bg-blue-100 text-blue-800"
    ensures kind != "buyer" <==> r[|BadgeBase|..] == " bg-green-100 text-green-800"
  {
    var colours := if kind == "buyer" then " bg-blue-100 text-blue-800" else " bg-green-100 text-green-800";
    assert (BadgeBase + colours)[|BadgeBase|..] == colours;
    BadgeBase + colours
  }

  /** The label and the badge agree: a user is shown as "Comprador" exactly
      when the badge is blue. */
  lemma LabelMatchesBadge(kind: string)
    ensures TypeLabel(kind) == "Comprador" <==> TypeBadge(kind) == BadgeBase + " bg-blue-100 text-blue-800"
  {
    var b := TypeBadge(kind);
    if b == BadgeBase + " bg-blue-100 text-blue-800" {
      assert b[|BadgeBase|..] == " bg-blue-100 text-blue-800";
    }
  }
}
