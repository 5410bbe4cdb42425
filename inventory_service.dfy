/**
 * The inventory service: the discretionary access check on another user's
 * inventory (owner, then the owner's privacy setting, then friendship), the
 * guarded read of an inventory, and the synchronisation that inserts the
 * incoming items a user does not own yet.
 */
module InventoryService {
  import opened Outcomes

  const PRIVACY_PUBLIC: string := "Public"
  const PRIVACY_PRIVATE: string := "Private"
  const PRIVACY_FRIENDS: string := "Friends"
  const FRIENDSHIP_ACCEPTED: string := "accepted"
  const MSG_NO_PERMISSION: string := "No tienes permiso para ver este inventario"

  /** The `inventory_privacy` column of the owner's profile row. */
  datatype Profile = Profile(inventoryPrivacy: string)

  /** A row of the friendships table. */
  datatype Friendship = Friendship(userId1: string, userId2: string, status: string)

  /** A row of the inventory table (the joined game columns are not modelled). */
  datatype InventoryRow = InventoryRow(userId: string, gameId: string, acquiredAt: int)

  /** What a successful sync reports. */
  datatype SyncReport = SyncReport(success: bool, syncedCount: nat)

  // ---------------------------------------------------------------------
  // Access policy
  // ---------------------------------------------------------------------

  /** The friendship query's filter: an accepted row for the pair, in either order. */
  predicate LinksAccepted(f: Friendship, a: string, b: string) {
    f.status == FRIENDSHIP_ACCEPTED
    && ((f.userId1 == a && f.userId2 == b) || (f.userId1 == b && f.userId2 == a))
  }

  /** The rows the friendship query returns, in table order. */
  function AcceptedLinks(rows: seq<Friendship>, a: string, b: string): (r: seq<Friendship>)
    ensures |r| <= |rows|
    ensures forall f :: f in r <==> f in rows && LinksAccepted(f, a, b)
  {
    if rows == [] then []
    else
      var rest := AcceptedLinks(rows[1..], a, b);
      assert forall f :: f in rows <==> f == rows[0] || f in rows[1..];
      if LinksAccepted(rows[0], a, b) then [rows[0]] + rest else rest
  }

  /**
   * The query ends in `.single()`, which yields a row only when exactly one row
   * matched; `!!friendship` is true in that case alone.
   */
  predicate AreFriends(rows: seq<Friendship>, a: string, b: string) {
    |AcceptedLinks(rows, a, b)| == 1
  }

  /** The friendship relation does not depend on which of the two asks. */
  lemma {:induction false} AcceptedLinksSymmetric(rows: seq<Friendship>, a: string, b: string)
    ensures AcceptedLinks(rows, a, b) == AcceptedLinks(rows, b, a)
  {
    if rows != [] {
      AcceptedLinksSymmetric(rows[1..], a, b);
    }
  }

  lemma AreFriendsSymmetric(rows: seq<Friendship>, a: string, b: string)
    ensures AreFriends(rows, a, b) == AreFriends(rows, b, a)
  {
    AcceptedLinksSymmetric(rows, a, b);
  }

  /** A table with exactly one accepted row for the pair makes them friends; none, not. */
  lemma {:induction false} AreFriendsOneRow(rows: seq<Friendship>, a: string, b: string, k: nat)
    requires k < |rows| && LinksAccepted(rows[k], a, b)
    requires forall j :: 0 <= j < |rows| && j != k ==> !LinksAccepted(rows[j], a, b)
    ensures AreFriends(rows, a, b)
  {
    if k == 0 {
      NoLinks(rows[1..], a, b);
    } else {
      AreFriendsOneRow(rows[1..], a, b, k - 1);
    }
  }

  lemma {:induction false} NoLinks(rows: seq<Friendship>, a: string, b: string)
    requires forall j :: 0 <= j < |rows| ==> !LinksAccepted(rows[j], a, b)
    ensures AcceptedLinks(rows, a, b) == []
  {
    if rows != [] {
      NoLinks(rows[1..], a, b);
    }
  }

  /** `!viewerId`: the viewer is `undefined`, `null` or the empty string. */
  predicate ViewerAbsent(viewerId: Option<string>) {
    viewerId.None? || viewerId.value == ""
  }

  /**
   * `canViewInventory`. The owner's profile lookup is the parameter `profile`
   * (`None` for a missing row or a lookup error); the friendships table is `friendships`.
   */
  function CanViewInventory(viewerId: Option<string>, ownerId: string,
                            profile: Option<Profile>, friendships: seq<Friendship>): (ok: bool)
    // the owner always sees their own inventory, whatever the profile says
    ensures viewerId == Some(ownerId) ==> ok
    // fail closed: no profile, no access for anybody else
    ensures viewerId != Some(ownerId) && profile.None? ==> !ok
    // anybody else is admitted only by a Public profile or by an accepted friendship
    ensures ok && viewerId != Some(ownerId) ==>
      profile.Some? &&
      (profile.value.inventoryPrivacy == PRIVACY_PUBLIC
       || (profile.value.inventoryPrivacy == PRIVACY_FRIENDS && !ViewerAbsent(viewerId)
           && AreFriends(friendships, viewerId.value, ownerId)))
  {
    if viewerId == Some(ownerId) then true
    else if profile.None? then false
    else
      var privacy := profile.value.inventoryPrivacy;
      if privacy == PRIVACY_PUBLIC then true
      else if privacy == PRIVACY_PRIVATE then false
      else if privacy == PRIVACY_FRIENDS then
        if ViewerAbsent(viewerId) then false
        else AreFriends(friendships, viewerId.value, ownerId)
      else false
  }

  /** The outcome for each privacy setting, for a viewer other than the owner. */
  lemma CanViewByPrivacy(viewerId: Option<string>, ownerId: string, privacy: string,
                         friendships: seq<Friendship>)
    requires viewerId != Some(ownerId)
    ensures privacy == PRIVACY_PUBLIC ==>
      CanViewInventory(viewerId, ownerId, Some(Profile(privacy)), friendships)
    ensures privacy == PRIVACY_PRIVATE ==>
      !CanViewInventory(viewerId, ownerId, Some(Profile(privacy)), friendships)
    ensures privacy == PRIVACY_FRIENDS ==>
      (CanViewInventory(viewerId, ownerId, Some(Profile(privacy)), friendships)
       <==> !ViewerAbsent(viewerId) && AreFriends(friendships, viewerId.value, ownerId))
    ensures privacy !in {PRIVACY_PUBLIC, PRIVACY_PRIVATE, PRIVACY_FRIENDS} ==>
      !CanViewInventory(viewerId, ownerId, Some(Profile(privacy)), friendships)
  {
  }

  /** Under `Friends`, two users see each other's inventories or neither does. */
  lemma FriendsAccessIsMutual(a: string, b: string, friendships: seq<Friendship>)
    requires a != "" && b != ""
    ensures CanViewInventory(Some(a), b, Some(Profile(PRIVACY_FRIENDS)), friendships)
        == CanViewInventory(Some(b), a, Some(Profile(PRIVACY_FRIENDS)), friendships)
  {
    AreFriendsSymmetric(friendships, a, b);
  }

  // ---------------------------------------------------------------------
  // Inventory table: guarded read and synchronisation
  // ---------------------------------------------------------------------

  /** The rows of one user, in table order (`.eq('user_id', ownerId)`). */
  function RowsOf(rows: seq<InventoryRow>, userId: string): (r: seq<InventoryRow>)
    ensures |r| <= |rows|
    ensures forall x :: x in r <==> x in rows && x.userId == userId
  {
    if rows == [] then []
    else
      var rest := RowsOf(rows[1..], userId);
      assert forall x :: x in rows <==> x == rows[0] || x in rows[1..];
      if rows[0].userId == userId then [rows[0]] + rest else rest
  }

  /** Selecting a user's rows keeps the table order: it distributes over concatenation. */
  lemma {:induction false} RowsOfAppend(a: seq<InventoryRow>, b: seq<InventoryRow>, userId: string)
    ensures RowsOf(a + b, userId) == RowsOf(a, userId) + RowsOf(b, userId)
  {
    if a != [] {
      assert (a + b)[0] == a[0] && (a + b)[1..] == a[1..] + b;
      RowsOfAppend(a[1..], b, userId);
    } else {
      assert a + b == b;
    }
  }

  /** `currentItems.map(item => item.game_id)`: the ids a user owns, in table order. */
  function GameIdsOf(rows: seq<InventoryRow>, userId: string): (ids: seq<string>)
    ensures forall id :: id in ids <==> exists x :: x in rows && x.userId == userId && x.gameId == id
  {
    if rows == [] then []
    else
      var rest := GameIdsOf(rows[1..], userId);
      assert forall x :: x in rows <==> x == rows[0] || x in rows[1..];
      if rows[0].userId == userId then [rows[0].gameId] + rest else rest
  }

  lemma {:induction false} GameIdsOfAppend(a: seq<InventoryRow>, b: seq<InventoryRow>, userId: string)
    ensures GameIdsOf(a + b, userId) == GameIdsOf(a, userId) + GameIdsOf(b, userId)
  {
    if a != [] {
      assert (a + b)[0] == a[0] && (a + b)[1..] == a[1..] + b;
      GameIdsOfAppend(a[1..], b, userId);
    } else {
      assert a + b == b;
    }
  }

  /** `steamItems.filter(item => !currentIds.includes(item.id))`, on the ids. */
  function NewItems(steamIds: seq<string>, currentIds: seq<string>): (r: seq<string>)
    ensures |r| <= |steamIds|
    ensures forall id :: id in r <==> id in steamIds && id !in currentIds
  {
    if steamIds == [] then []
    else
      var rest := NewItems(steamIds[1..], currentIds);
      assert forall id :: id in steamIds <==> id == steamIds[0] || id in steamIds[1..];
      if steamIds[0] !in currentIds then [steamIds[0]] + rest else rest
  }

  /** The rows inserted for the new ids, all stamped with the same time. */
  function NewRows(userId: string, ids: seq<string>, now: int): (r: seq<InventoryRow>)
    ensures |r| == |ids|
    ensures forall k :: 0 <= k < |ids| ==> r[k] == InventoryRow(userId, ids[k], now)
  {
    seq(|ids|, k requires 0 <= k < |ids| => InventoryRow(userId, ids[k], now))
  }

  lemma {:induction false} GameIdsOfNewRows(userId: string, ids: seq<string>, now: int)
    ensures GameIdsOf(NewRows(userId, ids, now), userId) == ids
  {
    if ids != [] {
      assert NewRows(userId, ids, now)[1..] == NewRows(userId, ids[1..], now);
      GameIdsOfNewRows(userId, ids[1..], now);
    }
  }

  /** The ids the sync inserts when the current read of the table succeeded. */
  function SyncedIds(rows: seq<InventoryRow>, userId: string, steamIds: seq<string>): seq<string> {
    NewItems(steamIds, GameIdsOf(rows, userId))
  }

  /** The rows a successful sync leaves: everything that was there, then the new rows. */
  function AfterSync(rows: seq<InventoryRow>, userId: string, steamIds: seq<string>, now: int): seq<InventoryRow> {
    rows + NewRows(userId, SyncedIds(rows, userId, steamIds), now)
  }

  /** Never an id the user already owned: a sync inserts only ids that were missing. */
  lemma SyncInsertsOnlyMissing(rows: seq<InventoryRow>, userId: string, steamIds: seq<string>, now: int, k: nat)
    requires k < |SyncedIds(rows, userId, steamIds)|
    ensures var x := AfterSync(rows, userId, steamIds, now)[|rows| + k];
      x.userId == userId && x.gameId in steamIds
      && !exists y :: y in rows && y.userId == userId && y.gameId == x.gameId
  {
    var ids := SyncedIds(rows, userId, steamIds);
    assert ids[k] in ids;
  }

  /** After a sync, every incoming id is owned: syncing the same list again inserts nothing. */
  lemma SyncAgainInsertsNothing(rows: seq<InventoryRow>, userId: string, steamIds: seq<string>, now: int)
    ensures SyncedIds(AfterSync(rows, userId, steamIds, now), userId, steamIds) == []
  {
    var added := SyncedIds(rows, userId, steamIds);
    GameIdsOfAppend(rows, NewRows(userId, added, now), userId);
    GameIdsOfNewRows(userId, added, now);
    NewItemsAllKnown(steamIds, GameIdsOf(AfterSync(rows, userId, steamIds, now), userId));
  }

  /** Nothing is new when every incoming id is already known. */
  lemma {:induction false} NewItemsAllKnown(steamIds: seq<string>, currentIds: seq<string>)
    requires forall id :: id in steamIds ==> id in currentIds
    ensures NewItems(steamIds, currentIds) == []
  {
    if steamIds != [] {
      assert steamIds[0] in steamIds;
      NewItemsAllKnown(steamIds[1..], currentIds);
    }
  }

  /** The inventory table. */
  class InventoryStore {
    var rows: seq<InventoryRow>

    constructor (rows: seq<InventoryRow>)
      ensures this.rows == rows
    {
      this.rows := rows;
    }

    /**
     * `getUserInventory`: the permission error exactly when the access check
     * denies, otherwise the owner's rows and nobody else's.
     */
    function GetUserInventory(viewerId: Option<string>, ownerId: string,
                              profile: Option<Profile>, friendships: seq<Friendship>): (r: Result<seq<InventoryRow>>)
      reads this
      ensures r.Err? <==> !CanViewInventory(viewerId, ownerId, profile, friendships)
      ensures r.Err? ==> r.message == MSG_NO_PERMISSION
      ensures r.Ok? ==> forall x :: x in r.value <==> x in rows && x.userId == ownerId
    {
      if !CanViewInventory(viewerId, ownerId, profile, friendships) then Err(MSG_NO_PERMISSION)
      else Ok(RowsOf(rows, ownerId))
    }

    /**
     * `syncWithSteam`. `readOk` is whether the read of the user's current items
     * returned data; when it did not, the code falls back to an empty list of
     * current ids and so treats every incoming id as new. `now` is the
     * `acquired_at` stamp.
     */
    method SyncWithSteam(userId: string, steamIds: seq<string>, readOk: bool, now: int)
      returns (report: SyncReport)
      modifies this
      ensures var current := if readOk then GameIdsOf(old(rows), userId) else [];
        var added := NewItems(steamIds, current);
        rows == old(rows) + NewRows(userId, added, now)
        && report == SyncReport(true, |added|)
      ensures readOk ==> rows == AfterSync(old(rows), userId, steamIds, now)
      ensures report.syncedCount == 0 <==> rows == old(rows)
    {
      var currentIds := if readOk then GameIdsOf(rows, userId) else [];
      var newItems := NewItems(steamIds, currentIds);
      if |newItems| > 0 {
        rows := rows + NewRows(userId, newItems, now);
      }
      report := SyncReport(true, |newItems|);
    }
  }
}
