/**
 * The inventory HTTP handlers: request-field checks, the UUID format check
 * on purchases, and the mapping of service errors to status codes. The
 * listing, cancellation, market, trade and purchase services are parameters
 * (their database procedures are not part of this model); the inventory read
 * and the Steam sync use the store of `InventoryService`.
 */
module InventoryController {
  import opened Outcomes
  import opened Strings
  import opened InventoryService

  const MSG_NEED_STEAM_ITEMS: string := "Se requiere una lista de items de Steam"
  const MSG_MISSING_DATA: string := "Faltan datos"
  const MSG_LISTED: string := "Item puesto a la venta correctamente"
  const MSG_LISTING_ID_REQUIRED: string := "ID de venta requerido"
  const MSG_LISTING_CANCELLED: string := "Venta cancelada y artículo recuperado"
  const MSG_PURCHASE_ID_REQUIRED: string := "ID de publicación requerido"
  const MSG_BAD_ID_FORMAT: string := "Formato de ID inválido"
  const DEFAULT_ITEM_NAME: string := "Item"
  const DEFAULT_SELLER: string := "Tú"

  const PERMISSION_WORD: string := "permiso"
  const ERR_FUNDS: string := "Fondos insuficientes"
  const ERR_UNAVAILABLE: string := "no está disponible"
  const ERR_SOLD: string := "ya fue vendido"
  const ERR_OWN_ITEM: string := "tu propio artículo"
  const ERR_PROCESSED: string := "ya fue procesada"

  /** A JSON response: HTTP status, the `success` flag, the `message` text if any, and the payload if any. */
  datatype Reply<T> = Reply(status: int, success: bool, message: Option<string>, payload: Option<T>)

  /** What the listing service returns for an item put on sale. */
  datatype ListedItem = ListedItem(id: string, name: Option<string>, listingPrice: real, listingDate: string)

  /** The `listing` object of a sale response. */
  datatype Listing = Listing(id: string, name: string, price: real, seller: string, listingDate: string)

  /** What the purchase service returns. */
  datatype PurchaseResult = PurchaseResult(message: string, itemName: string, pricePaid: real,
                                           newBalance: real, transactionId: string)

  /** The `data` object of a purchase response. */
  datatype PurchaseData = PurchaseData(itemName: string, pricePaid: real, newBalance: real, transactionId: string)

  /** An error response with its message. */
  function Failure<T>(status: int, message: string): Reply<T> {
    Reply(status, false, Some(message), None)
  }

  // ---------------------------------------------------------------- UUID check

  /** `[0-9a-f]` under the `i` flag. */
  predicate IsHexDigit(c: char) {
    '0' <= c <= '9' || 'a' <= c <= 'f' || 'A' <= c <= 'F'
  }

  /** The dash positions of the 8-4-4-4-12 layout. */
  predicate IsDashPosition(i: int) {
    i == 8 || i == 13 || i == 18 || i == 23
  }

  /** The anchored UUID pattern: 36 characters, dashes at 8, 13, 18 and 23, hexadecimal digits elsewhere. */
  predicate IsUuid(s: string) {
    |s| == 36 && forall i :: 0 <= i < |s| ==> if IsDashPosition(i) then s[i] == '-' else IsHexDigit(s[i])
  }

  /** A group of exactly `n` hexadecimal digits. */
  predicate HexGroup(t: string, n: int) {
    |t| == n && forall i :: 0 <= i < |t| ==> IsHexDigit(t[i])
  }

  /** Five groups joined by dashes. */
  function Dashed(a: string, b: string, c: string, d: string, e: string): string {
    a + "-" + b + "-" + c + "-" + d + "-" + e
  }

  /** Any five groups of 8, 4, 4, 4 and 12 hexadecimal digits, joined by dashes, pass the check. */
  lemma UuidOfGroups(a: string, b: string, c: string, d: string, e: string)
    requires HexGroup(a, 8) && HexGroup(b, 4) && HexGroup(c, 4) && HexGroup(d, 4) && HexGroup(e, 12)
    ensures IsUuid(Dashed(a, b, c, d, e))
  {
    var s := Dashed(a, b, c, d, e);
    forall i | 0 <= i < |s|
      ensures if IsDashPosition(i) then s[i] == '-' else IsHexDigit(s[i])
    {
      if i < 8 { assert s[i] == a[i]; }
      else if 8 < i < 13 { assert s[i] == b[i - 9]; }
      else if 13 < i < 18 { assert s[i] == c[i - 14]; }
      else if 18 < i < 23 { assert s[i] == d[i - 19]; }
      else if 23 < i { assert s[i] == e[i - 24]; }
    }
  }

  /** Every string that passes the check is five such groups joined by dashes. */
  lemma UuidSplitsIntoGroups(s: string)
    requires IsUuid(s)
    ensures HexGroup(s[..8], 8) && HexGroup(s[9..13], 4) && HexGroup(s[14..18], 4)
    ensures HexGroup(s[19..23], 4) && HexGroup(s[24..], 12)
    ensures s == Dashed(s[..8], s[9..13], s[14..18], s[19..23], s[24..])
  {
    assert HexGroup(s[9..13], 4) by {
      forall i | 0 <= i < 4 ensures IsHexDigit(s[9..13][i]) { assert s[9..13][i] == s[9 + i]; }
    }
    assert HexGroup(s[14..18], 4) by {
      forall i | 0 <= i < 4 ensures IsHexDigit(s[14..18][i]) { assert s[14..18][i] == s[14 + i]; }
    }
    assert HexGroup(s[19..23], 4) by {
      forall i | 0 <= i < 4 ensures IsHexDigit(s[19..23][i]) { assert s[19..23][i] == s[19 + i]; }
    }
    assert HexGroup(s[24..], 12) by {
      forall i | 0 <= i < 12 ensures IsHexDigit(s[24..][i]) { assert s[24..][i] == s[24 + i]; }
    }
    assert s[8] == '-' && s[13] == '-' && s[18] == '-' && s[23] == '-';
    var t := Dashed(s[..8], s[9..13], s[14..18], s[19..23], s[24..]);
    assert |t| == |s|;
    forall i | 0 <= i < |s| ensures t[i] == s[i] {
    }
  }

  /** The check ignores letter case: lower-casing a string never changes its verdict. */
  lemma UuidIgnoresCase(s: string)
    ensures IsUuid(ToLower(s)) <==> IsUuid(s)
  {
    var t := ToLower(s);
    forall i | 0 <= i < |s|
      ensures (t[i] == '-' <==> s[i] == '-') && (IsHexDigit(t[i]) <==> IsHexDigit(s[i]))
    {
      assert t[i] == LowerChar(s[i]);
    }
  }

  // ---------------------------------------------------------------- status classification

  /**
   * The status for a failed purchase: the first of the listed phrases that
   * the error message contains decides it.
   */
  function PurchaseErrorStatus(message: string): (code: int)
    ensures code in {400, 402, 409, 500}
    ensures code == 402 <==> Contains(message, ERR_FUNDS)
    ensures code == 409 <==>
      !Contains(message, ERR_FUNDS) &&
      (Contains(message, ERR_UNAVAILABLE) || Contains(message, ERR_SOLD) ||
       (!Contains(message, ERR_OWN_ITEM) && Contains(message, ERR_PROCESSED)))
    ensures code == 400 <==>
      !Contains(message, ERR_FUNDS) && !Contains(message, ERR_UNAVAILABLE) &&
      !Contains(message, ERR_SOLD) && Contains(message, ERR_OWN_ITEM)
    ensures code == 500 <==>
      !Contains(message, ERR_FUNDS) && !Contains(message, ERR_UNAVAILABLE) && !Contains(message, ERR_SOLD) &&
      !Contains(message, ERR_OWN_ITEM) && !Contains(message, ERR_PROCESSED)
  {
    if Contains(message, ERR_FUNDS) then 402
    else if Contains(message, ERR_UNAVAILABLE) || Contains(message, ERR_SOLD) then 409
    else if Contains(message, ERR_OWN_ITEM) then 400
    else if Contains(message, ERR_PROCESSED) then 409
    else 500
  }

  /** A message that mentions insufficient funds is a 402, whatever else it says. */
  lemma FundsMessageIs402(pre: string, post: string)
    ensures PurchaseErrorStatus(pre + ERR_FUNDS + post) == 402
  {
    ContainsInside(pre, ERR_FUNDS, post);
  }

  /** A message that says the item was already sold is a 409 unless it also mentions funds. */
  lemma SoldMessageIs409(pre: string, post: string)
    requires !Contains(pre + ERR_SOLD + post, ERR_FUNDS)
    ensures PurchaseErrorStatus(pre + ERR_SOLD + post) == 409
  {
    ContainsInside(pre, ERR_SOLD, post);
  }

  /** A message about buying one's own item is a 400 unless an earlier phrase matches. */
  lemma OwnItemMessageIs400(pre: string, post: string)
    requires var m := pre + ERR_OWN_ITEM + post;
      !Contains(m, ERR_FUNDS) && !Contains(m, ERR_UNAVAILABLE) && !Contains(m, ERR_SOLD)
    ensures PurchaseErrorStatus(pre + ERR_OWN_ITEM + post) == 400
  {
    ContainsInside(pre, ERR_OWN_ITEM, post);
  }

  /** The status for a failed inventory read: 403 when the message mentions permission, else 500. */
  function InventoryErrorStatus(message: string): (code: int)
    ensures code == 403 <==> Contains(message, PERMISSION_WORD)
    ensures code == 500 <==> !Contains(message, PERMISSION_WORD)
  {
    if Contains(message, PERMISSION_WORD) then 403 else 500
  }

  /** The service's own permission error is classified as 403. */
  lemma PermissionErrorIs403()
    ensures InventoryErrorStatus(MSG_NO_PERMISSION) == 403
  {
    assert MSG_NO_PERMISSION[10..17] == PERMISSION_WORD by {
      forall k | 0 <= k < 7 ensures MSG_NO_PERMISSION[10..17][k] == PERMISSION_WORD[k] {
        assert MSG_NO_PERMISSION[10..17][k] == MSG_NO_PERMISSION[10 + k];
      }
    }
    ContainsAt(MSG_NO_PERMISSION, PERMISSION_WORD, 10);
  }

  // ---------------------------------------------------------------- handlers

  /**
   * `getInventory`: 200 with the owner's rows when the access check allows
   * it, 403 when it does not.
   */
  function GetInventory(store: InventoryStore, viewerId: Option<string>, ownerId: string,
                        profile: Option<Profile>, friendships: seq<Friendship>): (r: Reply<seq<InventoryRow>>)
    reads store
    ensures r.status == 200 <==> CanViewInventory(viewerId, ownerId, profile, friendships)
    ensures r.status != 200 ==> r == Failure(403, MSG_NO_PERMISSION)
    ensures r.status == 200 ==> r.success && r.payload.Some?
    ensures r.status == 200 && r.payload.Some? ==>
      forall x :: x in r.payload.value <==> x in store.rows && x.userId == ownerId
  {
    match store.GetUserInventory(viewerId, ownerId, profile, friendships)
    case Ok(rows) => Reply(200, true, None, Some(rows))
    case Err(message) =>
      PermissionErrorIs403();
      Failure(InventoryErrorStatus(message), message)
  }

  /**
   * `syncInventory`: `steamItems` is `None` when the body's field is absent
   * or not an array; then the reply is 400 and the store is untouched.
   */
  method SyncInventory(store: InventoryStore, userId: string, steamItems: Option<seq<string>>,
                       readOk: bool, now: int) returns (r: Reply<SyncReport>)
    modifies store
    ensures steamItems.None? ==> r == Failure(400, MSG_NEED_STEAM_ITEMS) && store.rows == old(store.rows)
    ensures steamItems.Some? ==>
      && r.status == 200 && r.payload.Some?
      && var current := if readOk then GameIdsOf(old(store.rows), userId) else [];
         var added := NewItems(steamItems.value, current);
         store.rows == old(store.rows) + NewRows(userId, added, now)
         && r.payload.value == SyncReport(true, |added|)
  {
    if steamItems.None? {
      return Failure(400, MSG_NEED_STEAM_ITEMS);
    }
    var report := store.SyncWithSteam(userId, steamItems.value, readOk, now);
    r := Reply(200, report.success, None, Some(report));
  }

  /**
   * `sellItem`: a missing item id or a price of zero is refused before the
   * listing service is called; otherwise the reply echoes the listed item
   * with the name and the seller defaulted.
   */
  function SellItem(userId: string, username: Option<string>, itemId: Option<string>, price: Option<real>,
                    listForSale: (string, string, real) -> Result<ListedItem>): (r: Reply<Listing>)
    ensures r.status == 400 <==> itemId.None? || itemId.value == "" || price.None? || price.value == 0.0
    ensures r.status == 400 ==> r == Failure(400, MSG_MISSING_DATA)
    ensures r.status != 400 ==>
      match listForSale(userId, itemId.value, price.value)
      case Ok(item) =>
        r == Reply(200, true, Some(MSG_LISTED), Some(Listing(
               item.id, OrElse(item.name.GetOr(""), DEFAULT_ITEM_NAME), item.listingPrice,
               OrElse(username.GetOr(""), DEFAULT_SELLER), item.listingDate)))
      case Err(message) => r == Failure(500, message)
  {
    if itemId.None? || itemId.value == "" || price.None? || price.value == 0.0 then Failure(400, MSG_MISSING_DATA)
    else
      match listForSale(userId, itemId.value, price.value)
      case Ok(item) =>
        Reply(200, true, Some(MSG_LISTED), Some(Listing(
          item.id, OrElse(item.name.GetOr(""), DEFAULT_ITEM_NAME), item.listingPrice,
          OrElse(username.GetOr(""), DEFAULT_SELLER), item.listingDate)))
      case Err(message) => Failure(500, message)
  }

  /** Only zero is refused as a price: any other amount, negative ones included, reaches the service. */
  lemma SellPassesNonZeroPrices(userId: string, username: Option<string>, itemId: string, price: real,
                                listForSale: (string, string, real) -> Result<ListedItem>)
    requires itemId != "" && price != 0.0
    ensures SellItem(userId, username, Some(itemId), Some(price), listForSale).status in {200, 500}
    ensures SellItem(userId, username, Some(itemId), Some(price), listForSale).status == 200 <==>
      listForSale(userId, itemId, price).Ok?
  {
  }

  /** `cancelListing`: a missing id is refused; otherwise the cancellation's outcome decides 200 or 500. */
  function CancelListing(userId: string, listingId: Option<string>,
                         cancel: (string, string) -> Option<string>): (r: Reply<()>)
    ensures listingId.None? || listingId.value == "" ==> r == Failure(400, MSG_LISTING_ID_REQUIRED)
    ensures listingId.Some? && listingId.value != "" ==>
      if cancel(userId, listingId.value).None? then r == Reply(200, true, Some(MSG_LISTING_CANCELLED), None)
      else r == Failure(500, cancel(userId, listingId.value).value)
  {
    if listingId.None? || listingId.value == "" then Failure(400, MSG_LISTING_ID_REQUIRED)
    else match cancel(userId, listingId.value)
      case None => Reply(200, true, Some(MSG_LISTING_CANCELLED), None)
      case Some(message) => Failure(500, message)
  }

  /** `getMarketListings` and `getActiveTrades`: 200 with the service's list, or 500 with its message. */
  function ListReply<T>(outcome: Result<T>): (r: Reply<T>)
    ensures r.status == 200 <==> outcome.Ok?
    ensures outcome.Ok? ==> r.success && r.payload == Some(outcome.value)
    ensures outcome.Err? ==> r == Failure(500, outcome.message)
  {
    match outcome
    case Ok(v) => Reply(200, true, None, Some(v))
    case Err(message) => Failure(500, message)
  }

  /**
   * `purchaseItem`: an absent or empty listing id, then a malformed one, is
   * refused before the purchase service is called; a failed purchase is
   * classified by its message.
   */
  function PurchaseItem(buyerId: string, listingId: Option<string>,
                        purchase: (string, string) -> Result<PurchaseResult>): (r: Reply<PurchaseData>)
    ensures listingId.None? || listingId.value == "" ==> r == Failure(400, MSG_PURCHASE_ID_REQUIRED)
    ensures listingId.Some? && listingId.value != "" && !IsUuid(listingId.value) ==>
      r == Failure(400, MSG_BAD_ID_FORMAT)
    ensures r.status == 200 <==>
      listingId.Some? && IsUuid(listingId.value) && purchase(buyerId, listingId.value).Ok?
    ensures listingId.Some? && IsUuid(listingId.value) ==>
      match purchase(buyerId, listingId.value)
      case Ok(p) => r == Reply(200, true, Some(p.message),
                              Some(PurchaseData(p.itemName, p.pricePaid, p.newBalance, p.transactionId)))
      case Err(message) => r == Failure(PurchaseErrorStatus(message), message)
  {
    if listingId.None? || listingId.value == "" then Failure(400, MSG_PURCHASE_ID_REQUIRED)
    else if !IsUuid(listingId.value) then Failure(400, MSG_BAD_ID_FORMAT)
    else match purchase(buyerId, listingId.value)
      case Ok(p) => Reply(200, true, Some(p.message),
                          Some(PurchaseData(p.itemName, p.pricePaid, p.newBalance, p.transactionId)))
      case Err(message) => Failure(PurchaseErrorStatus(message), message)
  }

  /** A request the checks refuse gets the same reply whatever the purchase service would do: it is never asked. */
  lemma PurchaseRefusedWithoutService(buyerId: string, listingId: Option<string>,
                                      p1: (string, string) -> Result<PurchaseResult>,
                                      p2: (string, string) -> Result<PurchaseResult>)
    requires listingId.None? || !IsUuid(listingId.value)
    ensures PurchaseItem(buyerId, listingId, p1) == PurchaseItem(buyerId, listingId, p2)
    ensures PurchaseItem(buyerId, listingId, p1).status == 400
  {
  }
}
