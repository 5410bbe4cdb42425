/**
 * The developer price-change policy: `updateGamePrice` checks, in this order,
 * the price range, ownership, the `Approved` status and a 30-day cooldown,
 * then writes the new price and the change time; `getDeveloperGames` lists a
 * developer's approved games with a `canUpdate` flag for the same cooldown.
 * Prices are `real`, and a request's price is `None` when the field is absent;
 * times are milliseconds since the epoch.
 */
module PriceController {
  import opened Outcomes

  const MIN_PRICE: real := 0.0
  const MAX_PRICE: real := 1000.0
  const DAY_MS: int := 86400000
  const COOLDOWN_DAYS: int := 30
  const STATUS_APPROVED: string := "Approved"

  const MSG_RANGE: string := "El precio debe estar entre $0 y $1000 USD"
  const MSG_NOT_OWNER: string := "No tienes permiso sobre esta aplicación"
  const MSG_NOT_APPROVED: string := "Solo se pueden editar precios de juegos aprobados"
  const MSG_COOLDOWN: string := "Debes esperar 30 días entre cambios de precio"
  const MSG_UPDATED: string := "Precio actualizado correctamente"
  const MSG_NO_GAMES: string := "No se encontraron aplicaciones aprobadas para este desarrollador."

  /** A row of the games table; `lastPriceChange` is `None` for a `null` column. */
  datatype Game = Game(id: string, ownerId: string, name: string, price: real,
                       lastPriceChange: Option<int>, status: string)

  /** An HTTP status with the `error` or `message` text of the JSON body. */
  datatype Reply = Reply(status: int, message: string)

  /** One entry of the developer's game list. */
  datatype GameSummary = GameSummary(id: string, name: string, currentPrice: real,
                                     lastUpdate: Option<int>, canUpdate: bool)

  /** The developer game list response. */
  datatype GamesReply = GamesReply(status: int, games: seq<GameSummary>, message: Option<string>)

  /** `new Date(game.last_price_change)`: a `null` column reads as the epoch. */
  function LastChangeMs(g: Game): int {
    g.lastPriceChange.GetOr(0)
  }

  /** `(now - last) / (1000 * 60 * 60 * 24) >= 30`, a division over fractional days. */
  predicate CooldownOver(now: int, last: int) {
    (now - last) as real / DAY_MS as real >= COOLDOWN_DAYS as real
  }

  /** The cooldown is over exactly when thirty full days of milliseconds have passed. */
  lemma CooldownOverIff(now: int, last: int)
    ensures CooldownOver(now, last) <==> now - last >= COOLDOWN_DAYS * DAY_MS
  {
    var d := (now - last) as real / DAY_MS as real;
    assert d * DAY_MS as real == (now - last) as real;
  }

  /** Exactly thirty days after a change is allowed; one millisecond earlier is not. */
  lemma CooldownBoundary(last: int)
    ensures CooldownOver(last + COOLDOWN_DAYS * DAY_MS, last)
    ensures !CooldownOver(last + COOLDOWN_DAYS * DAY_MS - 1, last)
  {
    CooldownOverIff(last + COOLDOWN_DAYS * DAY_MS, last);
    CooldownOverIff(last + COOLDOWN_DAYS * DAY_MS - 1, last);
  }

  /**
   * `newPrice < 0 || newPrice > 1000` is false: both comparisons are false for
   * an absent price (`undefined`), so it passes the range test.
   */
  predicate PassesRange(newPrice: Option<real>) {
    newPrice.None? || MIN_PRICE <= newPrice.value <= MAX_PRICE
  }

  /**
   * The guard chain of `updateGamePrice` for the looked-up game (`None` when
   * the lookup found no single row): the reply, 200 when the update may go ahead.
   */
  function PriceCheck(game: Option<Game>, userId: string, newPrice: Option<real>, now: int): (r: Reply)
    // the range is checked first, whatever the game
    ensures !PassesRange(newPrice) ==> r == Reply(400, MSG_RANGE)
    // the update is allowed exactly when every condition holds
    ensures r.status == 200 <==>
      && PassesRange(newPrice)
      && game.Some? && game.value.ownerId == userId
      && game.value.status == STATUS_APPROVED
      && CooldownOver(now, LastChangeMs(game.value))
    ensures r.status in {200, 400, 403}
  {
    if !PassesRange(newPrice) then Reply(400, MSG_RANGE)
    else if game.None? || game.value.ownerId != userId then Reply(403, MSG_NOT_OWNER)
    else if game.value.status != STATUS_APPROVED then Reply(400, MSG_NOT_APPROVED)
    else if !CooldownOver(now, LastChangeMs(game.value)) then Reply(403, MSG_COOLDOWN)
    else Reply(200, MSG_UPDATED)
  }

  /** Which refusal a valid-price request gets, in the order the checks run. */
  lemma PriceCheckOrder(game: Option<Game>, userId: string, newPrice: Option<real>, now: int)
    requires PassesRange(newPrice)
    ensures (game.None? || game.value.ownerId != userId) ==>
      PriceCheck(game, userId, newPrice, now) == Reply(403, MSG_NOT_OWNER)
    ensures game.Some? && game.value.ownerId == userId && game.value.status != STATUS_APPROVED ==>
      PriceCheck(game, userId, newPrice, now) == Reply(400, MSG_NOT_APPROVED)
    ensures game.Some? && game.value.ownerId == userId && game.value.status == STATUS_APPROVED
            && now - LastChangeMs(game.value) < COOLDOWN_DAYS * DAY_MS ==>
      PriceCheck(game, userId, newPrice, now) == Reply(403, MSG_COOLDOWN)
  {
    if game.Some? {
      CooldownOverIff(now, LastChangeMs(game.value));
    }
  }

  /** Both ends of the price range are accepted. */
  lemma PriceBoundsInclusive(game: Game, now: int)
    requires game.status == STATUS_APPROVED && CooldownOver(now, LastChangeMs(game))
    ensures PriceCheck(Some(game), game.ownerId, Some(MIN_PRICE), now).status == 200
    ensures PriceCheck(Some(game), game.ownerId, Some(MAX_PRICE), now).status == 200
  {
  }

  /**
   * A request without a price gets exactly the reply of a request with any
   * in-range price: it is not refused by the range check.
   */
  lemma AbsentPriceActsInRange(game: Option<Game>, userId: string, price: real, now: int)
    requires MIN_PRICE <= price <= MAX_PRICE
    ensures PriceCheck(game, userId, None, now) == PriceCheck(game, userId, Some(price), now)
  {
  }

  /**
   * The games table after a successful update: that game's price and change
   * time. An absent price is dropped from the JSON update, so the stored price stays.
   */
  function WithNewPrice(games: seq<Game>, appId: string, newPrice: Option<real>, now: int): (r: seq<Game>)
    ensures |r| == |games|
    ensures forall k :: 0 <= k < |games| && games[k].id != appId ==> r[k] == games[k]
    ensures forall k :: 0 <= k < |games| && games[k].id == appId && newPrice.Some? ==>
      r[k] == games[k].(price := newPrice.value, lastPriceChange := Some(now))
    ensures forall k :: 0 <= k < |games| && games[k].id == appId && newPrice.None? ==>
      r[k] == games[k].(lastPriceChange := Some(now))
  {
    seq(|games|, k requires 0 <= k < |games| =>
      if games[k].id == appId then games[k].(price := newPrice.GetOr(games[k].price), lastPriceChange := Some(now))
      else games[k])
  }

  /**
   * An accepted request without a price restarts the game's cooldown while
   * its price stays: every price is unchanged and the game can no longer be
   * updated for thirty days.
   */
  lemma AbsentPriceRestartsCooldown(games: seq<Game>, appId: string, now: int)
    ensures forall k :: 0 <= k < |games| ==> WithNewPrice(games, appId, None, now)[k].price == games[k].price
    ensures forall k :: 0 <= k < |games| && games[k].id == appId ==>
      !CooldownOver(now + COOLDOWN_DAYS * DAY_MS - 1, LastChangeMs(WithNewPrice(games, appId, None, now)[k]))
  {
    forall k | 0 <= k < |games| && games[k].id == appId
      ensures !CooldownOver(now + COOLDOWN_DAYS * DAY_MS - 1, LastChangeMs(WithNewPrice(games, appId, None, now)[k]))
    {
      CooldownBoundary(now);
    }
  }

  /** `.eq('id', appId).single()`: the row with that id, if there is one. */
  function FindGame(games: seq<Game>, appId: string): (g: Option<Game>)
    ensures g.Some? ==> g.value in games && g.value.id == appId
    ensures g.None? ==> forall k :: 0 <= k < |games| ==> games[k].id != appId
  {
    if games == [] then None
    else if games[0].id == appId then Some(games[0])
    else FindGame(games[1..], appId)
  }

  /** `.eq('owner_id', userId).eq('status', 'Approved')`, in table order. */
  function DeveloperGames(games: seq<Game>, userId: string): (r: seq<Game>)
    ensures |r| <= |games|
    ensures forall g :: g in r <==> g in games && g.ownerId == userId && g.status == STATUS_APPROVED
  {
    if games == [] then []
    else
      var rest := DeveloperGames(games[1..], userId);
      assert forall g :: g in games <==> g == games[0] || g in games[1..];
      if games[0].ownerId == userId && games[0].status == STATUS_APPROVED then [games[0]] + rest else rest
  }

  /** Selecting the developer's games keeps the table order: it distributes over concatenation. */
  lemma {:induction false} DeveloperGamesAppend(a: seq<Game>, b: seq<Game>, userId: string)
    ensures DeveloperGames(a + b, userId) == DeveloperGames(a, userId) + DeveloperGames(b, userId)
  {
    if a != [] {
      assert (a + b)[0] == a[0] && (a + b)[1..] == a[1..] + b;
      DeveloperGamesAppend(a[1..], b, userId);
    } else {
      assert a + b == b;
    }
  }

  /** One list entry; `canUpdate` is the cooldown test at `now`. */
  function Summary(g: Game, now: int): GameSummary {
    GameSummary(g.id, g.name, g.price, g.lastPriceChange, CooldownOver(now, LastChangeMs(g)))
  }

  /**
   * The `canUpdate` flag a developer sees agrees with what the update would
   * do: for an approved game the developer owns and a price in range, the
   * update is allowed exactly when the flag is set.
   */
  lemma CanUpdateAgreesWithPriceCheck(g: Game, newPrice: Option<real>, now: int)
    requires g.status == STATUS_APPROVED && PassesRange(newPrice)
    ensures Summary(g, now).canUpdate <==> PriceCheck(Some(g), g.ownerId, newPrice, now).status == 200
  {
  }

  /** The games table. Ids are the table's primary key. */
  class GamesTable {
    var games: seq<Game>

    ghost predicate Valid()
      reads this
    {
      forall i, j :: 0 <= i < j < |games| ==> games[i].id != games[j].id
    }

    constructor (games: seq<Game>)
      requires forall i, j :: 0 <= i < j < |games| ==> games[i].id != games[j].id
      ensures Valid() && this.games == games
    {
      this.games := games;
    }

    /**
     * `updateGamePrice`: the reply of the guard chain; the table changes only
     * when it is 200, and then only that game's price and change time.
     */
    method UpdateGamePrice(appId: string, newPrice: Option<real>, userId: string, now: int) returns (reply: Reply)
      requires Valid()
      modifies this
      ensures Valid()
      ensures reply == PriceCheck(FindGame(old(games), appId), userId, newPrice, now)
      ensures games == if reply.status == 200 then WithNewPrice(old(games), appId, newPrice, now)
                       else old(games)
    {
      reply := PriceCheck(FindGame(games, appId), userId, newPrice, now);
      if reply.status == 200 {
        games := WithNewPrice(games, appId, newPrice, now);
      }
    }

    /**
     * `getDeveloperGames`: the approved games the developer owns, in table
     * order, each with its cooldown flag; an empty list carries a message.
     */
    function GetDeveloperGames(userId: string, now: int): (r: GamesReply)
      reads this
      ensures r.status == 200
      ensures |r.games| == |DeveloperGames(games, userId)|
      ensures forall k :: 0 <= k < |r.games| ==>
        r.games[k] == Summary(DeveloperGames(games, userId)[k], now)
      ensures r.games == [] <==> r.message == Some(MSG_NO_GAMES)
    {
      var mine := DeveloperGames(games, userId);
      if |mine| == 0 then GamesReply(200, [], Some(MSG_NO_GAMES))
      else GamesReply(200, seq(|mine|, k requires 0 <= k < |mine| => Summary(mine[k], now)), None)
    }
  }
}
