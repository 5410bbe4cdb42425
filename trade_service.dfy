/**
 * The trade service: the five trade statuses, the guarded status update on
 * the trade table, the "an expired trade stays expired" transition check, the
 * seven-day expiry of a new trade, and how the results of the database
 * procedures behind accepting and cancelling are turned into errors.
 * The procedures themselves are parameters: their bodies are not part of
 * this model.
 */
module TradeService {
  import opened Outcomes

  const PENDING: string := "Pendiente"
  const ACCEPTED: string := "Aceptada"
  const REJECTED: string := "Rechazada"
  const EXPIRED: string := "Expirada"
  const CANCELLED: string := "Cancelada"

  /** `Object.values(ALLOWED_STATUSES)`, in declaration order. */
  const ALLOWED_STATUSES: seq<string> := [PENDING, ACCEPTED, REJECTED, EXPIRED, CANCELLED]

  const MSG_INVALID_STATUS: string :=
    "Estado inválido. Los estados permitidos son: Pendiente, Aceptada, Rechazada, Expirada, Cancelada"
  const MSG_EXPIRED_IS_FINAL: string := "No se puede cambiar el estado de un item expirado"
  const MSG_UPDATED_PREFIX: string := "Estado actualizado a: "
  const MSG_TRADE_CREATED: string := "Oferta de intercambio creada exitosamente"

  /** Milliseconds in a day, and the lifetime a new trade is given. */
  const DAY_MS: int := 86400000
  const TRADE_LIFETIME_DAYS: int := 7

  /** A row of the trade table (the joined item and user columns are not modelled). */
  datatype Trade = Trade(offererId: string, itemId: string, status: string, expiresAt: int, updatedAt: int)

  /** What `updateTradeStatus` returns: the updated rows (none for an unknown id). */
  datatype UpdateReport = UpdateReport(success: bool, data: seq<Trade>, message: string)

  /** What `validateStatusTransition` returns when it does not throw. */
  datatype TransitionCheck = TransitionCheck(currentStatus: string, newStatus: string, isValid: bool)

  /** The `data` object the accept and cancel procedures answer with. */
  datatype RpcPayload = RpcPayload(success: bool, message: string)

  /** The arguments `postTrade` passes to `create_trade_and_lock_item`. */
  datatype CreateTradeArgs = CreateTradeArgs(offererId: string, itemId: string, expiryDate: int)

  /** What `postTrade` returns on success. */
  datatype PostTradeReport = PostTradeReport(success: bool, data: string, message: string)

  // ---------------------------------------------------------------------
  // Status vocabulary
  // ---------------------------------------------------------------------

  /** `isValidStatus`: one of the five allowed strings. */
  predicate IsValidStatus(status: string) {
    status in ALLOWED_STATUSES
  }

  /** The five statuses are pairwise distinct, so the vocabulary has exactly five members. */
  lemma StatusVocabulary()
    ensures |ALLOWED_STATUSES| == 5
    ensures forall i, j :: 0 <= i < j < |ALLOWED_STATUSES| ==> ALLOWED_STATUSES[i] != ALLOWED_STATUSES[j]
    ensures forall s :: IsValidStatus(s) <==>
      s == PENDING || s == ACCEPTED || s == REJECTED || s == EXPIRED || s == CANCELLED
  {
  }

  /**
   * `validateStatusTransition`, with the current status as a parameter (the
   * lookup it calls, `getCurrentStatus`, is not defined in the trade service).
   * Only leaving `Expirada` is refused; the new status is not otherwise checked.
   */
  function ValidateStatusTransition(currentStatus: string, newStatus: string): (r: Result<TransitionCheck>)
    ensures r.Err? <==> currentStatus == EXPIRED && newStatus != EXPIRED
    ensures r.Err? ==> r.message == MSG_EXPIRED_IS_FINAL
    ensures r.Ok? ==> r.value == TransitionCheck(currentStatus, newStatus, true)
  {
    if currentStatus == EXPIRED && newStatus != EXPIRED then Err(MSG_EXPIRED_IS_FINAL)
    else Ok(TransitionCheck(currentStatus, newStatus, true))
  }

  /** Every move between two valid statuses is accepted except out of `Expirada`. */
  lemma OnlyExpiredIsSticky(from: string, to: string)
    requires IsValidStatus(from) && IsValidStatus(to)
    ensures ValidateStatusTransition(from, to).Ok? <==> from != EXPIRED || to == EXPIRED
  {
  }

  // ---------------------------------------------------------------------
  // Creating a trade, and the results of the database procedures
  // ---------------------------------------------------------------------

  /** `expiryDate.setDate(expiryDate.getDate() + 7)`, on millisecond timestamps. */
  function ExpiryDate(now: int): (expiry: int)
    ensures expiry > now
    ensures (expiry - now) / DAY_MS == TRADE_LIFETIME_DAYS && (expiry - now) % DAY_MS == 0
  {
    now + TRADE_LIFETIME_DAYS * DAY_MS
  }

  /**
   * `postTrade`: asks the creation procedure (`createTrade`) for a trade that
   * expires seven days from `now`; its error is rethrown, its data returned.
   */
  function PostTrade(offererId: string, itemId: string, now: int,
                     createTrade: CreateTradeArgs -> Result<string>): (r: Result<PostTradeReport>)
    ensures var call := createTrade(CreateTradeArgs(offererId, itemId, ExpiryDate(now)));
      && (r.Ok? <==> call.Ok?)
      && (r.Ok? ==> r.value == PostTradeReport(true, call.value, MSG_TRADE_CREATED))
      && (r.Err? ==> r.message == call.message)
  {
    match createTrade(CreateTradeArgs(offererId, itemId, ExpiryDate(now)))
    case Ok(data) => Ok(PostTradeReport(true, data, MSG_TRADE_CREATED))
    case Err(m) => Err(m)
  }

  /**
   * How `acceptTrade` and `cancelTradeById` read a procedure's answer: a call
   * error is rethrown, a payload without `success` becomes an error carrying the
   * payload's message, and a successful payload is returned unchanged.
   */
  function SettleProcedure(call: Result<RpcPayload>): (r: Result<RpcPayload>)
    ensures r.Ok? <==> call.Ok? && call.value.success
    ensures r.Ok? ==> r.value == call.value
    ensures r.Err? ==> r.message == (if call.Err? then call.message else call.value.message)
  {
    match call
    case Err(m) => Err(m)
    case Ok(data) => if !data.success then Err(data.message) else Ok(data)
  }

  /** `acceptTrade`: the `accept_trade` procedure's answer, settled. */
  function AcceptTrade(offerId: string, acceptProc: string -> Result<RpcPayload>): (r: Result<RpcPayload>)
    ensures r.Ok? <==> acceptProc(offerId).Ok? && acceptProc(offerId).value.success
    ensures r.Ok? ==> r == acceptProc(offerId)
    ensures acceptProc(offerId).Err? ==> r == acceptProc(offerId)
    ensures acceptProc(offerId).Ok? && !acceptProc(offerId).value.success ==>
      r == Err(acceptProc(offerId).value.message)
  {
    SettleProcedure(acceptProc(offerId))
  }

  /** `cancelTradeById`: the `cancel_trade_by_id` procedure's answer, settled the same way. */
  function CancelTradeById(tradeId: string, cancelProc: string -> Result<RpcPayload>): (r: Result<RpcPayload>)
    ensures r.Ok? <==> cancelProc(tradeId).Ok? && cancelProc(tradeId).value.success
    ensures r.Ok? ==> r == cancelProc(tradeId)
    ensures cancelProc(tradeId).Err? ==> r == cancelProc(tradeId)
    ensures cancelProc(tradeId).Ok? && !cancelProc(tradeId).value.success ==>
      r == Err(cancelProc(tradeId).value.message)
  {
    SettleProcedure(cancelProc(tradeId))
  }

  // ---------------------------------------------------------------------
  // The trade table
  // ---------------------------------------------------------------------

  /** The table after a status update of `id` at time `now`: that row only. */
  function WithStatus(trades: map<string, Trade>, id: string, status: string, now: int): (t: map<string, Trade>)
    ensures t.Keys == trades.Keys
    ensures forall k :: k in trades && k != id ==> t[k] == trades[k]
    ensures id in trades ==> t[id] == trades[id].(status := status, updatedAt := now)
  {
    if id in trades then trades[id := trades[id].(status := status, updatedAt := now)] else trades
  }

  /**
   * The update path writes any valid status over any other, so it can take a
   * trade out of `Expirada`, the move `validateStatusTransition` refuses.
   */
  lemma UpdateIgnoresTransitionRule(trades: map<string, Trade>, id: string, now: int)
    requires id in trades && trades[id].status == EXPIRED
    ensures WithStatus(trades, id, PENDING, now)[id].status == PENDING
    ensures ValidateStatusTransition(trades[id].status, PENDING).Err?
  {
  }

  /** The trades `getAllActiveTrades` selects: those whose status is `Pendiente`. */
  function ActiveTrades(trades: map<string, Trade>): (active: map<string, Trade>)
    ensures forall id :: id in active <==> id in trades && trades[id].status == PENDING
    ensures forall id :: id in active ==> active[id] == trades[id]
  {
    map id | id in trades && trades[id].status == PENDING :: trades[id]
  }

  /** A status update moves a trade into or out of the active set, and no other. */
  lemma ActiveAfterUpdate(trades: map<string, Trade>, id: string, status: string, now: int, other: string)
    requires other != id
    ensures other in ActiveTrades(WithStatus(trades, id, status, now)) <==> other in ActiveTrades(trades)
    ensures id in trades ==> (id in ActiveTrades(WithStatus(trades, id, status, now)) <==> status == PENDING)
  {
  }

  class TradeTable {
    var trades: map<string, Trade>

    constructor (trades: map<string, Trade>)
      ensures this.trades == trades
    {
      this.trades := trades;
    }

    /**
     * `updateTradeStatus`: an invalid status is refused before any write;
     * a valid one is written, with the update time, on the row with that id
     * (an unknown id updates nothing and still reports success).
     */
    method UpdateTradeStatus(id: string, newStatus: string, now: int) returns (r: Result<UpdateReport>)
      modifies this
      ensures !IsValidStatus(newStatus) ==> r == Err(MSG_INVALID_STATUS) && trades == old(trades)
      ensures IsValidStatus(newStatus) ==>
        && trades == WithStatus(old(trades), id, newStatus, now)
        && r.Ok? && r.value.success && r.value.message == MSG_UPDATED_PREFIX + newStatus
        && r.value.data == (if id in old(trades) then [trades[id]] else [])
    {
      if !IsValidStatus(newStatus) {
        return Err(MSG_INVALID_STATUS);
      }
      var data: seq<Trade> := [];
      if id in trades {
        trades := trades[id := trades[id].(status := newStatus, updatedAt := now)];
        data := [trades[id]];
      }
      r := Ok(UpdateReport(true, data, MSG_UPDATED_PREFIX + newStatus));
    }

    /** `setPendingStatus`: succeeds whatever the trade's current status. */
    method SetPendingStatus(id: string, now: int) returns (r: Result<UpdateReport>)
      modifies this
      ensures r.Ok? && trades == WithStatus(old(trades), id, PENDING, now)
    {
      r := UpdateTradeStatus(id, PENDING, now);
    }

    /** `setAcceptedStatus`. */
    method SetAcceptedStatus(id: string, now: int) returns (r: Result<UpdateReport>)
      modifies this
      ensures r.Ok? && trades == WithStatus(old(trades), id, ACCEPTED, now)
    {
      r := UpdateTradeStatus(id, ACCEPTED, now);
    }

    /** `setRejectedStatus`. */
    method SetRejectedStatus(id: string, now: int) returns (r: Result<UpdateReport>)
      modifies this
      ensures r.Ok? && trades == WithStatus(old(trades), id, REJECTED, now)
    {
      r := UpdateTradeStatus(id, REJECTED, now);
    }

    /** `setExpiredStatus`. */
    method SetExpiredStatus(id: string, now: int) returns (r: Result<UpdateReport>)
      modifies this
      ensures r.Ok? && trades == WithStatus(old(trades), id, EXPIRED, now)
    {
      r := UpdateTradeStatus(id, EXPIRED, now);
    }

    /** `setCalcelStatus` (sic). */
    method SetCancelStatus(id: string, now: int) returns (r: Result<UpdateReport>)
      modifies this
      ensures r.Ok? && trades == WithStatus(old(trades), id, CANCELLED, now)
    {
      r := UpdateTradeStatus(id, CANCELLED, now);
    }

    /** `getAllActiveTrades`. */
    function GetAllActiveTrades(): (active: map<string, Trade>)
      reads this
      ensures forall id :: id in active ==> id in trades && active[id] == trades[id] && active[id].status == PENDING
      ensures forall id :: id in trades && trades[id].status == PENDING ==> id in active
    {
      ActiveTrades(trades)
    }
  }
}
