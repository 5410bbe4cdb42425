# Marketplace back office and developer pages: a Dafny model

This project models the decision procedures and record updates of a game marketplace. The marketplace has an Express/Supabase back end and React developer pages. The model covers:

- **Bearer authentication** (`AuthMiddleware`): how `requireAuth` and `optionalAuth` read the `Authorization` header, extract the token and attach the resolved user to the request.
- **Inventory access and Steam sync** (`InventoryService`): the owner / privacy / friendship chain of `canViewInventory`, the permission guard of `getUserInventory`, and the new-item difference that `syncWithSteam` inserts.
- **Trades** (`TradeService`): the five statuses, the guarded status update on the trade table, the rule that an expired trade stays expired, the seven-day expiry of a new trade, and how the answers of the accept and cancel procedures become errors.
- **Inventory HTTP handlers** (`InventoryController`): required-field checks, the anchored UUID check, and the mapping of error text to 402 / 409 / 400 / 500 and 403 / 500.
- **Administrator MFA** (`MfaService`): the per-admin record of secret, enabled flag and backup codes. This covers setup, enabling, login verification with single-use backup codes, disabling, status, and generating backup codes in a loop.
- **Developer price changes** (`PriceController`): the range, ownership, `Approved` and 30-day cooldown checks in their order, the update of price and change time, and the developer's game list with its `canUpdate` flag.
- **Game selector** (`GameSelector`): the floor-of-days lock on each option, its label, and a proof that this lock agrees with the server's cooldown.
- **Store configuration page** (`StoreConfig`): tag normalisation, the empty / duplicate / ten-tag checks, removal, the local app cache, and the review-state badge.
- **Game-key page** (`GameKeys`): remaining keys, the quantity check, the per-game counters refreshed after each load, and the deactivation dialog.

`Outcomes` holds `Option` and `Result`. `Strings` holds the JavaScript string operations the code relies on: `startsWith`, `includes`, `trim`, `toLowerCase`, `split`/`join`, and number-to-text conversion.

Everything outside the code is a parameter:

- database lookups become `Option` values or function parameters;
- database procedures and services become `Result`-valued functions;
- TOTP checking is the function `totp(secret, token)`;
- each `Math.random()` draw is a `real` in `[0, 1)`;
- the clock is `now`, in milliseconds since the epoch.

Objects whose fields the code rewrites are classes, with methods that state their whole new state: the request, the inventory, trade, games and MFA tables, and the two page states. The pure decision procedures are functions.

Modelling decisions where the code is the authority:

- **Friendship lookup.** The friendship query ends in `.single()`, so Supabase returns a row only when exactly one row matches. `Friends` access is therefore granted only when exactly one accepted row links the pair. Two such rows (one per direction) deny access.
- **Current status.** `validateStatusTransition` calls `this.getCurrentStatus`, which the trade service does not define. As written, every call therefore rejects with a `TypeError` before any check runs. The model is the check as intended, with the current status as a parameter.
- **Sync read failure.** When the read of current items fails in `syncWithSteam`, the current ids fall back to `[]`, so every incoming id is inserted.
- **Selector timestamp.** The game selector measures from `updated_at`, while the server measures from `last_price_change`. Their agreement (`GameSelector.LockedAgreesWithServer`) is proved for the same timestamp.

## Model

| member | source | states |
|---|---|---|
| AuthMiddleware.BearerToken | backend/src/shared/middleware/authMiddleware.js:10-17 | a token exists iff the header is present and starts with `Bearer `; it is the text after the prefix up to the next space |
| AuthMiddleware.BearerTokenOf | backend/src/shared/middleware/authMiddleware.js:17 | `Bearer <t>` yields `t` for any space-free `t` |
| AuthMiddleware.BearerTokenAccepts | backend/src/shared/middleware/authMiddleware.js:17 | `Bearer abc` gives `abc`, `Bearer ` gives the empty token |
| AuthMiddleware.BearerTokenStopsAtSpace | backend/src/shared/middleware/authMiddleware.js:17 | only the second space-separated field is the token |
| AuthMiddleware.BearerTokenRejects | backend/src/shared/middleware/authMiddleware.js:10-15 | lower-case `bearer`, a prefix without its space and a missing header give no token |
| AuthMiddleware.RequireAuth | backend/src/shared/middleware/authMiddleware.js:6-39 | 401 without a Bearer token or when the token does not resolve, 500 when the provider call throws; `next` only with the user attached |
| AuthMiddleware.OptionalAuth | backend/src/shared/middleware/authMiddleware.js:44-59 | always `next`; the user is set only when a Bearer token resolves, otherwise the request is unchanged |
| InventoryService.AcceptedLinks | backend/src/features/inventory/services/inventoryService.js:31-36 | exactly the accepted rows linking the pair, in either order |
| InventoryService.AcceptedLinksSymmetric | backend/src/features/inventory/services/inventoryService.js:34 | the friendship filter does not depend on which user is the viewer |
| InventoryService.AreFriendsSymmetric | backend/src/features/inventory/services/inventoryService.js:31-38 | the friendship test is symmetric |
| InventoryService.AreFriendsOneRow | backend/src/features/inventory/services/inventoryService.js:31-38 | a single accepted row for the pair makes them friends |
| InventoryService.NoLinks | backend/src/features/inventory/services/inventoryService.js:31-38 | without an accepted row the filter is empty |
| InventoryService.CanViewInventory | backend/src/features/inventory/services/inventoryService.js:10-42 | owner always allowed; missing profile denied; otherwise allowed only by `Public`, or by `Friends` with a present viewer who is a friend |
| InventoryService.CanViewByPrivacy | backend/src/features/inventory/services/inventoryService.js:24-41 | `Public` allows, `Private` denies, `Friends` needs a present friend, any other value denies |
| InventoryService.FriendsAccessIsMutual | backend/src/features/inventory/services/inventoryService.js:27-38 | under `Friends`, A may see B's inventory iff B may see A's |
| InventoryService.RowsOf | backend/src/features/inventory/services/inventoryService.js:56-66 | exactly the rows whose `user_id` is the owner |
| InventoryService.RowsOfAppend | backend/src/features/inventory/services/inventoryService.js:56-66 | the selection distributes over concatenation, so the table order is kept |
| InventoryService.GameIdsOf | backend/src/features/inventory/services/inventoryService.js:81-86 | exactly the game ids the user owns |
| InventoryService.GameIdsOfAppend | backend/src/features/inventory/services/inventoryService.js:86 | the owned-id list of two tables in a row is the concatenation of theirs |
| InventoryService.NewItems | backend/src/features/inventory/services/inventoryService.js:92 | exactly the incoming ids that are not already owned |
| InventoryService.NewRows | backend/src/features/inventory/services/inventoryService.js:97-101 | one row per new id, for that user, stamped `now`, in order |
| InventoryService.GameIdsOfNewRows | backend/src/features/inventory/services/inventoryService.js:97-101 | the inserted rows carry exactly the new ids |
| InventoryService.SyncInsertsOnlyMissing | backend/src/features/inventory/services/inventoryService.js:92-103 | every inserted row belongs to the user and names an incoming id the user did not own |
| InventoryService.SyncAgainInsertsNothing | backend/src/features/inventory/services/inventoryService.js:88-111 | a second sync with the same ids inserts nothing |
| InventoryService.NewItemsAllKnown | backend/src/features/inventory/services/inventoryService.js:92 | when every incoming id is owned, nothing is new |
| InventoryService.InventoryStore.GetUserInventory | backend/src/features/inventory/services/inventoryService.js:49-71 | the permission error exactly when access is denied; otherwise exactly the owner's rows |
| InventoryService.InventoryStore.SyncWithSteam | backend/src/features/inventory/services/inventoryService.js:78-112 | appends exactly the rows for the new ids; existing rows stay; `syncedCount` is their number and is 0 iff nothing was written |
| TradeService.StatusVocabulary | backend/src/features/inventory/services/tradeService.js:3-14 | five pairwise distinct statuses; `isValidStatus` holds exactly for them |
| TradeService.ValidateStatusTransition | backend/src/features/inventory/services/tradeService.js:168-181 | refused iff leaving `Expirada`; otherwise reports the pair as valid |
| TradeService.OnlyExpiredIsSticky | backend/src/features/inventory/services/tradeService.js:173-178 | among valid statuses, every move is accepted except out of `Expirada` |
| TradeService.ExpiryDate | backend/src/features/inventory/services/tradeService.js:70-71 | expiry is exactly seven days of milliseconds after `now` |
| TradeService.PostTrade | backend/src/features/inventory/services/tradeService.js:66-89 | asks the creation procedure for a trade expiring seven days out; its error is rethrown, its data returned |
| TradeService.SettleProcedure | backend/src/features/inventory/services/tradeService.js:97-103 | success iff the call succeeded with `success` set; then the payload unchanged, else the error or the payload's message |
| TradeService.AcceptTrade | backend/src/features/inventory/services/tradeService.js:91-108 | succeeds iff the procedure answered with `success`, returning that payload unchanged; a call error is passed on as is; a failed payload becomes an error with its message |
| TradeService.CancelTradeById | backend/src/features/inventory/services/tradeService.js:127-144 | the same settlement for the cancel procedure: succeeds iff it answered with `success`, with that payload; a call error passes on; a failed payload becomes its message |
| TradeService.WithStatus | backend/src/features/inventory/services/tradeService.js:27-34 | same ids; only the row with that id gets the status and update time |
| TradeService.UpdateIgnoresTransitionRule | backend/src/features/inventory/services/tradeService.js:147-181 | the update path moves an `Expirada` trade back to `Pendiente`, a move the transition check refuses |
| TradeService.ActiveTrades | backend/src/features/inventory/services/tradeService.js:60 | exactly the trades in `Pendiente`, unchanged |
| TradeService.ActiveAfterUpdate | backend/src/features/inventory/services/tradeService.js:27-34 | an update moves only that trade into or out of the active set |
| TradeService.TradeTable.UpdateTradeStatus | backend/src/features/inventory/services/tradeService.js:17-43 | an invalid status is refused with the full message and nothing is written; a valid one is written on that row only |
| TradeService.TradeTable.SetPendingStatus | backend/src/features/inventory/services/tradeService.js:147-149 | writes `Pendiente` whatever the current status |
| TradeService.TradeTable.SetAcceptedStatus | backend/src/features/inventory/services/tradeService.js:151-153 | writes `Aceptada` |
| TradeService.TradeTable.SetRejectedStatus | backend/src/features/inventory/services/tradeService.js:155-157 | writes `Rechazada` |
| TradeService.TradeTable.SetExpiredStatus | backend/src/features/inventory/services/tradeService.js:159-161 | writes `Expirada` |
| TradeService.TradeTable.SetCancelStatus | backend/src/features/inventory/services/tradeService.js:163-165 | writes `Cancelada` |
| TradeService.TradeTable.GetAllActiveTrades | backend/src/features/inventory/services/tradeService.js:48-64 | exactly the table's `Pendiente` trades, each row as stored |
| InventoryController.UuidOfGroups | backend/src/features/inventory/controllers/inventoryController.js:148 | any 8-4-4-4-12 hexadecimal groups joined by dashes are accepted |
| InventoryController.UuidSplitsIntoGroups | backend/src/features/inventory/controllers/inventoryController.js:148 | every accepted id is such groups joined by dashes |
| InventoryController.UuidIgnoresCase | backend/src/features/inventory/controllers/inventoryController.js:148 | the `i` flag: lower-casing never changes the verdict |
| InventoryController.PurchaseErrorStatus | backend/src/features/inventory/controllers/inventoryController.js:172-182 | first match: funds 402; unavailable or sold 409; own item 400; already processed 409; otherwise 500 |
| InventoryController.FundsMessageIs402 | backend/src/features/inventory/controllers/inventoryController.js:173-174 | any message mentioning insufficient funds is 402 |
| InventoryController.SoldMessageIs409 | backend/src/features/inventory/controllers/inventoryController.js:175-177 | "already sold" is 409 unless funds are also mentioned |
| InventoryController.OwnItemMessageIs400 | backend/src/features/inventory/controllers/inventoryController.js:178-179 | "own item" is 400 unless an earlier phrase matches |
| InventoryController.InventoryErrorStatus | backend/src/features/inventory/controllers/inventoryController.js:19 | 403 iff the message contains `permiso`, else 500 |
| InventoryController.PermissionErrorIs403 | backend/src/features/inventory/controllers/inventoryController.js:19 | the service's own permission error maps to 403 |
| InventoryController.GetInventory | backend/src/features/inventory/controllers/inventoryController.js:7-24 | 200 with the owner's rows iff access is allowed, else 403 with the permission message |
| InventoryController.SyncInventory | backend/src/features/inventory/controllers/inventoryController.js:29-50 | a missing or non-array list gives 400 with the store untouched; otherwise the sync's report and rows |
| InventoryController.SellItem | backend/src/features/inventory/controllers/inventoryController.js:55-81 | 400 iff the item id is missing or the price is missing or 0; else the listed item with name defaulting to `Item` and seller to `Tú`, or 500 |
| InventoryController.SellPassesNonZeroPrices | backend/src/features/inventory/controllers/inventoryController.js:60-64 | any non-zero price, negative included, reaches the listing service |
| InventoryController.CancelListing | backend/src/features/inventory/controllers/inventoryController.js:86-104 | 400 without a listing id; else 200 or 500 by the cancellation's outcome |
| InventoryController.ListReply | backend/src/features/inventory/controllers/inventoryController.js:109-128 | 200 with the service's list iff it succeeds, else 500 with its message |
| InventoryController.PurchaseItem | backend/src/features/inventory/controllers/inventoryController.js:134-189 | 400 for a missing id, then for a malformed one; 200 iff the id is well formed and the purchase succeeds; failures classified by message |
| InventoryController.PurchaseRefusedWithoutService | backend/src/features/inventory/controllers/inventoryController.js:140-154 | a refused request gets the same 400 whatever the purchase service would do |
| MfaService.SetupRecord | backend/src/features/mfa/services/mfaService.js:22-40 | new secret stored, MFA off, backup codes cleared |
| MfaService.DisabledRecord | backend/src/features/mfa/services/mfaService.js:165-172 | secret, flag and backup codes all cleared |
| MfaService.SetupSuspendsLogin | backend/src/features/mfa/services/mfaService.js:22-40 | after setup, login codes are refused until MFA is enabled again |
| MfaService.DisabledRejectsLogin | backend/src/features/mfa/services/mfaService.js:122-124 | a disabled record has no secret and refuses every login code |
| MfaService.BackupCodeValue | backend/src/features/mfa/services/mfaService.js:217 | every draw in [0, 1) gives a value in 10000000..99999999 |
| MfaService.BackupCode | backend/src/features/mfa/services/mfaService.js:217 | eight digits without a leading zero that read back as the drawn value |
| MfaService.GenerateBackupCodes | backend/src/features/mfa/services/mfaService.js:213-221 | exactly ten codes, one per draw, each of eight digits |
| MfaService.IndexOf | backend/src/features/mfa/services/mfaService.js:130 | the first position holding the token, or -1 iff it is absent |
| MfaService.RemoveAt | backend/src/features/mfa/services/mfaService.js:133 | drops that one position and keeps the rest in order |
| MfaService.ConsumeTakesOneCopy | backend/src/features/mfa/services/mfaService.js:127-142 | using a backup code removes exactly one copy of it and nothing else |
| MfaService.UniqueCodeSingleUse | backend/src/features/mfa/services/mfaService.js:127-142 | a code stored once cannot be used twice |
| MfaService.MfaStore.GenerateMFASecret | backend/src/features/mfa/services/mfaService.js:9-45 | the admin's record becomes the setup record; `secret` equals `manualEntryKey` |
| MfaService.MfaStore.VerifyAndEnableMFA | backend/src/features/mfa/services/mfaService.js:50-104 | unknown admin, missing secret or rejected code fail and change nothing; success enables MFA and stores and returns the fresh codes |
| MfaService.MfaStore.VerifyTOTP | backend/src/features/mfa/services/mfaService.js:109-158 | fails unless enabled with a secret; a backup code succeeds and loses its first copy; any other token is the TOTP verdict with nothing changed |
| MfaService.MfaStore.DisableMFA | backend/src/features/mfa/services/mfaService.js:163-184 | the admin's record becomes the disabled record |
| MfaService.MfaStore.CheckMFAStatus | backend/src/features/mfa/services/mfaService.js:189-208 | the enabled flag, or an error iff the admin is unknown |
| MfaService.MfaStore.RegenerateBackupCodes | backend/src/features/mfa/services/mfaService.js:226-246 | fresh codes replace only the stored list |
| PriceController.CooldownOverIff | backend/src/features/pricing/controllers/priceController.js:30-35 | the fractional-day test passes iff 30 days of milliseconds have elapsed |
| PriceController.CooldownBoundary | backend/src/features/pricing/controllers/priceController.js:30-35 | exactly 30 days is allowed, one millisecond less is not |
| PriceController.PriceCheck | backend/src/features/pricing/controllers/priceController.js:8-35 | the range is checked first and an absent price passes it; 200 iff the price passes, the game is owned by the caller, `Approved` and out of cooldown |
| PriceController.PriceCheckOrder | backend/src/features/pricing/controllers/priceController.js:20-35 | for a valid price: not owner 403, then not approved 400, then cooldown 403 |
| PriceController.AbsentPriceActsInRange | backend/src/features/pricing/controllers/priceController.js:4-10 | a request without a price gets the same reply as one with any in-range price |
| PriceController.PriceBoundsInclusive | backend/src/features/pricing/controllers/priceController.js:8-10 | both 0 and 1000 are accepted |
| PriceController.WithNewPrice | backend/src/features/pricing/controllers/priceController.js:38-44 | only that game's price and change time are updated; an absent price leaves the stored price |
| PriceController.AbsentPriceRestartsCooldown | backend/src/features/pricing/controllers/priceController.js:37-48 | an accepted request without a price keeps every price but locks the game for another 30 days |
| PriceController.FindGame | backend/src/features/pricing/controllers/priceController.js:14-18 | a game with that id from the table, or none iff no row has it |
| PriceController.DeveloperGames | backend/src/features/pricing/controllers/priceController.js:60-64 | exactly the caller's `Approved` games |
| PriceController.DeveloperGamesAppend | backend/src/features/pricing/controllers/priceController.js:60-64 | the selection distributes over concatenation, so the table order is kept |
| PriceController.CanUpdateAgreesWithPriceCheck | backend/src/features/pricing/controllers/priceController.js:76-82 | the `canUpdate` flag is set iff an in-range update would be accepted |
| PriceController.GamesTable.UpdateGamePrice | backend/src/features/pricing/controllers/priceController.js:3-53 | the guard chain's reply; the table changes only on 200, and then only that game |
| PriceController.GamesTable.GetDeveloperGames | backend/src/features/pricing/controllers/priceController.js:56-88 | status 200, one summary per developer game in order, the message iff the list is empty |
| GameSelector.DaysElapsed | frontend/src/features/prices/components/GameSelector.jsx:15-16 | the floor of elapsed milliseconds over one day |
| GameSelector.LockedIff | frontend/src/features/prices/components/GameSelector.jsx:17 | locked iff fewer than 30 days of milliseconds have elapsed |
| GameSelector.LockedAgreesWithServer | frontend/src/features/prices/components/GameSelector.jsx:15-17 | the selector locks exactly what the server's cooldown refuses |
| GameSelector.DaysLeft | frontend/src/features/prices/components/GameSelector.jsx:21 | at least 1 when locked, at most 30 for a past timestamp |
| GameSelector.DaysLeftInRange | frontend/src/features/prices/components/GameSelector.jsx:21 | a locked app with a past timestamp shows 1..30 days |
| GameSelector.OptionFor | frontend/src/features/prices/components/GameSelector.jsx:14-24 | value is the app id; disabled iff locked; the label carries the days left only when locked |
| GameSelector.Options | frontend/src/features/prices/components/GameSelector.jsx:13-14 | the empty placeholder, then one option per app in order |
| GameSelector.SelectedValue | frontend/src/features/prices/components/GameSelector.jsx:10 | the selected id, or `''` when absent |
| GameSelector.SelectedValueIsAnOption | frontend/src/features/prices/components/GameSelector.jsx:10-24 | a listed or absent selection always names an option |
| StoreConfig.GetEstadoBadge | frontend/src/features/store-config/pages/ConfiguracionTiendaPage.jsx:241-250 | five fixed badges; anything else is grey with the raw text |
| StoreConfig.AddTag | frontend/src/features/store-config/pages/ConfiguracionTiendaPage.jsx:149-168 | normalise, then refuse empty, duplicate, then a full list; else append the normalised tag (so only below 10 tags) |
| StoreConfig.AddTagKeepsTagsOk | frontend/src/features/store-config/pages/ConfiguracionTiendaPage.jsx:151-168 | adding keeps at most ten distinct tags |
| StoreConfig.AddTagSpellingVariant | frontend/src/features/store-config/pages/ConfiguracionTiendaPage.jsx:149-159 | a tag differing only in case or surrounding blanks is a duplicate |
| StoreConfig.RemoveTag | frontend/src/features/store-config/pages/ConfiguracionTiendaPage.jsx:189 | every copy of the tag is gone; every other tag stays |
| StoreConfig.RemoveTagAppend | frontend/src/features/store-config/pages/ConfiguracionTiendaPage.jsx:189 | removal works piece by piece, so the others keep their order |
| StoreConfig.RemoveAbsentTag | frontend/src/features/store-config/pages/ConfiguracionTiendaPage.jsx:189 | removing an absent tag changes nothing |
| StoreConfig.RemoveTagKeepsTagsOk | frontend/src/features/store-config/pages/ConfiguracionTiendaPage.jsx:189 | removal keeps at most ten distinct tags |
| StoreConfig.AddThenRemove | frontend/src/features/store-config/pages/ConfiguracionTiendaPage.jsx:168-189 | removing a just-added tag restores the list |
| StoreConfig.WithTags | frontend/src/features/store-config/pages/ConfiguracionTiendaPage.jsx:174-178 | only the selected app's tags change |
| StoreConfig.WithDescription | frontend/src/features/store-config/pages/ConfiguracionTiendaPage.jsx:136-140 | only the selected app's description changes |
| StoreConfig.FindApp | frontend/src/features/store-config/pages/ConfiguracionTiendaPage.jsx:117 | an app with that id, or none iff no app has it |
| StoreConfig.FindAppFirst | frontend/src/features/store-config/pages/ConfiguracionTiendaPage.jsx:117 | the app found is the first with that id |
| StoreConfig.ReloadSeesSavedTags | frontend/src/features/store-config/pages/ConfiguracionTiendaPage.jsx:117-121 | reloading after a tag save reads back the saved tags |
| StoreConfig.ReloadSeesSavedDescription | frontend/src/features/store-config/pages/ConfiguracionTiendaPage.jsx:117-120 | reloading after a description save reads back the saved text |
| StoreConfig.StorePage.ShowMessage | frontend/src/features/store-config/pages/ConfiguracionTiendaPage.jsx:84-91 | one message shown, the other cleared, nothing else changes |
| StoreConfig.StorePage.CargarDatosAplicacion | frontend/src/features/store-config/pages/ConfiguracionTiendaPage.jsx:114-123 | the selected app's description and tags, defaulting to `''` and `[]`; no change without a selection or match |
| StoreConfig.StorePage.GuardarDescripcion | frontend/src/features/store-config/pages/ConfiguracionTiendaPage.jsx:125-146 | needs a selection; a successful save updates only the selected app's description |
| StoreConfig.StorePage.AgregarEtiqueta | frontend/src/features/store-config/pages/ConfiguracionTiendaPage.jsx:148-184 | on a failed check or save nothing but the message changes; on success the tag is appended, the input cleared and the selected app updated; the tag invariant is kept |
| StoreConfig.StorePage.EliminarEtiqueta | frontend/src/features/store-config/pages/ConfiguracionTiendaPage.jsx:186-204 | after a successful save every copy is removed from the list and from the selected app; the tag invariant is kept |
| GameKeys.OrDefault | frontend/src/features/game-keys/pages/GestionLlavesPage.jsx:85 | `x \|\| d` on a number: `d` for absent or zero |
| GameKeys.FindJuego | frontend/src/features/game-keys/pages/GestionLlavesPage.jsx:84 | a game with that id, or none iff no game has it |
| GameKeys.LlavesRestantes | frontend/src/features/game-keys/pages/GestionLlavesPage.jsx:84-85 | `(max \|\| 5) - (active \|\| 0)` for the game, 5 when it is not listed |
| GameKeys.UnloadedGameHasFive | frontend/src/features/game-keys/pages/GestionLlavesPage.jsx:85 | a game without counters may get five keys |
| GameKeys.WithKeyCount | frontend/src/features/game-keys/pages/GestionLlavesPage.jsx:63-69 | only the loaded game's counters change, to the key count and 5 |
| GameKeys.RemainingAfterLoad | frontend/src/features/game-keys/pages/GestionLlavesPage.jsx:63-85 | after loading n keys the game may get 5 - n more |
| GameKeys.FullGameRejectsEveryQuantity | frontend/src/features/game-keys/pages/GestionLlavesPage.jsx:84-90 | with five keys loaded no quantity passes the check |
| GameKeys.KeysPage.CargarLlaves | frontend/src/features/game-keys/pages/GestionLlavesPage.jsx:56-76 | shows the loaded keys (or `[]`) and updates that game's counters; on failure empties the list and shows the error |
| GameKeys.KeysPage.GenerarLlaves | frontend/src/features/game-keys/pages/GestionLlavesPage.jsx:78-103 | refuses without a selection or outside 1..remaining; after a success resets the quantity to 1 and reloads |
| GameKeys.KeysPage.AbrirModalDesactivar | frontend/src/features/game-keys/pages/GestionLlavesPage.jsx:110-114 | opens the dialog for that key with an empty reason |
| GameKeys.KeysPage.CerrarModalDesactivar | frontend/src/features/game-keys/pages/GestionLlavesPage.jsx:116-120 | closes the dialog and forgets key and reason |
| GameKeys.KeysPage.ConfirmarDesactivar | frontend/src/features/game-keys/pages/GestionLlavesPage.jsx:122-139 | a blank reason is refused; a success closes the dialog and reloads |
| Strings.TrimEmptyIff | frontend/src/features/game-keys/pages/GestionLlavesPage.jsx:123 | a trimmed string is empty iff it was all blanks |
| Strings.NormalizeIdempotent | frontend/src/features/store-config/pages/ConfiguracionTiendaPage.jsx:149 | normalising twice is normalising once |
| Strings.JoinSplit | backend/src/shared/middleware/authMiddleware.js:17 | joining the fields of a split gives back the string |
| Strings.ContainsIff | backend/src/features/inventory/controllers/inventoryController.js:173-180 | `includes` holds iff the needle occurs at some position |
| Strings.NatToStringRoundTrip | backend/src/features/mfa/services/mfaService.js:217 | the decimal text of a number reads back as that number |
| Strings.OrElse | frontend/src/features/store-config/pages/ConfiguracionTiendaPage.jsx:180 | `s \|\| fallback`: the fallback replaces the empty string only |

## Left out

- Supabase queries. Database errors are not modelled except where the code turns them into a decision: a failed profile read denies access, and a failed read in sync falls back to no current items. Query-string injection through the ids interpolated into `.or(...)` is also not modelled.
- The bodies of the database procedures `create_trade_and_lock_item`, `accept_trade`, `cancel_trade_by_id`, `post_trade_offer_atomic`, `reject_trade_offer`, `cancel_trade_offer_and_unlock` and `get_trade_offers`. They are function parameters with success or error answers.
- The `tradeOfferService` pass-throughs (`postTradeOffer`, `getTradeOfferByItemId`, rejection and cancellation of offers, `getOffers`). They only forward procedure answers.
- The listing, cancellation, market, trade and purchase services that the inventory controller calls. They are absent from the inventory service, so each is an opaque outcome.
- TOTP verification and QR-code generation. The TOTP check is a parameter; the QR image is not returned.
- `Math.random`: each draw is a parameter.
- The clock: `now` is a parameter in milliseconds.
- Calendar arithmetic: `setDate(+7)` is modelled as seven times 86400000 ms, so daylight-saving shifts are left out.
- A malformed date string (`new Date` giving `NaN`) is left out; a `null` timestamp reads as the epoch.
- `toLowerCase` is modelled for ASCII and Latin-1 letters only; other Unicode case mappings are left out.
- Concurrency and atomicity are left out, including the five-second sleep in the trade-offer cancellation path.
- Loading flags, `setTimeout` message clearing, JSX markup, console logging and the hard-coded demo data of the pages.
- `getEstadoBadge` on inherited object keys such as `constructor` is left out: the model treats the lookup table as a plain map.
- Request fields are modelled as strings or numbers; JSON values of other types (an `itemId` of `0`, a numeric string price) are left out.
- InventoryController.GetInventory: does not model a database error while reading rows; only the permission error reaches the status mapping.
- PriceController.GamesTable.GetDeveloperGames: the 500 reply of a failed query is not modelled.
- MfaService.MfaStore.CheckMFAStatus: a query error and a missing row give the same error, and only the missing row is modelled.
- PriceController.GamesTable.UpdateGamePrice: the 500 reply of a failed read or write is not modelled.
- PriceController.PriceCheck: an absent price (`undefined`) is modelled and passes the range test; a JSON `null` price, which passes it too and would store `null`, is left out because a stored price is a number.
- TradeService.ValidateStatusTransition: as written every call rejects with a `TypeError`, because `getCurrentStatus` is not defined; the model is the check as intended, given the current status.
- MfaService.MfaStore.VerifyTOTP: the error of the write that removes a used backup code is not checked by the code, which returns `true` anyway; the model assumes the write succeeds, so a failed write that leaves the code usable is not modelled.
