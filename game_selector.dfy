/**
 * The price page's game selector: one placeholder option, then one option per
 * app, disabled while fewer than thirty whole days have passed since the app's
 * `updated_at`, with the remaining days in its label.
 */
module GameSelector {
  import opened Outcomes
  import opened Strings
  import PriceController

  const DAY_MS: int := 86400000
  const LOCK_DAYS: int := 30
  const PLACEHOLDER_LABEL: string := "Selecciona un juego aprobado..."

  /** An app as the selector receives it; `updatedAt` is `None` for a `null` field. */
  datatype App = App(id: string, nombreJuego: string, updatedAt: Option<int>)

  /** One `<option>`: its value, its text and whether it is disabled. */
  datatype SelectOption = SelectOption(value: string, text: string, disabled: bool)

  /** `Math.floor((Date.now() - updated) / 86400000)`: whole days elapsed, rounded down. */
  function DaysElapsed(now: int, updated: int): (days: int)
    ensures days * DAY_MS <= now - updated < (days + 1) * DAY_MS
  {
    (now - updated) / DAY_MS
  }

  /** `diasTranscurridos < 30`. */
  predicate Locked(now: int, updated: int) {
    DaysElapsed(now, updated) < LOCK_DAYS
  }

  /** Locked exactly while fewer than thirty days of milliseconds have elapsed. */
  lemma LockedIff(now: int, updated: int)
    ensures Locked(now, updated) <==> now - updated < LOCK_DAYS * DAY_MS
  {
  }

  /** The selector locks exactly the games whose price change the server would refuse for the cooldown. */
  lemma LockedAgreesWithServer(now: int, updated: int)
    ensures Locked(now, updated) <==> !PriceController.CooldownOver(now, updated)
  {
    LockedIff(now, updated);
    PriceController.CooldownOverIff(now, updated);
  }

  /** `30 - diasTranscurridos`, the days shown in a locked option's label. */
  function DaysLeft(now: int, updated: int): (left: int)
    ensures Locked(now, updated) ==> left >= 1
    ensures 0 <= now - updated ==> left <= LOCK_DAYS
  {
    LOCK_DAYS - DaysElapsed(now, updated)
  }

  /** A locked app whose timestamp is not in the future shows between 1 and 30 days left. */
  lemma DaysLeftInRange(now: int, updated: int)
    requires 0 <= now - updated && Locked(now, updated)
    ensures 1 <= DaysLeft(now, updated) <= LOCK_DAYS
  {
  }

  /** `new Date(app.updated_at)` in milliseconds: a `null` field reads as the epoch. */
  function UpdatedMs(app: App): int {
    app.updatedAt.GetOr(0)
  }

  /** The option for one app at time `now`. */
  function OptionFor(app: App, now: int): (o: SelectOption)
    ensures o.value == app.id
    ensures o.disabled <==> now - UpdatedMs(app) < LOCK_DAYS * DAY_MS
    ensures o.disabled ==>
      o.text == app.nombreJuego + " (Bloqueado: faltan " + IntToString(DaysLeft(now, UpdatedMs(app))) + " días)"
    ensures !o.disabled ==> o.text == app.nombreJuego + " "
  {
    var locked := Locked(now, UpdatedMs(app));
    LockedIff(now, UpdatedMs(app));
    var suffix := if locked then "(Bloqueado: faltan " + IntToString(DaysLeft(now, UpdatedMs(app))) + " días)" else "";
    SelectOption(app.id, app.nombreJuego + " " + suffix, locked)
  }

  /** The whole option list: the placeholder, then one option per app in input order. */
  function Options(apps: seq<App>, now: int): (opts: seq<SelectOption>)
    ensures |opts| == |apps| + 1
    ensures opts[0] == SelectOption("", PLACEHOLDER_LABEL, false)
    ensures forall i :: 0 <= i < |apps| ==> opts[i + 1] == OptionFor(apps[i], now)
  {
    [SelectOption("", PLACEHOLDER_LABEL, false)] + seq(|apps|, i requires 0 <= i < |apps| => OptionFor(apps[i], now))
  }

  /** `selectedGameId || ''`: the selected id, or the placeholder's empty value. */
  function SelectedValue(selectedGameId: Option<string>): (v: string)
    ensures selectedGameId.Some? ==> v == selectedGameId.value
    ensures selectedGameId.None? ==> v == ""
  {
    selectedGameId.GetOr("")
  }

  /** The selected value always names one of the options when it names a listed app or nothing. */
  lemma SelectedValueIsAnOption(apps: seq<App>, now: int, selectedGameId: Option<string>)
    requires selectedGameId.None? || exists i :: 0 <= i < |apps| && apps[i].id == selectedGameId.value
    ensures exists k :: 0 <= k < |Options(apps, now)| && Options(apps, now)[k].value == SelectedValue(selectedGameId)
  {
    var opts := Options(apps, now);
    if selectedGameId.None? {
      assert opts[0].value == "";
    } else {
      var i :| 0 <= i < |apps| && apps[i].id == selectedGameId.value;
      assert opts[i + 1].value == apps[i].id;
    }
  }
}
