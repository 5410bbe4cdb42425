/**
 * The developer's game-key page: how many keys a game may still get, the
 * quantity check before a generation request, the per-game counters refreshed
 * after each key load, and the deactivation dialog. Calls to the game-keys
 * service are parameters: the loaded key list (or the thrown message), and
 * `None` / `Some(message)` for a generation or deactivation call.
 */
module GameKeys {
  import opened Outcomes
  import opened Strings

  const DEFAULT_MAX_KEYS: int := 5

  const MSG_SELECT_GAME: string := "Selecciona un juego primero"
  const MSG_QUANTITY_PREFIX: string := "La cantidad debe estar entre 1 y "
  const MSG_GENERATED: string := "Llave(s) generada(s) exitosamente"
  const MSG_GENERATE_FAILED: string := "Error al generar llaves"
  const MSG_LOAD_FAILED: string := "Error al cargar llaves"
  const MSG_REASON_REQUIRED: string := "El motivo es requerido"
  const MSG_DEACTIVATED: string := "Llave desactivada exitosamente"
  const MSG_DEACTIVATE_FAILED: string := "Error al desactivar llave"

  /** A game of the selector; the two counters are absent until its keys are loaded. */
  datatype Juego = Juego(id: string, nombre: string,
                         llavesActivas: Option<int>, llavesMaximas: Option<int>)

  /** The notification: its text and `success` or `error`. */
  datatype Mensaje = Mensaje(texto: string, tipo: string)

  /** `x || d` on a number: `d` when `x` is absent or zero. */
  function OrDefault(x: Option<int>, d: int): (r: int)
    ensures x.None? || x.value == 0 ==> r == d
    ensures x.Some? && x.value != 0 ==> r == x.value
  {
    if x.None? || x.value == 0 then d else x.value
  }

  /** `juegos.find(j => j.id === id)`: the first game with that id. */
  function FindJuego(juegos: seq<Juego>, id: string): (r: Option<Juego>)
    ensures r.None? <==> forall k :: 0 <= k < |juegos| ==> juegos[k].id != id
    ensures r.Some? ==> r.value in juegos && r.value.id == id
  {
    if juegos == [] then None
    else if juegos[0].id == id then Some(juegos[0])
    else FindJuego(juegos[1..], id)
  }

  /** `(llaves_maximas || 5) - (llaves_activas || 0)` for the selected game, or 5 when it is not listed. */
  function LlavesRestantes(juegos: seq<Juego>, id: string): (n: int)
    ensures FindJuego(juegos, id).None? ==> n == DEFAULT_MAX_KEYS
    ensures FindJuego(juegos, id).Some? ==>
      n == OrDefault(FindJuego(juegos, id).value.llavesMaximas, DEFAULT_MAX_KEYS)
           - OrDefault(FindJuego(juegos, id).value.llavesActivas, 0)
  {
    match FindJuego(juegos, id)
    case None => DEFAULT_MAX_KEYS
    case Some(j) => OrDefault(j.llavesMaximas, DEFAULT_MAX_KEYS) - OrDefault(j.llavesActivas, 0)
  }

  /** A game whose counters were never loaded may still get five keys. */
  lemma UnloadedGameHasFive(juegos: seq<Juego>, id: string)
    requires FindJuego(juegos, id).Some?
    requires FindJuego(juegos, id).value.llavesActivas.None?
    requires FindJuego(juegos, id).value.llavesMaximas.None?
    ensures LlavesRestantes(juegos, id) == DEFAULT_MAX_KEYS
  {
  }

  /** `cantidad < 1 || cantidad > llavesRestantes` rejects; everything else is sent. */
  predicate CantidadValida(cantidad: int, restantes: int) {
    1 <= cantidad <= restantes
  }

  /** The game list after loading `count` keys for `id`: that game's counters only. */
  function WithKeyCount(juegos: seq<Juego>, id: Option<string>, count: nat): (r: seq<Juego>)
    ensures |r| == |juegos|
    ensures forall k :: 0 <= k < |juegos| && Some(juegos[k].id) != id ==> r[k] == juegos[k]
    ensures forall k :: 0 <= k < |juegos| && Some(juegos[k].id) == id ==>
      && r[k].id == juegos[k].id && r[k].nombre == juegos[k].nombre
      && r[k].llavesActivas == Some(count) && r[k].llavesMaximas == Some(DEFAULT_MAX_KEYS)
  {
    seq(|juegos|, k requires 0 <= k < |juegos| =>
      if Some(juegos[k].id) == id
      then juegos[k].(llavesActivas := Some(count), llavesMaximas := Some(DEFAULT_MAX_KEYS))
      else juegos[k])
  }

  /** After loading `count` keys for a listed game, it may still get `5 - count` more. */
  lemma {:induction false} RemainingAfterLoad(juegos: seq<Juego>, id: string, count: nat)
    requires FindJuego(juegos, id).Some?
    ensures LlavesRestantes(WithKeyCount(juegos, Some(id), count), id) == DEFAULT_MAX_KEYS - count
  {
    var r := WithKeyCount(juegos, Some(id), count);
    if juegos[0].id != id {
      assert r[1..] == WithKeyCount(juegos[1..], Some(id), count);
      RemainingAfterLoad(juegos[1..], id, count);
    }
  }

  /** With five or more keys loaded, no quantity passes the check. */
  lemma FullGameRejectsEveryQuantity(juegos: seq<Juego>, id: string, count: nat, cantidad: int)
    requires FindJuego(juegos, id).Some? && count >= DEFAULT_MAX_KEYS
    ensures !CantidadValida(cantidad, LlavesRestantes(WithKeyCount(juegos, Some(id), count), id))
  {
    RemainingAfterLoad(juegos, id, count);
  }

  /** A selection that `!juegoSeleccionado` lets through: present and non-empty. */
  predicate HasSelection(sel: Option<string>) {
    sel.Some? && sel.value != ""
  }

  /** The page state that the handlers change. */
  class KeysPage {
    var juegos: seq<Juego>
    var juegoSeleccionado: Option<string>
    var llaves: seq<string>
    var cantidad: int
    var mensaje: Option<Mensaje>
    var modalDesactivar: bool
    var llaveADesactivar: Option<string>
    var motivoDesactivacion: string

    constructor (juegos: seq<Juego>)
      ensures this.juegos == juegos && juegoSeleccionado.None? && llaves == [] && cantidad == 1
      ensures mensaje.None? && !modalDesactivar && llaveADesactivar.None? && motivoDesactivacion == ""
    {
      this.juegos := juegos;
      juegoSeleccionado := None;
      llaves := [];
      cantidad := 1;
      mensaje := None;
      modalDesactivar := false;
      llaveADesactivar := None;
      motivoDesactivacion := "";
    }

    /**
     * `cargarLlaves`: `loaded` is the service's reply, `Ok(None)` when it
     * carries no key list. On success the list is shown and only that game's
     * counters change; on failure the list is emptied and an error shown.
     */
    method CargarLlaves(juegoId: Option<string>, loaded: Result<Option<seq<string>>>)
      modifies this
      ensures loaded.Ok? ==>
        && llaves == loaded.value.GetOr([])
        && juegos == WithKeyCount(old(juegos), juegoId, |llaves|)
        && mensaje == old(mensaje)
      ensures loaded.Err? ==>
        && llaves == [] && juegos == old(juegos)
        && mensaje == Some(Mensaje(OrElse(loaded.message, MSG_LOAD_FAILED), "error"))
      ensures juegoSeleccionado == old(juegoSeleccionado) && cantidad == old(cantidad)
      ensures modalDesactivar == old(modalDesactivar) && llaveADesactivar == old(llaveADesactivar)
      ensures motivoDesactivacion == old(motivoDesactivacion)
    {
      if loaded.Err? {
        mensaje := Some(Mensaje(OrElse(loaded.message, MSG_LOAD_FAILED), "error"));
        llaves := [];
        return;
      }
      llaves := loaded.value.GetOr([]);
      juegos := WithKeyCount(juegos, juegoId, |llaves|);
    }

    /**
     * `generarLlaves`: needs a selected game and a quantity between 1 and the
     * keys it may still get; then `generated` is the service call's outcome,
     * and after a success the quantity resets to 1 and the keys are reloaded.
     */
    method GenerarLlaves(generated: Option<string>, reload: Result<Option<seq<string>>>)
      modifies this
      ensures !HasSelection(old(juegoSeleccionado)) ==>
        && mensaje == Some(Mensaje(MSG_SELECT_GAME, "error"))
        && juegos == old(juegos) && llaves == old(llaves) && cantidad == old(cantidad)
      ensures HasSelection(old(juegoSeleccionado)) &&
              !CantidadValida(old(cantidad), LlavesRestantes(old(juegos), old(juegoSeleccionado).value)) ==>
        && mensaje == Some(Mensaje(MSG_QUANTITY_PREFIX + IntToString(LlavesRestantes(old(juegos), old(juegoSeleccionado).value)), "error"))
        && juegos == old(juegos) && llaves == old(llaves) && cantidad == old(cantidad)
      ensures HasSelection(old(juegoSeleccionado)) &&
              CantidadValida(old(cantidad), LlavesRestantes(old(juegos), old(juegoSeleccionado).value)) ==>
        if generated.Some? then
          && mensaje == Some(Mensaje(OrElse(generated.value, MSG_GENERATE_FAILED), "error"))
          && juegos == old(juegos) && llaves == old(llaves) && cantidad == old(cantidad)
        else
          && cantidad == 1
          && (reload.Ok? ==>
                && llaves == reload.value.GetOr([])
                && juegos == WithKeyCount(old(juegos), old(juegoSeleccionado), |llaves|)
                && mensaje == Some(Mensaje(MSG_GENERATED, "success")))
          && (reload.Err? ==>
                && llaves == [] && juegos == old(juegos)
                && mensaje == Some(Mensaje(OrElse(reload.message, MSG_LOAD_FAILED), "error")))
      ensures juegoSeleccionado == old(juegoSeleccionado)
      ensures modalDesactivar == old(modalDesactivar) && llaveADesactivar == old(llaveADesactivar)
      ensures motivoDesactivacion == old(motivoDesactivacion)
    {
      if !HasSelection(juegoSeleccionado) {
        mensaje := Some(Mensaje(MSG_SELECT_GAME, "error"));
        return;
      }
      var restantes := LlavesRestantes(juegos, juegoSeleccionado.value);
      if cantidad < 1 || cantidad > restantes {
        mensaje := Some(Mensaje(MSG_QUANTITY_PREFIX + IntToString(restantes), "error"));
        return;
      }
      if generated.Some? {
        mensaje := Some(Mensaje(OrElse(generated.value, MSG_GENERATE_FAILED), "error"));
        return;
      }
      mensaje := Some(Mensaje(MSG_GENERATED, "success"));
      cantidad := 1;
      CargarLlaves(juegoSeleccionado, reload);
    }

    /** `abrirModalDesactivar`: the dialog opens for that key with an empty reason. */
    method AbrirModalDesactivar(llaveId: string)
      modifies this
      ensures modalDesactivar && llaveADesactivar == Some(llaveId) && motivoDesactivacion == ""
      ensures juegos == old(juegos) && juegoSeleccionado == old(juegoSeleccionado)
      ensures llaves == old(llaves) && cantidad == old(cantidad) && mensaje == old(mensaje)
    {
      llaveADesactivar := Some(llaveId);
      motivoDesactivacion := "";
      modalDesactivar := true;
    }

    /** `cerrarModalDesactivar`: the dialog closes and forgets the key and the reason. */
    method CerrarModalDesactivar()
      modifies this
      ensures !modalDesactivar && llaveADesactivar.None? && motivoDesactivacion == ""
      ensures juegos == old(juegos) && juegoSeleccionado == old(juegoSeleccionado)
      ensures llaves == old(llaves) && cantidad == old(cantidad) && mensaje == old(mensaje)
    {
      modalDesactivar := false;
      llaveADesactivar := None;
      motivoDesactivacion := "";
    }

    /**
     * `confirmarDesactivar`: a blank reason is refused without a call;
     * otherwise `deactivated` is the call's outcome, and a success closes the
     * dialog and reloads the selected game's keys.
     */
    method ConfirmarDesactivar(deactivated: Option<string>, reload: Result<Option<seq<string>>>)
      modifies this
      ensures Trim(old(motivoDesactivacion)) == "" ==>
        && mensaje == Some(Mensaje(MSG_REASON_REQUIRED, "error"))
        && modalDesactivar == old(modalDesactivar) && llaveADesactivar == old(llaveADesactivar)
        && motivoDesactivacion == old(motivoDesactivacion)
        && juegos == old(juegos) && llaves == old(llaves)
      ensures Trim(old(motivoDesactivacion)) != "" && deactivated.Some? ==>
        && mensaje == Some(Mensaje(OrElse(deactivated.value, MSG_DEACTIVATE_FAILED), "error"))
        && modalDesactivar == old(modalDesactivar) && llaveADesactivar == old(llaveADesactivar)
        && motivoDesactivacion == old(motivoDesactivacion)
        && juegos == old(juegos) && llaves == old(llaves)
      ensures Trim(old(motivoDesactivacion)) != "" && deactivated.None? ==>
        && !modalDesactivar && llaveADesactivar.None? && motivoDesactivacion == ""
        && (reload.Ok? ==>
              && llaves == reload.value.GetOr([])
              && juegos == WithKeyCount(old(juegos), juegoSeleccionado, |llaves|)
              && mensaje == Some(Mensaje(MSG_DEACTIVATED, "success")))
        && (reload.Err? ==>
              && llaves == [] && juegos == old(juegos)
              && mensaje == Some(Mensaje(OrElse(reload.message, MSG_LOAD_FAILED), "error")))
      ensures juegoSeleccionado == old(juegoSeleccionado) && cantidad == old(cantidad)
    {
      if Trim(motivoDesactivacion) == "" {
        mensaje := Some(Mensaje(MSG_REASON_REQUIRED, "error"));
        return;
      }
      if deactivated.Some? {
        mensaje := Some(Mensaje(OrElse(deactivated.value, MSG_DEACTIVATE_FAILED), "error"));
        return;
      }
      mensaje := Some(Mensaje(MSG_DEACTIVATED, "success"));
      CerrarModalDesactivar();
      CargarLlaves(juegoSeleccionado, reload);
    }
  }
}
