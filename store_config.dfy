/**
 * The developer's store-configuration page: the tag list of the selected app
 * (at most ten normalised, distinct tags), its long description, and the
 * review-state badge. The save calls to the store-configuration service are
 * parameters: `None` when the call succeeded, `Some(message)` when it threw.
 */
module StoreConfig {
  import opened Outcomes
  import opened Strings

  const MAX_TAGS: int := 10

  const MSG_TAG_EMPTY: string := "Ingresa una etiqueta"
  const MSG_TAG_DUPLICATE: string := "Esta etiqueta ya existe"
  const MSG_TAG_LIMIT: string := "Máximo 10 etiquetas permitidas"
  const MSG_TAG_ADDED: string := "Etiqueta agregada correctamente"
  const MSG_TAG_ADD_FAILED: string := "Error al agregar etiqueta"
  const MSG_TAG_REMOVED: string := "Etiqueta eliminada"
  const MSG_TAG_REMOVE_FAILED: string := "Error al eliminar etiqueta"
  const MSG_SELECT_APP: string := "Selecciona una aplicación primero"
  const MSG_DESCRIPTION_SAVED: string := "Descripción actualizada correctamente"
  const MSG_DESCRIPTION_FAILED: string := "Error al guardar descripción"

  /** One of the developer's apps; absent JSON fields are `None`. */
  datatype AppEntry = AppEntry(id: string, estado: string,
                               descripcionLarga: Option<string>,
                               etiquetas: Option<seq<string>>)

  /** A status badge: its CSS colour class and its text. */
  datatype Badge = Badge(color: string, text: string)

  /** `getEstadoBadge`: the five review states have fixed badges; anything else is grey with the raw text. */
  function GetEstadoBadge(estado: string): (b: Badge)
    ensures estado == "borrador" ==> b == Badge("bg-gray-600", "Borrador")
    ensures estado == "en_revision" ==> b == Badge("bg-yellow-600", "En Revisión")
    ensures estado == "aprobado" ==> b == Badge("bg-blue-600", "Aprobado")
    ensures estado == "rechazado" ==> b == Badge("bg-red-600", "Rechazado")
    ensures estado == "publicado" ==> b == Badge("bg-green-600", "Publicado")
    ensures estado !in {"borrador", "en_revision", "aprobado", "rechazado", "publicado"} ==>
      b == Badge("bg-gray-600", estado)
  {
    match estado
    case "borrador" => Badge("bg-gray-600", "Borrador")
    case "en_revision" => Badge("bg-yellow-600", "En Revisión")
    case "aprobado" => Badge("bg-blue-600", "Aprobado")
    case "rechazado" => Badge("bg-red-600", "Rechazado")
    case "publicado" => Badge("bg-green-600", "Publicado")
    case _ => Badge("bg-gray-600", estado)
  }

  /** The tag-list invariant the add handler keeps: no repeats and at most ten tags. */
  predicate TagsOk(tags: seq<string>) {
    |tags| <= MAX_TAGS && forall i, j :: 0 <= i < j < |tags| ==> tags[i] != tags[j]
  }

  /**
   * The checks of `handleAgregarEtiqueta`, in their order, on the normalised
   * tag: the list with the tag appended, or the message of the first failing check.
   */
  function AddTag(tags: seq<string>, raw: string): (r: Result<seq<string>>)
    ensures Normalize(raw) == "" ==> r == Err(MSG_TAG_EMPTY)
    ensures Normalize(raw) != "" && Normalize(raw) in tags ==> r == Err(MSG_TAG_DUPLICATE)
    ensures Normalize(raw) != "" && Normalize(raw) !in tags && |tags| >= MAX_TAGS ==> r == Err(MSG_TAG_LIMIT)
    ensures Normalize(raw) != "" && Normalize(raw) !in tags && |tags| < MAX_TAGS ==> r == Ok(tags + [Normalize(raw)])
  {
    var tag := Normalize(raw);
    if tag == "" then Err(MSG_TAG_EMPTY)
    else if tag in tags then Err(MSG_TAG_DUPLICATE)
    else if |tags| >= MAX_TAGS then Err(MSG_TAG_LIMIT)
    else Ok(tags + [tag])
  }

  /** Adding a tag keeps the list within ten distinct tags. */
  lemma AddTagKeepsTagsOk(tags: seq<string>, raw: string)
    requires TagsOk(tags) && AddTag(tags, raw).Ok?
    ensures TagsOk(AddTag(tags, raw).value)
  {
    var r := AddTag(tags, raw).value;
    forall i, j | 0 <= i < j < |r|
      ensures r[i] != r[j]
    {
      if j == |tags| {
        assert r[i] == tags[i];
      }
    }
  }

  /** Typing a tag that differs only in case or surrounding blanks from one already there is a duplicate. */
  lemma AddTagSpellingVariant(tags: seq<string>, raw: string, other: string)
    requires Normalize(raw) != "" && Normalize(raw) == Normalize(other)
    requires AddTag(tags, other).Ok?
    ensures AddTag(AddTag(tags, other).value, raw) == Err(MSG_TAG_DUPLICATE)
  {
    var added := AddTag(tags, other).value;
    assert added[|tags|] == Normalize(raw);
  }

  /** `etiquetas.filter(e => e !== etiqueta)`. */
  function RemoveTag(tags: seq<string>, tag: string): (r: seq<string>)
    ensures |r| <= |tags|
    ensures forall x :: x in r <==> x in tags && x != tag
  {
    if tags == [] then []
    else
      var rest := RemoveTag(tags[1..], tag);
      assert forall x :: x in tags <==> x == tags[0] || x in tags[1..];
      if tags[0] == tag then rest else [tags[0]] + rest
  }

  /** Removal works piece by piece, so the remaining tags keep their order. */
  lemma {:induction false} RemoveTagAppend(a: seq<string>, b: seq<string>, tag: string)
    ensures RemoveTag(a + b, tag) == RemoveTag(a, tag) + RemoveTag(b, tag)
  {
    if a == [] {
      assert a + b == b;
    } else {
      assert (a + b)[0] == a[0];
      assert (a + b)[1..] == a[1..] + b;
      RemoveTagAppend(a[1..], b, tag);
    }
  }

  /** Removing a tag that is not there changes nothing. */
  lemma {:induction false} RemoveAbsentTag(tags: seq<string>, tag: string)
    requires tag !in tags
    ensures RemoveTag(tags, tag) == tags
  {
    if tags != [] {
      assert tags[1..] + [] == tags[1..];
      RemoveAbsentTag(tags[1..], tag);
    }
  }

  /** Removal keeps the list within ten distinct tags. */
  lemma {:induction false} RemoveTagKeepsTagsOk(tags: seq<string>, tag: string)
    requires TagsOk(tags)
    ensures TagsOk(RemoveTag(tags, tag))
  {
    if tags != [] {
      RemoveTagKeepsTagsOk(tags[1..], tag);
      assert tags[0] !in tags[1..] by {
        forall k | 0 <= k < |tags[1..]|
          ensures tags[1..][k] != tags[0]
        {
          assert tags[1..][k] == tags[k + 1];
        }
      }
    }
  }

  /** Removing a tag right after adding it gives back the list as it was. */
  lemma AddThenRemove(tags: seq<string>, raw: string)
    requires AddTag(tags, raw).Ok?
    ensures RemoveTag(AddTag(tags, raw).value, Normalize(raw)) == tags
  {
    var tag := Normalize(raw);
    RemoveTagAppend(tags, [tag], tag);
    RemoveAbsentTag(tags, tag);
    assert RemoveTag([tag], tag) == [];
  }

  /** The app list with the selected app's tags replaced: no other app and no other field changes. */
  function WithTags(apps: seq<AppEntry>, id: string, tags: seq<string>): (r: seq<AppEntry>)
    ensures |r| == |apps|
    ensures forall k :: 0 <= k < |apps| && apps[k].id != id ==> r[k] == apps[k]
    ensures forall k :: 0 <= k < |apps| && apps[k].id == id ==>
      && r[k].etiquetas == Some(tags)
      && r[k].id == id && r[k].estado == apps[k].estado
      && r[k].descripcionLarga == apps[k].descripcionLarga
  {
    seq(|apps|, k requires 0 <= k < |apps| =>
      if apps[k].id == id then apps[k].(etiquetas := Some(tags)) else apps[k])
  }

  /** The app list with the selected app's long description replaced: no other app and no other field changes. */
  function WithDescription(apps: seq<AppEntry>, id: string, text: string): (r: seq<AppEntry>)
    ensures |r| == |apps|
    ensures forall k :: 0 <= k < |apps| && apps[k].id != id ==> r[k] == apps[k]
    ensures forall k :: 0 <= k < |apps| && apps[k].id == id ==>
      && r[k].descripcionLarga == Some(text)
      && r[k].id == id && r[k].estado == apps[k].estado
      && r[k].etiquetas == apps[k].etiquetas
  {
    seq(|apps|, k requires 0 <= k < |apps| =>
      if apps[k].id == id then apps[k].(descripcionLarga := Some(text)) else apps[k])
  }

  /** `aplicaciones.find(app => app.id === id)`: the first app with that id. */
  function FindApp(apps: seq<AppEntry>, id: string): (r: Option<AppEntry>)
    ensures r.None? <==> forall k :: 0 <= k < |apps| ==> apps[k].id != id
    ensures r.Some? ==> r.value in apps && r.value.id == id
  {
    if apps == [] then None
    else if apps[0].id == id then Some(apps[0])
    else FindApp(apps[1..], id)
  }

  /** The app found is the first one with that id. */
  lemma {:induction false} FindAppFirst(apps: seq<AppEntry>, id: string, k: nat)
    requires k < |apps| && apps[k].id == id
    requires forall j :: 0 <= j < k ==> apps[j].id != id
    ensures FindApp(apps, id) == Some(apps[k])
  {
    if k > 0 {
      FindAppFirst(apps[1..], id, k - 1);
    }
  }

  /** Reloading the selected app after a tag save reads back the saved tags. */
  lemma {:induction false} ReloadSeesSavedTags(apps: seq<AppEntry>, id: string, tags: seq<string>)
    requires FindApp(apps, id).Some?
    ensures FindApp(WithTags(apps, id, tags), id).Some?
    ensures FindApp(WithTags(apps, id, tags), id).value.etiquetas == Some(tags)
  {
    if apps[0].id != id {
      assert WithTags(apps, id, tags)[1..] == WithTags(apps[1..], id, tags);
      ReloadSeesSavedTags(apps[1..], id, tags);
    }
  }

  /** Reloading the selected app after a description save reads back the saved text. */
  lemma {:induction false} ReloadSeesSavedDescription(apps: seq<AppEntry>, id: string, text: string)
    requires FindApp(apps, id).Some?
    ensures FindApp(WithDescription(apps, id, text), id).Some?
    ensures FindApp(WithDescription(apps, id, text), id).value.descripcionLarga == Some(text)
  {
    if apps[0].id != id {
      assert WithDescription(apps, id, text)[1..] == WithDescription(apps[1..], id, text);
      ReloadSeesSavedDescription(apps[1..], id, text);
    }
  }

  /** The page state that the handlers change. */
  class StorePage {
    var aplicaciones: seq<AppEntry>
    var appSeleccionada: string
    var appData: Option<AppEntry>
    var descripcionLarga: string
    var etiquetas: seq<string>
    var nuevaEtiqueta: string
    var successMessage: string
    var errorMessage: string

    constructor (apps: seq<AppEntry>)
      ensures aplicaciones == apps && appSeleccionada == (if apps == [] then "" else apps[0].id)
      ensures appData.None? && descripcionLarga == "" && etiquetas == [] && nuevaEtiqueta == ""
      ensures successMessage == "" && errorMessage == ""
    {
      aplicaciones := apps;
      appSeleccionada := if apps == [] then "" else apps[0].id;
      appData := None;
      descripcionLarga := "";
      etiquetas := [];
      nuevaEtiqueta := "";
      successMessage := "";
      errorMessage := "";
    }

    /** `mostrarMensaje`: one message shown, the other cleared. */
    method ShowMessage(text: string, success: bool)
      modifies this
      ensures successMessage == (if success then text else "")
      ensures errorMessage == (if success then "" else text)
      ensures aplicaciones == old(aplicaciones) && appSeleccionada == old(appSeleccionada)
      ensures appData == old(appData) && descripcionLarga == old(descripcionLarga)
      ensures etiquetas == old(etiquetas) && nuevaEtiqueta == old(nuevaEtiqueta)
    {
      if success {
        successMessage, errorMessage := text, "";
      } else {
        successMessage, errorMessage := "", text;
      }
    }

    /**
     * `cargarDatosAplicacion`: the selected app's description and tags, with
     * `''` and `[]` for absent fields; nothing changes when no app is
     * selected or the selection is not in the list.
     */
    method CargarDatosAplicacion()
      modifies this
      ensures var found := FindApp(aplicaciones, appSeleccionada);
        if appSeleccionada != "" && found.Some? then
          && appData == found
          && descripcionLarga == found.value.descripcionLarga.GetOr("")
          && etiquetas == found.value.etiquetas.GetOr([])
        else
          appData == old(appData) && descripcionLarga == old(descripcionLarga) && etiquetas == old(etiquetas)
      ensures aplicaciones == old(aplicaciones) && appSeleccionada == old(appSeleccionada)
      ensures nuevaEtiqueta == old(nuevaEtiqueta)
      ensures successMessage == old(successMessage) && errorMessage == old(errorMessage)
    {
      if appSeleccionada == "" {
        return;
      }
      var found := FindApp(aplicaciones, appSeleccionada);
      if found.Some? {
        appData := found;
        descripcionLarga := found.value.descripcionLarga.GetOr("");
        etiquetas := found.value.etiquetas.GetOr([]);
      }
    }

    /**
     * `handleGuardarDescripcion`: needs a selected app; after a successful
     * save the selected app's entry carries the new description.
     */
    method GuardarDescripcion(saveError: Option<string>)
      modifies this
      ensures appSeleccionada == "" ==>
        errorMessage == MSG_SELECT_APP && aplicaciones == old(aplicaciones)
      ensures appSeleccionada != "" && saveError.None? ==>
        && successMessage == MSG_DESCRIPTION_SAVED && errorMessage == ""
        && aplicaciones == WithDescription(old(aplicaciones), appSeleccionada, descripcionLarga)
      ensures appSeleccionada != "" && saveError.Some? ==>
        && errorMessage == OrElse(saveError.value, MSG_DESCRIPTION_FAILED) && successMessage == ""
        && aplicaciones == old(aplicaciones)
      ensures appSeleccionada == old(appSeleccionada) && appData == old(appData)
      ensures descripcionLarga == old(descripcionLarga) && etiquetas == old(etiquetas)
      ensures nuevaEtiqueta == old(nuevaEtiqueta)
    {
      if appSeleccionada == "" {
        ShowMessage(MSG_SELECT_APP, false);
        return;
      }
      if saveError.None? {
        ShowMessage(MSG_DESCRIPTION_SAVED, true);
        aplicaciones := WithDescription(aplicaciones, appSeleccionada, descripcionLarga);
      } else {
        ShowMessage(OrElse(saveError.value, MSG_DESCRIPTION_FAILED), false);
      }
    }

    /**
     * `handleAgregarEtiqueta`: the tag list and the selected app's entry
     * change only when every check passes and the save succeeds.
     */
    method AgregarEtiqueta(saveError: Option<string>)
      modifies this
      ensures var added := AddTag(old(etiquetas), old(nuevaEtiqueta));
        if added.Err? then
          && errorMessage == added.message && successMessage == ""
          && etiquetas == old(etiquetas) && nuevaEtiqueta == old(nuevaEtiqueta)
          && aplicaciones == old(aplicaciones)
        else if saveError.Some? then
          && errorMessage == OrElse(saveError.value, MSG_TAG_ADD_FAILED) && successMessage == ""
          && etiquetas == old(etiquetas) && nuevaEtiqueta == old(nuevaEtiqueta)
          && aplicaciones == old(aplicaciones)
        else
          && etiquetas == added.value && nuevaEtiqueta == ""
          && successMessage == MSG_TAG_ADDED && errorMessage == ""
          && aplicaciones == WithTags(old(aplicaciones), appSeleccionada, added.value)
      ensures TagsOk(old(etiquetas)) ==> TagsOk(etiquetas)
      ensures appSeleccionada == old(appSeleccionada) && appData == old(appData)
      ensures descripcionLarga == old(descripcionLarga)
    {
      var added := AddTag(etiquetas, nuevaEtiqueta);
      if added.Err? {
        ShowMessage(added.message, false);
        return;
      }
      if saveError.Some? {
        ShowMessage(OrElse(saveError.value, MSG_TAG_ADD_FAILED), false);
        return;
      }
      if TagsOk(etiquetas) {
        AddTagKeepsTagsOk(etiquetas, nuevaEtiqueta);
      }
      etiquetas := added.value;
      nuevaEtiqueta := "";
      ShowMessage(MSG_TAG_ADDED, true);
      aplicaciones := WithTags(aplicaciones, appSeleccionada, added.value);
    }

    /**
     * `handleEliminarEtiqueta`: after a successful save every copy of the tag
     * is gone from the list and from the selected app's entry.
     */
    method EliminarEtiqueta(tag: string, saveError: Option<string>)
      modifies this
      ensures saveError.None? ==>
        && etiquetas == RemoveTag(old(etiquetas), tag)
        && successMessage == MSG_TAG_REMOVED && errorMessage == ""
        && aplicaciones == WithTags(old(aplicaciones), appSeleccionada, etiquetas)
      ensures saveError.Some? ==>
        && etiquetas == old(etiquetas) && aplicaciones == old(aplicaciones)
        && errorMessage == OrElse(saveError.value, MSG_TAG_REMOVE_FAILED) && successMessage == ""
      ensures TagsOk(old(etiquetas)) ==> TagsOk(etiquetas)
      ensures appSeleccionada == old(appSeleccionada) && appData == old(appData)
      ensures descripcionLarga == old(descripcionLarga) && nuevaEtiqueta == old(nuevaEtiqueta)
    {
      var remaining := RemoveTag(etiquetas, tag);
      if saveError.Some? {
        ShowMessage(OrElse(saveError.value, MSG_TAG_REMOVE_FAILED), false);
        return;
      }
      if TagsOk(etiquetas) {
        RemoveTagKeepsTagsOk(etiquetas, tag);
      }
      etiquetas := remaining;
      ShowMessage(MSG_TAG_REMOVED, true);
      aplicaciones := WithTags(aplicaciones, appSeleccionada, remaining);
    }
  }
}
