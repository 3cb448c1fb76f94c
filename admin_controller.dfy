/**
 * `AdminController`: the administrator's copy of the beneficiary actions.
 * `Create` and `DeleteConfirmed` are `BeneficiariosController.Create` and
 * `BeneficiariosController.DeleteConfirmed` with controller "Admin"; `Edit`
 * differs in which order it checks, and in clearing the messages of the
 * terms box.
 */
module AdminController {
  import opened Wrappers
  import opened Text
  import opened Mvc
  import opened Store
  import VM = BeneficiarioViewModel
  import B = BeneficiariosController

  /**
   * The model state after validation, per field: whether its entry holds
   * error messages, and whether its entry is marked invalid. `ModelState.IsValid`
   * reads the marks; validation sets both for every failing field.
   */
  datatype ModelState = ModelState(messages: set<VM.Field>, invalid: set<VM.Field>)

  /**
   * The model state `Edit` tests. Removing `Genero` has no effect, as no rule
   * is attached to it; `Errors.Clear()` on `AceptaTerminos` empties that
   * entry's messages but leaves the entry marked invalid.
   */
  function EditModelState(f: VM.Form): (m: ModelState)
    ensures VM.AceptaTerminos !in m.messages
    ensures forall x :: x != VM.AceptaTerminos ==> (x in m.messages <==> x in VM.Errors(f))
    ensures m.invalid == VM.Errors(f)
  {
    ModelState(VM.Errors(f) - {VM.AceptaTerminos}, VM.Errors(f))
  }

  /** `ModelState.IsValid` in `Edit`: no entry is marked invalid. */
  predicate EditValid(f: VM.Form) {
    EditModelState(f).invalid == {}
  }

  /** `Edit` (POST): the form's own id names the record; it is looked up before the uniqueness checks. */
  method Edit(db: Database, f: VM.Form) returns (r: ActionResult)
    requires db.Valid()
    modifies db
    ensures db.Valid()
    ensures r != Redirect("Index", "Admin", None, FlashSuccess) ==> db.State() == old(db.State())
    ensures !EditValid(f) ==> r == FormInvalid
    ensures EditValid(f) ==>
      var id := f.idBeneficiario;
      if id !in old(db.beneficiarios) then r == NotFound
      else if B.DuiTomado(old(db.beneficiarios), f.dui, Some(id)) then r == FormError("Dui", Duplicate)
      else if B.EntidadDesconocida(old(db.entidades), f.entidadId) then r == FormError("EntidadId", UnknownReference)
      else
        && r == Redirect("Index", "Admin", None, FlashSuccess)
        && db.State() == old(db.State()).(beneficiarios := old(db.beneficiarios)[id := B.Actualizado(f)])
    ensures B.DuisUnicos(old(db.beneficiarios)) ==> B.DuisUnicos(db.beneficiarios)
    ensures EntidadesExisten(old(db.State())) ==> EntidadesExisten(db.State())
  {
    if !EditValid(f) {
      return FormInvalid;
    }
    var id := f.idBeneficiario;
    if id !in db.beneficiarios {
      return NotFound;
    }
    if B.DuiTomado(db.beneficiarios, f.dui, Some(id)) {
      return FormError("Dui", Duplicate);
    }
    if B.EntidadDesconocida(db.entidades, f.entidadId) {
      return FormError("EntidadId", UnknownReference);
    }
    db.beneficiarios := db.beneficiarios[id := B.Actualizado(f)];
    r := Redirect("Index", "Admin", None, FlashSuccess);
  }

  // ---------------------------------------------------------------- lemmas

  /**
   * An unticked terms box: its message is cleared, yet the entry stays
   * invalid, so the admin edit refuses the form exactly as the beneficiaries
   * edit does, and for every form the two agree on validity.
   */
  lemma ClearedTermsStillRefused(f: VM.Form)
    ensures !f.aceptaTerminos ==> VM.AceptaTerminos !in EditModelState(f).messages && !EditValid(f)
    ensures EditValid(f) <==> VM.IsValid(f)
  {
    if !f.aceptaTerminos {
      assert VM.AceptaTerminos in EditModelState(f).invalid;
    }
  }
}
