/**
 * `BeneficiariosController`: creating, editing and deleting beneficiaries
 * from the `BeneficiarioViewModel` form. `AdminController` repeats `Create`
 * and `DeleteConfirmed` word for word, so both take the name of the
 * controller they redirect within.
 */
module BeneficiariosController {
  import opened Wrappers
  import opened Text
  import opened Mvc
  import opened Store
  import VM = BeneficiarioViewModel

  /** `Beneficiarios.Any(b => b.Dui == dui && b.Id_Beneficiario != except)`; `except` is `None` on create. */
  predicate DuiTomado(beneficiarios: map<int, Beneficiario>, dui: string, except: Option<int>) {
    exists k :: k in beneficiarios && beneficiarios[k].dui == dui && Some(k) != except
  }

  /** No two beneficiaries share a DUI. */
  ghost predicate DuisUnicos(beneficiarios: map<int, Beneficiario>) {
    forall j, k :: j in beneficiarios && k in beneficiarios && j != k ==> beneficiarios[j].dui != beneficiarios[k].dui
  }

  /** The entity a form names is missing (`EntidadId.HasValue && !Entidades.Any(...)`). */
  predicate EntidadDesconocida(entidades: map<int, Entidad>, entidadId: Option<int>) {
    entidadId.Some? && entidadId.value !in entidades
  }

  /** The row `Create` inserts: trimmed name and address, state "Pendiente". */
  function NuevoBeneficiario(f: VM.Form): Beneficiario {
    Beneficiario(Trim(f.nombre), f.dui, Trim(f.direccion), f.telefono, "Pendiente", f.entidadId)
  }

  /** The six fields `Edit` writes over the stored row. */
  function Actualizado(f: VM.Form): Beneficiario {
    Beneficiario(Trim(f.nombre), f.dui, Trim(f.direccion), f.telefono, f.estadoSubsidio, f.entidadId)
  }

  /** `Create` (POST) of the beneficiaries controller, and of the admin controller. */
  method Create(db: Database, controller: string, f: VM.Form) returns (r: ActionResult)
    requires db.Valid()
    modifies db
    ensures db.Valid()
    ensures !VM.IsValid(f) ==> r == FormInvalid && db.State() == old(db.State())
    ensures VM.IsValid(f) && DuiTomado(old(db.beneficiarios), f.dui, None) ==>
      r == FormError("Dui", Duplicate) && db.State() == old(db.State())
    ensures VM.IsValid(f) && !DuiTomado(old(db.beneficiarios), f.dui, None) && EntidadDesconocida(old(db.entidades), f.entidadId) ==>
      r == FormError("EntidadId", UnknownReference) && db.State() == old(db.State())
    ensures VM.IsValid(f) && !DuiTomado(old(db.beneficiarios), f.dui, None) && !EntidadDesconocida(old(db.entidades), f.entidadId) ==>
      && r == Redirect("Index", controller, None, FlashSuccess)
      && db.State() == old(db.State()).(
           beneficiarios := old(db.beneficiarios)[old(db.nextBeneficiario) := NuevoBeneficiario(f)],
           nextBeneficiario := old(db.nextBeneficiario) + 1)
    ensures DuisUnicos(old(db.beneficiarios)) ==> DuisUnicos(db.beneficiarios)
    ensures EntidadesExisten(old(db.State())) ==> EntidadesExisten(db.State())
  {
    if !VM.IsValid(f) {
      return FormInvalid;
    }
    if DuiTomado(db.beneficiarios, f.dui, None) {
      return FormError("Dui", Duplicate);
    }
    if EntidadDesconocida(db.entidades, f.entidadId) {
      return FormError("EntidadId", UnknownReference);
    }
    var _ := db.AddBeneficiario(NuevoBeneficiario(f));
    r := Redirect("Index", controller, None, FlashSuccess);
  }

  /** `Edit` (POST): the route id must be the form's id; the record must still be there after the checks. */
  method Edit(db: Database, id: int, f: VM.Form) returns (r: ActionResult)
    requires db.Valid()
    modifies db
    ensures db.Valid()
    ensures r != Redirect("Index", "Beneficiarios", None, FlashSuccess) ==> db.State() == old(db.State())
    ensures id != f.idBeneficiario ==> r == NotFound
    ensures id == f.idBeneficiario && !VM.IsValid(f) ==> r == FormInvalid
    ensures id == f.idBeneficiario && VM.IsValid(f) ==>
      if DuiTomado(old(db.beneficiarios), f.dui, Some(id)) then r == FormError("Dui", Duplicate)
      else if EntidadDesconocida(old(db.entidades), f.entidadId) then r == FormError("EntidadId", UnknownReference)
      else if id !in old(db.beneficiarios) then r == NotFound
      else
        && r == Redirect("Index", "Beneficiarios", None, FlashSuccess)
        && db.State() == old(db.State()).(beneficiarios := old(db.beneficiarios)[id := Actualizado(f)])
    ensures DuisUnicos(old(db.beneficiarios)) ==> DuisUnicos(db.beneficiarios)
    ensures EntidadesExisten(old(db.State())) ==> EntidadesExisten(db.State())
  {
    if id != f.idBeneficiario {
      return NotFound;
    }
    if !VM.IsValid(f) {
      return FormInvalid;
    }
    if DuiTomado(db.beneficiarios, f.dui, Some(id)) {
      return FormError("Dui", Duplicate);
    }
    if EntidadDesconocida(db.entidades, f.entidadId) {
      return FormError("EntidadId", UnknownReference);
    }
    if id !in db.beneficiarios {
      return NotFound;
    }
    db.beneficiarios := db.beneficiarios[id := Actualizado(f)];
    r := Redirect("Index", "Beneficiarios", None, FlashSuccess);
  }

  /** `DeleteConfirmed` of the beneficiaries controller, and of the admin controller. */
  method DeleteConfirmed(db: Database, controller: string, id: int) returns (r: ActionResult)
    requires db.Valid()
    modifies db
    ensures db.Valid()
    ensures id in old(db.beneficiarios) ==>
      r == Redirect("Index", controller, None, FlashSuccess)
      && db.State() == old(db.State()).(beneficiarios := old(db.beneficiarios) - {id})
    ensures id !in old(db.beneficiarios) ==>
      r == Redirect("Index", controller, None, FlashError) && db.State() == old(db.State())
    ensures DuisUnicos(old(db.beneficiarios)) ==> DuisUnicos(db.beneficiarios)
    ensures EntidadesExisten(old(db.State())) ==> EntidadesExisten(db.State())
  {
    if id !in db.beneficiarios {
      return Redirect("Index", controller, None, FlashError);
    }
    db.beneficiarios := db.beneficiarios - {id};
    r := Redirect("Index", controller, None, FlashSuccess);
  }

  // ---------------------------------------------------------------- lemmas

  /** A record may keep its own DUI on edit: only other records count as holders. */
  lemma OwnDuiIsNotTaken(bs: map<int, Beneficiario>, id: int)
    requires id in bs && DuisUnicos(bs)
    ensures !DuiTomado(bs, bs[id].dui, Some(id))
    ensures DuiTomado(bs, bs[id].dui, None)
  {
  }
}
