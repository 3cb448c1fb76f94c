/**
 * `EntidadController`: creating an entity together with its user account,
 * editing and deleting it, assigning beneficiaries to it and taking them
 * away, and the dashboard of a signed-in entity.
 */
module EntidadController {
  import opened Wrappers
  import opened Text
  import opened Mvc
  import opened BaseController
  import opened Store

  /** `EntidadViewModel` as the create and edit forms bind it; null text is "". */
  datatype EntidadForm = EntidadForm(
    id: int,
    nombre: string,
    email: string,
    direccion: string,
    nombreUsuario: string,
    correoUsuario: string,
    contrasena: string)

  /** `Entidades.Any(e => e.Nombre == nombre && e.Id != except)`; `except` is `None` on create. */
  predicate NombreTomado(entidades: map<int, Entidad>, nombre: string, except: Option<int>) {
    exists k :: k in entidades && entidades[k].nombre == nombre && Some(k) != except
  }

  /** No two entities share a name. */
  ghost predicate NombresUnicos(entidades: map<int, Entidad>) {
    forall j, k :: j in entidades && k in entidades && j != k ==> entidades[j].nombre != entidades[k].nombre
  }

  /** `entidad.Beneficiarios.Any()` */
  predicate TieneBeneficiarios(beneficiarios: map<int, Beneficiario>, id: int) {
    exists k :: k in beneficiarios && beneficiarios[k].entidadId == Some(id)
  }

  /**
   * `CreateEntidad` (POST). `bindingValid` is `ModelState.IsValid`, whose
   * attributes are not part of this model; `hash` is `AuthHelper.Hash`.
   */
  method CreateEntidad(db: Database, hash: string -> string, bindingValid: bool, f: EntidadForm) returns (r: ActionResult)
    requires db.Valid()
    modifies db
    ensures db.Valid()
    ensures !bindingValid ==> r == FormInvalid && db.State() == old(db.State())
    ensures bindingValid && NombreTomado(old(db.entidades), f.nombre, None) ==>
      r == FormError("Nombre", Duplicate) && db.State() == old(db.State())
    ensures bindingValid && !NombreTomado(old(db.entidades), f.nombre, None) && CorreoRegistrado(old(db.usuarios), f.correoUsuario) ==>
      r == FormError("CorreoUsuario", Duplicate) && db.State() == old(db.State())
    ensures bindingValid && !NombreTomado(old(db.entidades), f.nombre, None) && !CorreoRegistrado(old(db.usuarios), f.correoUsuario) ==>
      var uid := old(db.nextUsuario);
      var eid := old(db.nextEntidad);
      && r == Redirect("Index", "Entidad", None, FlashSuccess)
      && db.State() == old(db.State()).(
           usuarios := old(db.usuarios)[uid := Usuario(f.nombreUsuario, f.correoUsuario, hash(f.contrasena), Some("entidad"), "activo")],
           nextUsuario := uid + 1,
           entidades := old(db.entidades)[eid := Entidad(f.nombre, f.email, f.direccion, uid)],
           nextEntidad := eid + 1)
    ensures NombresUnicos(old(db.entidades)) ==> NombresUnicos(db.entidades)
    ensures CorreosUnicos(old(db.usuarios)) ==> CorreosUnicos(db.usuarios)
    ensures UsuariosExisten(old(db.State())) ==> UsuariosExisten(db.State())
  {
    if !bindingValid {
      return FormInvalid;
    }
    if NombreTomado(db.entidades, f.nombre, None) {
      return FormError("Nombre", Duplicate);
    }
    if CorreoRegistrado(db.usuarios, f.correoUsuario) {
      return FormError("CorreoUsuario", Duplicate);
    }
    var usuario := Usuario(f.nombreUsuario, f.correoUsuario, hash(f.contrasena), Some("entidad"), "activo");
    var uid := db.AddUsuario(usuario);
    var eid := db.AddEntidad(Entidad(f.nombre, f.email, f.direccion, uid));
    r := Redirect("Index", "Entidad", None, FlashSuccess);
  }

  /** `Edit` (POST): only `Nombre`, `Email` and `Direccion` of entity `f.id` change. */
  method Edit(db: Database, bindingValid: bool, f: EntidadForm) returns (r: ActionResult)
    requires db.Valid()
    modifies db
    ensures db.Valid()
    ensures !bindingValid ==> r == FormInvalid && db.State() == old(db.State())
    ensures bindingValid && f.id !in old(db.entidades) ==> r == NotFound && db.State() == old(db.State())
    ensures bindingValid && f.id in old(db.entidades) && NombreTomado(old(db.entidades), f.nombre, Some(f.id)) ==>
      r == FormError("Nombre", Duplicate) && db.State() == old(db.State())
    ensures bindingValid && f.id in old(db.entidades) && !NombreTomado(old(db.entidades), f.nombre, Some(f.id)) ==>
      && r == Redirect("Details", "Entidad", Some(f.id), FlashSuccess)
      && db.State() == old(db.State()).(entidades := old(db.entidades)[f.id :=
           old(db.entidades)[f.id].(nombre := f.nombre, email := f.email, direccion := f.direccion)])
    ensures NombresUnicos(old(db.entidades)) ==> NombresUnicos(db.entidades)
    ensures UsuariosExisten(old(db.State())) ==> UsuariosExisten(db.State())
    ensures EntidadesExisten(old(db.State())) ==> EntidadesExisten(db.State())
  {
    if !bindingValid {
      return FormInvalid;
    }
    if f.id !in db.entidades {
      return NotFound;
    }
    if NombreTomado(db.entidades, f.nombre, Some(f.id)) {
      return FormError("Nombre", Duplicate);
    }
    var entidad := db.entidades[f.id];
    db.entidades := db.entidades[f.id := entidad.(nombre := f.nombre, email := f.email, direccion := f.direccion)];
    r := Redirect("Details", "Entidad", Some(f.id), FlashSuccess);
  }

  /** `DeleteConfirmed`: an entity that still has beneficiaries is kept. */
  method DeleteConfirmed(db: Database, id: int) returns (r: ActionResult)
    requires db.Valid()
    modifies db
    ensures db.Valid()
    ensures id !in old(db.entidades) ==> r == NotFound && db.State() == old(db.State())
    ensures id in old(db.entidades) && TieneBeneficiarios(old(db.beneficiarios), id) ==>
      r == Redirect("Delete", "Entidad", Some(id), FlashError) && db.State() == old(db.State())
    ensures id in old(db.entidades) && !TieneBeneficiarios(old(db.beneficiarios), id) ==>
      r == Redirect("Index", "Entidad", None, FlashSuccess)
      && db.State() == old(db.State()).(entidades := old(db.entidades) - {id})
    ensures EntidadesExisten(old(db.State())) ==> EntidadesExisten(db.State())
  {
    if id !in db.entidades {
      return NotFound;
    }
    if TieneBeneficiarios(db.beneficiarios, id) {
      return Redirect("Delete", "Entidad", Some(id), FlashError);
    }
    db.entidades := db.entidades - {id};
    r := Redirect("Index", "Entidad", None, FlashSuccess);
  }

  /** The ids of `GestionarBeneficiarios`'s available list: beneficiaries without an entity. */
  function Disponibles(beneficiarios: map<int, Beneficiario>): (r: set<int>)
    ensures forall k :: k in r <==> k in beneficiarios && beneficiarios[k].entidadId.None?
  {
    set k | k in beneficiarios && beneficiarios[k].entidadId.None?
  }

  /** `GestionarBeneficiarios`: an unknown entity is not found; otherwise the page lists the available beneficiaries. */
  function GestionarBeneficiarios(t: Tables, id: int): (r: Option<set<int>>)
    ensures r.None? <==> id !in t.entidades
    ensures r.Some? ==> forall k :: k in r.value <==> k in t.beneficiarios && t.beneficiarios[k].entidadId.None?
  {
    if id in t.entidades then Some(Disponibles(t.beneficiarios)) else None
  }

  /** `AsignarBeneficiario`: only an existing beneficiary without an entity is assigned. */
  method AsignarBeneficiario(db: Database, entidadId: int, beneficiarioId: int) returns (r: ActionResult)
    requires db.Valid()
    modifies db
    ensures db.Valid()
    ensures r.Redirect? && r.action == "GestionarBeneficiarios" && r.controller == "Entidad" && r.routeId == Some(entidadId)
    ensures beneficiarioId !in old(db.beneficiarios) || old(db.beneficiarios)[beneficiarioId].entidadId.Some? ==>
      r.flash == FlashError && db.State() == old(db.State())
    ensures beneficiarioId in old(db.beneficiarios) && old(db.beneficiarios)[beneficiarioId].entidadId.None? ==>
      r.flash == FlashSuccess
      && db.State() == old(db.State()).(beneficiarios := old(db.beneficiarios)[beneficiarioId :=
           old(db.beneficiarios)[beneficiarioId].(entidadId := Some(entidadId))])
    ensures EntidadesExisten(old(db.State())) && entidadId in old(db.entidades) ==> EntidadesExisten(db.State())
  {
    if beneficiarioId !in db.beneficiarios || db.beneficiarios[beneficiarioId].entidadId.Some? {
      return Redirect("GestionarBeneficiarios", "Entidad", Some(entidadId), FlashError);
    }
    var b := db.beneficiarios[beneficiarioId];
    db.beneficiarios := db.beneficiarios[beneficiarioId := b.(entidadId := Some(entidadId))];
    r := Redirect("GestionarBeneficiarios", "Entidad", Some(entidadId), FlashSuccess);
  }

  /** `DesasignarBeneficiario`: only a beneficiary of this very entity is released. */
  method DesasignarBeneficiario(db: Database, id: int, entidadId: int) returns (r: ActionResult)
    requires db.Valid()
    modifies db
    ensures db.Valid()
    ensures r.Redirect? && r.action == "GestionarBeneficiarios" && r.controller == "Entidad" && r.routeId == Some(entidadId)
    ensures id !in old(db.beneficiarios) || old(db.beneficiarios)[id].entidadId != Some(entidadId) ==>
      r.flash == FlashError && db.State() == old(db.State())
    ensures id in old(db.beneficiarios) && old(db.beneficiarios)[id].entidadId == Some(entidadId) ==>
      r.flash == FlashSuccess
      && db.State() == old(db.State()).(beneficiarios := old(db.beneficiarios)[id :=
           old(db.beneficiarios)[id].(entidadId := None)])
    ensures EntidadesExisten(old(db.State())) ==> EntidadesExisten(db.State())
  {
    if id !in db.beneficiarios || db.beneficiarios[id].entidadId != Some(entidadId) {
      return Redirect("GestionarBeneficiarios", "Entidad", Some(entidadId), FlashError);
    }
    var b := db.beneficiarios[id];
    db.beneficiarios := db.beneficiarios[id := b.(entidadId := None)];
    r := Redirect("GestionarBeneficiarios", "Entidad", Some(entidadId), FlashSuccess);
  }

  /** Assigning a free beneficiary and then releasing it from the same entity restores the tables. */
  method AssignThenRelease(db: Database, entidadId: int, beneficiarioId: int) returns (first: ActionResult, second: ActionResult)
    requires db.Valid()
    requires beneficiarioId in db.beneficiarios && db.beneficiarios[beneficiarioId].entidadId.None?
    modifies db
    ensures first == second == Redirect("GestionarBeneficiarios", "Entidad", Some(entidadId), FlashSuccess)
    ensures db.State() == old(db.State())
  {
    first := AsignarBeneficiario(db, entidadId, beneficiarioId);
    second := DesasignarBeneficiario(db, beneficiarioId, entidadId);
    assert db.beneficiarios == old(db.beneficiarios);
  }

  // ---------------------------------------------------------------- dashboard

  /** The statistics of the dashboard page, or why it is not shown. */
  datatype DashboardView =
    /** `RedirectToAction("AccessDenied", "Account")` */
    | AccessDenied
    /** the exception `int.Parse` throws on a malformed "UserId" or "EntidadId" claim */
    | ParseFault
    | Shown(nombre: string, total: nat, activos: nat, pendientes: nat)

  /** The beneficiaries of entity `id` (`entidad.Beneficiarios`). */
  function BeneficiariosDe(beneficiarios: map<int, Beneficiario>, id: int): set<int> {
    set k | k in beneficiarios && beneficiarios[k].entidadId == Some(id)
  }

  /** Those of them whose `EstadoSubsidio`, lower-cased, is `estado`. */
  function ConEstado(beneficiarios: map<int, Beneficiario>, id: int, estado: string): set<int> {
    set k | k in beneficiarios && beneficiarios[k].entidadId == Some(id) && ToLower(beneficiarios[k].estadoSubsidio) == estado
  }

  /**
   * `Dashboard`, behind `OnActionExecuting`: a malformed id claim throws in
   * the filter whatever the role; then the role is compared exactly, without
   * trimming or lower-casing.
   */
  function Dashboard(claims: seq<Claim>, t: Tables): (v: DashboardView)
    ensures v.ParseFault? <==> FilterFaults(claims)
    ensures !FilterFaults(claims) && GetRolUsuario(claims) != "entidad" && GetRolUsuario(claims) != "operador" ==> v == AccessDenied
    ensures v.Shown? <==>
      && !FilterFaults(claims)
      && (GetRolUsuario(claims) == "entidad" || GetRolUsuario(claims) == "operador")
      && GetEntidadId(claims).Present? && GetEntidadId(claims).id in t.entidades
    ensures v.Shown? ==> v.nombre == t.entidades[GetEntidadId(claims).id].nombre
  {
    var rol := GetRolUsuario(claims);
    if FilterFaults(claims) then ParseFault
    else if rol != "entidad" && rol != "operador" then AccessDenied
    else match GetEntidadId(claims)
      case Absent => AccessDenied
      case Malformed => ParseFault
      case Present(id) =>
        if id !in t.entidades then AccessDenied
        else
          Shown(t.entidades[id].nombre,
                |BeneficiariosDe(t.beneficiarios, id)|,
                |ConEstado(t.beneficiarios, id, "activo")|,
                |ConEstado(t.beneficiarios, id, "pendiente")|)
  }

  // ---------------------------------------------------------------- lemmas

  /** Assigning removes the beneficiary from the available list and leaves the rest of it alone. */
  lemma AssignLeavesDisponibles(bs: map<int, Beneficiario>, k: int, e: int)
    requires k in Disponibles(bs)
    ensures Disponibles(bs[k := bs[k].(entidadId := Some(e))]) == Disponibles(bs) - {k}
  {
  }

  /** Releasing returns the beneficiary to the available list. */
  lemma ReleaseRestoresDisponibles(bs: map<int, Beneficiario>, k: int)
    requires k in bs
    ensures Disponibles(bs[k := bs[k].(entidadId := None)]) == Disponibles(bs) + {k}
  {
  }

  /** Active and pending beneficiaries together are never more than all of them. */
  lemma DashboardCountsBounded(claims: seq<Claim>, t: Tables)
    requires Dashboard(claims, t).Shown?
    ensures Dashboard(claims, t).activos + Dashboard(claims, t).pendientes <= Dashboard(claims, t).total
  {
    var id := GetEntidadId(claims).id;
    var a := ConEstado(t.beneficiarios, id, "activo");
    var p := ConEstado(t.beneficiarios, id, "pendiente");
    var all := BeneficiariosDe(t.beneficiarios, id);
    assert a * p == {};
    assert |a + p| == |a| + |p|;
    assert all == (a + p) + (all - (a + p));
    assert |all| == |a + p| + |all - (a + p)|;
  }

  lemma CapitalisedEntidadLayout()
    ensures LayoutFor("Entidad") == LayoutEntidad
  {
    var rol := "Entidad";
    TrimOfUnpadded(rol);
    var lower := ToLower(rol);
    assert lower[0] == 'e' && lower[1] == 'n' && lower[2] == 't' && lower[3] == 'i';
    assert lower[4] == 'd' && lower[5] == 'a' && lower[6] == 'd';
    assert lower == "entidad";
    assert LayoutSwitch(lower) == LayoutEntidad;
  }

  /**
   * "Entidad" with a capital letter: the home page and the layout treat it
   * as an entity, but the dashboard the home page sends it to refuses it.
   */
  lemma CapitalisedRoleDenied(claims: seq<Claim>, t: Tables)
    requires GetRolUsuario(claims) == "Entidad"
    ensures Dashboard(claims, t) == if FilterFaults(claims) then ParseFault else AccessDenied
    ensures LayoutFor(GetRolUsuario(claims)) == LayoutEntidad
  {
    CapitalisedEntidadLayout();
  }
}
