/**
 * `BaseController`: reading the role and the numeric ids out of the claims,
 * and choosing the page layout from the role.
 */
module BaseController {
  import opened Wrappers
  import opened Text
  import opened Decimal
  import opened Mvc

  /** `GetRolUsuario`: the "Rol" claim, else the standard role claim, else "". */
  function GetRolUsuario(claims: seq<Claim>): (r: string)
    ensures FindFirstValue(claims, "Rol").Some? ==> r == FindFirstValue(claims, "Rol").value
    ensures FindFirstValue(claims, "Rol").None? && FindFirstValue(claims, RoleClaimType).Some? ==>
              r == FindFirstValue(claims, RoleClaimType).value
    ensures r == "" <==>
              if FindFirstValue(claims, "Rol").Some? then FindFirstValue(claims, "Rol").value == ""
              else FindFirstValue(claims, RoleClaimType).None? || FindFirstValue(claims, RoleClaimType).value == ""
  {
    FindFirstValue(claims, "Rol").GetOr(FindFirstValue(claims, RoleClaimType).GetOr(""))
  }

  /** A nullable id read from a claim; `Malformed` stands for the exception `int.Parse` throws. */
  datatype ClaimId = Absent | Present(id: int) | Malformed

  /** `string.IsNullOrEmpty(v) ? null : int.Parse(v)` for the first claim of type `t`. */
  function ReadIdClaim(claims: seq<Claim>, t: string): (r: ClaimId)
    ensures r.Absent? <==> FindFirstValue(claims, t).None? || FindFirstValue(claims, t).value == ""
    ensures r.Present? ==> IsInt32(r.id)
    ensures r.Present? ==> FindFirstValue(claims, t).Some? && ParseInt32(FindFirstValue(claims, t).value) == Some(r.id)
    ensures r.Malformed? <==>
              FindFirstValue(claims, t).Some? && FindFirstValue(claims, t).value != ""
              && ParseInt32(FindFirstValue(claims, t).value).None?
  {
    match FindFirstValue(claims, t)
    case None => Absent
    case Some(v) =>
      if v == "" then Absent
      else match ParseInt32(v)
        case Some(n) => Present(n)
        case None => Malformed
  }

  /** `GetUserId`: the "UserId" claim parsed; an id is present only when the claim parses. */
  function GetUserId(claims: seq<Claim>): (r: ClaimId)
    ensures r.Present? <==> FindFirstValue(claims, "UserId").Some? && ParseInt32(FindFirstValue(claims, "UserId").value).Some?
    ensures r.Present? ==> Some(r.id) == ParseInt32(FindFirstValue(claims, "UserId").value)
  {
    ReadIdClaim(claims, "UserId")
  }

  /** `GetEntidadId`: the "EntidadId" claim parsed in the same way. */
  function GetEntidadId(claims: seq<Claim>): (r: ClaimId)
    ensures r.Present? <==> FindFirstValue(claims, "EntidadId").Some? && ParseInt32(FindFirstValue(claims, "EntidadId").value).Some?
    ensures r.Present? ==> Some(r.id) == ParseInt32(FindFirstValue(claims, "EntidadId").value)
  {
    ReadIdClaim(claims, "EntidadId")
  }

  /**
   * `OnActionExecuting` runs before every action of a controller derived from
   * `BaseController`. It stores both ids in the `ViewBag`, so a malformed
   * "UserId" or "EntidadId" claim throws before the action body runs.
   */
  predicate FilterFaults(claims: seq<Claim>) {
    GetUserId(claims).Malformed? || GetEntidadId(claims).Malformed?
  }

  /** The result of an action behind `OnActionExecuting`: `Fault` if the filter throws, else the action's own. */
  function Filtered(claims: seq<Claim>, action: ActionResult): (r: ActionResult)
    ensures r == Fault <==> FilterFaults(claims) || action == Fault
    ensures !FilterFaults(claims) ==> r == action
  {
    if FilterFaults(claims) then Fault else action
  }

  /** The four layouts `OnActionExecuting` chooses between. */
  datatype Layout = LayoutAdmin | LayoutEntidad | LayoutBeneficiario | LayoutDefault

  /** The switch expression of `OnActionExecuting`, on the normalised role. */
  function LayoutSwitch(key: string): Layout {
    if key == "admin" || key == "administrador" then LayoutAdmin
    else if key == "entidad" || key == "operador" then LayoutEntidad
    else if key == "beneficiario" then LayoutBeneficiario
    else LayoutDefault
  }

  /** `ViewBag.Layout` for a role: trimmed and lower-cased, then switched on. */
  function LayoutFor(rol: string): (r: Layout)
    ensures r == LayoutAdmin <==> ToLower(Trim(rol)) == "admin" || ToLower(Trim(rol)) == "administrador"
    ensures r == LayoutEntidad <==> ToLower(Trim(rol)) == "entidad" || ToLower(Trim(rol)) == "operador"
    ensures r == LayoutBeneficiario <==> ToLower(Trim(rol)) == "beneficiario"
  {
    LayoutSwitch(ToLower(Trim(rol)))
  }

  // ---------------------------------------------------------------- lemmas

  /** The layout does not depend on white space around the role, nor on its letter case. */
  lemma LayoutIgnoresPaddingAndCase(p: string, rol: string, q: string, other: string)
    requires IsBlank(p) && IsBlank(q)
    requires ToLower(rol) == ToLower(other)
    ensures LayoutFor(p + rol + q) == LayoutFor(other)
  {
    TrimIgnoresPadding(p, rol, q);
    TrimToLowerCommute(rol);
    TrimToLowerCommute(other);
  }

  /** A lower-case word without surrounding white space is already normalised. */
  lemma NormalisedWord(name: string)
    requires name != [] && IsLower(name[0]) && IsLower(name[|name| - 1])
    requires forall i :: 0 <= i < |name| ==> !IsUpper(name[i])
    ensures ToLower(Trim(name)) == name
  {
    TrimOfUnpadded(name);
  }

  /** The layout for every spelling of each role name, padded or not. */
  lemma LayoutOfRoleSpellings(p: string, rol: string, q: string)
    requires IsBlank(p) && IsBlank(q)
    ensures ToLower(rol) == "admin" || ToLower(rol) == "administrador" ==> LayoutFor(p + rol + q) == LayoutAdmin
    ensures ToLower(rol) == "entidad" || ToLower(rol) == "operador" ==> LayoutFor(p + rol + q) == LayoutEntidad
    ensures ToLower(rol) == "beneficiario" ==> LayoutFor(p + rol + q) == LayoutBeneficiario
    ensures ToLower(Trim(rol)) !in {"admin", "administrador", "entidad", "operador", "beneficiario"} ==>
              LayoutFor(p + rol + q) == LayoutDefault
  {
    var key := ToLower(rol);
    if key == "admin" || key == "administrador" || key == "entidad" || key == "operador" || key == "beneficiario" {
      NormalisedWord(key);
      ToLowerIdempotent(rol);
      LayoutIgnoresPaddingAndCase(p, rol, q, key);
    }
    LayoutOfOtherRoles(p, rol, q);
  }

  /** Every other role, however padded, gets the default layout. */
  lemma LayoutOfOtherRoles(p: string, rol: string, q: string)
    requires IsBlank(p) && IsBlank(q)
    ensures ToLower(Trim(rol)) !in {"admin", "administrador", "entidad", "operador", "beneficiario"} ==>
              LayoutFor(p + rol + q) == LayoutDefault
  {
    LayoutIgnoresPaddingAndCase(p, rol, q, rol);
  }

  /** The first "Rol" claim, wherever it stands, is the role, whatever standard role claim precedes or follows it. */
  lemma RolClaimPreferred(front: seq<Claim>, v: string, rest: seq<Claim>)
    requires forall i :: 0 <= i < |front| ==> !EqualsIgnoreCase(front[i].claimType, "Rol")
    ensures GetRolUsuario(front + [Claim("Rol", v)] + rest) == v
  {
    var claims := front + [Claim("Rol", v)] + rest;
    assert forall i :: 0 <= i < |front| ==> claims[i] == front[i];
    FirstClaimAt(claims, |front|, "Rol");
  }

  /** Without any "Rol" claim, the first standard role claim, wherever it stands, gives the role. */
  lemma RoleClaimFallback(front: seq<Claim>, v: string, rest: seq<Claim>)
    requires forall i :: 0 <= i < |front| ==> !EqualsIgnoreCase(front[i].claimType, RoleClaimType)
    requires forall i :: 0 <= i < |front| ==> !EqualsIgnoreCase(front[i].claimType, "Rol")
    requires forall i :: 0 <= i < |rest| ==> !EqualsIgnoreCase(rest[i].claimType, "Rol")
    ensures GetRolUsuario(front + [Claim(RoleClaimType, v)] + rest) == v
  {
    var claims := front + [Claim(RoleClaimType, v)] + rest;
    assert !EqualsIgnoreCase(RoleClaimType, "Rol");
    assert forall i :: 0 <= i < |claims| ==> !EqualsIgnoreCase(claims[i].claimType, "Rol") by {
      forall i | 0 <= i < |claims| ensures !EqualsIgnoreCase(claims[i].claimType, "Rol") {
        if i < |front| { assert claims[i] == front[i]; }
        else if i > |front| { assert claims[i] == rest[i - |front| - 1]; }
      }
    }
    FirstClaimAt(claims, |front|, RoleClaimType);
  }

  /** A claim of type `t` with none before it is the one `FindFirstValue` finds. */
  lemma FirstClaimAt(claims: seq<Claim>, k: int, t: string)
    requires 0 <= k < |claims| && claims[k].claimType == t
    requires forall i :: 0 <= i < k ==> !EqualsIgnoreCase(claims[i].claimType, t)
    ensures FindFirstValue(claims, t) == Some(claims[k].value)
  {
    assert EqualsIgnoreCase(claims[k].claimType, t);
    var r := FindFirstValue(claims, t);
    var i :| 0 <= i < |claims| && EqualsIgnoreCase(claims[i].claimType, t) && claims[i].value == r.value
             && forall j :: 0 <= j < i ==> !EqualsIgnoreCase(claims[j].claimType, t);
    assert i == k;
  }

  /** The filter passes claims whose ids are absent or written as 32-bit decimal text. */
  lemma FilterPassesWrittenIds(claims: seq<Claim>, userId: Option<int>, entidadId: Option<int>)
    requires userId.Some? ==> IsInt32(userId.value) && FindFirstValue(claims, "UserId") == Some(IntText(userId.value))
    requires userId.None? ==> FindFirstValue(claims, "UserId").None?
    requires entidadId.Some? ==> IsInt32(entidadId.value) && FindFirstValue(claims, "EntidadId") == Some(IntText(entidadId.value))
    requires entidadId.None? ==> FindFirstValue(claims, "EntidadId").None?
    ensures !FilterFaults(claims)
  {
    if userId.Some? {
      ReadIdClaimOfText(claims, "UserId", userId.value);
    }
    if entidadId.Some? {
      ReadIdClaimOfText(claims, "EntidadId", entidadId.value);
    }
  }

  /** With neither claim the role is the empty string, which gets the default layout. */
  lemma NoRoleClaim(claims: seq<Claim>)
    requires forall i :: 0 <= i < |claims| ==> !EqualsIgnoreCase(claims[i].claimType, "Rol")
    requires forall i :: 0 <= i < |claims| ==> !EqualsIgnoreCase(claims[i].claimType, RoleClaimType)
    ensures GetRolUsuario(claims) == ""
    ensures LayoutFor(GetRolUsuario(claims)) == LayoutDefault
  {
  }

  /** An id written with `ToString()` reads back as that id. */
  lemma ReadIdClaimOfText(claims: seq<Claim>, t: string, n: int)
    requires IsInt32(n)
    requires FindFirstValue(claims, t) == Some(IntText(n))
    ensures ReadIdClaim(claims, t) == Present(n)
  {
    ParseInt32OfIntText(n);
  }
}
