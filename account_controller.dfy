/**
 * `AccountController`: where a signed-in user lands, the credential check of
 * the login form, the claims of the session it opens, logout, and
 * registration of a new user.
 */
module AccountController {
  import opened Wrappers
  import opened Text
  import opened Decimal
  import opened Mvc
  import opened BaseController
  import opened Store

  /** `Login` (GET) for a signed-in user: the role trimmed and lower-cased. */
  function LoginGetRedirect(rol: string): (r: ActionResult)
    ensures r == RedirectTo("Dashboard", "Entidad") <==> ToLower(Trim(rol)) == "entidad" || ToLower(Trim(rol)) == "operador"
    ensures r == RedirectTo("Create", "Beneficiarios") <==> ToLower(Trim(rol)) == "beneficiario"
    ensures r != RedirectTo("Dashboard", "Entidad") && r != RedirectTo("Create", "Beneficiarios") ==> r == RedirectTo("Index", "Home")
  {
    var key := ToLower(Trim(rol));
    if key == "entidad" || key == "operador" then RedirectTo("Dashboard", "Entidad")
    else if key == "beneficiario" then RedirectTo("Create", "Beneficiarios")
    else if key == "admin" || key == "administrador" then RedirectTo("Index", "Home")
    else RedirectTo("Index", "Home")
  }

  /** `Login` (GET), behind `OnActionExecuting`: anonymous users get the login form. */
  function LoginGet(user: Principal): (r: ActionResult)
    ensures r == Fault <==> FilterFaults(user.claims)
    ensures !FilterFaults(user.claims) && !user.authenticated ==> r == Page("")
    ensures !FilterFaults(user.claims) && user.authenticated ==> r == LoginGetRedirect(GetRolUsuario(user.claims))
  {
    Filtered(user.claims, if user.authenticated then LoginGetRedirect(GetRolUsuario(user.claims)) else Page(""))
  }

  /** `Login` (POST) after signing in: `Rol?.Trim() ?? ""` compared ignoring case. */
  function LoginPostRedirect(rol: Option<string>): ActionResult {
    var key := match rol case Some(r) => Trim(r) case None => "";
    if EqualsIgnoreCase(key, "admin") || EqualsIgnoreCase(key, "administrador") then RedirectTo("Index", "Home")
    else if EqualsIgnoreCase(key, "entidad") || EqualsIgnoreCase(key, "operador") then RedirectTo("Dashboard", "Entidad")
    else if EqualsIgnoreCase(key, "beneficiario") then RedirectTo("Create", "Beneficiarios")
    else RedirectTo("Index", "Home")
  }

  /** The claims of the cookie `Login` (POST) issues for user `id`, owner of `entidad` if any. */
  function SessionClaims(id: int, u: Usuario, entidad: Option<int>): seq<Claim> {
    var rol := u.rol.GetOr("beneficiario");
    [ Claim(NameClaimType, u.nombre),
      Claim(EmailClaimType, u.correo),
      Claim(RoleClaimType, rol),
      Claim("UserId", IntText(id)),
      Claim("Rol", rol) ]
    + (match entidad case Some(e) => [Claim("EntidadId", IntText(e))] case None => [])
  }

  /** The query of `Login` (POST): e-mail, hashed password and an active account. */
  predicate Credentials(u: Usuario, correo: string, hashed: string) {
    u.correo == correo && u.contrasena == hashed && u.estado == "activo"
  }

  predicate HasCredentials(usuarios: map<int, Usuario>, correo: string, hashed: string) {
    exists id :: id in usuarios && Credentials(usuarios[id], correo, hashed)
  }

  /** `usuario.Entidad`: the entity whose `UsuarioId` is `id`, if there is one. */
  predicate EntidadOf(entidades: map<int, Entidad>, id: int, e: Option<int>) {
    match e
    case Some(k) => k in entidades && entidades[k].usuarioId == id
    case None => forall k :: k in entidades ==> entidades[k].usuarioId != id
  }

  /**
   * `Logout`, behind `OnActionExecuting`: `redirectTo?.ToLower()` equal to
   * "home" goes home, anything else (a null included) to the login page.
   */
  function Logout(claims: seq<Claim>, redirectTo: string): (r: ActionResult)
    ensures r == Fault <==> FilterFaults(claims)
    ensures r == RedirectTo("Index", "Home") <==> !FilterFaults(claims) && EqualsIgnoreCase(redirectTo, "home")
    ensures !FilterFaults(claims) && !EqualsIgnoreCase(redirectTo, "home") ==> r == RedirectTo("Login", "Account")
  {
    EqualsIgnoreCaseIsLowerEquality(redirectTo, "home");
    assert ToLower("home") == "home";
    Filtered(claims, if ToLower(redirectTo) == "home" then RedirectTo("Index", "Home") else RedirectTo("Login", "Account"))
  }

  /**
   * `Login` (POST). `hash` is `AuthHelper.Hash` (SHA-256, Base64). `session`
   * holds the claims of the cookie when the user is signed in.
   */
  method LoginPost(db: Database, hash: string -> string, correo: string, contrasena: string)
    returns (r: ActionResult, session: Option<seq<Claim>>)
    ensures IsBlank(correo) || IsBlank(contrasena) ==> r == FormError("", Missing) && session == None
    ensures session.Some? <==> !IsBlank(correo) && !IsBlank(contrasena) && HasCredentials(db.usuarios, correo, hash(contrasena))
    ensures !IsBlank(correo) && !IsBlank(contrasena) && session.None? ==> r == FormError("", BadCredentials)
    ensures session.Some? ==>
      exists id, e :: id in db.usuarios && Credentials(db.usuarios[id], correo, hash(contrasena))
                      && EntidadOf(db.entidades, id, e)
                      && session.value == SessionClaims(id, db.usuarios[id], e)
                      && r == LoginPostRedirect(db.usuarios[id].rol)
  {
    if IsBlank(correo) || IsBlank(contrasena) {
      return FormError("", Missing), None;
    }
    var hashed := hash(contrasena);
    if !HasCredentials(db.usuarios, correo, hashed) {
      return FormError("", BadCredentials), None;
    }
    var id :| id in db.usuarios && Credentials(db.usuarios[id], correo, hashed);
    var usuario := db.usuarios[id];
    var entidad: Option<int> := None;
    if exists k :: k in db.entidades && db.entidades[k].usuarioId == id {
      var k :| k in db.entidades && db.entidades[k].usuarioId == id;
      entidad := Some(k);
    }
    session := Some(SessionClaims(id, usuario, entidad));
    r := LoginPostRedirect(usuario.rol);
  }

  /** `Register` (POST): blank fields, then differing passwords, then a taken e-mail are refused. */
  method Register(db: Database, hash: string -> string, nombre: string, correo: string, contrasena: string,
                  confirmarContrasena: string, rol: string) returns (r: ActionResult)
    requires db.Valid()
    modifies db
    ensures db.Valid()
    ensures IsBlank(nombre) || IsBlank(correo) || IsBlank(contrasena) || IsBlank(confirmarContrasena) || IsBlank(rol)
            ==> r == FormError("", Missing) && db.State() == old(db.State())
    ensures !IsBlank(nombre) && !IsBlank(correo) && !IsBlank(contrasena) && !IsBlank(confirmarContrasena) && !IsBlank(rol) ==>
      if contrasena != confirmarContrasena then
        r == FormError("", Mismatch) && db.State() == old(db.State())
      else if CorreoRegistrado(old(db.usuarios), correo) then
        r == FormError("", Duplicate) && db.State() == old(db.State())
      else
        && r == RedirectTo("Login", "Account")
        && db.State() == old(db.State()).(
             usuarios := old(db.usuarios)[old(db.nextUsuario) := Usuario(nombre, correo, hash(contrasena), Some(rol), "activo")],
             nextUsuario := old(db.nextUsuario) + 1)
    ensures CorreosUnicos(old(db.usuarios)) ==> CorreosUnicos(db.usuarios)
  {
    if IsBlank(nombre) || IsBlank(correo) || IsBlank(contrasena) || IsBlank(confirmarContrasena) || IsBlank(rol) {
      return FormError("", Missing);
    }
    if contrasena != confirmarContrasena {
      return FormError("", Mismatch);
    }
    if CorreoRegistrado(db.usuarios, correo) {
      return FormError("", Duplicate);
    }
    var nuevo := Usuario(nombre, correo, hash(contrasena), Some(rol), "activo");
    var _ := db.AddUsuario(nuevo);
    r := RedirectTo("Login", "Account");
  }

  // ---------------------------------------------------------------- lemmas

  /** The POST redirect, trimmed and case-insensitive, maps every role as the GET does. */
  lemma LoginRedirectsAgree(rol: string)
    ensures LoginPostRedirect(Some(rol)) == LoginGetRedirect(rol)
  {
    var key := Trim(rol);
    EqualsIgnoreCaseOfLowerName(key, "admin");
    EqualsIgnoreCaseOfLowerName(key, "administrador");
    EqualsIgnoreCaseOfLowerName(key, "entidad");
    EqualsIgnoreCaseOfLowerName(key, "operador");
    EqualsIgnoreCaseOfLowerName(key, "beneficiario");
  }

  /** The session's role, user id and entity id read back through `BaseController`. */
  lemma SessionReadBack(id: int, u: Usuario, entidad: Option<int>)
    requires IsInt32(id)
    requires entidad.Some? ==> IsInt32(entidad.value)
    ensures GetRolUsuario(SessionClaims(id, u, entidad)) == u.rol.GetOr("beneficiario")
    ensures GetUserId(SessionClaims(id, u, entidad)) == Present(id)
    ensures GetEntidadId(SessionClaims(id, u, entidad)) == if entidad.Some? then Present(entidad.value) else Absent
  {
    var claims := SessionClaims(id, u, entidad);
    SessionRol(id, u, entidad);
    SessionUserId(id, u, entidad);
    SessionEntidadId(id, u, entidad);
    ReadIdClaimOfText(claims, "UserId", id);
    if entidad.Some? {
      ReadIdClaimOfText(claims, "EntidadId", entidad.value);
    }
  }

  /** The five claims every session has, in front of the optional entity claim. */
  function SessionHead(id: int, u: Usuario): seq<Claim> {
    var rol := u.rol.GetOr("beneficiario");
    [Claim(NameClaimType, u.nombre), Claim(EmailClaimType, u.correo), Claim(RoleClaimType, rol)]
  }

  function EntidadClaim(entidad: Option<int>): seq<Claim> {
    match entidad case Some(e) => [Claim("EntidadId", IntText(e))] case None => []
  }

  /** What follows the standard claims: `UserId`, `Rol` and the optional `EntidadId`. */
  function SessionTail(id: int, u: Usuario, entidad: Option<int>): seq<Claim> {
    [Claim("UserId", IntText(id))] + ([Claim("Rol", u.rol.GetOr("beneficiario"))] + EntidadClaim(entidad))
  }

  /** The session claims: three standard claims, then `UserId`, `Rol` and the optional `EntidadId`. */
  lemma SessionSplit(id: int, u: Usuario, entidad: Option<int>)
    ensures SessionClaims(id, u, entidad) == SessionHead(id, u) + SessionTail(id, u, entidad)
  {
  }

  /** None of the standard claim types is as short as a custom one. */
  lemma SessionHeadTypes(id: int, u: Usuario, t: string)
    requires |t| <= 9
    ensures forall i :: 0 <= i < |SessionHead(id, u)| ==> |SessionHead(id, u)[i].claimType| != |t|
  {
    assert |NameClaimType| > 9 && |EmailClaimType| > 9 && |RoleClaimType| > 9;
  }

  /** The standard claims in front do not change which custom claim is found. */
  lemma SessionShape(id: int, u: Usuario, entidad: Option<int>, t: string)
    requires |t| <= 9
    ensures FindFirstValue(SessionClaims(id, u, entidad), t) == FindFirstValue(SessionTail(id, u, entidad), t)
  {
    SessionSplit(id, u, entidad);
    SessionHeadTypes(id, u, t);
    FindFirstValueSkip(SessionHead(id, u), SessionTail(id, u, entidad), t);
  }

  /** The session's first `Rol` claim holds the role, or "beneficiario" when the user has none. */
  lemma SessionRol(id: int, u: Usuario, entidad: Option<int>)
    ensures FindFirstValue(SessionClaims(id, u, entidad), "Rol") == Some(u.rol.GetOr("beneficiario"))
  {
    var rol := u.rol.GetOr("beneficiario");
    SessionShape(id, u, entidad, "Rol");
    FindFirstValueSkip([Claim("UserId", IntText(id))], [Claim("Rol", rol)] + EntidadClaim(entidad), "Rol");
    FindFirstValueHead(Claim("Rol", rol), EntidadClaim(entidad), "Rol");
  }

  /** The session's first `UserId` claim holds the text of the user's id. */
  lemma SessionUserId(id: int, u: Usuario, entidad: Option<int>)
    ensures FindFirstValue(SessionClaims(id, u, entidad), "UserId") == Some(IntText(id))
  {
    SessionShape(id, u, entidad, "UserId");
    FindFirstValueHead(Claim("UserId", IntText(id)), [Claim("Rol", u.rol.GetOr("beneficiario"))] + EntidadClaim(entidad), "UserId");
  }

  /** The session has an `EntidadId` claim exactly when the user owns an entity, holding its id's text. */
  lemma SessionEntidadId(id: int, u: Usuario, entidad: Option<int>)
    ensures FindFirstValue(SessionClaims(id, u, entidad), "EntidadId")
            == if entidad.Some? then Some(IntText(entidad.value)) else None
  {
    var rol := u.rol.GetOr("beneficiario");
    SessionShape(id, u, entidad, "EntidadId");
    FindFirstValueSkip([Claim("UserId", IntText(id))], [Claim("Rol", rol)] + EntidadClaim(entidad), "EntidadId");
    FindFirstValueSkip([Claim("Rol", rol)], EntidadClaim(entidad), "EntidadId");
    if entidad.Some? {
      FindFirstValueHead(Claim("EntidadId", IntText(entidad.value)), [], "EntidadId");
      assert EntidadClaim(entidad) == [Claim("EntidadId", IntText(entidad.value))] + [];
    }
  }

  /**
   * A user whose `Rol` is null is sent home right after signing in, but the
   * session says "beneficiario", so the next visit to the login page leads to
   * the beneficiary form instead.
   */
  lemma NullRolRedirectsDisagree(id: int, u: Usuario, entidad: Option<int>)
    requires IsInt32(id) && u.rol.None?
    requires entidad.Some? ==> IsInt32(entidad.value)
    ensures LoginPostRedirect(u.rol) == RedirectTo("Index", "Home")
    ensures LoginGet(Principal(true, SessionClaims(id, u, entidad))) == RedirectTo("Create", "Beneficiarios")
  {
    var claims := SessionClaims(id, u, entidad);
    SessionReadBack(id, u, entidad);
    SessionPassesFilter(id, u, entidad);
    BeneficiarioLandsOnForm(claims);
  }

  /** The claims a session is opened with never make `OnActionExecuting` throw. */
  lemma SessionPassesFilter(id: int, u: Usuario, entidad: Option<int>)
    requires IsInt32(id)
    requires entidad.Some? ==> IsInt32(entidad.value)
    ensures !FilterFaults(SessionClaims(id, u, entidad))
  {
    SessionUserId(id, u, entidad);
    SessionEntidadId(id, u, entidad);
    FilterPassesWrittenIds(SessionClaims(id, u, entidad), Some(id), entidad);
  }

  /** A signed-in user whose role claim reads "beneficiario" is sent on to the beneficiary form. */
  lemma BeneficiarioLandsOnForm(claims: seq<Claim>)
    requires GetRolUsuario(claims) == "beneficiario"
    ensures LoginGet(Principal(true, claims)) == if FilterFaults(claims) then Fault else RedirectTo("Create", "Beneficiarios")
  {
    NormalisedWord("beneficiario");
  }
}
