/**
 * `HomeController.Index`: sends a signed-in user to the start page of their
 * role. The role is lower-cased here but, unlike the layout choice, not trimmed.
 */
module HomeController {
  import opened Wrappers
  import opened Text
  import opened Mvc
  import opened BaseController
  import AccountController

  /** `Index`, behind `OnActionExecuting`: the role is lower-cased but not trimmed. */
  function Index(user: Principal): (r: ActionResult)
    ensures r == Fault <==> FilterFaults(user.claims)
    ensures !FilterFaults(user.claims) && !user.authenticated ==> r == RedirectTo("Login", "Account")
    ensures r == RedirectTo("Dashboard", "Entidad") <==>
              !FilterFaults(user.claims) && user.authenticated
              && (ToLower(GetRolUsuario(user.claims)) == "entidad" || ToLower(GetRolUsuario(user.claims)) == "operador")
    ensures r == RedirectTo("index", "Beneficiarios") <==>
              !FilterFaults(user.claims) && user.authenticated && ToLower(GetRolUsuario(user.claims)) == "beneficiario"
    ensures r == Page("") <==>
              !FilterFaults(user.claims) && user.authenticated
              && (ToLower(GetRolUsuario(user.claims)) == "admin" || ToLower(GetRolUsuario(user.claims)) == "administrador")
  {
    Filtered(user.claims,
      if !user.authenticated then RedirectTo("Login", "Account")
      else
        var rol := ToLower(GetRolUsuario(user.claims));
        if rol == "entidad" || rol == "operador" then RedirectTo("Dashboard", "Entidad")
        else if rol == "beneficiario" then RedirectTo("index", "Beneficiarios")
        else if rol == "admin" || rol == "administrador" then Page("")
        else Page("Login"))
  }

  // ---------------------------------------------------------------- lemmas

  /** Anonymous requests go to the login page unless their id claims make the filter throw. */
  lemma AnonymousToLogin(claims: seq<Claim>)
    ensures Index(Principal(false, claims)) == if FilterFaults(claims) then Fault else RedirectTo("Login", "Account")
  {
  }

  /** A role that starts with white space matches no case of the switch. */
  lemma PaddedRoleFallsThrough(user: Principal)
    requires user.authenticated
    requires GetRolUsuario(user.claims) != [] && IsWhiteSpace(GetRolUsuario(user.claims)[0])
    ensures Index(user) == if FilterFaults(user.claims) then Fault else Page("Login")
  {
    var rol := GetRolUsuario(user.claims);
    assert ToLower(rol)[0] == ToLowerChar(rol[0]);
  }

  /** " admin" gets the admin layout but the `Login` view from `Index`. */
  lemma HomeAndLayoutDisagree()
    ensures LayoutFor(" admin") == LayoutAdmin
    ensures Index(Principal(true, [Claim("Rol", " admin")])) == Page("Login")
  {
    PaddedAdminLayout();
    PaddedAdminClaims();
    PaddedRoleFallsThrough(Principal(true, [Claim("Rol", " admin")]));
  }

  lemma PaddedAdminLayout()
    ensures LayoutFor(" admin") == LayoutAdmin
  {
    LayoutOfRoleSpellings(" ", "admin", "");
    assert " " + "admin" + "" == " admin";
  }

  /** The single claim `Rol = " admin"` carries that role and no id claim. */
  lemma PaddedAdminClaims()
    ensures GetRolUsuario([Claim("Rol", " admin")]) == " admin"
    ensures !FilterFaults([Claim("Rol", " admin")])
  {
    var claims := [Claim("Rol", " admin")];
    assert claims == claims + [];
    FindFirstValueSkip(claims, [], "UserId");
    FindFirstValueSkip(claims, [], "EntidadId");
    FilterPassesWrittenIds(claims, None, None);
  }

  /**
   * For a role without surrounding white space the home page and the login
   * page agree on who goes to the entity dashboard; a padded role is sent
   * there by the login page only. Both run behind the same filter.
   */
  lemma HomeAndLoginAgreeOnDashboard(user: Principal)
    requires user.authenticated
    ensures Trim(GetRolUsuario(user.claims)) == GetRolUsuario(user.claims) ==>
      (Index(user) == RedirectTo("Dashboard", "Entidad") <==> AccountController.LoginGet(user) == RedirectTo("Dashboard", "Entidad"))
    ensures Index(user) == RedirectTo("Dashboard", "Entidad") ==> AccountController.LoginGet(user) == RedirectTo("Dashboard", "Entidad")
  {
    var rol := GetRolUsuario(user.claims);
    var home := ToLower(rol);
    var login := ToLower(Trim(rol));
    if !FilterFaults(user.claims) {
      assert AccountController.LoginGet(user) == AccountController.LoginGetRedirect(rol);
      TrimToLowerCommute(rol);
      if home == "entidad" || home == "operador" {
        TrimOfUnpadded(home);
      }
    }
  }
}
