/**
 * The framework surface the controllers touch: the signed-in principal with
 * its claims, and the action results they return.
 */
module Mvc {
  import opened Wrappers
  import opened Text

  /** A claim of the authentication cookie. */
  datatype Claim = Claim(claimType: string, value: string)

  /** `User`: whether the request is authenticated, and the claims of its identity. */
  datatype Principal = Principal(authenticated: bool, claims: seq<Claim>)

  /** `ClaimTypes.Name`, `ClaimTypes.Email` and `ClaimTypes.Role`. */
  const NameClaimType: string := "http://schemas.xmlsoap.org/ws/2005/05/identity/claims/name"
  const EmailClaimType: string := "http://schemas.xmlsoap.org/ws/2005/05/identity/claims/emailaddress"
  const RoleClaimType: string := "http://schemas.microsoft.com/ws/2008/06/identity/claims/role"

  /**
   * `User.FindFirstValue(t)`: the value of the first claim whose type equals
   * `t` ignoring case (claims identities compare types with
   * `StringComparison.OrdinalIgnoreCase`), or `null`.
   */
  function FindFirstValue(claims: seq<Claim>, t: string): (r: Option<string>)
    ensures r.None? <==> forall i :: 0 <= i < |claims| ==> !EqualsIgnoreCase(claims[i].claimType, t)
    ensures r.Some? ==> exists i :: 0 <= i < |claims| && EqualsIgnoreCase(claims[i].claimType, t) && claims[i].value == r.value
                                    && forall j :: 0 <= j < i ==> !EqualsIgnoreCase(claims[j].claimType, t)
  {
    if claims == [] then None
    else if EqualsIgnoreCase(claims[0].claimType, t) then Some(claims[0].value)
    else
      var r := FindFirstValue(claims[1..], t);
      assert forall i :: 1 <= i < |claims| ==> claims[i] == claims[1..][i - 1];
      r
  }

  /** Claims of other types in front do not change which claim is found first. */
  lemma {:induction false} FindFirstValueSkip(prefix: seq<Claim>, rest: seq<Claim>, t: string)
    requires forall i :: 0 <= i < |prefix| ==> |prefix[i].claimType| != |t|
    ensures FindFirstValue(prefix + rest, t) == FindFirstValue(rest, t)
  {
    if prefix != [] {
      assert (prefix + rest)[0] == prefix[0];
      assert (prefix + rest)[1..] == prefix[1..] + rest;
      FindFirstValueSkip(prefix[1..], rest, t);
    } else {
      assert prefix + rest == rest;
    }
  }

  /** A claim of the requested type in front is the one found. */
  lemma FindFirstValueHead(c: Claim, rest: seq<Claim>, t: string)
    requires c.claimType == t
    ensures FindFirstValue([c] + rest, t) == Some(c.value)
  {
    assert ([c] + rest)[0] == c;
  }

  /** The `TempData` message a redirect carries (its kind; the texts are left out). */
  datatype Flash = NoFlash | FlashSuccess | FlashError

  /** Why a form is shown again with a message. */
  datatype Reason = Missing | Mismatch | Duplicate | BadCredentials | UnknownReference | NotExisting

  datatype ActionResult =
    /** `RedirectToAction(action, controller, new { id })` */
    | Redirect(action: string, controller: string, routeId: Option<int>, flash: Flash)
    /** `View()` (view "") or `View(name)` */
    | Page(view: string)
    /** the form shown again because `ModelState.IsValid` is false */
    | FormInvalid
    /** the form shown again with a message on `field` ("" for the page-level `ViewBag.ErrorMessage`) */
    | FormError(field: string, reason: Reason)
    /** `NotFound()` */
    | NotFound
    /** an exception the action does not catch (the framework answers with an error page) */
    | Fault

  function RedirectTo(action: string, controller: string): ActionResult {
    Redirect(action, controller, None, NoFlash)
  }
}
