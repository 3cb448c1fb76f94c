# SistemaSubsidios-CASATIC: a Dafny model of its core

SistemaSubsidios-CASATIC is an ASP.NET MVC application for managing social
subsidies. Administrators and partner entities (`entidad` / `operador`)
register beneficiaries, assign them to entities and record the subsidies
granted to them. This project models the application's core in Dafny and
proves properties of that model:

- **The one-time-password registry** (`Otp`). `OtpService` keeps a map from
  e-mail address to (code, expiry). `Generar` overwrites the entry with a
  fresh six-digit code that is valid for five minutes. `Validar` answers a
  guess: an unknown key is refused, an expired entry is purged, and a
  correct guess consumes the entry.
- **Role routing** (`BaseController`, `HomeController`, `AccountController`,
  and `EntidadController.Dashboard`).
  - The role is read from the `Rol` claim, falling back to the standard role
    claim.
  - The layout is chosen by the trimmed, lower-cased role.
  - Each landing action has its own way of comparing roles: `Home/Index`
    lower-cases but does not trim; `Account/Login` GET trims and lower-cases;
    `Account/Login` POST trims and compares ignoring case; the entity
    dashboard compares exactly.
- **Account operations.**
  - `Login` POST checks credentials against the user table and builds the
    session claims.
  - `Register` checks required fields, checks the two passwords agree,
    rejects an e-mail that is already registered, and inserts the user.
- **Table operations and their guards** in the Entidad, Beneficiarios, Admin
  and Subsidios controllers. The tables are an in-memory `Store.Database`
  whose four maps and four key counters the actions update in place. For
  every action and every early-return path, the model states the exact new
  state and the result.
- **Validation rules** of `BeneficiarioViewModel`, `BeneficiarioImportDto` and
  the password rule of `Usuario`. These are the .NET data-annotation
  attributes, written out:
  - `Required` refuses null or whitespace-only text;
  - `StringLength` bounds the raw length;
  - `RegularExpression` must match the whole text and lets the empty text
    through.

Modelling conventions:

- The password hash (`AuthHelper.Hash`) is a parameter `hash: string ->
  string`. It is *not* assumed injective.
- The clock (`DateTime.Now`) and the random draw are parameters. The draw
  satisfies `100000 <= draw < 999999`.
- An exception that escapes an action is the result `Fault`.
  `BaseController.OnActionExecuting` runs before every action of the
  controllers derived from `BaseController`. It parses the `UserId` and
  `EntidadId` claims with `int.Parse`, so a malformed one throws before the
  action body runs (`BaseController.Filtered`).
- The form-binding outcome of models without an annotated rule set here
  (`EntidadViewModel`, `Subsidio`) is the boolean `bindingValid`.
- Text is `seq<char>`. White space, upper case and lower case are those of
  ASCII.

Deliberate choices:

- The code has no OTP resend cooldown. A re-issue simply overwrites the
  entry (`Otp.ReissueInvalidates`).
- Role comparisons differ from action to action, as listed above. The
  lemmas `HomeController.PaddedRoleFallsThrough`,
  `HomeController.HomeAndLayoutDisagree` and
  `EntidadController.CapitalisedRoleDenied` exhibit the disagreements.
- `Beneficiario.EntidadId` is declared as a plain `int` in
  `Models/Beneficiario.cs`, but the controllers store and test `null` in it
  and the migration `EntidadIdOpcional` makes the column nullable. The model
  gives it type `Option<int>`.
- The Admin edit action clears the messages of the "accept terms" entry but
  not its validation state, and `ModelState.IsValid` reads the validation
  state. An unticked box therefore still refuses the admin edit, as it
  refuses the Beneficiarios edit (`AdminController.ClearedTermsStillRefused`).

## Model

| member | source | states |
|---|---|---|
| Otp.CodeOf | Services/OtpService.cs:13-14 | a drawn code is six digits with no leading zero and denotes the draw |
| Otp.OtpService.constructor | Services/OtpService.cs:8-9 | the registry starts empty |
| Otp.OtpService.Generar | Services/OtpService.cs:11-19 | returns the code of the draw and overwrites the key's entry with that code expiring five minutes after now |
| Otp.OtpService.Validar | Services/OtpService.cs:21-40 | answer and new registry follow the three guards: unknown key refused, expired entry purged and refused, match accepted and consumed, mismatch refused with the entry kept |
| Otp.CodeNeverAllNines | Services/OtpService.cs:14 | the exclusive upper bound of the draw means "999999" is never issued |
| Otp.IssuedEntries | Services/OtpService.cs:16 | issuing sets the key's entry to the code and its expiry, and leaves every other key as it was |
| Otp.UnknownKeyRejected | Services/OtpService.cs:23-24 | a key with no entry is refused and the registry is unchanged |
| Otp.ExpiredEntryPurged | Services/OtpService.cs:28-32 | strictly after expiry the entry is removed and the guess refused whatever it is |
| Otp.ComparedAtExpiry | Services/OtpService.cs:28-34 | at the expiry instant itself the guess is still compared |
| Otp.WrongGuessKeepsEntry | Services/OtpService.cs:34-39 | a wrong guess leaves the registry unchanged, so the right code is still accepted later within validity |
| Otp.CorrectGuessConsumed | Services/OtpService.cs:34-37 | a correct guess removes the entry, so replaying it fails |
| Otp.IssuedCodeAccepted | Services/OtpService.cs:11-40 | an issued code is accepted by any check up to five minutes after issue |
| Otp.IssuedCodeExpires | Services/OtpService.cs:16-32 | every guess is refused more than five minutes after issue |
| Otp.ReissueInvalidates | Services/OtpService.cs:16 | after re-issuing for the same key the first code is accepted iff the two draws coincide |
| Otp.SingleUseScenario | Services/OtpService.cs:11-40 | on a fresh service: wrong guess refused, right code accepted, the same code refused afterwards |
| Mvc.FindFirstValue | Controllers/BaseController.cs:11 | the value of the first claim whose type equals the requested one ignoring case, and none exactly when no claim has that type |
| Decimal.ParseInt32 | Controllers/BaseController.cs:22 | a parsed claim value is always within the 32-bit range |
| Decimal.ParseInt32OfIntText | Controllers/BaseController.cs:22 | parsing the decimal text of any 32-bit integer gives that integer back |
| BaseController.NoRoleClaim | Controllers/BaseController.cs:11 | with neither a `Rol` nor a standard role claim the role is empty and the default layout is used |
| BaseController.RolClaimPreferred | Controllers/BaseController.cs:11 | the first `Rol` claim, wherever it stands, is the role, whatever standard role claims precede or follow it |
| BaseController.RoleClaimFallback | Controllers/BaseController.cs:11 | with no `Rol` claim at all, the first standard role claim, wherever it stands, is the role |
| BaseController.FirstClaimAt | Controllers/BaseController.cs:11 | a claim of the requested type with no claim of that type before it is the one whose value is read |
| BaseController.GetRolUsuario | Controllers/BaseController.cs:9-12 | the first `Rol` claim if there is one, else the first standard role claim; empty exactly when the claim chosen is empty or neither claim exists |
| BaseController.GetUserId | Controllers/BaseController.cs:19-23 | an id exactly when the first `UserId` claim exists and parses as an Int32, and then it is the parsed value |
| BaseController.GetEntidadId | Controllers/BaseController.cs:25-29 | an id exactly when the first `EntidadId` claim exists and parses as an Int32, and then it is the parsed value |
| BaseController.Filtered | Controllers/BaseController.cs:31-50 | an action behind `OnActionExecuting` faults exactly when the `UserId` or `EntidadId` claim is malformed or the action itself faults; otherwise its result is the action's own |
| BaseController.FilterPassesWrittenIds | Controllers/BaseController.cs:44-47 | claims whose id claims are absent or hold the decimal text of an Int32 never make the filter throw |
| BaseController.ReadIdClaim | Controllers/BaseController.cs:19-29 | an absent or empty claim gives no id; a present id is a 32-bit integer and is what the claim's text parses to; the `int.Parse` exception exactly when the text is non-empty and does not parse |
| BaseController.ReadIdClaimOfText | Controllers/BaseController.cs:21-22 | a claim holding the text of an Int32 id reads back as that id |
| BaseController.LayoutIgnoresPaddingAndCase | Controllers/BaseController.cs:33-42 | the layout depends only on the trimmed lower-cased role |
| BaseController.LayoutFor | Controllers/BaseController.cs:33-42 | the admin layout iff the trimmed lower-cased role is admin or administrador, the entity layout iff entidad or operador, the beneficiary layout iff beneficiario |
| BaseController.LayoutOfRoleSpellings | Controllers/BaseController.cs:36-42 | admin/administrador, entidad/operador and beneficiario in any case with any padding pick their layouts, anything else the default |
| BaseController.LayoutOfOtherRoles | Controllers/BaseController.cs:41 | a role that is none of the five names after trimming and lower-casing gets the default layout, however it is padded |
| HomeController.Index | Controllers/HomeController.cs:7-32 | faults iff the filter throws; otherwise an anonymous user goes to Login/Account, and a signed-in one to Dashboard/Entidad iff the lower-cased untrimmed role is entidad or operador, to index/Beneficiarios iff beneficiario, and to the Home view iff admin or administrador |
| HomeController.AnonymousToLogin | Controllers/HomeController.cs:10-13 | an anonymous request goes to Login/Account whatever claims it carries, unless its id claims make the filter throw |
| HomeController.HomeAndLoginAgreeOnDashboard | Controllers/HomeController.cs:14-19 | the home page sends a user to the entity dashboard only if the login page does, and for an unpadded role exactly when it does |
| HomeController.PaddedRoleFallsThrough | Controllers/HomeController.cs:15-27 | a role that starts with white space is not trimmed and falls to the default case, the Login view, unless the filter throws |
| HomeController.HomeAndLayoutDisagree | Controllers/HomeController.cs:15-27 | the single claim `Rol = " admin"` gets the admin layout but the Login view from Home |
| HomeController.PaddedAdminLayout | Controllers/BaseController.cs:33-42 | the role " admin" gets the admin layout |
| HomeController.PaddedAdminClaims | Controllers/BaseController.cs:9-29 | the single claim `Rol = " admin"` gives the role " admin" and passes the filter |
| AccountController.BeneficiarioLandsOnForm | Controllers/AccountController.cs:22-34 | a signed-in user whose role reads "beneficiario" is sent to Create/Beneficiarios by the login page, unless the filter throws |
| AccountController.LoginGetRedirect | Controllers/AccountController.cs:24-42 | Dashboard/Entidad iff the trimmed lower-cased role is entidad or operador, Create/Beneficiarios iff beneficiario, Index/Home otherwise |
| AccountController.LoginGet | Controllers/AccountController.cs:18-46 | faults iff the filter throws; otherwise an anonymous user gets the login form and a signed-in one the redirect of their role |
| AccountController.LoginPost | Controllers/AccountController.cs:49-112 | blank input is refused; a session exists iff some active user has this e-mail and the hash of this password; the session's claims are that user's and the redirect follows its role |
| AccountController.SessionReadBack | Controllers/AccountController.cs:71-84 | reading the claims of a session back gives the user's role (or "beneficiario"), its id and its entity's id |
| AccountController.LoginRedirectsAgree | Controllers/AccountController.cs:24-42 | for every role text the trimmed lower-cased GET comparison and the trimmed case-insensitive POST comparison give the same redirect |
| AccountController.SessionRol | Controllers/AccountController.cs:75-77 | the session's first `Rol` claim holds the user's role, or "beneficiario" when it has none |
| AccountController.SessionUserId | Controllers/AccountController.cs:76 | the session's first `UserId` claim holds the decimal text of the user's id |
| AccountController.SessionEntidadId | Controllers/AccountController.cs:80-84 | the session has an `EntidadId` claim exactly when the user owns an entity, and it holds that entity's id |
| AccountController.NullRolRedirectsDisagree | Controllers/AccountController.cs:75-111 | a user with no role lands on Home after the POST but on Create/Beneficiarios on a later GET, because the session says "beneficiario" |
| AccountController.SessionPassesFilter | Controllers/AccountController.cs:71-84 | the claims of a session opened by the login never make the filter throw |
| AccountController.Logout | Controllers/AccountController.cs:114-126 | faults iff the filter throws; otherwise goes to Index/Home iff `redirectTo` is "home" in any letter case, and to Login/Account otherwise |
| AccountController.Register | Controllers/AccountController.cs:140-180 | blank field, mismatched passwords and registered e-mail each refuse without change; otherwise exactly one active user with the hashed password is added, e-mails stay unique |
| BeneficiarioViewModel.Errors | Models/BeneficiarioViewModel.cs:5-33 | a field is in error iff its attributes refuse its value |
| BeneficiarioViewModel.DuiValidIffPattern | Models/BeneficiarioViewModel.cs:10-14 | a valid DUI is exactly eight digits, a hyphen and one digit |
| BeneficiarioViewModel.TelefonoValidIffPattern | Models/BeneficiarioViewModel.cs:21-25 | a valid telephone starts with 2, 6 or 7 followed by 7 or 8 digits |
| BeneficiarioViewModel.IsValidIffRules | Models/BeneficiarioViewModel.cs:5-33 | the form is valid iff every field rule holds and the terms are accepted |
| BeneficiarioViewModel.EntidadIdNeverFails | Models/BeneficiarioViewModel.cs:27-29 | the optional entity id never causes a validation error |
| BeneficiarioImportDto.Errors | Models/BeneficiarioImportDto.cs:9-34 | a column is in error iff its attributes refuse its value |
| BeneficiarioImportDto.SameDuiAndTelefonoRules | Models/BeneficiarioImportDto.cs:13-25 | the import's DUI and telephone rules accept what the form's accept |
| BeneficiarioImportDto.NoLengthBounds | Models/BeneficiarioImportDto.cs:9-11 | a one-letter name is accepted by the import though the form refuses it |
| BeneficiarioImportDto.IsValidIffRules | Models/BeneficiarioImportDto.cs:9-34 | a row is valid iff every column rule holds |
| BeneficiarioImportDto.MissingFechaNacimientoInvalid | Models/BeneficiarioImportDto.cs:32-34 | a row without birth date is invalid |
| BeneficiarioImportDto.BlankGeneroInvalid | Models/BeneficiarioImportDto.cs:27-29 | a row with a blank gender is invalid |
| UsuarioModel.PasswordValidIff | Models/Usuario.cs:12-15 | a valid password is non-blank, 8 to 100 characters, without line breaks, with an upper-case letter, a digit and a non-word character or underscore |
| UsuarioModel.PasswordLengthBounds | Models/Usuario.cs:13 | a valid password has between 8 and 100 characters |
| UsuarioModel.BlankPasswordRefused | Models/Usuario.cs:12 | a blank password is refused |
| UsuarioModel.SamplePasswordAccepted | Models/Usuario.cs:14 | "Clave_123" is accepted |
| Store.Database.AddUsuario | Models/Usuario.cs:4-19 | adds the user under the next key and changes nothing else |
| Store.Database.AddEntidad | Models/Entidad.cs:3-13 | adds the entity under the next key and changes nothing else |
| Store.Database.AddBeneficiario | Models/Beneficiario.cs:3-17 | adds the beneficiary under the next key and changes nothing else |
| Store.Database.AddSubsidio | Models/Subsidio.cs:3-34 | adds the subsidy under a key larger than every existing one and changes nothing else |
| EntidadController.CreateEntidad | Controllers/EntidadController.cs:49-99 | invalid binding, a taken entity name and a registered e-mail each refuse without change; otherwise adds an `entidad` user and its entity linked to it, keeping names and e-mails unique |
| EntidadController.Edit | Controllers/EntidadController.cs:128-189 | invalid binding, unknown id and a name taken by another entity refuse without change; otherwise only name, e-mail and address of that entity change |
| EntidadController.DeleteConfirmed | Controllers/EntidadController.cs:217-246 | unknown id gives NotFound, an entity with beneficiaries is kept with an error; otherwise it is removed and no beneficiary refers to a missing entity |
| EntidadController.GestionarBeneficiarios | Controllers/EntidadController.cs:251-269 | an unknown entity gives nothing; otherwise the beneficiaries without an entity are offered |
| EntidadController.AsignarBeneficiario | Controllers/EntidadController.cs:274-304 | an unknown beneficiary, or one that already has an entity, is refused with an error and no change; otherwise it gets this entity; the result always returns to the entity's management page |
| EntidadController.DesasignarBeneficiario | Controllers/EntidadController.cs:309-339 | a beneficiary of this entity loses its entity; otherwise nothing changes; the result always returns to the management page |
| EntidadController.AssignThenRelease | Controllers/EntidadController.cs:274-339 | assigning an unassigned beneficiary and releasing it restores the tables |
| EntidadController.Disponibles | Controllers/EntidadController.cs:260-262 | a beneficiary is listed as available iff it exists and has no entity |
| EntidadController.AssignLeavesDisponibles | Controllers/EntidadController.cs:259-304 | assigning an available beneficiary removes exactly it from the available set |
| EntidadController.ReleaseRestoresDisponibles | Controllers/EntidadController.cs:259-262 | clearing a beneficiary's entity adds exactly it to the available set |
| EntidadController.Dashboard | Controllers/EntidadController.cs:342-377 | a malformed `UserId` or `EntidadId` claim faults whatever the role; otherwise roles other than exactly entidad/operador are denied, as are a missing `EntidadId` and an unknown entity; otherwise the entity is shown under its name |
| EntidadController.DashboardCountsBounded | Controllers/EntidadController.cs:366-368 | active plus pending never exceeds the total |
| EntidadController.CapitalisedRoleDenied | Controllers/EntidadController.cs:345-348 | the role "Entidad" gets the entity layout but is denied the dashboard, or faults if the filter throws |
| BeneficiariosController.Create | Controllers/BeneficiariosController.cs:59-113 | invalid form, a DUI already registered and an unknown entity each refuse without change; otherwise adds the trimmed record with status "Pendiente", keeping DUIs unique and entity references valid; with controller "Admin" it is also the admin `Create` (Controllers/AdminController.cs:59-113) |
| BeneficiariosController.Edit | Controllers/BeneficiariosController.cs:149-222 | route/form id mismatch and unknown id give NotFound; invalid form, a DUI taken by another record and an unknown entity refuse; otherwise the record is replaced by the trimmed form |
| BeneficiariosController.DeleteConfirmed | Controllers/BeneficiariosController.cs:247-270 | an existing record is removed with success, an unknown id changes nothing and reports an error; both redirect to Index; with controller "Admin" it is also the admin `DeleteConfirmed` (Controllers/AdminController.cs:271-294) |
| BeneficiariosController.OwnDuiIsNotTaken | Controllers/BeneficiariosController.cs:163-165 | with unique DUIs a record keeping its own DUI collides with no other record, though the DUI is registered |
| AdminController.EditModelState | Controllers/AdminController.cs:160-166 | the terms entry holds no message after the edit clears it, every other field holds messages iff the form's rules refuse it, and every failing field, the terms box included, stays marked invalid |
| AdminController.Edit | Controllers/AdminController.cs:157-245 | invalid form, unknown id, a DUI taken by another record and an unknown entity refuse; otherwise the record is replaced and the invariants kept |
| AdminController.ClearedTermsStillRefused | Controllers/AdminController.cs:160-168 | with the terms box unticked the admin edit is refused though the box shows no message; the admin edit accepts exactly the forms the form's rules accept |
| SubsidiosController.OrderByIdDesc | Controllers/SubsidiosController.cs:24 | the keys in strictly descending order, each exactly once |
| SubsidiosController.DescendingUnique | Controllers/SubsidiosController.cs:24 | two descending lists with the same members are equal, so the order is determined |
| SubsidiosController.Index | Controllers/SubsidiosController.cs:20-28 | every subsidy is listed exactly once, in strictly descending id order |
| SubsidiosController.ActivosIsFilteredIndex | Controllers/SubsidiosController.cs:308-318 | the active list is the index filtered by status "Activo" |
| SubsidiosController.Activos | Controllers/SubsidiosController.cs:308-318 | exactly the subsidies whose status is "Activo", case-sensitively, in strictly descending id order |
| SubsidiosController.ReporteOf | Controllers/SubsidiosController.cs:293-306 | the report counts every subsidy, and an empty table totals zero |
| SubsidiosController.Create | Controllers/SubsidiosController.cs:40-137 | invalid binding and an unknown beneficiary refuse without change; otherwise the subsidy is added at the head of the index and the report grows by one record and its amount |
| SubsidiosController.Edit | Controllers/SubsidiosController.cs:152-254 | invalid binding and an unknown id refuse without change; otherwise the record is replaced |
| SubsidiosController.DeleteConfirmed | Controllers/SubsidiosController.cs:281-290 | removes the subsidy if present and always redirects to Index |
| SubsidiosController.ReporteAfterInsert | Controllers/SubsidiosController.cs:293-306 | adding a subsidy under a new key adds one record and its amount to the report |
| SubsidiosController.ReporteAfterDelete | Controllers/SubsidiosController.cs:281-306 | deleting an existing subsidy removes one record and its amount from the report |
| SubsidiosController.IndexAfterDelete | Controllers/SubsidiosController.cs:281-290 | deleting a subsidy removes exactly it from the index and keeps the order of the rest |
| SubsidiosController.SumAfterDelete | Controllers/SubsidiosController.cs:302-303 | the amounts of the listed subsidies that remain sum to the old total less the deleted amount |

## Left out

- Concurrency: `OtpService` uses a `ConcurrentDictionary` and the actions are asynchronous. The model is sequential, so races between a check and a removal are not modelled.
- The code has no OTP resend cooldown; re-issuing overwrites the entry.
- Database constraints and collation: foreign keys, unique indexes and case-insensitive comparisons performed by SQL Server are not modelled. Equality in the model is exact.
- EntidadController.AsignarBeneficiario: the code does not check that the entity exists, so the model states that references stay valid only when the entity does.
- SubsidiosController.Edit: the code does not check the beneficiary on edit, so the model does not preserve `BeneficiariosExisten` there.
- SubsidiosController.DeleteConfirmed: its effect on the report is stated by the lemma `ReporteAfterDelete`, not by the method's own contract.
- BeneficiariosController.DeleteConfirmed: removes a beneficiary even when subsidies refer to it; what the database then does (cascade or refusal) is not modelled.
- `LoginPost`, `Register` and the table actions of the Entidad, Admin and Subsidios controllers take no claims. They are stated for a request whose claims pass `OnActionExecuting`; the fault that a malformed id claim raises before them is not modelled. `BeneficiariosController` derives from `Controller`, so its actions have no such filter.
- The `catch` paths of the actions (database exceptions) are not modelled. Neither are TempData or ViewBag texts, select lists for the views, or logging.
- The binding rules of `EntidadViewModel` and `Subsidio` are reduced to the boolean `bindingValid`.
- The `Genero` field of the view model has no rule, so it is carried but never checked.
- Decimal amounts are modelled as integers.
- Dates are ticks; the calendar range of `DateTime` is not modelled.
- Culture-specific `int.Parse` details (leading sign spacing, thousands separators) are not modelled. A claim parses iff it is optional blanks, an optional sign, decimal digits and optional blanks, in the Int32 range.
- Non-ASCII letters: case conversion and white space follow ASCII only.
- Not part of this model:
  - `EmailService` and `LogsService`;
  - the body of `AuthHelper.Hash` (it is a parameter);
  - `SolicitudesController`, `LogsController` and `TestController`;
  - the read-only Index and Details pages;
  - the migrations;
  - the views.
