/**
 * The data-annotation rules of `BeneficiarioViewModel`, the form behind the
 * create and edit actions of the beneficiaries and admin controllers.
 *
 * `[Required]` fails on null, empty or white-space-only text;
 * `[StringLength]` bounds the raw length; `[RegularExpression]` lets empty
 * text through and otherwise demands that the pattern match the WHOLE value.
 */
module BeneficiarioViewModel {
  import opened Wrappers
  import opened Text

  /**
   * The form as the controllers bind it, including the fields they read that
   * carry no attribute (`Id_Beneficiario`, `EstadoSubsidio`, `Genero`).
   * Null text is the empty string.
   */
  datatype Form = Form(
    idBeneficiario: int,
    nombre: string,
    dui: string,
    direccion: string,
    telefono: string,
    entidadId: Option<int>,
    estadoSubsidio: string,
    genero: string,
    aceptaTerminos: bool)

  /** The properties a validation error can be attached to. */
  datatype Field = Nombre | Dui | Direccion | Telefono | AceptaTerminos

  /** `^\d{8}-\d{1}$`, matched against the whole value. */
  predicate DuiPattern(s: string) {
    |s| == 10 && AllDigits(s[..8]) && s[8] == '-' && IsDigit(s[9])
  }

  /** `^[267]\d{7,8}$`, matched against the whole value. */
  predicate TelefonoPattern(s: string) {
    s != [] && (s[0] == '2' || s[0] == '6' || s[0] == '7') && 7 <= |s| - 1 <= 8 && AllDigits(s[1..])
  }

  /** `[Required]`, `[StringLength(100, MinimumLength = 2)]`. */
  predicate NombreValid(s: string) {
    !IsBlank(s) && 2 <= |s| <= 100
  }

  /** `[Required]`, `[StringLength(10)]`, `[RegularExpression(DUI)]`. */
  predicate DuiValid(s: string) {
    !IsBlank(s) && |s| <= 10 && (s == "" || DuiPattern(s))
  }

  /** `[Required]`, `[StringLength(200, MinimumLength = 10)]`. */
  predicate DireccionValid(s: string) {
    !IsBlank(s) && 10 <= |s| <= 200
  }

  /** `[Required]`, `[StringLength(9, MinimumLength = 8)]`, `[RegularExpression(phone)]`. */
  predicate TelefonoValid(s: string) {
    !IsBlank(s) && 8 <= |s| <= 9 && (s == "" || TelefonoPattern(s))
  }

  /** The fields of `f` that fail their attributes: the model-state errors after binding. */
  function Errors(f: Form): (e: set<Field>)
    ensures Nombre in e <==> !NombreValid(f.nombre)
    ensures Dui in e <==> !DuiValid(f.dui)
    ensures Direccion in e <==> !DireccionValid(f.direccion)
    ensures Telefono in e <==> !TelefonoValid(f.telefono)
    ensures AceptaTerminos in e <==> !f.aceptaTerminos
  {
    (if NombreValid(f.nombre) then {} else {Nombre})
    + (if DuiValid(f.dui) then {} else {Dui})
    + (if DireccionValid(f.direccion) then {} else {Direccion})
    + (if TelefonoValid(f.telefono) then {} else {Telefono})
    + (if f.aceptaTerminos then {} else {AceptaTerminos})
  }

  /** `ModelState.IsValid`. */
  predicate IsValid(f: Form) {
    Errors(f) == {}
  }

  // ---------------------------------------------------------------- lemmas

  /** A DUI is valid exactly when it is eight digits, a dash and a digit; the pattern already fixes the length. */
  lemma DuiValidIffPattern(s: string)
    ensures DuiValid(s) <==> DuiPattern(s)
    ensures DuiValid(s) ==> |s| == 10
  {
    if DuiPattern(s) {
      assert !IsWhiteSpace(s[8]);
    }
  }

  /** A telephone is valid exactly when it matches the pattern, which gives 8 or 9 characters. */
  lemma TelefonoValidIffPattern(s: string)
    ensures TelefonoValid(s) <==> TelefonoPattern(s)
    ensures TelefonoValid(s) ==> |s| == 8 || |s| == 9
  {
    if TelefonoPattern(s) {
      assert !IsWhiteSpace(s[0]);
    }
  }

  /** The whole form is valid exactly when each rule holds. */
  lemma IsValidIffRules(f: Form)
    ensures IsValid(f) <==>
      NombreValid(f.nombre) && DuiPattern(f.dui) && DireccionValid(f.direccion)
      && TelefonoPattern(f.telefono) && f.aceptaTerminos
  {
    DuiValidIffPattern(f.dui);
    TelefonoValidIffPattern(f.telefono);
    if !IsValid(f) {
      var x :| x in Errors(f);
    }
  }

  /** `EntidadId` carries no attribute: no value of it, absent or not, causes an error. */
  lemma EntidadIdNeverFails(f: Form, e: Option<int>)
    ensures Errors(f.(entidadId := e)) == Errors(f)
  {
  }
}
