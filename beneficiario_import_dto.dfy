/**
 * The data-annotation rules of `BeneficiarioImportDto`, one row of an
 * imported CSV file of beneficiaries.
 */
module BeneficiarioImportDto {
  import opened Wrappers
  import opened Text
  import ViewModel = BeneficiarioViewModel

  /** One row; `fechaNacimiento` is a `DateTime?` in ticks, `None` when the cell is empty. */
  datatype Row = Row(
    nombre: string,
    dui: string,
    direccion: string,
    telefono: string,
    genero: string,
    fechaNacimiento: Option<int>)

  datatype Field = Nombre | Dui | Direccion | Telefono | Genero | FechaNacimiento

  /** `[Required]` alone. */
  predicate Required(s: string) {
    !IsBlank(s)
  }

  /** `[Required]`, `[RegularExpression(DUI)]`: no length attribute here. */
  predicate DuiValid(s: string) {
    Required(s) && (s == "" || ViewModel.DuiPattern(s))
  }

  /** `[Required]`, `[RegularExpression(phone)]`. */
  predicate TelefonoValid(s: string) {
    Required(s) && (s == "" || ViewModel.TelefonoPattern(s))
  }

  function Errors(r: Row): (e: set<Field>)
    ensures Nombre in e <==> !Required(r.nombre)
    ensures Dui in e <==> !DuiValid(r.dui)
    ensures Direccion in e <==> !Required(r.direccion)
    ensures Telefono in e <==> !TelefonoValid(r.telefono)
    ensures Genero in e <==> !Required(r.genero)
    ensures FechaNacimiento in e <==> r.fechaNacimiento.None?
  {
    (if Required(r.nombre) then {} else {Nombre})
    + (if DuiValid(r.dui) then {} else {Dui})
    + (if Required(r.direccion) then {} else {Direccion})
    + (if TelefonoValid(r.telefono) then {} else {Telefono})
    + (if Required(r.genero) then {} else {Genero})
    + (if r.fechaNacimiento.Some? then {} else {FechaNacimiento})
  }

  predicate IsValid(r: Row) {
    Errors(r) == {}
  }

  // ---------------------------------------------------------------- lemmas

  /** Without the length attributes, the DUI and telephone rules still accept exactly what the form accepts. */
  lemma SameDuiAndTelefonoRules(s: string)
    ensures DuiValid(s) <==> ViewModel.DuiValid(s)
    ensures TelefonoValid(s) <==> ViewModel.TelefonoValid(s)
  {
    ViewModel.DuiValidIffPattern(s);
    ViewModel.TelefonoValidIffPattern(s);
    if ViewModel.DuiPattern(s) {
      assert !IsWhiteSpace(s[8]);
    }
    if ViewModel.TelefonoPattern(s) {
      assert !IsWhiteSpace(s[0]);
    }
  }

  /** Name and address are unbounded here: one letter passes as a name and as an address, unlike on the form. */
  lemma NoLengthBounds()
    ensures Required("A") && !ViewModel.NombreValid("A") && !ViewModel.DireccionValid("A")
  {
    assert !IsWhiteSpace("A"[0]);
  }

  /** A row is valid exactly when every text cell is filled, DUI and telephone match, and a birth date is given. */
  lemma IsValidIffRules(r: Row)
    ensures IsValid(r) <==>
      Required(r.nombre) && ViewModel.DuiPattern(r.dui) && Required(r.direccion)
      && ViewModel.TelefonoPattern(r.telefono) && Required(r.genero) && r.fechaNacimiento.Some?
  {
    SameDuiAndTelefonoRules(r.dui);
    SameDuiAndTelefonoRules(r.telefono);
    ViewModel.DuiValidIffPattern(r.dui);
    ViewModel.TelefonoValidIffPattern(r.telefono);
    if !IsValid(r) {
      var x :| x in Errors(r);
    }
  }

  /** A row without a birth date is invalid, whatever else it holds. */
  lemma MissingFechaNacimientoInvalid(r: Row)
    requires r.fechaNacimiento.None?
    ensures !IsValid(r)
  {
    assert FechaNacimiento in Errors(r);
  }

  /** A blank gender is an error. */
  lemma BlankGeneroInvalid(r: Row)
    requires IsBlank(r.genero)
    ensures !IsValid(r)
  {
    assert Genero in Errors(r);
  }
}
