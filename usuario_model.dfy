/**
 * The data-annotation rule on `Usuario.Contrasena` and the default of
 * `Usuario.Estado`.
 */
module UsuarioModel {
  import opened Text

  /** `[\W_]` on ASCII: anything that is neither a letter nor a digit. */
  predicate IsSpecial(c: char) {
    !IsLetter(c) && !IsDigit(c)
  }

  /**
   * A lookahead `(?=.*[class])` at the start: some character of the class
   * occurs, and `.*` (which stops at a line feed) reaches it.
   */
  predicate Lookahead(s: string, upper: bool, digit: bool, special: bool) {
    exists i :: 0 <= i < |s|
      && (if upper then IsUpper(s[i]) else if digit then IsDigit(s[i]) else special && IsSpecial(s[i]))
      && forall j :: 0 <= j < i ==> s[j] != '\n'
  }

  /** `^(?=.*[A-Z])(?=.*\d)(?=.*[\W_]).{8,}$`, matched against the whole value. */
  predicate PasswordPattern(s: string) {
    && Lookahead(s, true, false, false)
    && Lookahead(s, false, true, false)
    && Lookahead(s, false, false, true)
    && |s| >= 8 && (forall i :: 0 <= i < |s| ==> s[i] != '\n')
  }

  /** `[Required]`, `[StringLength(100, MinimumLength = 8)]` and the pattern; null is the empty string. */
  predicate PasswordValid(s: string) {
    !IsBlank(s) && 8 <= |s| <= 100 && (s == "" || PasswordPattern(s))
  }

  // ---------------------------------------------------------------- lemmas

  /**
   * A password is valid exactly when it has 8 to 100 characters, no line
   * feed, and at least one capital, one digit and one other character.
   */
  lemma PasswordValidIff(s: string)
    ensures PasswordValid(s) <==>
      && 8 <= |s| <= 100
      && (forall i :: 0 <= i < |s| ==> s[i] != '\n')
      && (exists i :: 0 <= i < |s| && IsUpper(s[i]))
      && (exists i :: 0 <= i < |s| && IsDigit(s[i]))
      && (exists i :: 0 <= i < |s| && IsSpecial(s[i]))
  {
    if && (forall i :: 0 <= i < |s| ==> s[i] != '\n')
       && (exists i :: 0 <= i < |s| && IsUpper(s[i]))
       && (exists i :: 0 <= i < |s| && IsDigit(s[i]))
       && (exists i :: 0 <= i < |s| && IsSpecial(s[i]))
    {
      var i :| 0 <= i < |s| && IsUpper(s[i]);
      assert !IsWhiteSpace(s[i]);
      assert Lookahead(s, true, false, false);
      var d :| 0 <= d < |s| && IsDigit(s[d]);
      assert Lookahead(s, false, true, false);
      var p :| 0 <= p < |s| && IsSpecial(s[p]);
      assert Lookahead(s, false, false, true);
    }
    if PasswordValid(s) {
      var i :| 0 <= i < |s| && IsUpper(s[i]) && forall j :: 0 <= j < i ==> s[j] != '\n';
      var d :| 0 <= d < |s| && IsDigit(s[d]) && forall j :: 0 <= j < d ==> s[j] != '\n';
      var p :| 0 <= p < |s| && IsSpecial(s[p]) && forall j :: 0 <= j < p ==> s[j] != '\n';
    }
  }

  /** Too short or too long is refused whatever the characters. */
  lemma PasswordLengthBounds(s: string)
    requires |s| < 8 || |s| > 100
    ensures !PasswordValid(s)
  {
  }

  /** Null or white-space-only is refused. */
  lemma BlankPasswordRefused(s: string)
    requires IsBlank(s)
    ensures !PasswordValid(s)
  {
  }

  /** An example that passes: "Clave_123". */
  lemma SamplePasswordAccepted()
    ensures PasswordValid("Clave_123")
  {
    var s := "Clave_123";
    assert IsUpper(s[0]) && IsSpecial(s[5]) && IsDigit(s[6]);
    PasswordValidIff(s);
  }
}
