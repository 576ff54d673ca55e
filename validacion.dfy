/**
 * `ValidationUtils`: the three form checks. The email pattern (`Patterns.EMAIL_ADDRESS`,
 * a regular expression of the Android framework) is passed in as a predicate.
 */
module Validacion {
  import opened Texto

  /** `isNombreValido`: the name is not blank. */
  function IsNombreValido(nombre: string): (r: bool)
    ensures r <==> exists i :: 0 <= i < |nombre| && !EsEspacio(nombre[i])
  {
    !EsBlanco(nombre)
  }

  /** `isTelefonoValido`: the phone is not blank. */
  function IsTelefonoValido(telefono: string): (r: bool)
    ensures r <==> exists i :: 0 <= i < |telefono| && !EsEspacio(telefono[i])
  {
    !EsBlanco(telefono)
  }

  /** `isEmailValido`: an email is optional, so a blank one is valid; any other must match the pattern. */
  function IsEmailValido(email: string, patron: string -> bool): (r: bool)
    ensures EsBlanco(email) ==> r
    ensures !EsBlanco(email) ==> (r <==> patron(email))
  {
    EsBlanco(email) || patron(email)
  }

  /** A name or phone is valid exactly when trimming it leaves something. */
  lemma ValidoSiiRecorteNoVacio(s: string)
    ensures IsNombreValido(s) <==> Recortar(s) != []
    ensures IsTelefonoValido(s) <==> Recortar(s) != []
  {
    RecortarVacioSiiBlanco(s);
  }
}
