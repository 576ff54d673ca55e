/** Kotlin's nullable values and the exceptions the core can raise, as datatypes. */
module Resultados {

  /** A Kotlin `T?`: `None` is `null`. */
  datatype Option<+T> = None | Some(value: T) {
    /** Kotlin's elvis operator `x ?: d`. */
    function GetOr(d: T): T {
      match this
      case Some(v) => v
      case None => d
    }
  }

  /** The exceptions that reach the view-models. */
  datatype Excepcion =
    | ClaveForaneaViolada   // SQLiteConstraintException: categoria_id names no stored category
    | LecturaDispositivo    // the device contacts provider could not be read

  /** The outcome of a call that can throw; `Fallo` carries the exception. */
  datatype Resultado<+T> = Exito(valor: T) | Fallo(error: Excepcion)
}
