/** Option and the three ways a server action of the application can end. */
module Results {

  datatype Option<+T> = None | Some(value: T) {
    function GetOr(default: T): T {
      match this
      case Some(v) => v
      case None => default
    }
  }

  /** A server action either finishes with a value, returns an `{ error }` object,
      or raises an exception (Prisma's `findFirstOrThrow`, an explicit `throw`). */
  datatype Reply<+T> = Ok(value: T) | Refused(error: string) | Thrown(message: string)

  const NotAuthenticated: string := "Not authenticated"

  /** The `{ error }` answers of the actions that check a form's owner. */
  const FormMissing: string := "Form does not exist"
  const NotOwner: string := "Form is not from user"

  /** What a Prisma lookup or update that must find a row (`findFirstOrThrow`, `update`) raises when none matches. */
  const NotFound: string := "No record found"
}
