/** Identifiers, principals and the error outcomes shared by the store's views. */
module Types {

  /** Primary keys of auth users and of books (database auto-increment ids). */
  type UserId = nat
  type BookId = nat

  datatype Option<+T> = None | Some(value: T)

  /** What a view returns: a value, or the error the framework turns into a response. */
  datatype Result<+T> = Ok(value: T) | Err(error: Error)

  datatype Error =
    | NotAuthenticated       // the IsAuthenticated permission refused the request
    | PermissionDenied       // the object permission refused the request
    | NotFound               // no book with the id in the URL
    | InvalidRate(rate: int) // serializer validation of `rate` failed
    | OwnerNotAUser          // an anonymous visitor was assigned as a book's owner

  /**
   * The value of `request.user`: an anonymous visitor, or an account.
   * An account is always authenticated; an anonymous visitor never is and is never staff.
   */
  datatype Principal = Anonymous | Account(id: UserId, username: string, isStaff: bool) {
    predicate IsAuthenticated() { Account? }
    predicate IsStaff() { Account? && isStaff }
  }

  /** `bool(request.user and request.user.is_authenticated)` */
  predicate Authenticated(user: Option<Principal>) {
    user.Some? && user.value.IsAuthenticated()
  }
}
