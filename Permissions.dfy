/** The object-level permission of the book views: owners and staff may write, everyone may read. */
module Permissions {
  import opened Types

  /** HTTP methods that never modify state. */
  const SafeMethods: set<string> := {"GET", "HEAD", "OPTIONS"}

  datatype Request = Request(httpMethod: string, user: Option<Principal>)

  /** `obj.owner == request.user`: never true for an owner-less object or an anonymous visitor. */
  predicate IsOwner(owner: Option<UserId>, p: Principal) {
    p.Account? && owner == Some(p.id)
  }

  /**
   * IsOwnerOrStaffOrReadOnly.has_object_permission for an object whose owner is `owner`.
   * The five ensures clauses are the five cases of the rule; together they fix the answer.
   */
  function HasObjectPermission(req: Request, owner: Option<UserId>): (allowed: bool)
    // a safe method is allowed to anyone, anonymous visitors included
    ensures req.httpMethod in SafeMethods ==> allowed
    // a write without an authenticated user is refused
    ensures req.httpMethod !in SafeMethods && !Authenticated(req.user) ==> !allowed
    // the owner may do anything
    ensures Authenticated(req.user) && IsOwner(owner, req.user.value) ==> allowed
    // staff may do anything to any object
    ensures Authenticated(req.user) && req.user.value.IsStaff() ==> allowed
    // an authenticated user who is neither owner nor staff may only read
    ensures (req.httpMethod !in SafeMethods && Authenticated(req.user)
             && !IsOwner(owner, req.user.value) && !req.user.value.IsStaff()) ==> !allowed
  {
    req.httpMethod in SafeMethods
    || (req.user.Some? && req.user.value.IsAuthenticated()
        && (IsOwner(owner, req.user.value) || req.user.value.IsStaff()))
  }

  /** On an object without an owner, only staff can be granted a write. */
  lemma OwnerlessWritesOnlyByStaff(req: Request)
    requires req.httpMethod !in SafeMethods
    ensures HasObjectPermission(req, None) <==> Authenticated(req.user) && req.user.value.IsStaff()
  {
  }

  /**
   * The outcomes the API tests expect for book 1, owned by user 1, with user 2 an ordinary
   * account and user 3 a staff account.
   */
  lemma BookApiScenarios()
    ensures var owner, other, staff := Account(1, "test_username", false),
                                       Account(2, "test_username_2", false),
                                       Account(3, "test_username_3", true);
            HasObjectPermission(Request("PUT", Some(owner)), Some(1))
            && HasObjectPermission(Request("DELETE", Some(owner)), Some(1))
            && !HasObjectPermission(Request("PUT", Some(other)), Some(1))
            && !HasObjectPermission(Request("DELETE", Some(other)), Some(1))
            && HasObjectPermission(Request("PUT", Some(staff)), Some(1))
            && HasObjectPermission(Request("DELETE", Some(staff)), Some(1))
            && HasObjectPermission(Request("GET", Some(Anonymous)), Some(1))
            && !HasObjectPermission(Request("DELETE", Some(Anonymous)), Some(1))
  {
  }
}
