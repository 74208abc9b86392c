/**
 * The write side of the book view set: creating a book owned by the requester, and
 * updating or deleting one under the owner-or-staff object permission.
 */
module Books {
  import opened Types
  import Permissions

  /** A stored book; `price` is in hundredths (two decimal places). */
  datatype BookRow = BookRow(id: BookId, title: string, price: int, authorName: string, owner: Option<UserId>)

  /** The client-writable fields of a book; owner and rating are not among them. */
  datatype BookData = BookData(title: string, price: int, authorName: string)

  /**
   * The owner stored when `validated_data['owner'] = request.user` is saved: the account,
   * no owner when there is no user object at all, and an error for an anonymous visitor,
   * who is not a user row the foreign key can point at.
   */
  function OwnerFor(user: Option<Principal>): (r: Result<Option<UserId>>)
    ensures r.Ok? <==> !(user == Some(Anonymous))
    ensures Authenticated(user) ==> r == Ok(Some(user.value.id))
    ensures r.Ok? && r.value.Some? ==> Authenticated(user)
    ensures r.Err? ==> r.error == OwnerNotAUser
  {
    match user
    case None => Ok(None)
    case Some(Anonymous) => Err(OwnerNotAUser)
    case Some(Account(id, _, _)) => Ok(Some(id))
  }

  predicate DistinctIds(rows: seq<BookRow>) {
    forall i, j :: 0 <= i < j < |rows| ==> rows[i].id != rows[j].id
  }

  /** Where the row with primary key `id` is, if there is one. */
  function IndexOfId(rows: seq<BookRow>, id: BookId): (r: Option<nat>)
    ensures r.Some? ==> r.value < |rows| && rows[r.value].id == id
    ensures r.None? <==> forall i :: 0 <= i < |rows| ==> rows[i].id != id
  {
    if rows == [] then None
    else if rows[0].id == id then Some(0)
    else match IndexOfId(rows[1..], id)
      case None => None
      case Some(j) => Some(j + 1)
  }

  /** The book table; ids come from an auto-increment counter. */
  class BookTable {
    var rows: seq<BookRow>
    var nextId: BookId

    ghost predicate Valid()
      reads this
    {
      DistinctIds(rows) && forall i :: 0 <= i < |rows| ==> rows[i].id < nextId
    }

    constructor ()
      ensures Valid() && rows == []
    {
      rows, nextId := [], 1;
    }

    /**
     * POST /books/ (perform_create): the owner is forced to the requester, and exactly one
     * row, with a fresh id, is added.
     */
    method PerformCreate(user: Option<Principal>, data: BookData) returns (res: Result<BookId>)
      requires Valid()
      modifies this
      ensures Valid()
      ensures res.Ok? <==> OwnerFor(user).Ok?
      ensures res.Ok? ==>
                && res.value == old(nextId)
                && (forall i :: 0 <= i < |old(rows)| ==> old(rows)[i].id != res.value)
                && rows == old(rows) + [BookRow(res.value, data.title, data.price, data.authorName, OwnerFor(user).value)]
      ensures res.Err? ==> res.error == OwnerNotAUser && rows == old(rows)
      ensures nextId == if res.Ok? then old(nextId) + 1 else old(nextId)
    {
      var owner := OwnerFor(user);
      if owner.Err? {
        return Err(owner.error);
      }
      res := Ok(nextId);
      rows := rows + [BookRow(nextId, data.title, data.price, data.authorName, owner.value)];
      nextId := nextId + 1;
    }

    /**
     * PUT /books/<id>/: a missing book is not found; a write the object permission refuses
     * leaves the table unchanged; otherwise the client fields are replaced and the owner kept.
     */
    method Update(user: Option<Principal>, id: BookId, data: BookData) returns (res: Result<BookRow>)
      requires Valid()
      modifies this
      ensures Valid() && nextId == old(nextId)
      ensures var found := IndexOfId(old(rows), id);
              && (found.None? ==> res == Err(NotFound) && rows == old(rows))
              && (found.Some? ==>
                    var b := old(rows)[found.value];
                    if Permissions.HasObjectPermission(Permissions.Request("PUT", user), b.owner) then
                      res == Ok(BookRow(id, data.title, data.price, data.authorName, b.owner))
                      && rows == old(rows)[found.value := res.value]
                    else
                      res == Err(PermissionDenied) && rows == old(rows))
    {
      var found := IndexOfId(rows, id);
      if found.None? {
        return Err(NotFound);
      }
      var b := rows[found.value];
      if !Permissions.HasObjectPermission(Permissions.Request("PUT", user), b.owner) {
        return Err(PermissionDenied);
      }
      var updated := BookRow(id, data.title, data.price, data.authorName, b.owner);
      rows := rows[found.value := updated];
      res := Ok(updated);
    }

    /**
     * DELETE /books/<id>/: a missing book is not found; a refused delete leaves the table
     * unchanged; otherwise exactly that row is removed.
     */
    method Destroy(user: Option<Principal>, id: BookId) returns (res: Result<BookId>)
      requires Valid()
      modifies this
      ensures Valid() && nextId == old(nextId)
      ensures var found := IndexOfId(old(rows), id);
              && (found.None? ==> res == Err(NotFound) && rows == old(rows))
              && (found.Some? ==>
                    var i := found.value;
                    if Permissions.HasObjectPermission(Permissions.Request("DELETE", user), old(rows)[i].owner) then
                      res == Ok(id) && rows == old(rows)[..i] + old(rows)[i + 1..]
                    else
                      res == Err(PermissionDenied) && rows == old(rows))
    {
      var found := IndexOfId(rows, id);
      if found.None? {
        return Err(NotFound);
      }
      var i := found.value;
      if !Permissions.HasObjectPermission(Permissions.Request("DELETE", user), rows[i].owner) {
        return Err(PermissionDenied);
      }
      rows := rows[..i] + rows[i + 1..];
      res := Ok(id);
    }
  }
}
