# Bookshop store: permissions, relations and the book list

A Dafny model of the logic in the `store` app of a small Django REST Framework book catalogue:

- **Permissions** (`Permissions.dfy`): `IsOwnerOrStaffOrReadOnly.has_object_permission`. Safe
  methods (GET, HEAD, OPTIONS) are open to everyone. Other methods need an authenticated user
  who owns the book or is staff.
- **Relations** (`Relations.dfy`): the per-(user, book) relation table (like, bookmark, rate,
  read) and the relation endpoint. `PATCH /relations/<book>/` first gets or creates the
  requester's row, then validates the body, then saves the fields it carries. The table is
  a `map` keyed by (user, book), held by the class `RelationStore`. The pure function
  `PatchOutcome` specifies its methods.
- **Books** (`Books.dfy`): the write side of the book view set, in the class `BookTable`.
  `perform_create` forces the owner to the requester. PUT and DELETE find the book by id and
  then apply the object permission.
- **Listing** (`Listing.dfy`): the list queryset. Each book gets two read-time annotations:
  `annotated_likes`, the number of its relations with `like` set, and `owner_name`, its
  owner's username or null. The list is ordered by ascending id, modelled as an insertion
  sort proved sorted and a permutation.
- **Types** (`Types.dfy`): ids, `Option`/`Result`, the error outcomes, and `request.user` as
  `Option<Principal>`. A `Principal` is `Anonymous` or an `Account`. An account is always
  authenticated; an anonymous visitor never is and is never staff.

Prices are integers in hundredths (two decimal places).

`store/models.py` is not part of this model. Three facts about its fields are assumptions,
backed by the tests:
- A new relation has `like`, `in_bookmarks` and `read` false and `rate` null. The tests in
  store/tests/test_api.py:218-230 read a freshly created row's `rate` as null.
- `rate` is null or an integer from 1 to 5. store/tests/test_api.py:203-215 accepts 3, and
  store/tests/test_api.py:218-230 refuses 7.
- A book's owner is nullable. store/tests/test_api.py:19 creates a book without an owner.

Creating a book has no authentication check. `BookViewSet` uses only
`IsOwnerOrStaffOrReadOnly`, and that class's `has_permission` is the framework default,
which is always true. So an anonymous POST reaches `perform_create`. There, saving the
anonymous user as the owner foreign key raises an error. The model returns `OwnerNotAUser`
and leaves the table unchanged. If `request.user` is null, the book is saved without an
owner.

## Model

The predicates `Types.Authenticated` (the `request.user and request.user.is_authenticated`
test) and `Permissions.IsOwner` (`obj.owner == request.user`) are helpers of the rows that use
them. So is `Listing.LikedKeys`, the set that `Listing.AnnotatedLikes` counts.

| member | source | states |
|---|---|---|
| `Permissions.HasObjectPermission` | store/permissions.py:5-10 | A safe method is always allowed. A write without an authenticated user is refused. The authenticated owner is allowed any method, and so is authenticated staff on any object. Any other authenticated user is refused writes. |
| `Permissions.OwnerlessWritesOnlyByStaff` | store/permissions.py:9 | On a book with no owner, a write is allowed exactly when the user is authenticated staff. |
| `Permissions.BookApiScenarios` | store/tests/test_api.py:90-163 | The owner and a staff user may PUT and DELETE book 1. Another user may not. An anonymous visitor may GET but not DELETE. |
| `Relations.Validate` | store/tests/test_api.py:218-230 | A body is valid exactly when its `rate` is absent, null or in 1..5. An invalid one yields `InvalidRate` carrying the given value. |
| `Relations.ApplyPatch` | store/tests/test_api.py:178-245 | Each field given in the body takes the given value. Each absent field keeps its old value. |
| `Relations.Upsert` | store/views.py:39-42 | After get-or-create, the table's keys are the old keys plus (user, book). An existing row is unchanged. A missing row is created with the defaults. No other row changes. |
| `Relations.PatchOutcome` | store/views.py:32-42 | An unauthenticated PATCH changes nothing. Otherwise the (user, book) row exists afterwards and no other row changes. An invalid body returns the validation error and leaves the row as found or created. A valid body returns the row with the given fields applied and stores it. |
| `Relations.UpsertIdempotent` | store/views.py:40-41 | A second get-or-create of the same pair changes nothing, so there is at most one row per pair. It adds a row only when the pair was absent. |
| `Relations.PatchFrame` | store/views.py:40-41 | A PATCH by user U on book B leaves every other pair's relation unchanged. |
| `Relations.LikeThenBookmark` | store/tests/test_api.py:178-200 | Setting `like` and then `in_bookmarks` in two PATCHes succeeds both times. Afterwards both are set and stored. |
| `Relations.WrongRateKeepsCreatedRow` | store/tests/test_api.py:218-230 | A PATCH with rate 7 to a missing row is refused, yet the row now exists with a null rate. |
| `Relations.RelationStore.GetOrCreate` | store/views.py:39-42 | The table becomes `Upsert` of the old table. `created` is true exactly when the pair was absent. The returned row is the stored one: the old row, or the defaults. |
| `Relations.RelationStore.PartialUpdate` | store/views.py:32-42 | The response and the new table are exactly `PatchOutcome` of the old table. |
| `Books.OwnerFor` | store/views.py:27-29 | The owner saved for the requester: an account's id, no owner for a null user, and `OwnerNotAUser` exactly for an anonymous visitor. |
| `Books.IndexOfId` | store/views.py:16 | The framework's detail lookup by primary key over this queryset; the search itself is framework code. It finds a position holding the requested id, or reports that no row has that id. |
| `Books.BookTable.PerformCreate` | store/views.py:27-29 | Creation succeeds exactly when the owner can be assigned. It then appends exactly one row with a fresh id, the client's fields and the requester as owner. The id counter advances by one. On failure the rows and the id counter are unchanged. |
| `Books.BookTable.Update` | store/views.py:25 | A PUT to a missing id is `NotFound`. A PUT the object permission refuses is `PermissionDenied` and changes nothing. Otherwise only that row's client fields are replaced and the owner is kept. |
| `Books.BookTable.Destroy` | store/views.py:25 | A DELETE to a missing id is `NotFound`. A DELETE the object permission refuses changes nothing. Otherwise exactly that row is removed. |
| `Listing.AnnotatedLikes` | store/views.py:17 | The number of (user, book) relations of the book whose `like` is set. It is at most the book's number of relations. It is zero exactly when none of them has a like, so rows without a like count nothing. |
| `Listing.OwnerName` | store/views.py:18 | The owner's username when the book has an owner with a user row, and null otherwise. |
| `Listing.InsertById` | store/views.py:19 | Inserting into an id-sorted list keeps it sorted and adds exactly that book. |
| `Listing.SortById` | store/views.py:19 | The result is sorted by ascending id and is a permutation of the input. |
| `Listing.BookList` | store/views.py:16-19 | Every stored book is listed exactly once (same length, same multiset of rows), in ascending id order. Each entry carries the number of that book's liked relations and its owner's name. |
| `Listing.LikesAfterWrite` | store/views.py:17 | Writing one relation changes only its own book's like count. That count changes by the change in `like`. |
| `Listing.LikePatchCountsOnce` | store/views.py:17 | A PATCH that likes a book the user had not liked raises that book's count by exactly one when accepted. It leaves every other count unchanged, and leaves all counts unchanged when refused. |
| `Listing.SerializerTestLikes` | store/tests/test_serializers.py:15-21 | With the test's relations, book 1 (likes true, true, false) counts 2 and book 2 counts 3. |
| `Listing.SerializerTestListing` | store/tests/test_serializers.py:23-61 | The test's two books are listed book 1 first, with 2 likes and owner `test_username`, then book 2, with 3 likes and a null owner name. |

## Left out

- Rating aggregation (`set_rating`) and the model save hooks: `store/logic.py` and `store/models.py` are not part of this model, so the stored `rating` field and its decimal rounding are not modelled.
- Filtering by price, search over title and author, and ordering by query parameter: the filter backends do this, and they are outside the app.
- The `readers` prefetch: a query optimisation that changes no result.
- The `auth` template view: it only renders a page.
- The serializers' field lists: only `rate` validation is modelled. Other field validation (price digits, text lengths) and JSON encoding are framework work.
- Writing the `book` field of a relation through PATCH: the serializer lists it as writable, but no test or view code writes it through the relation endpoint, and the uniqueness of (user, book) would then depend on a database constraint.
- A full PUT on the relation endpoint: only PATCH (partial update) is modelled.
- HTTP status codes: an error is modelled by its kind. The 401-versus-403 choice for unauthenticated requests is not modelled.
- Authentication, sessions and database transactions: the requester is a parameter.
- Foreign-key checks on the book id in the relation URL: the model accepts any id, and a missing book is a database error outside this model.
- Retrieve (GET of one book): it is read-only, and the list covers the annotations it shows.
