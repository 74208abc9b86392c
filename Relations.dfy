/**
 * The per-(user, book) relation table and the relation endpoint: a PATCH first looks the
 * requester's relation to the book up, creating it when absent, and then applies the
 * validated fields to it.
 */
module Relations {
  import opened Types

  /** A relation row is unique per (user, book): the table is keyed by that pair. */
  type Key = (UserId, BookId)

  datatype Relation = Relation(like: bool, inBookmarks: bool, rate: Option<int>, read: bool)

  /** The row `get_or_create` inserts: nothing liked, bookmarked, rated or read. */
  const NewRelation: Relation := Relation(false, false, None, false)

  /** A field of a partial update: left out of the request body, or given a value. */
  datatype Field<+T> = Absent | Given(value: T)

  /** The body of a PATCH: any subset of the relation's writable fields (`rate` may be null). */
  datatype Patch = Patch(like: Field<bool>, inBookmarks: Field<bool>, rate: Field<Option<int>>, read: Field<bool>)

  /** The value a field holds after an update that carries `f`. */
  function Updated<T>(f: Field<T>, current: T): T {
    match f
    case Absent => current
    case Given(v) => v
  }

  /** A rating is either absent (null) or one of the choices 1 to 5. */
  predicate RateAllowed(rate: Option<int>) {
    rate.None? || 1 <= rate.value <= 5
  }

  /** Serializer validation of a PATCH body: only `rate` can be invalid. */
  function Validate(p: Patch): (e: Option<Error>)
    ensures e.None? <==> (p.rate.Absent? || RateAllowed(p.rate.value))
    ensures e.Some? ==> p.rate.Given? && p.rate.value.Some? && e.value == InvalidRate(p.rate.value.value)
  {
    if p.rate.Given? && !RateAllowed(p.rate.value) then Some(InvalidRate(p.rate.value.value)) else None
  }

  /** Saving a validated partial update: the given fields change, the others keep their value. */
  function ApplyPatch(r: Relation, p: Patch): (r': Relation)
    ensures p.like.Given? ==> r'.like == p.like.value
    ensures p.inBookmarks.Given? ==> r'.inBookmarks == p.inBookmarks.value
    ensures p.rate.Given? ==> r'.rate == p.rate.value
    ensures p.read.Given? ==> r'.read == p.read.value
    ensures p.like.Absent? ==> r'.like == r.like
    ensures p.inBookmarks.Absent? ==> r'.inBookmarks == r.inBookmarks
    ensures p.rate.Absent? ==> r'.rate == r.rate
    ensures p.read.Absent? ==> r'.read == r.read
  {
    Relation(Updated(p.like, r.like), Updated(p.inBookmarks, r.inBookmarks),
             Updated(p.rate, r.rate), Updated(p.read, r.read))
  }

  /** The table after `get_or_create(user, book)`. */
  function Upsert(table: map<Key, Relation>, k: Key): (t: map<Key, Relation>)
    ensures t.Keys == table.Keys + {k}
    ensures k in table ==> t == table
    ensures k !in table ==> t[k] == NewRelation
    ensures forall k' :: k' in table ==> t[k'] == table[k']
  {
    if k in table then table else table[k := NewRelation]
  }

  /**
   * The outcome of `PATCH /relations/<book>/` by `user`: the response and the new table.
   * An unauthenticated request changes nothing. Otherwise the row exists afterwards whatever
   * the body, since it is created before the body is validated; an invalid body leaves it as
   * it was found or created, a valid one applies the given fields to it.
   */
  function PatchOutcome(table: map<Key, Relation>, user: Option<Principal>, book: BookId, p: Patch)
    : (out: (Result<Relation>, map<Key, Relation>))
    ensures !Authenticated(user) ==> out == (Err(NotAuthenticated), table)
    ensures Authenticated(user) ==>
              var k := (user.value.id, book);
              && out.1.Keys == table.Keys + {k}
              && (forall k' :: k' in table && k' != k ==> out.1[k'] == table[k'])
              && (Validate(p).Some? ==> out == (Err(Validate(p).value), Upsert(table, k)))
              && (Validate(p).None? ==> out.0 == Ok(out.1[k]) && out.1[k] == ApplyPatch(Upsert(table, k)[k], p))
  {
    if !Authenticated(user) then (Err(NotAuthenticated), table)
    else
      var k := (user.value.id, book);
      var t := Upsert(table, k);
      match Validate(p)
      case Some(e) => (Err(e), t)
      case None =>
        var r := ApplyPatch(t[k], p);
        (Ok(r), t[k := r])
  }

  /** Looking the same pair up twice finds the row the first lookup created. */
  lemma UpsertIdempotent(table: map<Key, Relation>, k: Key)
    ensures Upsert(Upsert(table, k), k) == Upsert(table, k)
    ensures |Upsert(table, k).Keys| == |table.Keys| + (if k in table then 0 else 1)
  {
  }

  /** A PATCH touches no relation of any other (user, book) pair. */
  lemma PatchFrame(table: map<Key, Relation>, user: Option<Principal>, book: BookId, p: Patch, k': Key)
    requires k' in table
    requires !Authenticated(user) || k' != (user.value.id, book)
    ensures k' in PatchOutcome(table, user, book, p).1
    ensures PatchOutcome(table, user, book, p).1[k'] == table[k']
  {
  }

  /**
   * Liking a book and then bookmarking it, in two PATCHes, leaves both set, and the
   * first PATCH creates the row when there is none.
   */
  lemma LikeThenBookmark(table: map<Key, Relation>, u: Principal, book: BookId)
    requires u.Account?
    ensures var (res1, t1) := PatchOutcome(table, Some(u), book, Patch(Given(true), Absent, Absent, Absent));
            var (res2, t2) := PatchOutcome(t1, Some(u), book, Patch(Absent, Given(true), Absent, Absent));
            && res1.Ok? && res1.value.like
            && res2.Ok? && res2.value.like && res2.value.inBookmarks
            && (u.id, book) in t2 && t2[(u.id, book)] == res2.value
  {
  }

  /**
   * A rate of 7 is refused, yet the row it was aimed at now exists, unrated.
   */
  lemma WrongRateKeepsCreatedRow(table: map<Key, Relation>, u: Principal, book: BookId)
    requires u.Account? && (u.id, book) !in table
    ensures var (res, t) := PatchOutcome(table, Some(u), book, Patch(Absent, Absent, Given(Some(7)), Absent));
            && res == Err(InvalidRate(7))
            && (u.id, book) in t && t[(u.id, book)].rate.None?
  {
  }

  /** The relation table behind the relation endpoint. */
  class RelationStore {
    var relations: map<Key, Relation>

    constructor ()
      ensures relations == map[]
    {
      relations := map[];
    }

    /** `UserBookRelation.objects.get_or_create(user=user, book_id=book)` */
    method GetOrCreate(user: UserId, book: BookId) returns (r: Relation, created: bool)
      modifies this
      ensures relations == Upsert(old(relations), (user, book))
      ensures created <==> (user, book) !in old(relations)
      ensures r == relations[(user, book)]
      ensures !created ==> r == old(relations)[(user, book)]
      ensures created ==> r == NewRelation
    {
      var k := (user, book);
      if k in relations {
        r, created := relations[k], false;
      } else {
        r, created := NewRelation, true;
        relations := relations[k := r];
      }
    }

    /**
     * PATCH of the requester's relation to `book`: authenticate, get or create the row,
     * validate the body, save the given fields.
     */
    method PartialUpdate(user: Option<Principal>, book: BookId, p: Patch) returns (res: Result<Relation>)
      modifies this
      ensures (res, relations) == PatchOutcome(old(relations), user, book, p)
    {
      if !Authenticated(user) {
        return Err(NotAuthenticated);
      }
      var current, _ := GetOrCreate(user.value.id, book);
      var e := Validate(p);
      if e.Some? {
        return Err(e.value);
      }
      var updated := ApplyPatch(current, p);
      relations := relations[(user.value.id, book) := updated];
      res := Ok(updated);
    }
  }
}
