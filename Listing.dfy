/**
 * The book list as the view set's queryset computes it: every book annotated, at read time,
 * with its like count and its owner's username, ordered by ascending id.
 */
module Listing {
  import opened Types
  import opened Relations
  import opened Books

  /** Usernames of the auth users, by id. */
  type Usernames = map<UserId, string>

  /** A listed book: the stored row with the two read-time annotations. */
  datatype BookView = BookView(book: BookRow, annotatedLikes: nat, ownerName: Option<string>)

  /** The relations to `b` whose `like` is set. */
  function LikedKeys(rels: map<Key, Relation>, b: BookId): set<Key> {
    set k | k in rels && k.1 == b && rels[k].like
  }

  /** `Count(Case(When(userbookrelation__like=True, then=1)))`: rows without a like count nothing. */
  function AnnotatedLikes(rels: map<Key, Relation>, b: BookId): (n: nat)
    ensures n <= |set k | k in rels && k.1 == b|
    ensures n == 0 <==> forall k :: k in rels && k.1 == b ==> !rels[k].like
  {
    var liked, all := LikedKeys(rels, b), set k | k in rels && k.1 == b;
    CardMonotone(liked, all);
    assert (forall k :: k in rels && k.1 == b ==> !rels[k].like) ==> liked == {};
    assert forall k :: k in rels && k.1 == b && rels[k].like ==> k in liked;
    assert |liked| == 0 ==> liked == {};
    |liked|
  }

  lemma {:induction false} CardMonotone<T>(a: set<T>, c: set<T>)
    requires a <= c
    ensures |a| <= |c|
  {
    if a != {} {
      var x :| x in a;
      CardMonotone(a - {x}, c - {x});
    }
  }

  /**
   * `F('owner__username')` over the left join with the user table: the owner's username,
   * null when the book has no owner.
   */
  function OwnerName(book: BookRow, users: Usernames): (name: Option<string>)
    ensures name.Some? <==> book.owner.Some? && book.owner.value in users
    ensures name.Some? ==> name.value == users[book.owner.value]
  {
    if book.owner.Some? && book.owner.value in users then Some(users[book.owner.value]) else None
  }

  predicate SortedById(s: seq<BookRow>) {
    forall i, j :: 0 <= i < j < |s| ==> s[i].id <= s[j].id
  }

  function InsertById(x: BookRow, s: seq<BookRow>): (r: seq<BookRow>)
    requires SortedById(s)
    ensures SortedById(r)
    ensures multiset(r) == multiset(s) + multiset{x}
    ensures r[0] == x || (s != [] && r[0] == s[0])
  {
    if s == [] || x.id <= s[0].id then [x] + s
    else
      assert s == [s[0]] + s[1..];
      [s[0]] + InsertById(x, s[1..])
  }

  /** `order_by('id')` */
  function SortById(s: seq<BookRow>): (r: seq<BookRow>)
    ensures SortedById(r)
    ensures multiset(r) == multiset(s)
  {
    if s == [] then []
    else
      assert s == [s[0]] + s[1..];
      InsertById(s[0], SortById(s[1..]))
  }

  function Annotate(b: BookRow, rels: map<Key, Relation>, users: Usernames): BookView {
    BookView(b, AnnotatedLikes(rels, b.id), OwnerName(b, users))
  }

  /** The stored rows behind a list of views. */
  function RowsOf(vs: seq<BookView>): (rows: seq<BookRow>)
    ensures |rows| == |vs|
    ensures forall i :: 0 <= i < |vs| ==> rows[i] == vs[i].book
  {
    seq(|vs|, i requires 0 <= i < |vs| => vs[i].book)
  }

  /**
   * GET /books/: every stored book exactly once, in ascending id order, each with the
   * number of its liked relations and its owner's username.
   */
  function BookList(books: seq<BookRow>, rels: map<Key, Relation>, users: Usernames): (r: seq<BookView>)
    ensures |r| == |books|
    ensures multiset(RowsOf(r)) == multiset(books)
    ensures forall i, j :: 0 <= i < j < |r| ==> r[i].book.id <= r[j].book.id
    ensures forall i :: 0 <= i < |r| ==>
              r[i].annotatedLikes == |LikedKeys(rels, r[i].book.id)| && r[i].ownerName == OwnerName(r[i].book, users)
  {
    var sorted := SortById(books);
    var r := seq(|sorted|, i requires 0 <= i < |sorted| => Annotate(sorted[i], rels, users));
    assert RowsOf(r) == sorted;
    assert |r| == |multiset(sorted)| == |multiset(books)| == |books|;
    r
  }

  /**
   * Writing relation `r` at key `k` changes only the like count of book `k.1`, and that one
   * by the change in `like` at `k`.
   */
  lemma {:induction false} LikesAfterWrite(rels: map<Key, Relation>, k: Key, r: Relation, b: BookId)
    ensures AnnotatedLikes(rels[k := r], b)
            == if k.1 != b then AnnotatedLikes(rels, b)
               else AnnotatedLikes(rels, b) - (if k in rels && rels[k].like then 1 else 0) + (if r.like then 1 else 0)
  {
    var before, after := LikedKeys(rels, b), LikedKeys(rels[k := r], b);
    if k.1 != b {
      forall x | x in after ensures x in before {
        assert x != k;
      }
      assert after == before;
    } else {
      var rest := before - {k};
      if k in before {
        assert before == rest + {k};
      } else {
        assert rest == before;
      }
      if r.like {
        assert after == rest + {k};
      } else {
        assert after == rest;
      }
    }
  }

  /**
   * A PATCH that sets `like` on a relation that did not have it (or did not exist) adds one
   * to that book's like count and to no other book's; one that is refused adds nothing.
   */
  lemma {:induction false} LikePatchCountsOnce(rels: map<Key, Relation>, u: Principal, book: BookId, p: Patch, b: BookId)
    requires u.Account? && p.like == Given(true)
    requires (u.id, book) !in rels || !rels[(u.id, book)].like
    ensures var (res, t) := PatchOutcome(rels, Some(u), book, p);
            AnnotatedLikes(t, b)
            == if res.Ok? && b == book then AnnotatedLikes(rels, b) + 1 else AnnotatedLikes(rels, b)
  {
    var k := (u.id, book);
    var up := Upsert(rels, k);
    if k !in rels {
      LikesAfterWrite(rels, k, NewRelation, b);
    } else {
      assert up == rels;
    }
    assert AnnotatedLikes(up, b) == AnnotatedLikes(rels, b);
    var (res, t) := PatchOutcome(rels, Some(u), book, p);
    if res.Ok? {
      LikesAfterWrite(up, k, t[k], b);
      assert t == up[k := t[k]];
    }
  }

  /** The relations the serializer test creates: users 1, 2, 3 and books 1, 2. */
  function SerializerTestRelations(): map<Key, Relation> {
    map[(1, 2) := Relation(true, false, Some(3), false),
        (2, 2) := Relation(true, false, Some(4), false),
        (3, 2) := Relation(true, false, Some(5), false),
        (1, 1) := Relation(true, false, Some(3), false),
        (2, 1) := Relation(true, false, Some(4), false),
        (3, 1) := Relation(false, false, None, false)]
  }

  /** Users 1 and 2 like book 1, user 3 does not: two likes. Users 1, 2, 3 like book 2: three. */
  lemma SerializerTestLikes()
    ensures AnnotatedLikes(SerializerTestRelations(), 1) == 2
    ensures AnnotatedLikes(SerializerTestRelations(), 2) == 3
  {
    var rels := SerializerTestRelations();
    forall x | x in LikedKeys(rels, 1) ensures x == (1, 1) || x == (2, 1) {
      assert x in rels.Keys;
    }
    assert LikedKeys(rels, 1) == {(1, 1), (2, 1)};
    forall x | x in LikedKeys(rels, 2) ensures x == (1, 2) || x == (2, 2) || x == (3, 2) {
      assert x in rels.Keys;
    }
    assert LikedKeys(rels, 2) == {(1, 2), (2, 2), (3, 2)};
  }

  /**
   * The serializer test's listing: book 1 with two likes and its owner's name, then book 2
   * with three likes and no owner, whatever order the rows are stored in.
   */
  lemma SerializerTestListing()
    ensures var users := map[1 := "test_username", 2 := "test_username_2", 3 := "test_username_3"];
            var book1 := BookRow(1, "The book 1", 10000, "Author 1", Some(1));
            var book2 := BookRow(2, "The book 2", 20000, "Author 2", None);
            BookList([book2, book1], SerializerTestRelations(), users)
            == [BookView(book1, 2, Some("test_username")), BookView(book2, 3, None)]
  {
    var book1 := BookRow(1, "The book 1", 10000, "Author 1", Some(1));
    var book2 := BookRow(2, "The book 2", 20000, "Author 2", None);
    assert SortById([book2, book1]) == [book1, book2] by {
      assert [book2, book1][1..] == [book1];
      assert SortById([book1]) == [book1];
    }
    SerializerTestLikes();
  }
}
