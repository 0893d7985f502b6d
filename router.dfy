/**
 * The in-memory bookmark store and the four handlers mounted on /bookmarks
 * and /bookmarks/:id. The module-level array of the server is the `bookmarks`
 * field of a `Store`; each handler is a method that returns the outcome the
 * server turns into an HTTP status.
 */
module BookmarkRouter {
  import opened Wrappers
  import opened Bookmarks
  import opened Validation

  /** Reply of POST /bookmarks: 201 with the new record, or 400 naming the failed check. */
  datatype CreateOutcome = Created(bookmark: Bookmark) | Invalid(failed: Check)
  {
    function Status(): int { if Created? then 201 else 400 }
  }

  /** Reply of GET /bookmarks/:id: 200 with the record, or 404. */
  datatype GetOutcome = Found(bookmark: Bookmark) | NotFound
  {
    function Status(): int { if Found? then 200 else 404 }
  }

  /** Reply of DELETE /bookmarks/:id: 204, or 404. */
  datatype DeleteOutcome = Deleted | Missing
  {
    function Status(): int { if Deleted? then 204 else 404 }
  }

  /** The record a successful create stores and returns: id, title, description and rating as sent, no url. */
  function NewBookmark(id: string, p: Payload): (b: Bookmark)
    requires p.title.Some?
    ensures b.url == None
    ensures b.id == id && Some(b.title) == p.title
    ensures b.description == p.description && b.rating == p.rating
  {
    Bookmark(id, p.title.value, None, p.description, p.rating)
  }

  /** A record the store may hold: a non-empty title and a rating that parses into [1, 5]. */
  predicate Admissible(b: Bookmark, parseFloat: string -> Option<real>)
  {
    b.title != ""
    && match ParseRating(b.rating, parseFloat)
       case None => false
       case Some(n) => 1.0 <= n <= 5.0
  }

  /**
   * A record made from an accepted body is admissible: its title is not
   * empty and its raw rating parses into [1, 5].
   */
  lemma AcceptedIsAdmissible(id: string, p: Payload, isURL: string -> bool, parseFloat: string -> Option<real>)
    requires Validate(p, isURL, parseFloat).Accept?
    ensures Admissible(NewBookmark(id, p), parseFloat)
  {
  }

  /** Cutting one record out keeps every remaining record admissible. */
  lemma RemovedKeepsAdmissible(s: seq<Bookmark>, i: nat, parseFloat: string -> Option<real>)
    requires i < |s|
    requires forall j :: 0 <= j < |s| ==> Admissible(s[j], parseFloat)
    ensures forall j :: 0 <= j < |s| - 1 ==> Admissible(Removed(s, i)[j], parseFloat)
  {
  }

  class Store {
    /** The validator library's URL check. */
    const isURL: string -> bool
    /** JavaScript's parseFloat on a string; None stands for NaN. */
    const parseFloat: string -> Option<real>
    /** The records, in insertion order. */
    var bookmarks: seq<Bookmark>

    /** Every record held is admissible. */
    ghost predicate Valid()
      reads this
    {
      forall i :: 0 <= i < |bookmarks| ==> Admissible(bookmarks[i], parseFloat)
    }

    constructor (isURL: string -> bool, parseFloat: string -> Option<real>)
      ensures this.isURL == isURL && this.parseFloat == parseFloat
      ensures bookmarks == Seed()
      ensures Valid() && DistinctIds(bookmarks)
    {
      this.isURL := isURL;
      this.parseFloat := parseFloat;
      bookmarks := Seed();
      SeedIdsDistinct();
    }

    /** GET /bookmarks: the whole collection, in order, untouched. */
    method List() returns (r: seq<Bookmark>)
      ensures r == bookmarks
    {
      r := bookmarks;
    }

    /**
     * POST /bookmarks. A rejected body leaves the store as it was; an accepted
     * one appends exactly one record under `freshId` and replies with it.
     */
    method Create(p: Payload, freshId: string) returns (res: CreateOutcome)
      modifies this
      ensures match Validate(p, isURL, parseFloat)
        case Reject(c) => res == Invalid(c) && bookmarks == old(bookmarks)
        case Accept(_) => res == Created(NewBookmark(freshId, p)) && bookmarks == old(bookmarks) + [res.bookmark]
      ensures old(Valid()) ==> Valid()
      ensures old(DistinctIds(bookmarks)) && !old(HasId(bookmarks, freshId)) ==> DistinctIds(bookmarks)
    {
      var verdict := Validate(p, isURL, parseFloat);
      if verdict.Reject? {
        return Invalid(verdict.failed);
      }
      var b := NewBookmark(freshId, p);
      if DistinctIds(bookmarks) && !HasId(bookmarks, freshId) {
        AppendFreshPreservesDistinct(bookmarks, b);
      }
      bookmarks := bookmarks + [b];
      res := Created(b);
    }

    /** `findIndex(bm => bm.id == id)`: a left-to-right search; -1 when nothing matches. */
    method FindIndex(id: string) returns (i: int)
      ensures i == FirstMatch(bookmarks, id)
    {
      i := 0;
      while i < |bookmarks|
        invariant 0 <= i <= |bookmarks|
        invariant forall j :: 0 <= j < i ==> bookmarks[j].id != id
      {
        if bookmarks[i].id == id {
          return;
        }
        i := i + 1;
      }
      i := -1;
    }

    /** GET /bookmarks/:id: the first record carrying `id`, or not-found; nothing changes. */
    method Get(id: string) returns (res: GetOutcome)
      ensures res == NotFound <==> !HasId(bookmarks, id)
      ensures res.Found? ==> res.bookmark.id == id && res.bookmark == bookmarks[FirstMatch(bookmarks, id)]
    {
      match Find(bookmarks, id)
      case None => res := NotFound;
      case Some(b) => res := Found(b);
    }

    /**
     * DELETE /bookmarks/:id: cuts out the first record carrying `id`, keeping
     * the records before and after it in order; an unknown id changes nothing.
     */
    method Delete(id: string) returns (res: DeleteOutcome)
      modifies this
      ensures res == Missing <==> !old(HasId(bookmarks, id))
      ensures res == Missing ==> bookmarks == old(bookmarks)
      ensures res == Deleted ==>
        var i := FirstMatch(old(bookmarks), id);
        |bookmarks| == |old(bookmarks)| - 1 && bookmarks == Removed(old(bookmarks), i)
      ensures old(DistinctIds(bookmarks)) ==> DistinctIds(bookmarks) && bookmarks == WithoutId(old(bookmarks), id)
      ensures old(Valid()) ==> Valid()
    {
      var i := FindIndex(id);
      if i == -1 {
        if DistinctIds(bookmarks) {
          WithoutAbsentId(bookmarks, id);
        }
        return Missing;
      }
      if DistinctIds(bookmarks) {
        RemoveFirstIsFilter(bookmarks, id);
        RemovePreservesDistinct(bookmarks, i);
      }
      if Valid() {
        RemovedKeepsAdmissible(bookmarks, i, parseFloat);
      }
      bookmarks := Removed(bookmarks, i);
      res := Deleted;
    }
  }

  /**
   * Fetching or deleting the unknown id "0" on a fresh store, as the 404
   * cases of the endpoint tests do: both answer 404 and nothing changes.
   */
  method UnknownIdScenario(isURL: string -> bool, parseFloat: string -> Option<real>)
  {
    var store := new Store(isURL, parseFloat);
    var g := store.Get("0");
    assert g.Status() == 404;
    var r := store.Delete("0");
    assert r.Status() == 404 && store.bookmarks == Seed();
  }

  /**
   * Deleting the second seed record on a fresh store, as the DELETE case of the
   * endpoint tests does, leaves the seeds filtered by its id. Deleting it again,
   * which the tests do not do, answers 404.
   */
  method DeleteScenario(isURL: string -> bool, parseFloat: string -> Option<real>)
  {
    var store := new Store(isURL, parseFloat);
    var second := store.bookmarks[1];
    var expected := WithoutId(store.bookmarks, second.id);
    var r := store.Delete(second.id);
    assert r.Status() == 204 && store.bookmarks == expected;
    r := store.Delete(second.id);
    assert r.Status() == 404;
  }

  /**
   * A create on a fresh store, after the successful POST case of the endpoint
   * tests: a valid body is stored as the last record, equal to the reply, and a
   * lookup of the new id returns it. The id has the 36 characters of a version 4
   * uuid, so it differs from every seed id.
   */
  method CreateThenGet(isURL: string -> bool, parseFloat: string -> Option<real>, freshId: string)
    requires isURL("test.com")
    requires |freshId| == 36
  {
    assert !HasId(Seed(), freshId) by {
      forall j | 0 <= j < 5 ensures |Seed()[j].id| == 25 { }
    }
    var store := new Store(isURL, parseFloat);
    var body := Payload(Some("test-title"), Some("test.com"), Some("test description"), RatingNumber(1.0));
    var r := store.Create(body, freshId);
    assert r.Status() == 201;
    assert store.bookmarks[|store.bookmarks| - 1] == r.bookmark;
    FindAppended(Seed(), r.bookmark);
    var g := store.Get(freshId);
    assert g == Found(r.bookmark);
  }
}
