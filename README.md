# Bookmarks server: the in-memory store and its handlers

This project models the in-memory bookmark store of the bookmarks REST server
and the four request handlers that act on it (`src/bookmarks/bookmark-router.js`):

- `GET /bookmarks` returns the whole collection;
- `POST /bookmarks` runs six checks on the request body in a fixed order, answers
  400 at the first one that fails, and otherwise appends a record `{id, title,
  description, rating}` and answers 201 with it;
- `GET /bookmarks/:id` answers with the first record carrying the id, or 404;
- `DELETE /bookmarks/:id` finds the first record carrying the id, cuts it out
  of the collection in place and answers 204, or answers 404.

Files:

- `wrappers.dfy`: module `Wrappers`, the `Option` type.
- `bookmarks.dfy`: module `Bookmarks`, the record type, the five seed records, the
  searches (`FirstMatch` for `findIndex`, `Find` for `find`), the splice
  (`Removed`), the filter the tests compare against (`WithoutId`), and lemmas about
  them.
- `validation.dfy`: module `Validation`, the request body, the six checks, the
  validation chain `Validate`, and the lemma that it reports the first failing check.
- `router.dfy`: module `BookmarkRouter`, the class `Store` whose `bookmarks` field
  is the server's module-level array and whose methods are the handlers. It also
  holds three client methods, `UnknownIdScenario`, `DeleteScenario` and
  `CreateThenGet`, that run handlers on a fresh store after the GET, DELETE and
  POST cases of `test/app.spec.js`. They are patterned on those tests, not
  replays of them.
  The tests read the collection through a `store` module
  (`test/app.spec.js:2`). That module is not part of this model. The router
  keeps its own `bookmarksData` array and never imports it. The client methods
  assume that the tests and the router see one array. `DeleteScenario` also
  deletes the same id twice. The tests never do this: their 404 cases fetch and
  delete id `0` (`test/app.spec.js:54-59`, `:75-80`), which `UnknownIdScenario`
  does.

Modelling choices:

- The URL check of the validator library and `parseFloat` are uninterpreted: the
  store receives them as constructor arguments and keeps them as constants.
  `parseFloat` yields `None` for NaN. A rating sent as a JSON number parses to
  itself.
- The uuid of a new record is the `freshId` parameter of `Create`. The source
  asks nothing of it. The distinct-ids results hold when it is new.
- JavaScript truthiness: a text field is falsy when absent, null or `""`; a rating
  is falsy when absent, null, `""` or the number 0. Loose `==` on ids is string
  equality.
- A record made by a create keeps the rating exactly as sent. This can be a
  string such as `"4"`, not the parsed number. The record has no `url`. Seed
  records do carry a url, so `url` is optional in the record type.
- The code answers every validation failure with the same 400 reply. The checks
  differ only in their log messages. The model keeps the failing check in the
  outcome so that the order of the checks can be stated.

## Model

| member | source | states |
|---|---|---|
| `Bookmarks.Seed` | src/bookmarks/bookmark-router.js:10-46 | the store starts with five records, each with a non-empty title, a url and a numeric rating in [1, 5] |
| `Bookmarks.Removed` | src/bookmarks/bookmark-router.js:119 | `splice(i, 1)`: the result is one shorter, the records before `i` are unchanged, and each record after `i` moves one position down |
| `Bookmarks.SeedIdsDistinct` | src/bookmarks/bookmark-router.js:10-46 | the five seed records have pairwise distinct ids |
| `Bookmarks.FirstMatch` | src/bookmarks/bookmark-router.js:112 | the result is -1 exactly when no record carries the id; otherwise it is an index whose record carries the id, and no earlier record does |
| `Bookmarks.Find` | src/bookmarks/bookmark-router.js:102-104 | nothing is found exactly when no record carries the id; a found record carries the id, is in the collection, and every record before its position has another id |
| `Bookmarks.WithoutId` | test/app.spec.js:65 | a record is in the filtered sequence exactly when it is in the input and carries another id |
| `Bookmarks.WithoutAbsentId` | test/app.spec.js:65 | filtering out an id that no record carries returns the collection unchanged |
| `Bookmarks.RemoveFirstIsFilter` | src/bookmarks/bookmark-router.js:112-119 | under distinct ids, splicing out the first match equals filtering out the id, which is the equality the DELETE test asserts |
| `Bookmarks.RemovePreservesDistinct` | src/bookmarks/bookmark-router.js:119 | splicing one record out keeps ids distinct |
| `Bookmarks.AppendFreshPreservesDistinct` | src/bookmarks/bookmark-router.js:54-92 | appending a record under an unused id keeps ids distinct |
| `Bookmarks.DeletedIdIsGone` | src/bookmarks/bookmark-router.js:110-119 | under distinct ids, no record carries the id after the delete, so a later GET or DELETE of it answers 404 |
| `Bookmarks.FindAppended` | src/bookmarks/bookmark-router.js:92-102 | a record appended under an unused id is at the last index, and a lookup of that id returns it |
| `Validation.ParseRating` | src/bookmarks/bookmark-router.js:73-75 | `parseFloat(rating)`: an absent rating gives NaN (None), a JSON number parses to itself, and a string gives what the parser gives |
| `Validation.Validate` | src/bookmarks/bookmark-router.js:56-83 | a rejection names a check that fails on the body; an acceptance means title and url are truthy, the url passes the URL check, the rating is truthy and parses to the accepted number, and that number is in [1, 5] |
| `Validation.FirstFailure` | src/bookmarks/bookmark-router.js:56-83 | each check is judged on its own: every check before the returned position passes, and the check at that position fails, or no check fails |
| `Validation.ValidateReportsFirstFailure` | src/bookmarks/bookmark-router.js:56-83 | the chain accepts exactly when no check fails; otherwise it rejects with the first failing check in the order title, url, URL form, rating present, rating numeric, rating range |
| `Validation.ZeroRatingIsMissing` | src/bookmarks/bookmark-router.js:68-83 | a rating of 0 is rejected as missing, before the range check |
| `Validation.TestBodiesRejected` | test/app.spec.js:84-147 | each rejected body of the POST tests is stopped by the check the code applies; the rating-0 body, which its test names as out of range, is stopped by the missing-rating check |
| `BookmarkRouter.NewBookmark` | src/bookmarks/bookmark-router.js:85-90 | the new record has the fresh id and the body's title, description and raw rating, and no url |
| `BookmarkRouter.AcceptedIsAdmissible` | src/bookmarks/bookmark-router.js:56-90 | a record made from an accepted body has a non-empty title and a raw rating that parses into [1, 5] |
| `BookmarkRouter.Store.constructor` | src/bookmarks/bookmark-router.js:10-46 | the store starts with the seed records, all admissible, with distinct ids |
| `BookmarkRouter.Store.List` | src/bookmarks/bookmark-router.js:49-51 | the reply is the collection itself, in order |
| `BookmarkRouter.Store.Create` | src/bookmarks/bookmark-router.js:52-96 | a rejected body gets the failing check and leaves the collection unchanged; an accepted body appends exactly one record `{freshId, title, description, rating}` with no url, and the reply is that record; admissibility is kept, and distinct ids are kept when the id is new |
| `BookmarkRouter.Store.FindIndex` | src/bookmarks/bookmark-router.js:112 | the left-to-right search returns the index of the first record carrying the id, or -1 |
| `BookmarkRouter.Store.Get` | src/bookmarks/bookmark-router.js:100-109 | the reply is not-found exactly when no record carries the id; otherwise it is the first record carrying the id; the collection is not changed |
| `BookmarkRouter.Store.Delete` | src/bookmarks/bookmark-router.js:110-122 | an absent id answers not-found and changes nothing; a present id removes exactly the element at the first matching index, keeping the prefix and suffix in order, so the length drops by one; under distinct ids the result is the collection filtered by id, and ids stay distinct; admissibility is kept |

## Left out

- Express routing, body parsing, the response bodies (`'Invalid data'`, `'Card not found'`, `'Not found'`), the `Location` header and its URL: HTTP plumbing. Handlers return an outcome with a `Status()`.
- Logger calls: log output only. The store is not affected.
- `uuid()`: a random generator. Its value is the `freshId` parameter.
- The validator library's URL grammar and the floating-point semantics of `parseFloat` and `Number.isNaN`: uninterpreted parameters. An infinite parse result is not modelled. It would fail the range check in the source anyway.
- Body fields of other JSON types (a numeric or boolean title or url, a boolean or object rating), and the exception the URL check raises on a non-string url: the model gives text fields as absent or text, and a rating as absent, number or text.
- The authentication middleware and the SQL-backed endpoints in `test/bookmarks-endpoints.spec.js`: their source is not part of this model. So is the output serializer with sanitizing and numeric coercion of the rating. The in-memory handlers return records as stored, with no sanitizing and no coercion.
- Concurrency between requests: the handlers are synchronous over one array, and the model runs them one at a time.
