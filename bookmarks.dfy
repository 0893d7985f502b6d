/**
 * Bookmark records, the five records the in-memory store starts with, and the
 * searches and splices that the request handlers perform on the store's sequence.
 */
module Bookmarks {
  import opened Wrappers

  /**
   * A `rating` as it arrives in a JSON request body and as it is kept in a
   * record: absent (or null), a JSON number, or a JSON string.
   */
  datatype RatingValue = NoRating | RatingNumber(n: real) | RatingText(s: string)

  /**
   * One stored record. The seed records carry a `url`; records added by a
   * create do not, so `url` is optional. `description` is whatever the
   * request sent, possibly nothing.
   */
  datatype Bookmark = Bookmark(
    id: string,
    title: string,
    url: Option<string>,
    description: Option<string>,
    rating: RatingValue)

  /** The contents of the store when the server starts. */
  function Seed(): (s: seq<Bookmark>)
    ensures |s| == 5
    ensures forall b :: b in s ==>
      b.title != "" && b.url.Some? && b.rating.RatingNumber? && 1.0 <= b.rating.n <= 5.0
  {
    [ Bookmark("cjozyzcil0000lxygs3gyg2mr", "Thinkful", Some("https://www.thinkful.com"),
               Some("Think outside the classroom"), RatingNumber(5.0)),
      Bookmark("cjozyzeqh0001lxygb8mhnvhz", "Google", Some("https://www.google.com"),
               Some("Where we find everything else"), RatingNumber(4.0)),
      Bookmark("cjkzyzeqh0001lxygb8mhqvh3", "MDN", Some("https://developer.mozilla.org"),
               Some("The only place to find web documentation"), RatingNumber(5.0)),
      Bookmark("cjxxajjye000004s7flnrqh7d", "hello", Some("https://repl.it/@HaliPower/youtube-example-1"),
               Some("hello"), RatingNumber(3.0)),
      Bookmark("cjxxcazpo000104s7udv3fdwu", "great website", Some("https://www.greatwebsite.com"),
               Some(""), RatingNumber(1.0)) ]
  }

  /** No two records of `s` share an id. */
  predicate DistinctIds(s: seq<Bookmark>)
  {
    forall i, j :: 0 <= i < j < |s| ==> s[i].id != s[j].id
  }

  /** Some record of `s` has id `id`. */
  predicate HasId(s: seq<Bookmark>, id: string)
  {
    exists j :: 0 <= j < |s| && s[j].id == id
  }

  lemma SeedIdsDistinct()
    ensures |Seed()| == 5 && DistinctIds(Seed())
  {
  }

  /**
   * The index of the first record of `s` whose id is `id`, or -1 when there
   * is none: the result of `findIndex(bm => bm.id == id)`.
   */
  function FirstMatch(s: seq<Bookmark>, id: string): (r: int)
    ensures -1 <= r < |s|
    ensures r == -1 <==> !HasId(s, id)
    ensures r >= 0 ==> s[r].id == id && forall j :: 0 <= j < r ==> s[j].id != id
  {
    if s == [] then -1
    else if s[0].id == id then 0
    else
      var k := FirstMatch(s[1..], id);
      if k == -1 then -1 else k + 1
  }

  /**
   * The first record of `s` whose id is `id`, if any: the result of
   * `find(bm => bm.id == id)`.
   */
  function Find(s: seq<Bookmark>, id: string): (r: Option<Bookmark>)
    ensures r.None? <==> !HasId(s, id)
    ensures r.Some? ==> r.value.id == id && r.value in s
    ensures r.Some? ==> exists i :: 0 <= i < |s| && s[i] == r.value && forall j :: 0 <= j < i ==> s[j].id != id
  {
    var k := FirstMatch(s, id);
    if k == -1 then None else Some(s[k])
  }

  /** `s` with the element at `i` cut out: `splice(i, 1)`. */
  function Removed(s: seq<Bookmark>, i: nat): (r: seq<Bookmark>)
    requires i < |s|
    ensures |r| == |s| - 1
    ensures forall j :: 0 <= j < i ==> r[j] == s[j]
    ensures forall j :: i <= j < |r| ==> r[j] == s[j + 1]
  {
    s[..i] + s[i + 1..]
  }

  /**
   * `filter(b => b.id !== id)`: the records of `s` whose id is not `id`. The
   * contract states membership only; the body keeps the records in their order.
   */
  function WithoutId(s: seq<Bookmark>, id: string): (r: seq<Bookmark>)
    ensures !HasId(r, id)
    ensures forall b :: b in r <==> b in s && b.id != id
  {
    if s == [] then []
    else if s[0].id == id then WithoutId(s[1..], id)
    else [s[0]] + WithoutId(s[1..], id)
  }

  /** Filtering out an id that no record carries changes nothing. */
  lemma {:induction false} WithoutAbsentId(s: seq<Bookmark>, id: string)
    requires !HasId(s, id)
    ensures WithoutId(s, id) == s
  {
    if s != [] {
      assert s[0].id != id;
      assert !HasId(s[1..], id) by {
        forall j | 0 <= j < |s[1..]| ensures s[1..][j].id != id {
          assert s[1..][j] == s[j + 1];
        }
      }
      WithoutAbsentId(s[1..], id);
      assert s == [s[0]] + s[1..];
    }
  }

  /**
   * When ids are distinct, cutting out the first record that carries `id` is
   * the same as filtering out every record that carries `id`.
   */
  lemma {:induction false} RemoveFirstIsFilter(s: seq<Bookmark>, id: string)
    requires DistinctIds(s)
    requires HasId(s, id)
    ensures Removed(s, FirstMatch(s, id)) == WithoutId(s, id)
  {
    var k := FirstMatch(s, id);
    assert DistinctIds(s[1..]) by {
      forall i, j | 0 <= i < j < |s[1..]| ensures s[1..][i].id != s[1..][j].id {
        assert s[1..][i] == s[i + 1] && s[1..][j] == s[j + 1];
      }
    }
    if s[0].id == id {
      assert k == 0;
      assert !HasId(s[1..], id) by {
        forall j | 0 <= j < |s[1..]| ensures s[1..][j].id != id {
          assert s[1..][j] == s[j + 1];
        }
      }
      WithoutAbsentId(s[1..], id);
      assert Removed(s, 0) == s[1..];
    } else {
      var t := s[1..];
      assert HasId(t, id) by {
        assert t[k - 1] == s[k];
      }
      var kt := FirstMatch(t, id);
      assert kt == k - 1 by {
        assert t[kt] == s[kt + 1];
        forall j | 0 <= j < k - 1 ensures t[j].id != id {
          assert t[j] == s[j + 1];
        }
      }
      RemoveFirstIsFilter(t, id);
      RemovedCons(s, k);
      assert WithoutId(s, id) == [s[0]] + WithoutId(t, id);
    }
  }

  /** Cutting out a position past the head keeps the head and cuts the tail one position earlier. */
  lemma RemovedCons(s: seq<Bookmark>, i: nat)
    requires 0 < i < |s|
    ensures Removed(s, i) == [s[0]] + Removed(s[1..], i - 1)
  {
  }

  /** Cutting one element out of a sequence with distinct ids keeps the ids distinct. */
  lemma RemovePreservesDistinct(s: seq<Bookmark>, i: nat)
    requires i < |s| && DistinctIds(s)
    ensures DistinctIds(Removed(s, i))
  {
  }

  /** Appending a record whose id is new keeps the ids distinct. */
  lemma AppendFreshPreservesDistinct(s: seq<Bookmark>, b: Bookmark)
    requires DistinctIds(s) && !HasId(s, b.id)
    ensures DistinctIds(s + [b])
  {
  }

  /**
   * When ids are distinct, once the first record carrying `id` is cut out no
   * record carries `id`, so a later lookup or delete of it finds nothing.
   */
  lemma DeletedIdIsGone(s: seq<Bookmark>, id: string)
    requires DistinctIds(s) && HasId(s, id)
    ensures !HasId(Removed(s, FirstMatch(s, id)), id)
  {
  }

  /** A record appended under an id no earlier record carries is the one a lookup of that id finds. */
  lemma FindAppended(s: seq<Bookmark>, b: Bookmark)
    requires !HasId(s, b.id)
    ensures FirstMatch(s + [b], b.id) == |s|
    ensures Find(s + [b], b.id) == Some(b)
  {
    var t := s + [b];
    assert t[|s|] == b;
    assert forall j :: 0 <= j < |s| ==> t[j].id != b.id by {
      forall j | 0 <= j < |s| ensures t[j].id != b.id {
        assert t[j] == s[j];
      }
    }
    assert FirstMatch(t, b.id) == |s|;
  }
}
