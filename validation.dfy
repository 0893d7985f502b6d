/**
 * The checks that POST /bookmarks applies to a request body before it adds a
 * record. They run in a fixed order and the first one that fails decides the
 * 400 reply. The URL check and the numeric parse of the rating are library
 * calls whose behaviour is not part of this model, so both are parameters:
 * `isURL` stands for the validator library's URL check and `parseFloat` for
 * JavaScript's parseFloat on a string (None standing for NaN).
 */
module Validation {
  import opened Wrappers
  import opened Bookmarks

  /** The fields a create request body may carry. */
  datatype Payload = Payload(
    title: Option<string>,
    url: Option<string>,
    description: Option<string>,
    rating: RatingValue)

  /** A text field is falsy when it is absent, null or empty. */
  predicate Falsy(f: Option<string>)
  {
    f == None || f == Some("")
  }

  /** A rating is falsy when it is absent, null, the empty string or the number 0. */
  predicate RatingFalsy(v: RatingValue)
  {
    v == NoRating || v == RatingText("") || v == RatingNumber(0.0)
  }

  /** `parseFloat(rating)`: a JSON number parses to itself, a string as the parser says. */
  function ParseRating(v: RatingValue, parseFloat: string -> Option<real>): (r: Option<real>)
    ensures v == NoRating ==> r == None
    ensures v.RatingNumber? ==> r == Some(v.n)
    ensures v.RatingText? ==> r == parseFloat(v.s)
  {
    match v
    case NoRating => None
    case RatingNumber(n) => Some(n)
    case RatingText(s) => parseFloat(s)
  }

  /** The six checks, each named after what it requires. */
  datatype Check =
    | TitleRequired
    | UrlRequired
    | UrlValid
    | RatingRequired
    | RatingNumeric
    | RatingInRange

  /** The order in which the checks run. */
  const Order: seq<Check> := [TitleRequired, UrlRequired, UrlValid, RatingRequired, RatingNumeric, RatingInRange]

  /** Check `c`, taken on its own, rejects body `p`. */
  predicate Fails(c: Check, p: Payload, isURL: string -> bool, parseFloat: string -> Option<real>)
  {
    match c
    case TitleRequired => Falsy(p.title)
    case UrlRequired => Falsy(p.url)
    case UrlValid => p.url.Some? && !isURL(p.url.value)
    case RatingRequired => RatingFalsy(p.rating)
    case RatingNumeric => ParseRating(p.rating, parseFloat) == None
    case RatingInRange =>
      var n := ParseRating(p.rating, parseFloat);
      n.Some? && (n.value < 1.0 || n.value > 5.0)
  }

  /** What the checks decide: accept with the parsed rating, or reject naming the check that failed. */
  datatype Verdict = Accept(ratingNum: real) | Reject(failed: Check)

  /** The validation chain of the POST handler, with its early returns. */
  function Validate(p: Payload, isURL: string -> bool, parseFloat: string -> Option<real>): (v: Verdict)
    ensures v.Reject? ==> Fails(v.failed, p, isURL, parseFloat)
    ensures v.Accept? ==>
      !Falsy(p.title) && !Falsy(p.url) && isURL(p.url.value) && !RatingFalsy(p.rating)
      && ParseRating(p.rating, parseFloat) == Some(v.ratingNum)
      && 1.0 <= v.ratingNum <= 5.0
  {
    if Falsy(p.title) then Reject(TitleRequired)
    else if Falsy(p.url) then Reject(UrlRequired)
    else if !isURL(p.url.value) then Reject(UrlValid)
    else if RatingFalsy(p.rating) then Reject(RatingRequired)
    else
      match ParseRating(p.rating, parseFloat)
      case None => Reject(RatingNumeric)
      case Some(n) =>
        if n < 1.0 || n > 5.0 then Reject(RatingInRange) else Accept(n)
  }

  /**
   * The position in `cs` of the first check that rejects `p`, each check
   * judged on its own; `|cs|` when none does.
   */
  function FirstFailure(cs: seq<Check>, p: Payload, isURL: string -> bool, parseFloat: string -> Option<real>): (k: nat)
    ensures k <= |cs|
    ensures forall j :: 0 <= j < k ==> !Fails(cs[j], p, isURL, parseFloat)
    ensures k < |cs| ==> Fails(cs[k], p, isURL, parseFloat)
  {
    if cs == [] then 0
    else if Fails(cs[0], p, isURL, parseFloat) then 0
    else 1 + FirstFailure(cs[1..], p, isURL, parseFloat)
  }

  /**
   * The chain rejects exactly when some check fails, and then it reports the
   * first failing check in `Order`: the first failure wins.
   */
  lemma ValidateReportsFirstFailure(p: Payload, isURL: string -> bool, parseFloat: string -> Option<real>)
    ensures var k := FirstFailure(Order, p, isURL, parseFloat);
      (Validate(p, isURL, parseFloat).Accept? <==> k == |Order|)
      && (k < |Order| ==> Validate(p, isURL, parseFloat) == Reject(Order[k]))
  {
    var k := FirstFailure(Order, p, isURL, parseFloat);
    var v := Validate(p, isURL, parseFloat);
    if v.Reject? {
      var i := match v.failed
        case TitleRequired => 0 case UrlRequired => 1 case UrlValid => 2
        case RatingRequired => 3 case RatingNumeric => 4 case RatingInRange => 5;
      assert Order[i] == v.failed;
      assert k <= i;
    }
  }

  /** A rating of 0 is rejected as missing, before the range check is reached. */
  lemma ZeroRatingIsMissing(p: Payload, isURL: string -> bool, parseFloat: string -> Option<real>)
    requires !Falsy(p.title) && !Falsy(p.url) && isURL(p.url.value)
    requires p.rating == RatingNumber(0.0)
    ensures Validate(p, isURL, parseFloat) == Reject(RatingRequired)
  {
  }

  /**
   * The rejected bodies of the endpoint tests, each with the check that
   * stops it, given that the URL check refuses "htp://invalid-url".
   */
  lemma TestBodiesRejected(isURL: string -> bool, parseFloat: string -> Option<real>)
    requires isURL("https://test.com") && !isURL("htp://invalid-url")
    ensures Validate(Payload(Some(""), Some("https://test.com"), None, RatingNumber(1.0)), isURL, parseFloat)
      == Reject(TitleRequired)
    ensures Validate(Payload(Some("test-title"), Some(""), None, RatingNumber(1.0)), isURL, parseFloat)
      == Reject(UrlRequired)
    ensures Validate(Payload(Some("test-title"), Some("https://test.com"), None, RatingText("")), isURL, parseFloat)
      == Reject(RatingRequired)
    ensures Validate(Payload(Some("test-title"), Some("https://test.com"), None, RatingNumber(0.0)), isURL, parseFloat)
      == Reject(RatingRequired)
    ensures Validate(Payload(Some("test-title"), Some("htp://invalid-url"), None, RatingNumber(1.0)), isURL, parseFloat)
      == Reject(UrlValid)
  {
  }
}
