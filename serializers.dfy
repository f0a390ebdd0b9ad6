/**
 * The request validators and the derived rating: the reserved username, the
 * token exchange's validation on top of the authentication backend, the
 * title's rating and year rule, and the one-review-per-author check.
 */
module Serializers {
  import opened Wrappers
  import opened Users
  import opened Auth
  import opened Permissions
  import opened Reviews

  /** The validation failures these validators raise. */
  datatype ValidationError = ReservedUsername(value: string) | YearInFuture(year: int) | AlreadyReviewed

  // ---------------------------------------------------------------- signup username

  /** Lower-casing of one character; letters outside ASCII are left as they are. */
  function LowerChar(c: char): char {
    if 'A' <= c <= 'Z' then (c as int + 32) as char else c
  }

  function Lower(s: string): (r: string)
    ensures |r| == |s| && forall i :: 0 <= i < |s| ==> r[i] == LowerChar(s[i])
  {
    seq(|s|, i requires 0 <= i < |s| => LowerChar(s[i]))
  }

  predicate IsReservedUsername(value: string) {
    Lower(value) == "me"
  }

  /** The reserved name in every letter case, and nothing else. */
  lemma ReservedSpellings(value: string)
    ensures IsReservedUsername(value) <==> value in {"me", "Me", "mE", "ME"}
  {
    if IsReservedUsername(value) {
      assert |value| == 2;
      assert LowerChar(value[0]) == 'm' && LowerChar(value[1]) == 'e';
      assert value[0] in {'m', 'M'} && value[1] in {'e', 'E'};
      assert value == [value[0], value[1]];
    } else {
      assert Lower("me") == "me" && Lower("Me") == "me" && Lower("mE") == "me" && Lower("ME") == "me";
    }
  }

  /** `AuthSignupSerializer.validate_username`. */
  function ValidateUsername(value: string): (r: Result<string, ValidationError>)
    ensures r.Failure? <==> value in {"me", "Me", "mE", "ME"}
    ensures r.Failure? ==> r.error == ReservedUsername(value)
    ensures r.Success? ==> r.value == value
  {
    ReservedSpellings(value);
    if IsReservedUsername(value) then Failure(ReservedUsername(value)) else Success(value)
  }

  // ---------------------------------------------------------------- token exchange

  /** What the token validation can fail with: a backend exception, or no active account. */
  datatype TokenError = Backend(error: AuthError) | NoActiveAccount

  /**
   * The validated token data: the submitted username and code, and the token,
   * represented by the id of the user it is issued for.
   */
  datatype TokenData = TokenData(username: string, confirmationCode: string, token: UserId)

  /** `TokenSerializer.validate`: the backend, then the rule that the user exists and is active. */
  function ValidateToken(directory: map<string, User>, username: string, code: string): (r: Result<TokenData, TokenError>)
    ensures r.Success? ==>
              && username in directory && directory[username].isActive
              && r.value == TokenData(username, code, directory[username].id)
    ensures r == Failure(NoActiveAccount) <==> Authenticate(directory, Some(username), None, Text(code), map[]) == Success(None)
    ensures r.Failure? && r.error.Backend? <==> Authenticate(directory, Some(username), None, Text(code), map[]).Failure?
    ensures Authenticate(directory, Some(username), None, Text(code), map[]).Failure? ==>
              r == Failure(Backend(Authenticate(directory, Some(username), None, Text(code), map[]).error))
  {
    match Authenticate(directory, Some(username), None, Text(code), map[])
    case Failure(e) => Failure(Backend(e))
    case Success(found) =>
      if found.None? || !found.value.isActive then Failure(NoActiveAccount)
      else Success(TokenData(username, code, found.value.id))
  }

  /** The four outcomes of a token request with a non-empty code. */
  lemma TokenOutcomes(directory: map<string, User>, username: string, code: string)
    requires code != ""
    ensures username !in directory ==> ValidateToken(directory, username, code) == Failure(Backend(UserNotFound))
    ensures username in directory && code != directory[username].confirmationCode ==>
              ValidateToken(directory, username, code) == Failure(Backend(ConfirmationCodeIsIncorrect))
    ensures username in directory && code == directory[username].confirmationCode && !directory[username].isActive ==>
              ValidateToken(directory, username, code) == Failure(NoActiveAccount)
    ensures username in directory && code == directory[username].confirmationCode && directory[username].isActive ==>
              ValidateToken(directory, username, code) == Success(TokenData(username, code, directory[username].id))
  {
  }

  /** The token exchange never looks at the stored password. */
  lemma TokenIgnoresPassword(directory: map<string, User>, username: string, code: string, password: Option<string>)
    requires username in directory
    ensures ValidateToken(directory[username := directory[username].(password := password)], username, code)
            == ValidateToken(directory, username, code)
  {
  }

  // ---------------------------------------------------------------- rating

  function Sum(scores: seq<int>): int {
    if scores == [] then 0 else scores[0] + Sum(scores[1..])
  }

  /** The database average: none over no rows. */
  function Average(scores: seq<int>): Option<real> {
    if |scores| == 0 then None else Some(Sum(scores) as real / |scores| as real)
  }

  /** `TitlesSerializer.get_rating`, without the rounding: a falsy average gives no rating. */
  function Rating(scores: seq<int>): Option<real> {
    match Average(scores)
    case None => None
    case Some(a) => if a == 0.0 then None else Some(a)
  }

  lemma {:induction false} SumBounds(scores: seq<int>)
    requires forall i :: 0 <= i < |scores| ==> ScoreMin <= scores[i] <= ScoreMax
    ensures ScoreMin * |scores| <= Sum(scores) <= ScoreMax * |scores|
  {
    if scores != [] {
      SumBounds(scores[1..]);
    }
  }

  /** With scores in [1, 10] the rating is none exactly when there are no reviews, and lies in [1, 10] otherwise. */
  lemma RatingBounds(scores: seq<int>)
    requires forall i :: 0 <= i < |scores| ==> ScoreMin <= scores[i] <= ScoreMax
    ensures Rating(scores).None? <==> |scores| == 0
    ensures Rating(scores).Some? ==> 1.0 <= Rating(scores).value <= 10.0
  {
    if |scores| > 0 {
      SumBounds(scores);
      var n := |scores| as real;
      var s := Sum(scores) as real;
      assert n <= s <= 10.0 * n;
      QuotientBounds(s, n);
    }
  }

  lemma QuotientBounds(s: real, n: real)
    requires n > 0.0 && n <= s <= 10.0 * n
    ensures 1.0 <= s / n <= 10.0
  {
    var q := s / n;
    assert q * n == s;
    assert 1.0 <= q;
    assert q <= 10.0;
  }

  /**
   * Only the invariant score >= 1 makes "no rating" mean "no reviews": any
   * non-empty list of scores whose mean is zero also gives none.
   */
  lemma ZeroMeanGivesNoRating(scores: seq<int>)
    requires Average(scores) == Some(0.0)
    ensures |scores| > 0 && Rating(scores) == None
  {
  }

  /** The scores of the listed reviews, in order. */
  function ScoresOf(db: Tables, ids: seq<Id>): (r: seq<int>)
    requires forall i :: 0 <= i < |ids| ==> ids[i] in db.reviews
    ensures |r| == |ids| && forall i :: 0 <= i < |ids| ==> r[i] == db.reviews[ids[i]].score
  {
    seq(|ids|, i requires 0 <= i < |ids| => db.reviews[ids[i]].score)
  }

  /** `ids` lists each review of the title once. */
  ghost predicate ListsReviewsOf(db: Tables, t: Id, ids: seq<Id>) {
    && (forall i, j :: 0 <= i < j < |ids| ==> ids[i] != ids[j])
    && (forall k :: k in ReviewsOf(db, t) <==> k in ids)
  }

  /** A title's rating is none iff it has no reviews; otherwise it lies in [1, 10]. */
  lemma TitleRating(db: Tables, t: Id, ids: seq<Id>)
    requires Consistent(db) && ListsReviewsOf(db, t, ids)
    ensures forall i :: 0 <= i < |ids| ==> ids[i] in db.reviews
    ensures Rating(ScoresOf(db, ids)).None? <==> ReviewsOf(db, t) == {}
    ensures Rating(ScoresOf(db, ids)).Some? ==> 1.0 <= Rating(ScoresOf(db, ids)).value <= 10.0
  {
    assert forall i :: 0 <= i < |ids| ==> ids[i] in ReviewsOf(db, t);
    RatingBounds(ScoresOf(db, ids));
    if |ids| > 0 {
      assert ids[0] in ReviewsOf(db, t);
    }
  }

  // ---------------------------------------------------------------- title year

  /** `TitlesSerializer.validate_year`. */
  function ValidateYear(year: int, currentYear: int): (r: Result<int, ValidationError>)
    ensures r.Failure? <==> year > currentYear
    ensures r.Success? ==> r.value == year
  {
    if year > currentYear then Failure(YearInFuture(year)) else Success(year)
  }

  /**
   * The whole year rule of a title write, as written: the field's range check,
   * with the model's upper bound fixed to the year the code was loaded in, then
   * `validate_year` against the current year.
   */
  predicate YearAcceptedAsWritten(year: int, loadYear: int, currentYear: int) {
    0 <= year <= SmallIntMax && year <= loadYear && ValidateYear(year, currentYear).Success?
  }

  /** Once the calendar moves past the load year, a title from the current year is refused. */
  lemma StaleYearBound(loadYear: int)
    requires 0 <= loadYear < SmallIntMax
    ensures !YearAcceptedAsWritten(loadYear + 1, loadYear, loadYear + 1)
    ensures ValidateYear(loadYear + 1, loadYear + 1).Success?
  {
  }

  /** The year rule with the upper bound read at each call. */
  predicate YearAccepted(year: int, currentYear: int) {
    0 <= year <= SmallIntMax && ValidateYear(year, currentYear).Success?
  }

  /** The corrected rule accepts exactly the years in the column's range that are not in the future. */
  lemma YearAcceptedMeansNotFuture(year: int, currentYear: int)
    ensures YearAccepted(year, currentYear) <==> 0 <= year <= SmallIntMax && year <= currentYear
  {
  }

  // ---------------------------------------------------------------- reviews

  /** The fields a review request carries. */
  datatype ReviewData = ReviewData(text: string, score: int)

  /** `ReviewsSerializer.validate`: on creation only, the author must not have reviewed the title yet. */
  function ValidateReview(db: Tables, m: Method, title: Id, author: UserId, data: ReviewData)
    : (r: Result<ReviewData, ValidationError>)
    ensures r.Failure? <==> m == POST && HasReviewed(db, title, author)
    ensures r.Success? ==> r.value == data
  {
    if m == POST && HasReviewed(db, title, author) then Failure(AlreadyReviewed) else Success(data)
  }

  /** A method other than POST never fails the duplicate check. */
  lemma EditsSkipDuplicateCheck(db: Tables, m: Method, title: Id, author: UserId, data: ReviewData)
    requires m != POST
    ensures ValidateReview(db, m, title, author, data) == Success(data)
  {
  }
}
