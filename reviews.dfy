/**
 * The relational store behind the catalogue and the feedback: users,
 * categories, genres, titles, the title-genre association, reviews and
 * comments, with their unique constraints and their referential actions
 * (a category's deletion sets its titles' category to null; the deletion of a
 * title, genre, review or user cascades to the rows that refer to it).
 *
 * `Tables` is the store as a value, and the functions over it give the rows
 * after each insert or delete; `Store` holds the same tables as fields and
 * rewrites them in place.
 */
module Reviews {
  import opened Wrappers
  import opened Users

  /** Primary keys; all tables draw them from one counter. */
  type Id = nat

  const ScoreMin: int := 1
  const ScoreMax: int := 10
  /** The column range of a positive small integer. */
  const SmallIntMax: int := 32767

  datatype Category = Category(name: string, slug: string)
  datatype Genre = Genre(name: string, slug: string)
  datatype Title = Title(name: string, year: int, description: string, category: Option<Id>)
  datatype TitleGenre = TitleGenre(title: Id, genre: Id)
  datatype Review = Review(title: Id, text: string, author: UserId, score: int)
  datatype Comment = Comment(review: Id, text: string, author: UserId)

  datatype Tables = Tables(
    users: map<UserId, User>,
    categories: map<Id, Category>,
    genres: map<Id, Genre>,
    titles: map<Id, Title>,
    titleGenres: map<Id, TitleGenre>,
    reviews: map<Id, Review>,
    comments: map<Id, Comment>,
    nextId: Id)

  /** The reasons an insert or update is refused. */
  datatype StoreError =
    | MissingReference
    | DuplicateUsername
    | DuplicateEmail
    | DuplicateSlug
    | DuplicateTitleGenre
    | DuplicateReview
    | ScoreOutOfRange
    | YearOutOfRange

  // ---------------------------------------------------------------- invariants

  /** Every key lies below the counter, so the counter is always a fresh key. */
  ghost predicate KeysBelowNext(db: Tables) {
    && (forall k :: k in db.users ==> k < db.nextId)
    && (forall k :: k in db.categories ==> k < db.nextId)
    && (forall k :: k in db.genres ==> k < db.nextId)
    && (forall k :: k in db.titles ==> k < db.nextId)
    && (forall k :: k in db.titleGenres ==> k < db.nextId)
    && (forall k :: k in db.reviews ==> k < db.nextId)
    && (forall k :: k in db.comments ==> k < db.nextId)
  }

  /** A user row carries its own key. */
  ghost predicate UsersKeyed(db: Tables) {
    forall k :: k in db.users ==> db.users[k].id == k
  }

  /** Usernames and emails are unique. */
  ghost predicate UniqueUsers(db: Tables) {
    forall a, b :: a in db.users && b in db.users && a != b ==>
      db.users[a].username != db.users[b].username && db.users[a].email != db.users[b].email
  }

  /** Category slugs and genre slugs are unique. */
  ghost predicate UniqueSlugs(db: Tables) {
    && (forall a, b :: a in db.categories && b in db.categories && a != b ==>
          db.categories[a].slug != db.categories[b].slug)
    && (forall a, b :: a in db.genres && b in db.genres && a != b ==>
          db.genres[a].slug != db.genres[b].slug)
  }

  /** At most one association row per (title, genre). */
  ghost predicate UniqueTitleGenres(db: Tables) {
    forall a, b :: a in db.titleGenres && b in db.titleGenres && a != b ==> db.titleGenres[a] != db.titleGenres[b]
  }

  /** At most one review per (title, author). */
  ghost predicate UniqueReviews(db: Tables) {
    forall a, b :: a in db.reviews && b in db.reviews && a != b ==>
      db.reviews[a].title != db.reviews[b].title || db.reviews[a].author != db.reviews[b].author
  }

  /** Every review score lies in [1, 10]. */
  ghost predicate ScoresInRange(db: Tables) {
    forall r :: r in db.reviews ==> ScoreMin <= db.reviews[r].score <= ScoreMax
  }

  /** Every foreign key names an existing row (a title's category may be null). */
  ghost predicate ReferencesResolve(db: Tables) {
    && (forall t :: t in db.titles && db.titles[t].category.Some? ==> db.titles[t].category.value in db.categories)
    && (forall k :: k in db.titleGenres ==> db.titleGenres[k].title in db.titles && db.titleGenres[k].genre in db.genres)
    && (forall r :: r in db.reviews ==> db.reviews[r].title in db.titles && db.reviews[r].author in db.users)
    && (forall c :: c in db.comments ==> db.comments[c].review in db.reviews && db.comments[c].author in db.users)
  }

  ghost predicate Consistent(db: Tables) {
    && KeysBelowNext(db)
    && UsersKeyed(db)
    && UniqueUsers(db)
    && UniqueSlugs(db)
    && UniqueTitleGenres(db)
    && UniqueReviews(db)
    && ScoresInRange(db)
    && ReferencesResolve(db)
  }

  /** The empty store. */
  function EmptyTables(): (db: Tables)
    ensures Consistent(db)
  {
    Tables(map[], map[], map[], map[], map[], map[], map[], 0)
  }

  /** The reviews of a title. */
  ghost function ReviewsOf(db: Tables, t: Id): set<Id> {
    set r | r in db.reviews && db.reviews[r].title == t
  }

  // ---------------------------------------------------------------- lookups

  predicate UsernameTaken(db: Tables, username: string) {
    exists k :: k in db.users && db.users[k].username == username
  }

  predicate EmailTaken(db: Tables, email: string) {
    exists k :: k in db.users && db.users[k].email == email
  }

  predicate CategorySlugTaken(db: Tables, slug: string) {
    exists k :: k in db.categories && db.categories[k].slug == slug
  }

  predicate GenreSlugTaken(db: Tables, slug: string) {
    exists k :: k in db.genres && db.genres[k].slug == slug
  }

  /** Whether the user has already reviewed the title. */
  predicate HasReviewed(db: Tables, title: Id, author: UserId) {
    exists r :: r in db.reviews && db.reviews[r].title == title && db.reviews[r].author == author
  }

  // ---------------------------------------------------------------- deletes

  /** Whether a comment sits on a review of title `t`. */
  predicate OnReviewOfTitle(db: Tables, c: Comment, t: Id) {
    c.review in db.reviews && db.reviews[c.review].title == t
  }

  /** Whether a comment sits on a review written by `u`. */
  predicate OnReviewBy(db: Tables, c: Comment, u: UserId) {
    c.review in db.reviews && db.reviews[c.review].author == u
  }

  /** Deleting a category: its titles keep existing with a null category. */
  function DeleteCategoryRows(db: Tables, c: Id): (r: Tables)
    ensures c !in r.categories && r.categories == db.categories - {c}
    ensures r.titles.Keys == db.titles.Keys
    ensures forall t :: t in r.titles ==> r.titles[t].category != Some(c)
    ensures forall t :: t in db.titles && db.titles[t].category == Some(c) ==> r.titles[t] == db.titles[t].(category := None)
    ensures forall t :: t in r.titles && db.titles[t].category != Some(c) ==> r.titles[t] == db.titles[t]
    ensures r.users == db.users && r.genres == db.genres && r.titleGenres == db.titleGenres && r.reviews == db.reviews && r.comments == db.comments && r.nextId == db.nextId
  {
    db.(categories := db.categories - {c},
        titles := map t | t in db.titles ::
          if db.titles[t].category == Some(c) then db.titles[t].(category := None) else db.titles[t])
  }

  /** Deleting a genre removes its association rows and no title. */
  function DeleteGenreRows(db: Tables, g: Id): (r: Tables)
    ensures r.genres == db.genres - {g}
    ensures forall k :: k in r.titleGenres <==> k in db.titleGenres && db.titleGenres[k].genre != g
    ensures forall k :: k in r.titleGenres ==> r.titleGenres[k] == db.titleGenres[k]
    ensures r.users == db.users && r.categories == db.categories && r.titles == db.titles && r.reviews == db.reviews && r.comments == db.comments && r.nextId == db.nextId
  {
    db.(genres := db.genres - {g},
        titleGenres := map k | k in db.titleGenres && db.titleGenres[k].genre != g :: db.titleGenres[k])
  }

  /** Deleting a review removes it and the comments on it. */
  function DeleteReviewRows(db: Tables, rv: Id): (r: Tables)
    ensures r.reviews == db.reviews - {rv}
    ensures forall k :: k in r.comments <==> k in db.comments && db.comments[k].review != rv
    ensures forall k :: k in r.comments ==> r.comments[k] == db.comments[k]
    ensures r.users == db.users && r.categories == db.categories && r.genres == db.genres && r.titles == db.titles && r.titleGenres == db.titleGenres && r.nextId == db.nextId
  {
    db.(reviews := db.reviews - {rv},
        comments := map k | k in db.comments && db.comments[k].review != rv :: db.comments[k])
  }

  /** Deleting a comment touches nothing else. */
  function DeleteCommentRows(db: Tables, cm: Id): (r: Tables)
    ensures r.users == db.users && r.categories == db.categories && r.genres == db.genres
    ensures r.titles == db.titles && r.titleGenres == db.titleGenres && r.reviews == db.reviews
    ensures r.nextId == db.nextId
    ensures r.comments == db.comments - {cm}
    ensures forall k :: k in r.comments <==> k in db.comments && k != cm
  {
    db.(comments := db.comments - {cm})
  }

  /**
   * Deleting a title removes its association rows and its reviews, and the
   * comments on those reviews.
   */
  function DeleteTitleRows(db: Tables, t: Id): (r: Tables)
    ensures r.titles == db.titles - {t}
    ensures forall k :: k in r.titleGenres <==> k in db.titleGenres && db.titleGenres[k].title != t
    ensures forall k :: k in r.reviews <==> k in db.reviews && db.reviews[k].title != t
    ensures forall k :: k in r.comments <==> k in db.comments && !OnReviewOfTitle(db, db.comments[k], t)
    ensures forall k :: k in r.titleGenres ==> r.titleGenres[k] == db.titleGenres[k]
    ensures forall k :: k in r.reviews ==> r.reviews[k] == db.reviews[k]
    ensures forall k :: k in r.comments ==> r.comments[k] == db.comments[k]
    ensures r.users == db.users && r.categories == db.categories && r.genres == db.genres && r.nextId == db.nextId
  {
    db.(titles := db.titles - {t},
        titleGenres := map k | k in db.titleGenres && db.titleGenres[k].title != t :: db.titleGenres[k],
        reviews := map k | k in db.reviews && db.reviews[k].title != t :: db.reviews[k],
        comments := map k | k in db.comments && !OnReviewOfTitle(db, db.comments[k], t) :: db.comments[k])
  }

  /**
   * Deleting a user removes the user's reviews and comments, and the comments
   * others left on the user's reviews.
   */
  function DeleteUserRows(db: Tables, u: UserId): (r: Tables)
    ensures r.users == db.users - {u}
    ensures forall k :: k in r.reviews <==> k in db.reviews && db.reviews[k].author != u
    ensures forall k :: k in r.comments <==>
              k in db.comments && db.comments[k].author != u && !OnReviewBy(db, db.comments[k], u)
    ensures forall k :: k in r.reviews ==> r.reviews[k] == db.reviews[k]
    ensures forall k :: k in r.comments ==> r.comments[k] == db.comments[k]
    ensures r.categories == db.categories && r.genres == db.genres && r.titles == db.titles && r.titleGenres == db.titleGenres && r.nextId == db.nextId
  {
    db.(users := db.users - {u},
        reviews := map k | k in db.reviews && db.reviews[k].author != u :: db.reviews[k],
        comments := map k | k in db.comments && db.comments[k].author != u && !OnReviewBy(db, db.comments[k], u) ::
          db.comments[k])
  }

  // ---------------------------------------------------------------- inserts and updates

  /** Saving a new user under the next key; the username and the email must both be free. */
  function InsertUserRow(db: Tables, username: string, email: string, code: string): (r: Result<Tables, StoreError>)
    ensures r.Success? <==> !UsernameTaken(db, username) && !EmailTaken(db, email)
    ensures r == Failure(DuplicateUsername) <==> UsernameTaken(db, username)
    ensures r.Success? ==>
              && r.value.users == db.users[db.nextId := NewUser(db.nextId, username, email, code)]
              && r.value.nextId == db.nextId + 1
              && r.value.categories == db.categories && r.value.genres == db.genres && r.value.titles == db.titles && r.value.titleGenres == db.titleGenres && r.value.reviews == db.reviews && r.value.comments == db.comments
  {
    if UsernameTaken(db, username) then Failure(DuplicateUsername)
    else if EmailTaken(db, email) then Failure(DuplicateEmail)
    else Success(db.(users := db.users[db.nextId := NewUser(db.nextId, username, email, code)], nextId := db.nextId + 1))
  }

  /** Saving an existing user's edited row; no other user may hold its username or email. */
  function SaveUserRow(db: Tables, u: User): (r: Result<Tables, StoreError>)
    ensures r.Success? <==>
              && u.id in db.users
              && (forall k :: k in db.users && k != u.id ==> db.users[k].username != u.username)
              && (forall k :: k in db.users && k != u.id ==> db.users[k].email != u.email)
    ensures r.Success? ==> r.value == db.(users := db.users[u.id := u])
  {
    if u.id !in db.users then Failure(MissingReference)
    else if exists k :: k in db.users && k != u.id && db.users[k].username == u.username then Failure(DuplicateUsername)
    else if exists k :: k in db.users && k != u.id && db.users[k].email == u.email then Failure(DuplicateEmail)
    else Success(db.(users := db.users[u.id := u]))
  }

  function InsertCategoryRow(db: Tables, name: string, slug: string): (r: Result<Tables, StoreError>)
    ensures r.Success? <==> !CategorySlugTaken(db, slug)
    ensures r.Failure? ==> r.error == DuplicateSlug
    ensures r.Success? ==>
              && r.value.categories == db.categories[db.nextId := Category(name, slug)]
              && r.value.nextId == db.nextId + 1
              && r.value.users == db.users && r.value.genres == db.genres && r.value.titles == db.titles && r.value.titleGenres == db.titleGenres && r.value.reviews == db.reviews && r.value.comments == db.comments
  {
    if CategorySlugTaken(db, slug) then Failure(DuplicateSlug)
    else Success(db.(categories := db.categories[db.nextId := Category(name, slug)], nextId := db.nextId + 1))
  }

  function InsertGenreRow(db: Tables, name: string, slug: string): (r: Result<Tables, StoreError>)
    ensures r.Success? <==> !GenreSlugTaken(db, slug)
    ensures r.Failure? ==> r.error == DuplicateSlug
    ensures r.Success? ==>
              && r.value.genres == db.genres[db.nextId := Genre(name, slug)]
              && r.value.nextId == db.nextId + 1
              && r.value.users == db.users && r.value.categories == db.categories && r.value.titles == db.titles && r.value.titleGenres == db.titleGenres && r.value.reviews == db.reviews && r.value.comments == db.comments
  {
    if GenreSlugTaken(db, slug) then Failure(DuplicateSlug)
    else Success(db.(genres := db.genres[db.nextId := Genre(name, slug)], nextId := db.nextId + 1))
  }

  /** A title needs a year in the column's range and, when it names one, an existing category. */
  function InsertTitleRow(db: Tables, name: string, year: int, description: string, category: Option<Id>)
    : (r: Result<Tables, StoreError>)
    ensures r.Success? <==> 0 <= year <= SmallIntMax && (category.Some? ==> category.value in db.categories)
    ensures r.Success? ==>
              && r.value.titles == db.titles[db.nextId := Title(name, year, description, category)]
              && r.value.nextId == db.nextId + 1
              && r.value.users == db.users && r.value.categories == db.categories && r.value.genres == db.genres && r.value.titleGenres == db.titleGenres && r.value.reviews == db.reviews && r.value.comments == db.comments
  {
    if !(0 <= year <= SmallIntMax) then Failure(YearOutOfRange)
    else if category.Some? && category.value !in db.categories then Failure(MissingReference)
    else Success(db.(titles := db.titles[db.nextId := Title(name, year, description, category)], nextId := db.nextId + 1))
  }

  /** Linking a title to a genre: both must exist and the pair must be new. */
  function InsertTitleGenreRow(db: Tables, t: Id, g: Id): (r: Result<Tables, StoreError>)
    ensures r.Success? <==>
              t in db.titles && g in db.genres && TitleGenre(t, g) !in db.titleGenres.Values
    ensures r == Failure(DuplicateTitleGenre) <==>
              t in db.titles && g in db.genres && TitleGenre(t, g) in db.titleGenres.Values
    ensures r.Success? ==>
              && r.value.titleGenres == db.titleGenres[db.nextId := TitleGenre(t, g)]
              && r.value.nextId == db.nextId + 1
              && r.value.users == db.users && r.value.categories == db.categories && r.value.genres == db.genres && r.value.titles == db.titles && r.value.reviews == db.reviews && r.value.comments == db.comments
  {
    if t !in db.titles || g !in db.genres then Failure(MissingReference)
    else if TitleGenre(t, g) in db.titleGenres.Values then Failure(DuplicateTitleGenre)
    else Success(db.(titleGenres := db.titleGenres[db.nextId := TitleGenre(t, g)], nextId := db.nextId + 1))
  }

  /** A review needs an existing title and author, a score in [1, 10], and no earlier review by that author. */
  function InsertReviewRow(db: Tables, title: Id, author: UserId, text: string, score: int)
    : (r: Result<Tables, StoreError>)
    ensures r.Success? <==>
              title in db.titles && author in db.users && ScoreMin <= score <= ScoreMax && !HasReviewed(db, title, author)
    ensures r == Failure(DuplicateReview) <==>
              title in db.titles && author in db.users && ScoreMin <= score <= ScoreMax && HasReviewed(db, title, author)
    ensures r.Success? ==>
              && r.value.reviews == db.reviews[db.nextId := Review(title, text, author, score)]
              && r.value.nextId == db.nextId + 1
              && r.value.users == db.users && r.value.categories == db.categories && r.value.genres == db.genres && r.value.titles == db.titles && r.value.titleGenres == db.titleGenres && r.value.comments == db.comments
  {
    if title !in db.titles || author !in db.users then Failure(MissingReference)
    else if !(ScoreMin <= score <= ScoreMax) then Failure(ScoreOutOfRange)
    else if HasReviewed(db, title, author) then Failure(DuplicateReview)
    else Success(db.(reviews := db.reviews[db.nextId := Review(title, text, author, score)], nextId := db.nextId + 1))
  }

  /** Editing a review's text and score; its title and author stay, so no duplicate can arise. */
  function UpdateReviewRow(db: Tables, id: Id, text: string, score: int): (r: Result<Tables, StoreError>)
    ensures r.Success? <==> id in db.reviews && ScoreMin <= score <= ScoreMax
    ensures r.Success? ==> r.value == db.(reviews := db.reviews[id := db.reviews[id].(text := text, score := score)])
  {
    if id !in db.reviews then Failure(MissingReference)
    else if !(ScoreMin <= score <= ScoreMax) then Failure(ScoreOutOfRange)
    else Success(db.(reviews := db.reviews[id := db.reviews[id].(text := text, score := score)]))
  }

  /** A comment needs an existing review and author; nothing limits how many there are. */
  function InsertCommentRow(db: Tables, review: Id, author: UserId, text: string): (r: Result<Tables, StoreError>)
    ensures r.Success? <==> review in db.reviews && author in db.users
    ensures r.Success? ==>
              && r.value.comments == db.comments[db.nextId := Comment(review, text, author)]
              && r.value.nextId == db.nextId + 1
              && r.value.users == db.users && r.value.categories == db.categories && r.value.genres == db.genres && r.value.titles == db.titles && r.value.titleGenres == db.titleGenres && r.value.reviews == db.reviews
  {
    if review !in db.reviews || author !in db.users then Failure(MissingReference)
    else Success(db.(comments := db.comments[db.nextId := Comment(review, text, author)], nextId := db.nextId + 1))
  }

  /** Once a review by an author exists for a title, a second one for the same pair is refused. */
  lemma SecondReviewRejected(db: Tables, title: Id, author: UserId, text: string, score: int, text2: string, score2: int)
    requires InsertReviewRow(db, title, author, text, score).Success?
    requires ScoreMin <= score2 <= ScoreMax
    ensures InsertReviewRow(InsertReviewRow(db, title, author, text, score).value, title, author, text2, score2)
            == Failure(DuplicateReview)
  {
    var after := InsertReviewRow(db, title, author, text, score).value;
    assert after.reviews[db.nextId] == Review(title, text, author, score);
    assert HasReviewed(after, title, author);
  }

  // ---------------------------------------------------------------- inserts keep the store consistent

  lemma InsertUserKeepsConsistent(db: Tables, username: string, email: string, code: string)
    requires Consistent(db) && InsertUserRow(db, username, email, code).Success?
    ensures Consistent(InsertUserRow(db, username, email, code).value)
  {
    var u := NewUser(db.nextId, username, email, code);
    var after := db.(users := db.users[db.nextId := u], nextId := db.nextId + 1);
    InsertUserShape(db, username, email, code);
    AddUserKeepsKeys(db, u);
    AddUserKeepsUserInvariants(db, u);
    SameTaxonomyKeepsInvariants(db, after);
    SameTitleGenresKeepInvariants(db, after);
    SameReviewsKeepInvariants(db, after);
    AddUserKeepsReferences(db, u);
  }

  lemma InsertUserShape(db: Tables, username: string, email: string, code: string)
    requires InsertUserRow(db, username, email, code).Success?
    ensures !UsernameTaken(db, username) && !EmailTaken(db, email)
    ensures InsertUserRow(db, username, email, code).value
            == db.(users := db.users[db.nextId := NewUser(db.nextId, username, email, code)], nextId := db.nextId + 1)
  {
  }

  lemma AddUserKeepsKeys(db: Tables, u: User)
    requires KeysBelowNext(db)
    ensures KeysBelowNext(db.(users := db.users[db.nextId := u], nextId := db.nextId + 1))
  {
  }

  lemma AddUserKeepsUserInvariants(db: Tables, u: User)
    requires KeysBelowNext(db) && UsersKeyed(db) && UniqueUsers(db) && u.id == db.nextId
    requires !UsernameTaken(db, u.username) && !EmailTaken(db, u.email)
    ensures UsersKeyed(db.(users := db.users[db.nextId := u], nextId := db.nextId + 1))
    ensures UniqueUsers(db.(users := db.users[db.nextId := u], nextId := db.nextId + 1))
  {
  }

  lemma AddUserKeepsReferences(db: Tables, u: User)
    requires ReferencesResolve(db)
    ensures ReferencesResolve(db.(users := db.users[db.nextId := u], nextId := db.nextId + 1))
  {
  }

  lemma SaveUserKeepsConsistent(db: Tables, u: User)
    requires Consistent(db) && SaveUserRow(db, u).Success?
    ensures Consistent(SaveUserRow(db, u).value)
  {
    var after := db.(users := db.users[u.id := u]);
    SaveUserKeepsKeys(db, u);
    SaveUserKeepsUserInvariants(db, u);
    SameTaxonomyKeepsInvariants(db, after);
    SameTitleGenresKeepInvariants(db, after);
    SameReviewsKeepInvariants(db, after);
    SaveUserKeepsReferences(db, u);
  }

  lemma SaveUserKeepsKeys(db: Tables, u: User)
    requires KeysBelowNext(db) && u.id in db.users
    ensures KeysBelowNext(db.(users := db.users[u.id := u]))
  {
  }

  lemma SaveUserKeepsUserInvariants(db: Tables, u: User)
    requires UsersKeyed(db) && UniqueUsers(db) && u.id in db.users
    requires forall k :: k in db.users && k != u.id ==> db.users[k].username != u.username
    requires forall k :: k in db.users && k != u.id ==> db.users[k].email != u.email
    ensures UsersKeyed(db.(users := db.users[u.id := u])) && UniqueUsers(db.(users := db.users[u.id := u]))
  {
  }

  lemma SaveUserKeepsReferences(db: Tables, u: User)
    requires ReferencesResolve(db) && u.id in db.users
    ensures ReferencesResolve(db.(users := db.users[u.id := u]))
  {
  }

  lemma InsertCategoryKeepsConsistent(db: Tables, name: string, slug: string)
    requires Consistent(db) && InsertCategoryRow(db, name, slug).Success?
    ensures Consistent(InsertCategoryRow(db, name, slug).value)
  {
    var c := Category(name, slug);
    var after := db.(categories := db.categories[db.nextId := c], nextId := db.nextId + 1);
    assert InsertCategoryRow(db, name, slug).value == after;
    AddCategoryKeepsKeys(db, c);
    SameUsersKeepInvariants(db, after);
    AddCategoryKeepsSlugs(db, c);
    SameTitleGenresKeepInvariants(db, after);
    SameReviewsKeepInvariants(db, after);
    AddCategoryKeepsReferences(db, c);
  }

  lemma AddCategoryKeepsKeys(db: Tables, c: Category)
    requires KeysBelowNext(db)
    ensures KeysBelowNext(db.(categories := db.categories[db.nextId := c], nextId := db.nextId + 1))
  {
  }

  lemma AddCategoryKeepsSlugs(db: Tables, c: Category)
    requires KeysBelowNext(db) && UniqueSlugs(db) && !CategorySlugTaken(db, c.slug)
    ensures UniqueSlugs(db.(categories := db.categories[db.nextId := c], nextId := db.nextId + 1))
  {
  }

  lemma AddCategoryKeepsReferences(db: Tables, c: Category)
    requires ReferencesResolve(db)
    ensures ReferencesResolve(db.(categories := db.categories[db.nextId := c], nextId := db.nextId + 1))
  {
  }

  lemma InsertGenreKeepsConsistent(db: Tables, name: string, slug: string)
    requires Consistent(db) && InsertGenreRow(db, name, slug).Success?
    ensures Consistent(InsertGenreRow(db, name, slug).value)
  {
    var g := Genre(name, slug);
    var after := db.(genres := db.genres[db.nextId := g], nextId := db.nextId + 1);
    assert InsertGenreRow(db, name, slug).value == after;
    AddGenreKeepsKeys(db, g);
    SameUsersKeepInvariants(db, after);
    AddGenreKeepsSlugs(db, g);
    SameTitleGenresKeepInvariants(db, after);
    SameReviewsKeepInvariants(db, after);
    AddGenreKeepsReferences(db, g);
  }

  lemma AddGenreKeepsKeys(db: Tables, g: Genre)
    requires KeysBelowNext(db)
    ensures KeysBelowNext(db.(genres := db.genres[db.nextId := g], nextId := db.nextId + 1))
  {
  }

  lemma AddGenreKeepsSlugs(db: Tables, g: Genre)
    requires KeysBelowNext(db) && UniqueSlugs(db) && !GenreSlugTaken(db, g.slug)
    ensures UniqueSlugs(db.(genres := db.genres[db.nextId := g], nextId := db.nextId + 1))
  {
  }

  lemma AddGenreKeepsReferences(db: Tables, g: Genre)
    requires ReferencesResolve(db)
    ensures ReferencesResolve(db.(genres := db.genres[db.nextId := g], nextId := db.nextId + 1))
  {
  }

  lemma InsertTitleKeepsConsistent(db: Tables, name: string, year: int, description: string, category: Option<Id>)
    requires Consistent(db) && InsertTitleRow(db, name, year, description, category).Success?
    ensures Consistent(InsertTitleRow(db, name, year, description, category).value)
  {
    var ti := Title(name, year, description, category);
    var after := db.(titles := db.titles[db.nextId := ti], nextId := db.nextId + 1);
    assert InsertTitleRow(db, name, year, description, category).value == after;
    AddTitleKeepsKeys(db, ti);
    SameUsersKeepInvariants(db, after);
    SameTaxonomyKeepsInvariants(db, after);
    SameTitleGenresKeepInvariants(db, after);
    SameReviewsKeepInvariants(db, after);
    AddTitleKeepsReferences(db, ti);
  }

  lemma AddTitleKeepsKeys(db: Tables, ti: Title)
    requires KeysBelowNext(db)
    ensures KeysBelowNext(db.(titles := db.titles[db.nextId := ti], nextId := db.nextId + 1))
  {
  }

  lemma AddTitleKeepsReferences(db: Tables, ti: Title)
    requires ReferencesResolve(db) && (ti.category.Some? ==> ti.category.value in db.categories)
    ensures ReferencesResolve(db.(titles := db.titles[db.nextId := ti], nextId := db.nextId + 1))
  {
  }

  lemma InsertTitleGenreKeepsConsistent(db: Tables, t: Id, g: Id)
    requires Consistent(db) && InsertTitleGenreRow(db, t, g).Success?
    ensures Consistent(InsertTitleGenreRow(db, t, g).value)
  {
    var tg := TitleGenre(t, g);
    var after := db.(titleGenres := db.titleGenres[db.nextId := tg], nextId := db.nextId + 1);
    assert InsertTitleGenreRow(db, t, g).value == after;
    AddTitleGenreKeepsKeys(db, tg);
    SameUsersKeepInvariants(db, after);
    SameTaxonomyKeepsInvariants(db, after);
    AddTitleGenreKeepsUniqueness(db, tg);
    SameReviewsKeepInvariants(db, after);
    AddTitleGenreKeepsReferences(db, tg);
  }

  lemma AddTitleGenreKeepsKeys(db: Tables, tg: TitleGenre)
    requires KeysBelowNext(db)
    ensures KeysBelowNext(db.(titleGenres := db.titleGenres[db.nextId := tg], nextId := db.nextId + 1))
  {
  }

  lemma AddTitleGenreKeepsUniqueness(db: Tables, tg: TitleGenre)
    requires KeysBelowNext(db) && UniqueTitleGenres(db) && tg !in db.titleGenres.Values
    ensures UniqueTitleGenres(db.(titleGenres := db.titleGenres[db.nextId := tg], nextId := db.nextId + 1))
  {
    var after := db.titleGenres[db.nextId := tg];
    forall a, b | a in after && b in after && a != b
      ensures after[a] != after[b]
    {
      if a == db.nextId {
        assert db.titleGenres[b] in db.titleGenres.Values;
      } else if b == db.nextId {
        assert db.titleGenres[a] in db.titleGenres.Values;
      }
    }
  }

  lemma AddTitleGenreKeepsReferences(db: Tables, tg: TitleGenre)
    requires ReferencesResolve(db) && tg.title in db.titles && tg.genre in db.genres
    ensures ReferencesResolve(db.(titleGenres := db.titleGenres[db.nextId := tg], nextId := db.nextId + 1))
  {
  }

  lemma UpdateReviewKeepsConsistent(db: Tables, id: Id, text: string, score: int)
    requires Consistent(db) && UpdateReviewRow(db, id, text, score).Success?
    ensures Consistent(UpdateReviewRow(db, id, text, score).value)
  {
    var r := db.reviews[id].(text := text, score := score);
    ReplaceReviewKeepsConsistent(db, id, r);
  }

  /** Replacing a review by one with the same title and author and a score in range. */
  lemma ReplaceReviewKeepsConsistent(db: Tables, id: Id, r: Review)
    requires Consistent(db) && id in db.reviews && ScoreMin <= r.score <= ScoreMax
    requires r.title == db.reviews[id].title && r.author == db.reviews[id].author
    ensures Consistent(db.(reviews := db.reviews[id := r]))
  {
    var after := db.(reviews := db.reviews[id := r]);
    ReplaceReviewKeepsKeys(db, id, r);
    SameUsersKeepInvariants(db, after);
    SameTaxonomyKeepsInvariants(db, after);
    SameTitleGenresKeepInvariants(db, after);
    ReplaceReviewKeepsUniqueness(db, id, r);
    ReplaceReviewKeepsReferences(db, id, r);
  }

  lemma ReplaceReviewKeepsKeys(db: Tables, id: Id, r: Review)
    requires KeysBelowNext(db) && id in db.reviews
    ensures KeysBelowNext(db.(reviews := db.reviews[id := r]))
  {
  }

  lemma ReplaceReviewKeepsUniqueness(db: Tables, id: Id, r: Review)
    requires UniqueReviews(db) && ScoresInRange(db) && id in db.reviews && ScoreMin <= r.score <= ScoreMax
    requires r.title == db.reviews[id].title && r.author == db.reviews[id].author
    ensures UniqueReviews(db.(reviews := db.reviews[id := r])) && ScoresInRange(db.(reviews := db.reviews[id := r]))
  {
  }

  lemma ReplaceReviewKeepsReferences(db: Tables, id: Id, r: Review)
    requires ReferencesResolve(db) && id in db.reviews
    requires r.title == db.reviews[id].title && r.author == db.reviews[id].author
    ensures ReferencesResolve(db.(reviews := db.reviews[id := r]))
  {
  }

  lemma InsertReviewKeepsConsistent(db: Tables, title: Id, author: UserId, text: string, score: int)
    requires Consistent(db) && InsertReviewRow(db, title, author, text, score).Success?
    ensures Consistent(InsertReviewRow(db, title, author, text, score).value)
  {
    var rv := Review(title, text, author, score);
    InsertReviewShape(db, title, author, text, score);
    AddReviewKeepsConsistent(db, rv);
  }

  lemma InsertReviewShape(db: Tables, title: Id, author: UserId, text: string, score: int)
    requires InsertReviewRow(db, title, author, text, score).Success?
    ensures InsertReviewRow(db, title, author, text, score).value
            == db.(reviews := db.reviews[db.nextId := Review(title, text, author, score)], nextId := db.nextId + 1)
  {
  }

  lemma AddReviewKeepsConsistent(db: Tables, rv: Review)
    requires Consistent(db) && rv.title in db.titles && rv.author in db.users
    requires ScoreMin <= rv.score <= ScoreMax && !HasReviewed(db, rv.title, rv.author)
    ensures Consistent(db.(reviews := db.reviews[db.nextId := rv], nextId := db.nextId + 1))
  {
    var after := db.(reviews := db.reviews[db.nextId := rv], nextId := db.nextId + 1);
    AddReviewKeepsKeys(db, rv);
    SameUsersKeepInvariants(db, after);
    SameTaxonomyKeepsInvariants(db, after);
    SameTitleGenresKeepInvariants(db, after);
    AddReviewKeepsUniqueness(db, rv);
    AddReviewKeepsReferences(db, rv);
  }

  lemma AddReviewKeepsKeys(db: Tables, rv: Review)
    requires KeysBelowNext(db)
    ensures KeysBelowNext(db.(reviews := db.reviews[db.nextId := rv], nextId := db.nextId + 1))
  {
  }

  lemma AddReviewKeepsUniqueness(db: Tables, rv: Review)
    requires KeysBelowNext(db) && UniqueReviews(db) && ScoresInRange(db)
    requires ScoreMin <= rv.score <= ScoreMax && !HasReviewed(db, rv.title, rv.author)
    ensures UniqueReviews(db.(reviews := db.reviews[db.nextId := rv], nextId := db.nextId + 1))
    ensures ScoresInRange(db.(reviews := db.reviews[db.nextId := rv], nextId := db.nextId + 1))
  {
  }

  lemma AddReviewKeepsReferences(db: Tables, rv: Review)
    requires ReferencesResolve(db) && rv.title in db.titles && rv.author in db.users
    ensures ReferencesResolve(db.(reviews := db.reviews[db.nextId := rv], nextId := db.nextId + 1))
  {
  }

  // ---------------------------------------------------------------- tables left alone keep their invariants

  lemma SameUsersKeepInvariants(db: Tables, after: Tables)
    requires UsersKeyed(db) && UniqueUsers(db) && after.users == db.users
    ensures UsersKeyed(after) && UniqueUsers(after)
  {
  }

  lemma SameTaxonomyKeepsInvariants(db: Tables, after: Tables)
    requires UniqueSlugs(db) && after.categories == db.categories && after.genres == db.genres
    ensures UniqueSlugs(after)
  {
  }

  lemma SameTitleGenresKeepInvariants(db: Tables, after: Tables)
    requires UniqueTitleGenres(db) && after.titleGenres == db.titleGenres
    ensures UniqueTitleGenres(after)
  {
  }

  lemma SameReviewsKeepInvariants(db: Tables, after: Tables)
    requires UniqueReviews(db) && ScoresInRange(db) && after.reviews == db.reviews
    ensures UniqueReviews(after) && ScoresInRange(after)
  {
  }

  lemma InsertCommentKeepsConsistent(db: Tables, review: Id, author: UserId, text: string)
    requires Consistent(db) && InsertCommentRow(db, review, author, text).Success?
    ensures Consistent(InsertCommentRow(db, review, author, text).value)
  {
    var c := Comment(review, text, author);
    assert InsertCommentRow(db, review, author, text).value
           == db.(comments := db.comments[db.nextId := c], nextId := db.nextId + 1);
    AddCommentKeepsConsistent(db, c);
  }

  lemma AddCommentKeepsConsistent(db: Tables, c: Comment)
    requires Consistent(db) && c.review in db.reviews && c.author in db.users
    ensures Consistent(db.(comments := db.comments[db.nextId := c], nextId := db.nextId + 1))
  {
    var after := db.(comments := db.comments[db.nextId := c], nextId := db.nextId + 1);
    AddCommentKeepsKeys(db, c);
    SameUsersKeepInvariants(db, after);
    SameTaxonomyKeepsInvariants(db, after);
    SameTitleGenresKeepInvariants(db, after);
    SameReviewsKeepInvariants(db, after);
    AddCommentKeepsReferences(db, c);
  }

  lemma AddCommentKeepsKeys(db: Tables, c: Comment)
    requires KeysBelowNext(db)
    ensures KeysBelowNext(db.(comments := db.comments[db.nextId := c], nextId := db.nextId + 1))
  {
  }

  lemma AddCommentKeepsReferences(db: Tables, c: Comment)
    requires ReferencesResolve(db) && c.review in db.reviews && c.author in db.users
    ensures ReferencesResolve(db.(comments := db.comments[db.nextId := c], nextId := db.nextId + 1))
  {
  }

  // ---------------------------------------------------------------- deletes keep the store consistent

  lemma DeleteCategoryKeepsConsistent(db: Tables, c: Id)
    requires Consistent(db)
    ensures Consistent(DeleteCategoryRows(db, c))
  {
    var r := DeleteCategoryRows(db, c);
    DeleteCategoryKeepsKeys(db, c);
    SameUsersKeepInvariants(db, r);
    DeleteCategoryKeepsSlugs(db, c);
    SameTitleGenresKeepInvariants(db, r);
    SameReviewsKeepInvariants(db, r);
    DeleteCategoryKeepsReferences(db, c);
  }

  lemma DeleteCategoryKeepsKeys(db: Tables, c: Id)
    requires KeysBelowNext(db)
    ensures KeysBelowNext(DeleteCategoryRows(db, c))
  {
  }

  lemma DeleteCategoryKeepsSlugs(db: Tables, c: Id)
    requires UniqueSlugs(db)
    ensures UniqueSlugs(DeleteCategoryRows(db, c))
  {
  }

  lemma DeleteCategoryKeepsReferences(db: Tables, c: Id)
    requires ReferencesResolve(db)
    ensures ReferencesResolve(DeleteCategoryRows(db, c))
  {
  }

  lemma DeleteGenreKeepsConsistent(db: Tables, g: Id)
    requires Consistent(db)
    ensures Consistent(DeleteGenreRows(db, g))
  {
    DeleteGenreShrinks(db, g);
    SubTablesKeepRowInvariants(DeleteGenreRows(db, g), db);
    DeleteGenreKeepsReferences(db, g);
  }

  lemma DeleteGenreShrinks(db: Tables, g: Id)
    ensures SubTables(DeleteGenreRows(db, g), db)
  {
  }

  lemma DeleteGenreKeepsReferences(db: Tables, g: Id)
    requires ReferencesResolve(db)
    ensures ReferencesResolve(DeleteGenreRows(db, g))
  {
  }

  lemma DeleteReviewKeepsConsistent(db: Tables, rv: Id)
    requires Consistent(db)
    ensures Consistent(DeleteReviewRows(db, rv))
  {
    DeleteReviewShrinks(db, rv);
    SubTablesKeepRowInvariants(DeleteReviewRows(db, rv), db);
    DeleteReviewKeepsReferences(db, rv);
  }

  lemma DeleteReviewShrinks(db: Tables, rv: Id)
    ensures SubTables(DeleteReviewRows(db, rv), db)
  {
  }

  lemma DeleteReviewKeepsReferences(db: Tables, rv: Id)
    requires ReferencesResolve(db)
    ensures ReferencesResolve(DeleteReviewRows(db, rv))
  {
  }

  lemma DeleteCommentKeepsConsistent(db: Tables, cm: Id)
    requires Consistent(db)
    ensures Consistent(DeleteCommentRows(db, cm))
  {
    DeleteCommentShrinks(db, cm);
    SubTablesKeepRowInvariants(DeleteCommentRows(db, cm), db);
    DeleteCommentKeepsReferences(db, cm);
  }

  lemma DeleteCommentShrinks(db: Tables, cm: Id)
    ensures SubTables(DeleteCommentRows(db, cm), db)
  {
  }

  lemma DeleteCommentKeepsReferences(db: Tables, cm: Id)
    requires ReferencesResolve(db)
    ensures ReferencesResolve(DeleteCommentRows(db, cm))
  {
  }

  /** A title's deletion keeps the store consistent. */
  lemma DeleteTitleKeepsConsistent(db: Tables, t: Id)
    requires Consistent(db)
    ensures Consistent(DeleteTitleRows(db, t))
  {
    DeleteTitleShrinks(db, t);
    SubTablesKeepRowInvariants(DeleteTitleRows(db, t), db);
    DeleteTitleKeepsReferences(db, t);
  }

  lemma DeleteTitleShrinks(db: Tables, t: Id)
    ensures SubTables(DeleteTitleRows(db, t), db)
  {
  }

  lemma DeleteTitleKeepsReferences(db: Tables, t: Id)
    requires ReferencesResolve(db)
    ensures ReferencesResolve(DeleteTitleRows(db, t))
  {
    var r := DeleteTitleRows(db, t);
    forall k | k in r.comments
      ensures r.comments[k].review in r.reviews && r.comments[k].author in r.users
    {
      assert k in db.comments && db.comments[k].review in db.reviews;
    }
  }

  /** A user's deletion keeps the store consistent. */
  lemma DeleteUserKeepsConsistent(db: Tables, u: UserId)
    requires Consistent(db)
    ensures Consistent(DeleteUserRows(db, u))
  {
    DeleteUserShrinks(db, u);
    SubTablesKeepRowInvariants(DeleteUserRows(db, u), db);
    DeleteUserKeepsReferences(db, u);
  }

  lemma DeleteUserShrinks(db: Tables, u: UserId)
    ensures SubTables(DeleteUserRows(db, u), db)
  {
  }

  lemma DeleteUserKeepsReferences(db: Tables, u: UserId)
    requires ReferencesResolve(db)
    ensures ReferencesResolve(DeleteUserRows(db, u))
  {
    var r := DeleteUserRows(db, u);
    forall k | k in r.comments
      ensures r.comments[k].review in r.reviews && r.comments[k].author in r.users
    {
      assert k in db.comments && db.comments[k].review in db.reviews;
    }
  }

  /** Every row of `a` is a row of `b` with the same key. */
  ghost predicate SubMap<K, V>(a: map<K, V>, b: map<K, V>) {
    forall k :: k in a ==> k in b && a[k] == b[k]
  }

  /** The tables of `r` keep only rows of `db`. */
  ghost predicate SubTables(r: Tables, db: Tables) {
    && SubMap(r.users, db.users) && SubMap(r.categories, db.categories) && SubMap(r.genres, db.genres)
    && SubMap(r.titles, db.titles) && SubMap(r.titleGenres, db.titleGenres) && SubMap(r.reviews, db.reviews)
    && SubMap(r.comments, db.comments) && r.nextId == db.nextId
  }

  /** Removing rows keeps every invariant that speaks about rows alone. */
  lemma SubTablesKeepRowInvariants(r: Tables, db: Tables)
    requires SubTables(r, db) && Consistent(db)
    ensures KeysBelowNext(r) && UsersKeyed(r) && UniqueUsers(r) && UniqueSlugs(r)
    ensures UniqueTitleGenres(r) && UniqueReviews(r) && ScoresInRange(r)
  {
  }

  // ---------------------------------------------------------------- the store, updated in place

  /** How a method's result and new tables follow an insert function's verdict on the old tables. */
  ghost predicate Applied(before: Tables, after: Tables, res: Result<Id, StoreError>, verdict: Result<Tables, StoreError>) {
    match verdict
    case Success(db) => res == Success(before.nextId) && after == db
    case Failure(e) => res == Failure(e) && after == before
  }

  class Store {
    var users: map<UserId, User>
    var categories: map<Id, Category>
    var genres: map<Id, Genre>
    var titles: map<Id, Title>
    var titleGenres: map<Id, TitleGenre>
    var reviews: map<Id, Review>
    var comments: map<Id, Comment>
    var nextId: Id

    /** The tables as a value. */
    function Snapshot(): Tables
      reads this
    {
      Tables(users, categories, genres, titles, titleGenres, reviews, comments, nextId)
    }

    ghost predicate Valid()
      reads this
    {
      Consistent(Snapshot())
    }

    constructor ()
      ensures Valid() && Snapshot() == EmptyTables()
    {
      users, categories, genres, titles := map[], map[], map[], map[];
      titleGenres, reviews, comments, nextId := map[], map[], map[], 0;
    }

    /** Overwrites every table with the rows of `db`. */
    method Load(db: Tables)
      modifies this
      ensures Snapshot() == db
    {
      users, categories, genres, titles := db.users, db.categories, db.genres, db.titles;
      titleGenres, reviews, comments, nextId := db.titleGenres, db.reviews, db.comments, db.nextId;
    }

    method AddUser(username: string, email: string, code: string) returns (res: Result<UserId, StoreError>)
      requires Valid()
      modifies this
      ensures Valid()
      ensures Applied(old(Snapshot()), Snapshot(), res, InsertUserRow(old(Snapshot()), username, email, code))
    {
      var verdict := InsertUserRow(Snapshot(), username, email, code);
      if verdict.Failure? {
        return Failure(verdict.error);
      }
      InsertUserKeepsConsistent(Snapshot(), username, email, code);
      res := Success(nextId);
      Load(verdict.value);
    }

    /** Writes back an edited user row; `res` carries its key. */
    method SaveUser(u: User) returns (res: Result<UserId, StoreError>)
      requires Valid()
      modifies this
      ensures Valid()
      ensures SaveUserRow(old(Snapshot()), u).Success? ==>
                res == Success(u.id) && Snapshot() == SaveUserRow(old(Snapshot()), u).value
      ensures SaveUserRow(old(Snapshot()), u).Failure? ==>
                res == Failure(SaveUserRow(old(Snapshot()), u).error) && Snapshot() == old(Snapshot())
    {
      var verdict := SaveUserRow(Snapshot(), u);
      if verdict.Failure? {
        return Failure(verdict.error);
      }
      SaveUserKeepsConsistent(Snapshot(), u);
      res := Success(u.id);
      Load(verdict.value);
    }

    method AddCategory(name: string, slug: string) returns (res: Result<Id, StoreError>)
      requires Valid()
      modifies this
      ensures Valid()
      ensures Applied(old(Snapshot()), Snapshot(), res, InsertCategoryRow(old(Snapshot()), name, slug))
    {
      var verdict := InsertCategoryRow(Snapshot(), name, slug);
      if verdict.Failure? {
        return Failure(verdict.error);
      }
      InsertCategoryKeepsConsistent(Snapshot(), name, slug);
      res := Success(nextId);
      Load(verdict.value);
    }

    method AddGenre(name: string, slug: string) returns (res: Result<Id, StoreError>)
      requires Valid()
      modifies this
      ensures Valid()
      ensures Applied(old(Snapshot()), Snapshot(), res, InsertGenreRow(old(Snapshot()), name, slug))
    {
      var verdict := InsertGenreRow(Snapshot(), name, slug);
      if verdict.Failure? {
        return Failure(verdict.error);
      }
      InsertGenreKeepsConsistent(Snapshot(), name, slug);
      res := Success(nextId);
      Load(verdict.value);
    }

    method AddTitle(name: string, year: int, description: string, category: Option<Id>)
      returns (res: Result<Id, StoreError>)
      requires Valid()
      modifies this
      ensures Valid()
      ensures Applied(old(Snapshot()), Snapshot(), res, InsertTitleRow(old(Snapshot()), name, year, description, category))
    {
      var verdict := InsertTitleRow(Snapshot(), name, year, description, category);
      if verdict.Failure? {
        return Failure(verdict.error);
      }
      InsertTitleKeepsConsistent(Snapshot(), name, year, description, category);
      res := Success(nextId);
      Load(verdict.value);
    }

    method AddTitleGenre(t: Id, g: Id) returns (res: Result<Id, StoreError>)
      requires Valid()
      modifies this
      ensures Valid()
      ensures Applied(old(Snapshot()), Snapshot(), res, InsertTitleGenreRow(old(Snapshot()), t, g))
    {
      var verdict := InsertTitleGenreRow(Snapshot(), t, g);
      if verdict.Failure? {
        return Failure(verdict.error);
      }
      InsertTitleGenreKeepsConsistent(Snapshot(), t, g);
      res := Success(nextId);
      Load(verdict.value);
    }

    method AddReview(title: Id, author: UserId, text: string, score: int) returns (res: Result<Id, StoreError>)
      requires Valid()
      modifies this
      ensures Valid()
      ensures Applied(old(Snapshot()), Snapshot(), res, InsertReviewRow(old(Snapshot()), title, author, text, score))
    {
      var verdict := InsertReviewRow(Snapshot(), title, author, text, score);
      if verdict.Failure? {
        return Failure(verdict.error);
      }
      InsertReviewKeepsConsistent(Snapshot(), title, author, text, score);
      res := Success(nextId);
      Load(verdict.value);
    }

    /** Writes back an edited review's text and score; `res` carries its key. */
    method EditReview(id: Id, text: string, score: int) returns (res: Result<Id, StoreError>)
      requires Valid()
      modifies this
      ensures Valid()
      ensures UpdateReviewRow(old(Snapshot()), id, text, score).Success? ==>
                res == Success(id) && Snapshot() == UpdateReviewRow(old(Snapshot()), id, text, score).value
      ensures UpdateReviewRow(old(Snapshot()), id, text, score).Failure? ==>
                res == Failure(UpdateReviewRow(old(Snapshot()), id, text, score).error) && Snapshot() == old(Snapshot())
    {
      var verdict := UpdateReviewRow(Snapshot(), id, text, score);
      if verdict.Failure? {
        return Failure(verdict.error);
      }
      UpdateReviewKeepsConsistent(Snapshot(), id, text, score);
      res := Success(id);
      Load(verdict.value);
    }

    method AddComment(review: Id, author: UserId, text: string) returns (res: Result<Id, StoreError>)
      requires Valid()
      modifies this
      ensures Valid()
      ensures Applied(old(Snapshot()), Snapshot(), res, InsertCommentRow(old(Snapshot()), review, author, text))
    {
      var verdict := InsertCommentRow(Snapshot(), review, author, text);
      if verdict.Failure? {
        return Failure(verdict.error);
      }
      InsertCommentKeepsConsistent(Snapshot(), review, author, text);
      res := Success(nextId);
      Load(verdict.value);
    }

    /** SET_NULL: the category goes, its titles stay with no category. */
    method DeleteCategory(c: Id) returns (found: bool)
      requires Valid()
      modifies this
      ensures Valid()
      ensures found == (c in old(categories))
      ensures Snapshot() == DeleteCategoryRows(old(Snapshot()), c)
    {
      DeleteCategoryKeepsConsistent(Snapshot(), c);
      found := c in categories;
      Load(DeleteCategoryRows(Snapshot(), c));
    }

    /** CASCADE: the genre goes with its association rows. */
    method DeleteGenre(g: Id) returns (found: bool)
      requires Valid()
      modifies this
      ensures Valid()
      ensures found == (g in old(genres))
      ensures Snapshot() == DeleteGenreRows(old(Snapshot()), g)
    {
      DeleteGenreKeepsConsistent(Snapshot(), g);
      found := g in genres;
      Load(DeleteGenreRows(Snapshot(), g));
    }

    /** CASCADE: the title goes with its association rows, its reviews and their comments. */
    method DeleteTitle(t: Id) returns (found: bool)
      requires Valid()
      modifies this
      ensures Valid()
      ensures found == (t in old(titles))
      ensures Snapshot() == DeleteTitleRows(old(Snapshot()), t)
    {
      DeleteTitleKeepsConsistent(Snapshot(), t);
      found := t in titles;
      Load(DeleteTitleRows(Snapshot(), t));
    }

    /** CASCADE: the review goes with its comments. */
    method DeleteReview(rv: Id) returns (found: bool)
      requires Valid()
      modifies this
      ensures Valid()
      ensures found == (rv in old(reviews))
      ensures Snapshot() == DeleteReviewRows(old(Snapshot()), rv)
    {
      DeleteReviewKeepsConsistent(Snapshot(), rv);
      found := rv in reviews;
      Load(DeleteReviewRows(Snapshot(), rv));
    }

    method DeleteComment(cm: Id) returns (found: bool)
      requires Valid()
      modifies this
      ensures Valid()
      ensures found == (cm in old(comments))
      ensures Snapshot() == DeleteCommentRows(old(Snapshot()), cm)
    {
      DeleteCommentKeepsConsistent(Snapshot(), cm);
      found := cm in comments;
      Load(DeleteCommentRows(Snapshot(), cm));
    }

    /** CASCADE: the user goes with the user's reviews and comments and the comments on those reviews. */
    method DeleteUser(u: UserId) returns (found: bool)
      requires Valid()
      modifies this
      ensures Valid()
      ensures found == (u in old(users))
      ensures Snapshot() == DeleteUserRows(old(Snapshot()), u)
    {
      DeleteUserKeepsConsistent(Snapshot(), u);
      found := u in users;
      Load(DeleteUserRows(Snapshot(), u));
    }
  }
}
