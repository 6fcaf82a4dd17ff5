/**
 * The profile screen: the stored user, the sizes of their favourites and
 * watched lists, and their reviews gathered movie by movie over the
 * catalogue; the summary alert of those reviews; the gate in front of the
 * favourites list; and the two sign-out buttons.
 */
module Profile {
  import opened Wrappers
  import opened JsString
  import opened Seqs
  import opened Transport
  import opened Movies
  import opened Session
  import opened Alerts

  /** The reviews request for each movie id, answered by the server. */
  type ReviewsOracle = MovieId -> Reply<Option<seq<Review>>>

  /** A review of the user, spread into a new object together with the
      reviewed movie's name and poster. */
  datatype UserReview = UserReview(review: Review, movieName: Option<String>, moviePoster: Option<String>)

  // ---------------------------------------------------------------------
  // the reviews of one user, over the catalogue
  // ---------------------------------------------------------------------

  /** The `find` callback: a review whose `userId` is strictly the user's. */
  function OwnTest(uid: int): Review -> bool {
    (rv: Review) => rv.userId == Some(uid)
  }

  /** The user's review of movie `m`: the first of its listed reviews that
      is theirs. */
  function OwnReviewIn(m: Movie, reviewsOf: ReviewsOracle, uid: int): (r: Option<Review>)
    ensures r.Some? ==> r.value.userId == Some(uid)
  {
    FindFirst(ListOrEmpty(reviewsOf(m.id)), OwnTest(uid))
  }

  /** What one iteration of the loop pushes for movie `m`. */
  function Pick(reviewsOf: ReviewsOracle, uid: int): Movie -> seq<UserReview> {
    (m: Movie) =>
      var r := OwnReviewIn(m, reviewsOf, uid);
      if r.Some? then [UserReview(r.value, m.movieName, m.posterUrl)] else []
  }

  /** `userReviewsList` after the loop over the catalogue. */
  function UserReviews(movies: seq<Movie>, reviewsOf: ReviewsOracle, uid: int): seq<UserReview> {
    ConcatMap(movies, Pick(reviewsOf, uid))
  }

  /** The movies the user has reviewed. */
  function ReviewedTest(reviewsOf: ReviewsOracle, uid: int): Movie -> bool {
    (m: Movie) => OwnReviewIn(m, reviewsOf, uid).Some?
  }

  /** Each reviewed movie, annotated with the user's review of it. */
  function Annotated(ms: seq<Movie>, reviewsOf: ReviewsOracle, uid: int): (r: seq<UserReview>)
    requires forall k :: 0 <= k < |ms| ==> OwnReviewIn(ms[k], reviewsOf, uid).Some?
    ensures |r| == |ms|
    ensures forall k :: 0 <= k < |ms| ==>
      r[k] == UserReview(OwnReviewIn(ms[k], reviewsOf, uid).value, ms[k].movieName, ms[k].posterUrl)
  {
    if ms == [] then []
    else
      var m := ms[0];
      [UserReview(OwnReviewIn(m, reviewsOf, uid).value, m.movieName, m.posterUrl)] + Annotated(ms[1..], reviewsOf, uid)
  }

  lemma AnnotatedAppend(a: seq<Movie>, b: seq<Movie>, reviewsOf: ReviewsOracle, uid: int)
    requires forall k :: 0 <= k < |a| ==> OwnReviewIn(a[k], reviewsOf, uid).Some?
    requires forall k :: 0 <= k < |b| ==> OwnReviewIn(b[k], reviewsOf, uid).Some?
    ensures forall k :: 0 <= k < |a + b| ==> OwnReviewIn((a + b)[k], reviewsOf, uid).Some?
    ensures Annotated(a + b, reviewsOf, uid) == Annotated(a, reviewsOf, uid) + Annotated(b, reviewsOf, uid)
  {
    assert forall k :: 0 <= k < |a + b| ==> (a + b)[k] == if k < |a| then a[k] else b[k - |a|];
  }

  /** One movie's contribution is the annotated filter of that movie alone. */
  lemma PickAsFilter(m: Movie, reviewsOf: ReviewsOracle, uid: int)
    ensures Pick(reviewsOf, uid)(m) == Annotated(Filter([m], ReviewedTest(reviewsOf, uid)), reviewsOf, uid)
  {
    var p := ReviewedTest(reviewsOf, uid);
    if p(m) {
      assert Filter([m], p) == [m];
    } else {
      assert Filter([m], p) == [];
    }
  }

  /** The loop gathers exactly this: the catalogue filtered to the movies
      the user reviewed, in catalogue order, each annotated with the first
      of its reviews that is the user's. */
  lemma {:induction false} UserReviewsAsFilter(movies: seq<Movie>, reviewsOf: ReviewsOracle, uid: int)
    ensures UserReviews(movies, reviewsOf, uid) == Annotated(Filter(movies, ReviewedTest(reviewsOf, uid)), reviewsOf, uid)
  {
    if movies != [] {
      var p := ReviewedTest(reviewsOf, uid);
      var n := |movies| - 1;
      var init, m := movies[..n], movies[n];
      assert movies == init + [m];
      UserReviewsAsFilter(init, reviewsOf, uid);
      FilterAppend(init, [m], p);
      AnnotatedAppend(Filter(init, p), Filter([m], p), reviewsOf, uid);
      PickAsFilter(m, reviewsOf, uid);
      calc {
        UserReviews(movies, reviewsOf, uid);
        UserReviews(init, reviewsOf, uid) + Pick(reviewsOf, uid)(m);
        Annotated(Filter(init, p), reviewsOf, uid) + Annotated(Filter([m], p), reviewsOf, uid);
        Annotated(Filter(init, p) + Filter([m], p), reviewsOf, uid);
        Annotated(Filter(movies, p), reviewsOf, uid);
      }
    }
  }

  lemma UserReviewsCount(movies: seq<Movie>, reviewsOf: ReviewsOracle, uid: int)
    ensures |UserReviews(movies, reviewsOf, uid)| <= |movies|
  {
    UserReviewsAsFilter(movies, reviewsOf, uid);
  }

  lemma UserReviewsOwn(movies: seq<Movie>, reviewsOf: ReviewsOracle, uid: int)
    ensures forall e :: e in UserReviews(movies, reviewsOf, uid) ==> e.review.userId == Some(uid)
  {
    var pick := Pick(reviewsOf, uid);
    ConcatMapMembers(movies, pick);
    forall e | e in UserReviews(movies, reviewsOf, uid) ensures e.review.userId == Some(uid) {
      var i :| 0 <= i < |movies| && e in pick(movies[i]);
      assert e.review == OwnReviewIn(movies[i], reviewsOf, uid).value;
    }
  }

  lemma UserReviewsComplete(movies: seq<Movie>, reviewsOf: ReviewsOracle, uid: int, k: nat)
    requires k < |movies| && OwnReviewIn(movies[k], reviewsOf, uid).Some?
    ensures UserReview(OwnReviewIn(movies[k], reviewsOf, uid).value, movies[k].movieName, movies[k].posterUrl)
      in UserReviews(movies, reviewsOf, uid)
  {
    var pick := Pick(reviewsOf, uid);
    ConcatMapMembers(movies, pick);
    assert UserReview(OwnReviewIn(movies[k], reviewsOf, uid).value, movies[k].movieName, movies[k].posterUrl)
      in pick(movies[k]);
  }

  /** At most one entry per movie, every entry the user's own review, and
      every movie the user reviewed contributes one. */
  lemma UserReviewsFacts(movies: seq<Movie>, reviewsOf: ReviewsOracle, uid: int)
    ensures |UserReviews(movies, reviewsOf, uid)| <= |movies|
    ensures forall e :: e in UserReviews(movies, reviewsOf, uid) ==> e.review.userId == Some(uid)
    ensures forall k :: 0 <= k < |movies| && OwnReviewIn(movies[k], reviewsOf, uid).Some? ==>
      UserReview(OwnReviewIn(movies[k], reviewsOf, uid).value, movies[k].movieName, movies[k].posterUrl)
        in UserReviews(movies, reviewsOf, uid)
  {
    UserReviewsCount(movies, reviewsOf, uid);
    UserReviewsOwn(movies, reviewsOf, uid);
    forall k | 0 <= k < |movies| && OwnReviewIn(movies[k], reviewsOf, uid).Some?
      ensures UserReview(OwnReviewIn(movies[k], reviewsOf, uid).value, movies[k].movieName, movies[k].posterUrl)
        in UserReviews(movies, reviewsOf, uid)
    {
      UserReviewsComplete(movies, reviewsOf, uid, k);
    }
  }

  /** The request the loop makes for one movie. */
  function ReviewCall(m: Movie): seq<Call> {
    [GetReviews(m.id)]
  }

  /** The reviews requests of the loop. */
  function ReviewCalls(movies: seq<Movie>): seq<Call> {
    ConcatMap(movies, ReviewCall)
  }

  /** One reviews request per catalogue movie, in catalogue order. */
  lemma {:induction false} ReviewCallsFacts(movies: seq<Movie>)
    ensures |ReviewCalls(movies)| == |movies|
    ensures forall k :: 0 <= k < |movies| ==> ReviewCalls(movies)[k] == GetReviews(movies[k].id)
  {
    if movies != [] {
      var n := |movies| - 1;
      ReviewCallsFacts(movies[..n]);
      assert ReviewCalls(movies) == ReviewCalls(movies[..n]) + [GetReviews(movies[n].id)];
    }
  }

  /** The store after the reviews requests, each passing the response
      interceptor. */
  function ReviewsStore(s: Option<Stored>, movies: seq<Movie>, reviewsOf: ReviewsOracle): Option<Stored> {
    if movies == [] then s
    else AfterResponse(ReviewsStore(s, movies[..|movies| - 1], reviewsOf), reviewsOf(movies[|movies| - 1].id))
  }

  /** A 401 on any of the reviews requests signs the user out; otherwise
      the store is left as it was. */
  lemma {:induction false} ReviewsStoreFacts(s: Option<Stored>, movies: seq<Movie>, reviewsOf: ReviewsOracle)
    ensures ReviewsStore(s, movies, reviewsOf) ==
      if exists k :: 0 <= k < |movies| && IsUnauthorized(reviewsOf(movies[k].id)) then None else s
  {
    if movies != [] {
      var n := |movies| - 1;
      var init := movies[..n];
      ReviewsStoreFacts(s, init, reviewsOf);
      if exists k :: 0 <= k < |init| && IsUnauthorized(reviewsOf(init[k].id)) {
        var k :| 0 <= k < |init| && IsUnauthorized(reviewsOf(init[k].id));
        assert movies[k] == init[k];
      }
      if exists k :: 0 <= k < |movies| && IsUnauthorized(reviewsOf(movies[k].id)) {
        var k :| 0 <= k < |movies| && IsUnauthorized(reviewsOf(movies[k].id));
        if k < n { assert init[k] == movies[k]; }
      }
    }
  }

  /** What one more movie adds to the gathered reviews, the requests made
      and the store. */
  lemma LoadReviewsStep(movies: seq<Movie>, i: nat, reviewsOf: ReviewsOracle, uid: int, s: Option<Stored>)
    requires i < |movies|
    ensures UserReviews(movies[..i + 1], reviewsOf, uid) == UserReviews(movies[..i], reviewsOf, uid)
      + (var r := FindFirst(ListOrEmpty(reviewsOf(movies[i].id)), OwnTest(uid));
         if r.Some? then [UserReview(r.value, movies[i].movieName, movies[i].posterUrl)] else [])
    ensures ReviewCalls(movies[..i + 1]) == ReviewCalls(movies[..i]) + [GetReviews(movies[i].id)]
    ensures ReviewsStore(s, movies[..i + 1], reviewsOf) == AfterResponse(ReviewsStore(s, movies[..i], reviewsOf), reviewsOf(movies[i].id))
  {
    ConcatMapStep(movies, Pick(reviewsOf, uid), i);
    ConcatMapStep(movies, ReviewCall, i);
    assert movies[..i + 1][..i] == movies[..i];
  }

  // ---------------------------------------------------------------------
  // the reviews summary
  // ---------------------------------------------------------------------

  const NoReviewsMessage: String := "Henüz hiç yorum yapmamışsınız."
  const MyReviewsTitle: String := "Yorumlarım"
  const NoComment: String := "Yorum yok"

  /** A property interpolated into a template literal; a missing one prints
      as `undefined`. */
  function TemplateText(o: Option<String>): String {
    if o.Some? then o.value else "undefined"
  }

  /** `review.comment || 'Yorum yok'`. */
  function CommentText(e: UserReview): String {
    if TruthyStr(e.review.comment) then e.review.comment.value else NoComment
  }

  /** One line of the summary. */
  function ReviewLine(e: UserReview): String {
    "• " + TemplateText(e.movieName) + ": " + IntToString(e.review.rating) + "/10 - \"" + CommentText(e) + "\""
  }

  function ReviewLines(rs: seq<UserReview>): (r: seq<String>)
    ensures |r| == |rs| && forall k :: 0 <= k < |rs| ==> r[k] == ReviewLine(rs[k])
  {
    seq(|rs|, k requires 0 <= k < |rs| => ReviewLine(rs[k]))
  }

  /** The first line of the summary. */
  function SummaryHeader(count: int): String {
    IntToString(count) + " yorum yapmışsınız:"
  }

  /** The alert of `handleMyReviews`: an information when there are no
      reviews, otherwise the count and one line per review. */
  function ReviewsSummary(rs: seq<UserReview>, count: int): (n: Notice)
    ensures rs == [] ==> n == Notice(InfoTitle, NoReviewsMessage)
    ensures rs != [] ==> n.title == MyReviewsTitle
  {
    if rs == [] then Notice(InfoTitle, NoReviewsMessage)
    else Notice(MyReviewsTitle, SummaryHeader(count) + "\n\n" + Join(ReviewLines(rs), '\n'))
  }

  /** Neither the movie name nor the comment breaks the line. */
  predicate SingleLine(e: UserReview) {
    '\n' !in TemplateText(e.movieName) && '\n' !in CommentText(e)
  }

  lemma NumberSingleLine(n: int)
    ensures '\n' !in IntToString(n)
  {
    var d := NatToString(if n < 0 then -n else n);
    assert '\n' !in d;
    if n < 0 {
      assert IntToString(n) == ['-'] + d;
    }
  }

  lemma ReviewLineSingle(e: UserReview)
    requires SingleLine(e)
    ensures '\n' !in ReviewLine(e)
  {
    NumberSingleLine(e.review.rating);
  }

  /** Read back line by line, the summary is its header, an empty line and
      then exactly one line per review, in order. */
  lemma SummaryLines(rs: seq<UserReview>, count: int)
    requires rs != []
    requires forall k :: 0 <= k < |rs| ==> SingleLine(rs[k])
    ensures Split(ReviewsSummary(rs, count).message, '\n') == [SummaryHeader(count), ""] + ReviewLines(rs)
  {
    var lines := ReviewLines(rs);
    forall k | 0 <= k < |lines| ensures '\n' !in lines[k] {
      ReviewLineSingle(rs[k]);
    }
    SplitJoin(lines, '\n');
    HeaderSingleLine(count);
    SplitHeader(SummaryHeader(count), Join(lines, '\n'));
  }

  lemma HeaderSingleLine(count: int)
    ensures '\n' !in SummaryHeader(count)
  {
    NumberSingleLine(count);
    var t: String := " yorum yapmışsınız:";
    assert '\n' !in t;
    assert SummaryHeader(count) == IntToString(count) + t;
  }

  lemma SplitHeader(h: String, body: String)
    requires '\n' !in h
    ensures Split(h + "\n\n" + body, '\n') == [h, ""] + Split(body, '\n')
  {
    assert h + "\n\n" + body == h + ['\n'] + ([] + ['\n'] + body);
    SplitPrefix(h, [] + ['\n'] + body, '\n');
    SplitPrefix([], body, '\n');
  }

  // ---------------------------------------------------------------------
  // the favourites gate
  // ---------------------------------------------------------------------

  const FavoritesGateMessage: String := "Favori filmlerinizi görmek için giriş yapmanız gerekiyor."
  const FavoritesTab: String := "favorites"

  /** What the "my favourites" button leads to: the login offer, or the
      list screen opened on a given tab. */
  datatype FavoritesAction = OfferLogin(notice: Notice) | OpenMyList(initialTab: String)

  /** `handleMyFavorites`: only a signed-in user reaches the list, and then
      on its favourites tab. */
  function MyFavoritesAction(s: Option<Stored>): (r: FavoritesAction)
    ensures r.OpenMyList? <==> Authenticated(s)
    ensures r.OpenMyList? ==> r.initialTab == FavoritesTab
    ensures r.OfferLogin? ==> r.notice == Notice(LoginRequiredTitle, FavoritesGateMessage)
  {
    if Authenticated(s) then OpenMyList(FavoritesTab)
    else OfferLogin(Notice(LoginRequiredTitle, FavoritesGateMessage))
  }

  // ---------------------------------------------------------------------
  // the screen
  // ---------------------------------------------------------------------

  const SignedOutMessage: String := "Çıkış yapıldı"
  const StorageClearedMessage: String := "Storage temizlendi"

  /** The state fields of the screen, as one value. */
  datatype ProfileState = ProfileState(
    user: Option<UserRecord>,
    loading: bool,
    favoriteCount: int,
    watchedCount: int,
    userReviews: seq<UserReview>,
    reviewCount: int)

  class ProfileScreen {
    /** The device store the session lives in. */
    const store: Store

    var user: Option<UserRecord>
    var loading: bool
    var favoriteCount: int
    var watchedCount: int
    var userReviews: seq<UserReview>
    var reviewCount: int

    function State(): ProfileState
      reads this
    {
      ProfileState(user, loading, favoriteCount, watchedCount, userReviews, reviewCount)
    }

    /** The initial state: loading, nobody, nothing counted. */
    constructor(store: Store)
      ensures this.store == store
      ensures State() == ProfileState(None, true, 0, 0, [], 0)
    {
      this.store := store;
      user := None;
      loading := true;
      favoriteCount := 0;
      watchedCount := 0;
      userReviews := [];
      reviewCount := 0;
    }

    /** `loadUserReviews(userId)`: the catalogue, then the reviews of each
        movie in turn, keeping the user's own. */
    method LoadUserReviews(uid: int, catalogue: Reply<Payload>, decode: Decoder, reviewsOf: ReviewsOracle)
      returns (calls: seq<Call>)
      modifies this, store
      ensures var movies := AllMovies(catalogue, decode);
        var rs := UserReviews(movies, reviewsOf, uid);
        calls == [GetMovies] + ReviewCalls(movies)
        && store.userData == ReviewsStore(AfterResponse(old(store.userData), catalogue), movies, reviewsOf)
        && State() == old(State()).(userReviews := rs, reviewCount := |rs|)
    {
      var r := store.Intercept(catalogue);
      var allMovies := GetAllMovies(r, decode);
      ghost var s0 := store.userData;
      var userReviewsList: seq<UserReview> := [];
      calls := [GetMovies];
      var i := 0;
      while i < |allMovies|
        invariant 0 <= i <= |allMovies|
        invariant userReviewsList == UserReviews(allMovies[..i], reviewsOf, uid)
        invariant calls == [GetMovies] + ReviewCalls(allMovies[..i])
        invariant store.userData == ReviewsStore(s0, allMovies[..i], reviewsOf)
        invariant State() == old(State())
      {
        var movie := allMovies[i];
        LoadReviewsStep(allMovies, i, reviewsOf, uid, s0);
        assert calls + [GetReviews(movie.id)] == [GetMovies] + (ReviewCalls(allMovies[..i]) + [GetReviews(movie.id)]);
        calls := calls + [GetReviews(movie.id)];
        var reply := store.Intercept(reviewsOf(movie.id));
        var reviews := ListOrEmpty(reply);
        var userReview := FindFirst(reviews, OwnTest(uid));
        if userReview.Some? {
          userReviewsList := userReviewsList + [UserReview(userReview.value, movie.movieName, movie.posterUrl)];
        }
        i := i + 1;
      }
      assert allMovies[..i] == allMovies;
      userReviews := userReviewsList;
      reviewCount := |userReviewsList|;
    }

    /** `loadUserProfile`: the stored user; for one with a truthy id the
        sizes of both lists and their reviews, for anyone else zeros. The
        previous state plays no part. */
    method LoadUserProfile(favoritesReply: Reply<Option<seq<Movie>>>, watchedReply: Reply<Option<seq<Movie>>>,
                           catalogue: Reply<Payload>, decode: Decoder, reviewsOf: ReviewsOracle)
      returns (calls: seq<Call>)
      modifies this, store
      ensures !HasUserId(old(store.userData)) ==>
        calls == [] && store.userData == old(store.userData)
        && State() == ProfileState(StoredUser(old(store.userData)), false, 0, 0, [], 0)
      ensures HasUserId(old(store.userData)) ==>
        var uid := UserId(old(store.userData));
        var movies := AllMovies(catalogue, decode);
        var rs := UserReviews(movies, reviewsOf, uid);
        var afterLists := AfterResponse(AfterResponse(old(store.userData), favoritesReply), watchedReply);
        calls == [GetFavorites(uid), GetWatched(uid)] + ([GetMovies] + ReviewCalls(movies))
        && store.userData == ReviewsStore(AfterResponse(afterLists, catalogue), movies, reviewsOf)
        && State() == ProfileState(StoredUser(old(store.userData)), false,
                                   |ListOrEmpty(favoritesReply)|, |ListOrEmpty(watchedReply)|, rs, |rs|)
    {
      loading := true;
      var userData := StoredUser(store.userData);
      user := userData;
      if HasUserId(store.userData) {
        var uid := UserId(store.userData);
        var r1 := store.Intercept(favoritesReply);
        var r2 := store.Intercept(watchedReply);
        var favorites, watched := ListOrEmpty(r1), ListOrEmpty(r2);
        favoriteCount, watchedCount := |favorites|, |watched|;
        var more := LoadUserReviews(uid, catalogue, decode, reviewsOf);
        calls := [GetFavorites(uid), GetWatched(uid)] + more;
      } else {
        favoriteCount, watchedCount, userReviews, reviewCount := 0, 0, [], 0;
        calls := [];
      }
      loading := false;
    }

    /** `handleLogout` and `handleClearStorage`, with the answer to their
        confirmation dialog: signing out always succeeds, since the remote
        failure is swallowed by the service. */
    method HandleLogout(confirmed: bool, reply: Reply<()>, clearing: bool) returns (notice: Option<Notice>, calls: seq<Call>)
      modifies this, store
      ensures !confirmed ==> notice.None? && calls == [] && State() == old(State()) && store.userData == old(store.userData)
      ensures confirmed ==>
        calls == [PostLogout] && store.userData.None? && !Authenticated(store.userData)
        && State() == old(State()).(user := None)
        && notice == Some(Notice(SuccessTitle, if clearing then StorageClearedMessage else SignedOutMessage))
    {
      if !confirmed {
        return None, [];
      }
      var call := store.Logout(reply);
      calls := [call];
      user := None;
      notice := Some(Notice(SuccessTitle, if clearing then StorageClearedMessage else SignedOutMessage));
    }

    /** `handleMyReviews` on the current state: an information without
        reviews, otherwise the count and one line per gathered review. */
    method HandleMyReviews() returns (notice: Notice)
      ensures userReviews == [] ==> notice == Notice(InfoTitle, NoReviewsMessage)
      ensures userReviews != [] ==> notice.title == MyReviewsTitle
      ensures userReviews != [] && (forall k :: 0 <= k < |userReviews| ==> SingleLine(userReviews[k])) ==>
        Split(notice.message, '\n') == [SummaryHeader(reviewCount), ""] + ReviewLines(userReviews)
    {
      notice := ReviewsSummary(userReviews, reviewCount);
      if userReviews != [] && forall k :: 0 <= k < |userReviews| ==> SingleLine(userReviews[k]) {
        SummaryLines(userReviews, reviewCount);
      }
    }
  }

  /** After loading, the summary counts what was gathered: its header is
      the number of reviews found. */
  lemma SummaryCountsGathered(movies: seq<Movie>, reviewsOf: ReviewsOracle, uid: int)
    requires UserReviews(movies, reviewsOf, uid) != []
    ensures var rs := UserReviews(movies, reviewsOf, uid);
      ReviewsSummary(rs, |rs|).message[..|SummaryHeader(|rs|)|] == SummaryHeader(|rs|)
      && 1 <= |rs| <= |movies|
  {
    UserReviewsFacts(movies, reviewsOf, uid);
  }
}
