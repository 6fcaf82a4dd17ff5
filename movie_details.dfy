/**
 * The movie detail screen: its personal state (favourite, watched, the
 * review form, the loaded reviews and rating, the similar movies) and the
 * handlers that consult the session gate, call the REST service and assign
 * that state once the call has answered.
 *
 * The decisions the handlers take are pure functions with their own
 * lemmas; the `DetailScreen` class holds the state and ties every handler
 * to those functions. Every reply passes through the response interceptor
 * of the session `Store`, so a 401 anywhere signs the user out.
 */
module DetailScreen {
  import opened Wrappers
  import opened JsString
  import opened Seqs
  import opened Transport
  import opened Movies
  import opened Session
  import opened Alerts

  // ---------------------------------------------------------------------
  // error messages
  // ---------------------------------------------------------------------

  const NotFoundMessage: String := "Film bulunamadı"
  const BadRequestMessage: String := "Geçersiz istek"
  const ServerErrorMessage: String := "Sunucu hatası"
  const FavoriteDefault: String := "Favori işlemi başarısız oldu"
  const WatchedDefault: String := "İzlendi durumu değiştirilemedi"

  /** The message the favourite and watched handlers show for a failed
      request: a fixed text for statuses 404, 400 and 500, the handler's
      default for any other status, and `error.message` (when non-empty)
      only when there is no response at all. */
  function DetailErrorMessage(e: HttpError, fallback: String): (r: String)
    ensures r == NotFoundMessage || r == BadRequestMessage || r == ServerErrorMessage
      || r == fallback || (e.status.None? && r == e.message)
  {
    if e.status.Some? then
      if e.status.value == 404 then NotFoundMessage
      else if e.status.value == 400 then BadRequestMessage
      else if e.status.value == 500 then ServerErrorMessage
      else fallback
    else if e.message != [] then e.message
    else fallback
  }

  /** The classification, case by case. */
  lemma DetailErrorCases(e: HttpError, fallback: String)
    ensures e.status == Some(404) ==> DetailErrorMessage(e, fallback) == NotFoundMessage
    ensures e.status == Some(400) ==> DetailErrorMessage(e, fallback) == BadRequestMessage
    ensures e.status == Some(500) ==> DetailErrorMessage(e, fallback) == ServerErrorMessage
    ensures e.status.Some? && e.status.value != 404 && e.status.value != 400 && e.status.value != 500 ==>
      DetailErrorMessage(e, fallback) == fallback
    ensures e.status.None? ==> DetailErrorMessage(e, fallback) == (if e.message != [] then e.message else fallback)
  {
  }

  /** With a response, `error.message` plays no part, however it reads;
      without one, the status plays none. */
  lemma ResponseHidesMessage(e: HttpError, message: String, fallback: String)
    ensures e.status.Some? ==> DetailErrorMessage(e.(message := message), fallback) == DetailErrorMessage(e, fallback)
    ensures e.status.None? && message != [] ==> DetailErrorMessage(e.(message := message), fallback) == message
  {
  }

  // ---------------------------------------------------------------------
  // favourites
  // ---------------------------------------------------------------------

  const AddedMessage: String := "Film favorilere eklendi"
  const RemovedMessage: String := "Film favorilerden çıkarıldı"

  /** What the favourite button does once the gate is passed: the new flag,
      the requests made and the alert shown. */
  datatype FavoriteResult = FavoriteResult(favorite: bool, calls: seq<Call>, notice: Notice)

  /** When the movie is a favourite, a remove, falling back to an add when
      the remove fails; otherwise an add. The error reported when both fail
      is the remove's. */
  function FavoriteToggle(wasFavorite: bool, uid: int, id: MovieId, removeReply: Reply<()>, addReply: Reply<()>)
    : (r: FavoriteResult)
    ensures !wasFavorite ==> r.calls == [PostFavorite(uid, id)]
    ensures !wasFavorite && addReply.Ok? ==> r.favorite && r.notice == Notice(SuccessTitle, AddedMessage)
    ensures !wasFavorite && addReply.Fail? ==>
      !r.favorite && r.notice == Notice(ErrorTitle, DetailErrorMessage(addReply.error, FavoriteDefault))
    ensures wasFavorite && removeReply.Ok? ==>
      r.calls == [DeleteFavorite(uid, id)] && !r.favorite && r.notice == Notice(SuccessTitle, RemovedMessage)
    ensures wasFavorite && removeReply.Fail? ==> r.calls == [DeleteFavorite(uid, id), PostFavorite(uid, id)]
    ensures wasFavorite && removeReply.Fail? && addReply.Ok? ==>
      !r.favorite && r.notice == Notice(SuccessTitle, RemovedMessage)
    ensures wasFavorite && removeReply.Fail? && addReply.Fail? ==>
      r.favorite && r.notice == Notice(ErrorTitle, DetailErrorMessage(removeReply.error, FavoriteDefault))
  {
    if wasFavorite then
      if removeReply.Ok? then FavoriteResult(false, [DeleteFavorite(uid, id)], Notice(SuccessTitle, RemovedMessage))
      else
        var calls := [DeleteFavorite(uid, id), PostFavorite(uid, id)];
        if addReply.Ok? then FavoriteResult(false, calls, Notice(SuccessTitle, RemovedMessage))
        else FavoriteResult(true, calls, Notice(ErrorTitle, DetailErrorMessage(removeReply.error, FavoriteDefault)))
    else if addReply.Ok? then FavoriteResult(true, [PostFavorite(uid, id)], Notice(SuccessTitle, AddedMessage))
    else FavoriteResult(false, [PostFavorite(uid, id)], Notice(ErrorTitle, DetailErrorMessage(addReply.error, FavoriteDefault)))
  }

  /** The flag flips exactly when the handler reports success, and keeps
      its value exactly when it reports an error. */
  lemma FavoriteFlipsOnSuccess(wasFavorite: bool, uid: int, id: MovieId, removeReply: Reply<()>, addReply: Reply<()>)
    ensures var r := FavoriteToggle(wasFavorite, uid, id, removeReply, addReply);
      (r.notice.title == SuccessTitle <==> r.favorite == !wasFavorite)
      && (r.notice.title == ErrorTitle <==> r.favorite == wasFavorite)
      && (r.notice.title == SuccessTitle <==> !(r.notice.title == ErrorTitle))
  {
    var r := FavoriteToggle(wasFavorite, uid, id, removeReply, addReply);
    assert SuccessTitle != ErrorTitle;
  }

  /** When remove and add both fail, which error the add produced makes no
      difference: the first error is reported. */
  lemma RemoveErrorWins(uid: int, id: MovieId, removeError: HttpError, addError: HttpError, otherAddError: HttpError)
    ensures FavoriteToggle(true, uid, id, Fail(removeError), Fail(addError))
      == FavoriteToggle(true, uid, id, Fail(removeError), Fail(otherAddError))
    ensures FavoriteToggle(true, uid, id, Fail(removeError), Fail(addError)).notice
      == Notice(ErrorTitle, DetailErrorMessage(removeError, FavoriteDefault))
  {
  }

  /** The add reply is consulted only after a failed remove, or when the
      movie was not a favourite. */
  lemma AddOnlyAsFallback(uid: int, id: MovieId, removeReply: Reply<()>, addReply: Reply<()>, otherAddReply: Reply<()>)
    requires removeReply.Ok?
    ensures FavoriteToggle(true, uid, id, removeReply, addReply) == FavoriteToggle(true, uid, id, removeReply, otherAddReply)
    ensures PostFavorite(uid, id) !in FavoriteToggle(true, uid, id, removeReply, addReply).calls
  {
  }

  /** The store after the favourite requests, each passing the response
      interceptor. */
  function FavoriteStore(wasFavorite: bool, s: Option<Stored>, removeReply: Reply<()>, addReply: Reply<()>): Option<Stored> {
    if wasFavorite then
      if removeReply.Ok? then AfterResponse(s, removeReply)
      else AfterResponse(AfterResponse(s, removeReply), addReply)
    else AfterResponse(s, addReply)
  }

  // ---------------------------------------------------------------------
  // watched
  // ---------------------------------------------------------------------

  /** The body of `PUT /users/{user}/watched/{id}/toggle`. */
  datatype WatchedResult = WatchedResult(watched: bool, message: String)

  datatype WatchedStep = WatchedStep(watched: bool, notice: Notice)

  /** The watched flag is whatever the server answers; a failure keeps it
      and reports the classified error. */
  function WatchedToggle(wasWatched: bool, reply: Reply<WatchedResult>): (r: WatchedStep)
    ensures reply.Ok? ==> r.watched == reply.data.watched && r.notice == Notice(SuccessTitle, reply.data.message)
    ensures reply.Fail? ==>
      r.watched == wasWatched && r.notice == Notice(ErrorTitle, DetailErrorMessage(reply.error, WatchedDefault))
  {
    match reply
    case Ok(result) => WatchedStep(result.watched, Notice(SuccessTitle, result.message))
    case Fail(e) => WatchedStep(wasWatched, Notice(ErrorTitle, DetailErrorMessage(e, WatchedDefault)))
  }

  /** The new flag is not computed from the old one: after a successful
      toggle it does not depend on it at all, and it can stay the same. */
  lemma WatchedFromServer(a: bool, b: bool, result: WatchedResult)
    ensures WatchedToggle(a, Ok(result)).watched == WatchedToggle(b, Ok(result)).watched
    ensures WatchedToggle(a, Ok(WatchedResult(a, result.message))).watched == a
  {
  }

  // ---------------------------------------------------------------------
  // reviews
  // ---------------------------------------------------------------------

  const BlankReviewMessage: String := "Lütfen yorumunuzu yazın"
  const ReviewSavedMessage: String := "Yorumunuz kaydedildi"
  const ReviewFailedMessage: String := "Yorum gönderilemedi"
  const ReviewDeletedMessage: String := "Yorumunuz silindi"
  const DeleteFailedMessage: String := "Yorum silinemedi"
  const FavoriteGateMessage: String := "Favorilere eklemek için giriş yapmanız gerekiyor."
  const WatchedGateMessage: String := "Film izleme durumunu değiştirmek için giriş yapmanız gerekiyor."
  const ReviewGateMessage: String := "Yorum yapmak için giriş yapmanız gerekiyor."

  /** The user's own review as `loadReviews` picks it: for a signed-in
      user, the first review whose `userId` is strictly equal to the stored
      id, or none; for anyone else the previous pick stays. */
  function OwnReview(s: Option<Stored>, reviews: seq<Review>, previous: Option<Review>): (r: Option<Review>)
    ensures !Authenticated(s) ==> r == previous
    ensures Authenticated(s) ==> (r.None? <==> forall k :: 0 <= k < |reviews| ==> reviews[k].userId != StoredUser(s).value.id)
    ensures Authenticated(s) && r.Some? ==>
      exists i :: 0 <= i < |reviews| && r.value == reviews[i] && reviews[i].userId == StoredUser(s).value.id
        && forall k :: 0 <= k < i ==> reviews[k].userId != StoredUser(s).value.id
  {
    if Authenticated(s) then
      var uid := StoredUser(s).value.id;
      FindFirst(reviews, (rv: Review) => rv.userId == uid)
    else previous
  }

  // ---------------------------------------------------------------------
  // similar movies
  // ---------------------------------------------------------------------

  /** A catalogue movie shares a trimmed genre token with the target, by
      exact, case-sensitive equality. */
  predicate SharesGenre(target: Movie, m: Movie) {
    exists g :: g in GenreTokens(target) && g in GenreTokens(m)
  }

  /** The filter of `loadSimilarMovies`: another id, and a shared token. */
  function SimilarTest(target: Movie): Movie -> bool {
    (m: Movie) => m.id != target.id && SharesGenre(target, m)
  }

  /** `loadSimilarMovies`' result: the first six catalogue movies other than
      the target that share a genre token with it, in catalogue order. */
  function SimilarMovies(target: Movie, movies: seq<Movie>): (r: seq<Movie>)
    ensures |r| <= 6
    ensures IsSubseq(r, movies)
    ensures forall k :: 0 <= k < |r| ==> r[k].id != target.id && SharesGenre(target, r[k])
  {
    var all := Filter(movies, SimilarTest(target));
    PrefixSubseq(all, |Take(all, 6)|);
    SubseqTransitive(Take(all, 6), all, movies);
    Take(all, 6)
  }

  /** Only the cap leaves a qualifying movie out: the result is the first
      six qualifying movies in catalogue order (all of them when fewer
      qualify), so with fewer than six results every other movie sharing a
      token is among them, and with six or more qualifying movies the
      result is full. */
  lemma SimilarComplete(target: Movie, movies: seq<Movie>)
    ensures var e := Filter(movies, SimilarTest(target));
      SimilarMovies(target, movies) == e[..if |e| < 6 then |e| else 6]
    ensures |SimilarMovies(target, movies)| < 6 ==>
      forall k :: 0 <= k < |movies| && movies[k].id != target.id && SharesGenre(target, movies[k]) ==>
        movies[k] in SimilarMovies(target, movies)
    ensures |Filter(movies, SimilarTest(target))| >= 6 ==> |SimilarMovies(target, movies)| == 6
  {
    var all := Filter(movies, SimilarTest(target));
    if |all| < 6 {
      assert SimilarMovies(target, movies) == all;
      forall k | 0 <= k < |movies| && movies[k].id != target.id && SharesGenre(target, movies[k])
        ensures movies[k] in all
      {
        assert SimilarTest(target)(movies[k]);
      }
    }
  }

  /** A target without a genre has no similar movies. */
  lemma NoGenreNoSimilar(target: Movie, movies: seq<Movie>)
    requires !TruthyStr(target.genre)
    ensures SimilarMovies(target, movies) == []
  {
    assert GenreTokens(target) == [];
    assert forall m: Movie :: !SimilarTest(target)(m);
  }

  // ---------------------------------------------------------------------
  // YouTube video id
  // ---------------------------------------------------------------------

  /** The characters the id may not contain: `[^&\n?#]`. */
  predicate IdStop(c: char) { c == '&' || c == '\n' || c == '?' || c == '#' }

  /** The alternatives of the pattern, in order. */
  const VideoPrefixes: seq<String> := ["youtube.com/embed/", "youtu.be/", "youtube.com/watch?v="]

  /** Alternative `a` matches at position `p` and at least one id character
      follows it. */
  predicate Opens(s: String, p: nat, a: nat)
    requires a < |VideoPrefixes|
  {
    OccursAt(s, VideoPrefixes[a], p) && p + |VideoPrefixes[a]| < |s| && !IdStop(s[p + |VideoPrefixes[a]|])
  }

  /** Where the id starts when the pattern matches at `p`: after the first
      alternative that opens there. */
  function IdStart(s: String, p: nat): (r: Option<nat>)
    ensures r.Some? <==> exists a :: 0 <= a < |VideoPrefixes| && Opens(s, p, a)
    ensures r.Some? ==> exists a :: 0 <= a < |VideoPrefixes| && Opens(s, p, a) && r.value == p + |VideoPrefixes[a]|
    ensures r.Some? ==> p < r.value < |s| && !IdStop(s[r.value])
  {
    if Opens(s, p, 0) then Some(p + |VideoPrefixes[0]|)
    else if Opens(s, p, 1) then Some(p + |VideoPrefixes[1]|)
    else if Opens(s, p, 2) then Some(p + |VideoPrefixes[2]|)
    else None
  }

  /** The number of id characters from position `i` on (the greedy `+`). */
  function RunFrom(s: String, i: nat): (n: nat)
    requires i <= |s|
    ensures i + n <= |s|
    ensures forall k :: i <= k < i + n ==> !IdStop(s[k])
    ensures i + n == |s| || IdStop(s[i + n])
    decreases |s| - i
  {
    if i == |s| || IdStop(s[i]) then 0 else 1 + RunFrom(s, i + 1)
  }

  /** The id characters from position `q` on. */
  function IdAt(s: String, q: nat): String
    requires q <= |s|
  {
    s[q..q + RunFrom(s, q)]
  }

  /** The regular-expression search from position `p` on: the leftmost
      start position where the pattern matches. */
  function IdSearch(s: String, p: nat): Option<String>
    requires p <= |s|
    decreases |s| - p
  {
    match IdStart(s, p)
    case Some(q) => Some(IdAt(s, q))
    case None => if p == |s| then None else IdSearch(s, p + 1)
  }

  /** `getYouTubeVideoId`. */
  function YouTubeVideoId(url: Option<String>): (r: Option<String>)
    ensures !TruthyStr(url) ==> r.None?
  {
    if TruthyStr(url) then IdSearch(url.value, 0) else None
  }

  /** Position `j` is the first at or after `p` where the pattern matches. */
  predicate LeftmostStart(s: String, p: nat, j: nat) {
    IdStart(s, j).Some? && forall i :: p <= i < j ==> IdStart(s, i).None?
  }

  lemma LeftmostStep(s: String, p: nat, j: nat)
    requires IdStart(s, p).None? && LeftmostStart(s, p + 1, j)
    ensures LeftmostStart(s, p, j)
  {
  }

  /** The search fails exactly when the pattern matches nowhere from `p` on. */
  lemma {:induction false} IdSearchNone(s: String, p: nat)
    requires p <= |s|
    ensures IdSearch(s, p).None? <==> forall j :: p <= j <= |s| ==> IdStart(s, j).None?
    decreases |s| - p
  {
    if IdStart(s, p).None? && p < |s| {
      IdSearchNone(s, p + 1);
      assert IdSearch(s, p) == IdSearch(s, p + 1);
      if forall j :: p + 1 <= j <= |s| ==> IdStart(s, j).None? {
        assert forall j :: p <= j <= |s| ==> IdStart(s, j).None?;
      }
    }
  }

  /** A found id is the run after the leftmost match. */
  lemma {:induction false} IdSearchSome(s: String, p: nat)
    requires p <= |s|
    ensures IdSearch(s, p).Some? ==>
      exists j :: p <= j <= |s| && LeftmostStart(s, p, j)
        && IdSearch(s, p).value == IdAt(s, IdStart(s, j).value)
    decreases |s| - p
  {
    if IdStart(s, p).Some? {
      assert LeftmostStart(s, p, p);
    } else if p < |s| {
      IdSearchSome(s, p + 1);
      if IdSearch(s, p).Some? {
        var j :| p + 1 <= j <= |s| && LeftmostStart(s, p + 1, j)
          && IdSearch(s, p + 1).value == IdAt(s, IdStart(s, j).value);
        LeftmostStep(s, p, j);
      }
    }
  }

  lemma IdSearchFacts(s: String, p: nat)
    requires p <= |s|
    ensures IdSearch(s, p).None? <==> forall j :: p <= j <= |s| ==> IdStart(s, j).None?
    ensures IdSearch(s, p).Some? ==>
      exists j :: p <= j <= |s| && LeftmostStart(s, p, j)
        && IdSearch(s, p).value == IdAt(s, IdStart(s, j).value)
  {
    IdSearchNone(s, p);
    IdSearchSome(s, p);
  }

  /** `id` is a non-empty, maximal run of id characters starting at `q`. */
  predicate IsIdAt(s: String, q: nat, id: String) {
    id != [] && q + |id| <= |s| && id == s[q..q + |id|]
    && (forall k :: 0 <= k < |id| ==> !IdStop(id[k]))
    && (q + |id| == |s| || IdStop(s[q + |id|]))
  }

  lemma RunIsId(s: String, q: nat)
    requires q < |s| && !IdStop(s[q])
    ensures IsIdAt(s, q, IdAt(s, q))
  {
    var id := s[q..q + RunFrom(s, q)];
    assert forall k :: 0 <= k < |id| ==> id[k] == s[q + k];
  }

  /** The pattern matches leftmost at `j` with alternative `a`, and `id` is
      the run after it. */
  predicate FoundAt(s: String, j: nat, a: nat, id: String) {
    j <= |s| && a < |VideoPrefixes| && LeftmostStart(s, 0, j) && OccursAt(s, VideoPrefixes[a], j)
    && IsIdAt(s, j + |VideoPrefixes[a]|, id)
  }

  lemma FoundAtIntro(s: String, j: nat, a: nat, id: String)
    requires j <= |s| && a < |VideoPrefixes| && LeftmostStart(s, 0, j) && Opens(s, j, a)
    requires id == IdAt(s, j + |VideoPrefixes[a]|)
    ensures FoundAt(s, j, a, id)
  {
    RunIsId(s, j + |VideoPrefixes[a]|);
  }

  lemma IdSearchFound(s: String)
    requires IdSearch(s, 0).Some?
    ensures exists j: nat, a: nat :: FoundAt(s, j, a, IdSearch(s, 0).value)
  {
    IdSearchFacts(s, 0);
    var j :| 0 <= j <= |s| && LeftmostStart(s, 0, j) && IdSearch(s, 0).value == IdAt(s, IdStart(s, j).value);
    var a :| 0 <= a < |VideoPrefixes| && Opens(s, j, a) && IdStart(s, j).value == j + |VideoPrefixes[a]|;
    FoundAtIntro(s, j, a, IdSearch(s, 0).value);
  }

  /** The id found is the non-empty maximal run of id characters after the
      leftmost match of one of the three prefixes; without a match there
      is none. */
  lemma YouTubeVideoIdFacts(url: Option<String>)
    ensures YouTubeVideoId(url).None? <==>
      !TruthyStr(url) || forall j :: 0 <= j <= |url.value| ==> IdStart(url.value, j).None?
    ensures YouTubeVideoId(url).Some? ==>
      exists j: nat, a: nat :: FoundAt(url.value, j, a, YouTubeVideoId(url).value)
  {
    if TruthyStr(url) {
      IdSearchFacts(url.value, 0);
      if IdSearch(url.value, 0).Some? {
        IdSearchFound(url.value);
      }
    }
  }

  // ---------------------------------------------------------------------
  // the screen
  // ---------------------------------------------------------------------

  /** Whether the listed movies include one with the given id (`some` with
      strict equality). */
  predicate HasMovie(movies: seq<Movie>, id: MovieId) {
    exists k :: 0 <= k < |movies| && movies[k].id == id
  }

  /** The state fields of the screen, as one value. */
  datatype DetailState = DetailState(
    isFavorite: bool,
    isWatched: bool,
    loading: bool,
    reviews: seq<Review>,
    movieRating: RatingSummary,
    userReview: Option<Review>,
    showReviewForm: bool,
    reviewRating: int,
    reviewComment: String,
    similarMovies: seq<Movie>)

  class DetailScreen {
    /** The route's `movie` parameter, if any. */
    const movie: Option<Movie>
    /** The device store the session lives in. */
    const store: Store

    var isFavorite: bool
    var isWatched: bool
    var loading: bool
    var reviews: seq<Review>
    var movieRating: RatingSummary
    var userReview: Option<Review>
    var showReviewForm: bool
    var reviewRating: int
    var reviewComment: String
    var similarMovies: seq<Movie>

    function State(): DetailState
      reads this
    {
      DetailState(isFavorite, isWatched, loading, reviews, movieRating, userReview,
                  showReviewForm, reviewRating, reviewComment, similarMovies)
    }

    /** The initial state of the screen. */
    constructor(movie: Option<Movie>, store: Store)
      ensures this.movie == movie && this.store == store
      ensures State() == DetailState(false, false, false, [], RatingSummary(None, 0.0, 0), None, false, 5, "", [])
    {
      this.movie := movie;
      this.store := store;
      isFavorite := false;
      isWatched := false;
      loading := false;
      reviews := [];
      movieRating := RatingSummary(None, 0.0, 0);
      userReview := None;
      showReviewForm := false;
      reviewRating := 5;
      reviewComment := "";
      similarMovies := [];
    }

    /** `loadReviews`: the reviews and the rating of the movie (each reader
        degrading to its default), then the signed-in user's own review. */
    method LoadReviews(reviewsReply: Reply<Option<seq<Review>>>, ratingReply: Reply<Option<RatingSummary>>)
      returns (calls: seq<Call>)
      modifies this, store
      ensures movie.None? ==> calls == [] && State() == old(State()) && store.userData == old(store.userData)
      ensures movie.Some? ==>
        var id := movie.value.id;
        calls == [GetReviews(id), GetRating(id)]
        && store.userData == AfterResponse(AfterResponse(old(store.userData), reviewsReply), ratingReply)
        && State() == old(State()).(
          reviews := ListOrEmpty(reviewsReply),
          movieRating := MovieRating(ratingReply, id),
          userReview := OwnReview(store.userData, ListOrEmpty(reviewsReply), old(userReview)))
    {
      if movie.None? {
        return [];
      }
      var id := movie.value.id;
      calls := [GetReviews(id), GetRating(id)];
      var r1 := store.Intercept(reviewsReply);
      var r2 := store.Intercept(ratingReply);
      var reviewsData := ListOrEmpty(r1);
      reviews := reviewsData;
      movieRating := MovieRating(r2, id);
      if Authenticated(store.userData) {
        var uid := StoredUser(store.userData).value.id;
        userReview := FindFirst(reviewsData, (rv: Review) => rv.userId == uid);
      }
    }

    /** `checkMovieStatus`: for a signed-in user, the favourite flag from
        the favourites list and the watched flag from the server. */
    method CheckMovieStatus(favoritesReply: Reply<Option<seq<Movie>>>, watchedReply: Reply<Option<bool>>)
      returns (calls: seq<Call>)
      modifies this, store
      ensures !Authenticated(old(store.userData)) || movie.None? ==>
        calls == [] && State() == old(State()) && store.userData == old(store.userData)
      ensures Authenticated(old(store.userData)) && movie.Some? ==>
        var uid, id := UserId(old(store.userData)), movie.value.id;
        calls == [GetFavorites(uid), GetWatchedStatus(uid, id)]
        && store.userData == AfterResponse(AfterResponse(old(store.userData), favoritesReply), watchedReply)
        && State() == old(State()).(
          isFavorite := HasMovie(ListOrEmpty(favoritesReply), id),
          isWatched := WatchedFlag(watchedReply))
    {
      if !Authenticated(store.userData) || movie.None? {
        return [];
      }
      var uid, id := UserId(store.userData), movie.value.id;
      calls := [GetFavorites(uid), GetWatchedStatus(uid, id)];
      var r1 := store.Intercept(favoritesReply);
      var favoriteMovies := ListOrEmpty(r1);
      isFavorite := HasMovie(favoriteMovies, id);
      var r2 := store.Intercept(watchedReply);
      isWatched := WatchedFlag(r2);
    }

    /** `loadSimilarMovies`: nothing for a movie without a genre; otherwise
        the similar movies of the catalogue. */
    method LoadSimilarMovies(catalogue: Reply<Payload>, decode: Decoder) returns (calls: seq<Call>)
      modifies this, store
      ensures movie.None? || !TruthyStr(movie.value.genre) ==>
        calls == [] && State() == old(State()) && store.userData == old(store.userData)
      ensures movie.Some? && TruthyStr(movie.value.genre) ==>
        calls == [GetMovies]
        && store.userData == AfterResponse(old(store.userData), catalogue)
        && State() == old(State()).(similarMovies := SimilarMovies(movie.value, AllMovies(catalogue, decode)))
    {
      if movie.None? || !TruthyStr(movie.value.genre) {
        return [];
      }
      calls := [GetMovies];
      var r := store.Intercept(catalogue);
      var allMovies := GetAllMovies(r, decode);
      similarMovies := SimilarMovies(movie.value, allMovies);
    }

    /** `handleAddToFavorites`. */
    method HandleAddToFavorites(removeReply: Reply<()>, addReply: Reply<()>) returns (notice: Option<Notice>, calls: seq<Call>)
      modifies this, store
      ensures movie.None? ==> notice.None? && calls == [] && State() == old(State()) && store.userData == old(store.userData)
      ensures movie.Some? && !Authenticated(old(store.userData)) ==>
        notice == Some(Notice(LoginRequiredTitle, FavoriteGateMessage)) && calls == []
        && State() == old(State()) && store.userData == old(store.userData)
      ensures movie.Some? && Authenticated(old(store.userData)) ==>
        var f := FavoriteToggle(old(isFavorite), UserId(old(store.userData)), movie.value.id, removeReply, addReply);
        notice == Some(f.notice) && calls == f.calls
        && State() == old(State()).(isFavorite := f.favorite, loading := false)
        && store.userData == FavoriteStore(old(isFavorite), old(store.userData), removeReply, addReply)
    {
      if movie.None? {
        return None, [];
      }
      if !Authenticated(store.userData) {
        return Some(Notice(LoginRequiredTitle, FavoriteGateMessage)), [];
      }
      loading := true;
      var uid, id := UserId(store.userData), movie.value.id;
      if isFavorite {
        var removed := store.Intercept(removeReply);
        if removed.Ok? {
          isFavorite := false;
          notice, calls := Some(Notice(SuccessTitle, RemovedMessage)), [DeleteFavorite(uid, id)];
        } else {
          var added := store.Intercept(addReply);
          calls := [DeleteFavorite(uid, id), PostFavorite(uid, id)];
          if added.Ok? {
            isFavorite := false;
            notice := Some(Notice(SuccessTitle, RemovedMessage));
          } else {
            notice := Some(Notice(ErrorTitle, DetailErrorMessage(removed.error, FavoriteDefault)));
          }
        }
      } else {
        var added := store.Intercept(addReply);
        calls := [PostFavorite(uid, id)];
        if added.Ok? {
          isFavorite := true;
          notice := Some(Notice(SuccessTitle, AddedMessage));
        } else {
          notice := Some(Notice(ErrorTitle, DetailErrorMessage(added.error, FavoriteDefault)));
        }
      }
      loading := false;
    }

    /** `handleToggleWatched`. */
    method HandleToggleWatched(reply: Reply<WatchedResult>) returns (notice: Option<Notice>, calls: seq<Call>)
      modifies this, store
      ensures movie.None? ==> notice.None? && calls == [] && State() == old(State()) && store.userData == old(store.userData)
      ensures movie.Some? && !Authenticated(old(store.userData)) ==>
        notice == Some(Notice(LoginRequiredTitle, WatchedGateMessage)) && calls == []
        && State() == old(State()) && store.userData == old(store.userData)
      ensures movie.Some? && Authenticated(old(store.userData)) ==>
        var w := WatchedToggle(old(isWatched), reply);
        notice == Some(w.notice) && calls == [PutToggleWatched(UserId(old(store.userData)), movie.value.id)]
        && State() == old(State()).(isWatched := w.watched, loading := false)
        && store.userData == AfterResponse(old(store.userData), reply)
    {
      if movie.None? {
        return None, [];
      }
      if !Authenticated(store.userData) {
        return Some(Notice(LoginRequiredTitle, WatchedGateMessage)), [];
      }
      loading := true;
      calls := [PutToggleWatched(UserId(store.userData), movie.value.id)];
      var r := store.Intercept(reply);
      match r {
        case Ok(result) =>
          isWatched := result.watched;
          notice := Some(Notice(SuccessTitle, result.message));
        case Fail(e) =>
          notice := Some(Notice(ErrorTitle, DetailErrorMessage(e, WatchedDefault)));
      }
      loading := false;
    }

    /** The form reset after a saved review: the form hidden, the comment
        cleared and the rating back to five stars. */
    method CloseReviewForm()
      modifies this
      ensures State() == old(State()).(showReviewForm := false, reviewComment := "", reviewRating := 5)
    {
      showReviewForm := false;
      reviewComment := "";
      reviewRating := 5;
    }

    /** `handleSubmitReview`: a blank comment is refused before the gate;
        the comment is sent trimmed; only a successful save reloads the
        reviews and resets the form. */
    method HandleSubmitReview(postReply: Reply<()>, reviewsReply: Reply<Option<seq<Review>>>, ratingReply: Reply<Option<RatingSummary>>)
      returns (notice: Option<Notice>, calls: seq<Call>)
      modifies this, store
      ensures movie.None? || Trim(old(reviewComment)) == [] ==>
        notice == Some(Notice(ErrorTitle, BlankReviewMessage)) && calls == []
        && State() == old(State()) && store.userData == old(store.userData)
      ensures movie.Some? && Trim(old(reviewComment)) != [] && !Authenticated(old(store.userData)) ==>
        notice == Some(Notice(LoginRequiredTitle, ReviewGateMessage)) && calls == []
        && State() == old(State()) && store.userData == old(store.userData)
      ensures movie.Some? && Trim(old(reviewComment)) != [] && Authenticated(old(store.userData)) ==>
        var id := movie.value.id;
        var post := PostReview(id, UserId(old(store.userData)), old(reviewRating), Trim(old(reviewComment)));
        var afterPost := AfterResponse(old(store.userData), postReply);
        (postReply.Ok? ==>
          store.userData == AfterResponse(AfterResponse(afterPost, reviewsReply), ratingReply)
          && notice == Some(Notice(SuccessTitle, ReviewSavedMessage))
          && calls == [post, GetReviews(id), GetRating(id)]
          && State() == old(State()).(
            loading := false, showReviewForm := false, reviewComment := "", reviewRating := 5,
            reviews := ListOrEmpty(reviewsReply),
            movieRating := MovieRating(ratingReply, id),
            userReview := OwnReview(store.userData, ListOrEmpty(reviewsReply), old(userReview))))
        && (postReply.Fail? ==>
          notice == Some(Notice(ErrorTitle, ReviewFailedMessage)) && calls == [post]
          && store.userData == afterPost
          && State() == old(State()).(loading := false))
    {
      var comment := Trim(reviewComment);
      if movie.None? || comment == [] {
        return Some(Notice(ErrorTitle, BlankReviewMessage)), [];
      }
      if !Authenticated(store.userData) {
        return Some(Notice(LoginRequiredTitle, ReviewGateMessage)), [];
      }
      var id := movie.value.id;
      var post := PostReview(id, UserId(store.userData), reviewRating, comment);
      loading := true;
      var r := store.Intercept(postReply);
      if r.Ok? {
        var reload := LoadReviews(reviewsReply, ratingReply);
        assert reload == [GetReviews(id), GetRating(id)];
        calls := [post, GetReviews(id), GetRating(id)];
        CloseReviewForm();
        notice := Some(Notice(SuccessTitle, ReviewSavedMessage));
      } else {
        calls := [post];
        notice := Some(Notice(ErrorTitle, ReviewFailedMessage));
      }
      loading := false;
    }

    /** `handleDeleteReview`, with the answer to its confirmation dialog:
        only the destructive choice deletes. */
    method HandleDeleteReview(confirmed: bool, deleteReply: Reply<()>, reviewsReply: Reply<Option<seq<Review>>>,
                              ratingReply: Reply<Option<RatingSummary>>)
      returns (notice: Option<Notice>, calls: seq<Call>)
      modifies this, store
      ensures movie.None? || !confirmed ==>
        notice.None? && calls == [] && State() == old(State()) && store.userData == old(store.userData)
      ensures movie.Some? && confirmed && !HasUserId(old(store.userData)) ==>
        notice.None? && calls == [] && State() == old(State()).(loading := false) && store.userData == old(store.userData)
      ensures movie.Some? && confirmed && HasUserId(old(store.userData)) ==>
        var id := movie.value.id;
        var del := DeleteReview(id, UserId(old(store.userData)));
        var afterDelete := AfterResponse(old(store.userData), deleteReply);
        (deleteReply.Ok? ==>
          notice == Some(Notice(SuccessTitle, ReviewDeletedMessage))
          && calls == [del, GetReviews(id), GetRating(id)]
          && store.userData == AfterResponse(AfterResponse(afterDelete, reviewsReply), ratingReply)
          && State() == old(State()).(
            loading := false,
            reviews := ListOrEmpty(reviewsReply),
            movieRating := MovieRating(ratingReply, id),
            userReview := OwnReview(store.userData, ListOrEmpty(reviewsReply), old(userReview))))
        && (deleteReply.Fail? ==>
          notice == Some(Notice(ErrorTitle, DeleteFailedMessage)) && calls == [del]
          && store.userData == afterDelete
          && State() == old(State()).(loading := false))
    {
      if movie.None? || !confirmed {
        return None, [];
      }
      loading := true;
      if !HasUserId(store.userData) {
        loading := false;
        return None, [];
      }
      var id := movie.value.id;
      var del := DeleteReview(id, UserId(store.userData));
      var r := store.Intercept(deleteReply);
      if r.Ok? {
        var reload := LoadReviews(reviewsReply, ratingReply);
        assert reload == [GetReviews(id), GetRating(id)];
        calls := [del, GetReviews(id), GetRating(id)];
        notice := Some(Notice(SuccessTitle, ReviewDeletedMessage));
      } else {
        calls := [del];
        notice := Some(Notice(ErrorTitle, DeleteFailedMessage));
      }
      loading := false;
    }
  }
}
