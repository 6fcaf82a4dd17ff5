/**
 * The movies service of the client: the catalogue as `GET /movies` returns
 * it after normalisation, and the views computed from it (popular, latest,
 * by genre / director / actor, free-text search, detail lookup), together
 * with the defaults the personal readers fall back to.
 *
 * The readers that start with `getAllMovies` are modelled as functions of
 * the normalised catalogue it returned; their own request goes through the
 * same response interceptor as every other (`Session.AfterResponse`).
 */
module Movies {
  import opened Wrappers
  import opened JsString
  import opened Seqs
  import opened Transport

  /** A JSON value. */
  datatype Json =
    | Null
    | Bool(b: bool)
    | Num(x: real)
    | Str(s: String)
    | List(items: seq<Json>)
    | Object(entries: seq<(String, Json)>)

  /** A cast entry; the client only reads `name`. */
  datatype Actor = Actor(name: Option<String>)

  /** A movie object as the server sends it; `None` is a missing or null
      property. `cast` is `None` also when it is not an array, and an entry
      of it is `None` when it is null. */
  datatype Movie = Movie(
    id: MovieId,
    movieName: Option<String>,
    description: Option<String>,
    releaseYear: Option<String>,
    imdbRating: Option<real>,
    producer: Option<String>,
    genre: Option<String>,
    cast: Option<seq<Option<Actor>>>,
    gallery: Option<Json>,
    posterUrl: Option<String>,
    trailerUrl: Option<String>)

  /** An entry of the payload: a movie object, or null or a primitive. */
  datatype Element = NotAnObject | Record(movie: Movie)

  /** `response.data` of `GET /movies`: falsy, one non-array value, or an array. */
  datatype Payload = Falsy | Single(item: Element) | Many(items: seq<Element>)

  /** `JSON.parse`, `None` when it throws. */
  type Decoder = String -> Option<Json>

  /** A review as the server lists it. */
  datatype Review = Review(userId: Option<int>, rating: int, comment: Option<String>)

  /** The body of `GET /movies/{id}/rating`. */
  datatype RatingSummary = RatingSummary(movieId: MovieId, average: real, count: int)

  // ---------------------------------------------------------------------
  // getAllMovies
  // ---------------------------------------------------------------------

  /** The gallery a movie ends up with: a non-empty string is decoded and a
      failed decode gives the empty list; whatever is then not a list
      becomes the empty list. */
  function NormalGallery(g: Option<Json>, decode: Decoder): (r: seq<Json>)
    ensures g.Some? && g.value.List? ==> r == g.value.items
    ensures g.Some? && g.value.Str? && g.value.s != [] ==>
      r == (if decode(g.value.s).Some? && decode(g.value.s).value.List? then decode(g.value.s).value.items else [])
    ensures !(g.Some? && (g.value.List? || (g.value.Str? && g.value.s != []))) ==> r == []
  {
    var g' := if g.Some? && g.value.Str? && g.value.s != [] then
                (if decode(g.value.s).Some? then decode(g.value.s) else Some(List([])))
              else g;
    if g'.Some? && g'.value.List? then g'.value.items else []
  }

  /** One movie after the `map` callback: only the gallery is replaced. */
  function Normalize(m: Movie, decode: Decoder): Movie {
    m.(gallery := Some(List(NormalGallery(m.gallery, decode))))
  }

  /** The entries the `map` runs over: an array as it is, anything else
      wrapped as a one-element array. */
  function Entries(p: Payload): seq<Element> {
    match p
    case Falsy => []
    case Single(e) => [e]
    case Many(es) => es
  }

  /** The `map` over the entries; `None` when the callback throws on an
      entry that is not an object. */
  function NormalizeAll(es: seq<Element>, decode: Decoder): Option<seq<Movie>> {
    if es == [] then Some([])
    else if es[0].NotAnObject? then None
    else
      match NormalizeAll(es[1..], decode)
      case None => None
      case Some(rest) => Some([Normalize(es[0].movie, decode)] + rest)
  }

  /** `getAllMovies` for the reply of `GET /movies`: it never throws, and
      every failure is the empty list. */
  function AllMovies(reply: Reply<Payload>, decode: Decoder): seq<Movie> {
    match reply
    case Fail(_) => []
    case Ok(Falsy) => []
    case Ok(p) => NormalizeAll(Entries(p), decode).GetOr([])
  }

  /** The `map` succeeds exactly when every entry is an object, and then
      keeps their number and order, changing only each gallery. */
  lemma {:induction false} NormalizeAllFacts(es: seq<Element>, decode: Decoder)
    ensures NormalizeAll(es, decode).None? <==> exists k :: 0 <= k < |es| && es[k].NotAnObject?
    ensures NormalizeAll(es, decode).Some? ==>
      var r := NormalizeAll(es, decode).value;
      |r| == |es| && forall k :: 0 <= k < |es| ==> es[k].Record? && r[k] == Normalize(es[k].movie, decode)
  {
    if es != [] {
      NormalizeAllFacts(es[1..], decode);
      assert forall k :: 1 <= k < |es| ==> es[k] == es[1..][k - 1];
      if es[0].NotAnObject? {
        assert exists k :: 0 <= k < |es| && es[k].NotAnObject?;
      } else if NormalizeAll(es[1..], decode).None? {
        var k :| 0 <= k < |es[1..]| && es[1..][k].NotAnObject?;
        assert es[k + 1].NotAnObject?;
      }
    }
  }

  /** The candidate properties of `getAllMovies`: the empty list on a
      failure or a falsy body, a non-array body wrapped as one movie, an
      array kept in length and order, no entry altered but its gallery,
      every gallery a list, and the empty list as soon as one entry is not
      an object. */
  lemma AllMoviesFacts(reply: Reply<Payload>, decode: Decoder)
    ensures reply.Fail? || reply == Ok(Falsy) ==> AllMovies(reply, decode) == []
    ensures forall m :: reply == Ok(Single(Record(m))) ==> AllMovies(reply, decode) == [Normalize(m, decode)]
    ensures reply.Ok? && reply.data.Many? && (forall k :: 0 <= k < |reply.data.items| ==> reply.data.items[k].Record?) ==>
      var es := reply.data.items;
      |AllMovies(reply, decode)| == |es|
      && forall k :: 0 <= k < |es| ==> AllMovies(reply, decode)[k] == Normalize(es[k].movie, decode)
    ensures reply.Ok? && (exists k :: 0 <= k < |Entries(reply.data)| && Entries(reply.data)[k].NotAnObject?) ==>
      AllMovies(reply, decode) == []
    ensures forall k :: 0 <= k < |AllMovies(reply, decode)| ==>
      var m := AllMovies(reply, decode)[k];
      m.gallery.Some? && m.gallery.value.List?
  {
    if reply.Ok? && !reply.data.Falsy? {
      NormalizeAllFacts(Entries(reply.data), decode);
    }
  }

  /** `getAllMovies` as the client runs it: a `map` over the entries that
      rewrites each gallery, abandoned with `[]` at the first entry it
      cannot handle. */
  method GetAllMovies(reply: Reply<Payload>, decode: Decoder) returns (movies: seq<Movie>)
    ensures movies == AllMovies(reply, decode)
  {
    if reply.Fail? || reply.data.Falsy? {
      return [];
    }
    var entries := Entries(reply.data);
    NormalizeAllFacts(entries, decode);
    movies := [];
    var i := 0;
    while i < |entries|
      invariant 0 <= i <= |entries|
      invariant |movies| == i
      invariant forall k :: 0 <= k < i ==> entries[k].Record? && movies[k] == Normalize(entries[k].movie, decode)
    {
      if entries[i].NotAnObject? {
        return [];
      }
      var m := entries[i].movie;
      var gallery := m.gallery;
      if gallery.Some? && gallery.value.Str? && gallery.value.s != [] {
        var parsed := decode(gallery.value.s);
        gallery := if parsed.Some? then parsed else Some(List([]));
      }
      if !(gallery.Some? && gallery.value.List?) {
        gallery := Some(List([]));
      }
      movies := movies + [m.(gallery := gallery)];
      i := i + 1;
    }
  }

  // ---------------------------------------------------------------------
  // popular and latest
  // ---------------------------------------------------------------------

  /** `movie.imdbRating` is truthy: present and non-zero. */
  predicate Rated(m: Movie) { m.imdbRating.Some? && m.imdbRating.value != 0.0 }

  function Rating(m: Movie): real { m.imdbRating.GetOr(0.0) }

  /** `getPopularMovies`: rated movies, best rating first, capped at 10. */
  function Popular(movies: seq<Movie>): seq<Movie> {
    Take(SortDesc(Filter(movies, Rated), Rating), 10)
  }

  /** `movie.releaseYear` is truthy. */
  predicate Dated(m: Movie) { TruthyStr(m.releaseYear) }

  /** `parseInt(movie.releaseYear)`, read only where it parses. */
  function Year(m: Movie): real {
    if m.releaseYear.Some? then ParseInt(m.releaseYear.value).GetOr(0) as real else 0.0
  }

  /** Every truthy year parses as an integer, so that the comparator never
      yields NaN. */
  predicate YearsParse(movies: seq<Movie>) {
    forall k :: 0 <= k < |movies| && Dated(movies[k]) ==> ParseInt(movies[k].releaseYear.value).Some?
  }

  /** `getLatestMovies`: dated movies, newest first, capped at 10. */
  function Latest(movies: seq<Movie>): seq<Movie>
    requires YearsParse(movies)
  {
    Take(SortDesc(Filter(movies, Dated), Year), 10)
  }

  /** The popular list: ten movies, or all rated ones when fewer are
      rated, all with a truthy rating (so a
      rating of 0 is dropped), in non-increasing rating; no rated movie
      left out rates above one kept; ties keep catalogue order; and with at
      most 10 rated movies all of them are listed. */
  lemma PopularRanking(movies: seq<Movie>)
    ensures |Popular(movies)| == if |Filter(movies, Rated)| <= 10 then |Filter(movies, Rated)| else 10
    ensures forall k :: 0 <= k < |Popular(movies)| ==> Rated(Popular(movies)[k])
    ensures SortedDesc(Popular(movies), Rating)
    ensures multiset(Popular(movies)) <= multiset(Filter(movies, Rated))
    ensures forall x, y ::
              x in multiset(Popular(movies)) && y in multiset(Filter(movies, Rated)) - multiset(Popular(movies))
              ==> Rating(x) >= Rating(y)
    ensures forall k :: KeyClass(Popular(movies), Rating, k) <= KeyClass(Filter(movies, Rated), Rating, k)
    ensures |Filter(movies, Rated)| <= 10 ==> multiset(Popular(movies)) == multiset(Filter(movies, Rated))
  {
    var f := Filter(movies, Rated);
    TopFacts(f, Rating, 10);
    forall k | 0 <= k < |Popular(movies)| ensures Rated(Popular(movies)[k]) {
      assert Popular(movies)[k] in multiset(f);
    }
  }

  /** The latest list, under the same guarantees keyed by the parsed year. */
  lemma LatestRanking(movies: seq<Movie>)
    requires YearsParse(movies)
    ensures |Latest(movies)| == if |Filter(movies, Dated)| <= 10 then |Filter(movies, Dated)| else 10
    ensures forall k :: 0 <= k < |Latest(movies)| ==> Dated(Latest(movies)[k])
    ensures SortedDesc(Latest(movies), Year)
    ensures multiset(Latest(movies)) <= multiset(Filter(movies, Dated))
    ensures forall x, y ::
              x in multiset(Latest(movies)) && y in multiset(Filter(movies, Dated)) - multiset(Latest(movies))
              ==> Year(x) >= Year(y)
    ensures forall k :: KeyClass(Latest(movies), Year, k) <= KeyClass(Filter(movies, Dated), Year, k)
    ensures |Filter(movies, Dated)| <= 10 ==> multiset(Latest(movies)) == multiset(Filter(movies, Dated))
  {
    var f := Filter(movies, Dated);
    TopFacts(f, Year, 10);
    forall k | 0 <= k < |Latest(movies)| ensures Dated(Latest(movies)[k]) {
      assert Latest(movies)[k] in multiset(f);
    }
  }

  // ---------------------------------------------------------------------
  // filters and search
  // ---------------------------------------------------------------------

  /** `field && field.toLowerCase().includes(term)`, with `term` already
      lower-cased. */
  predicate FieldMatches(field: Option<String>, term: String) {
    TruthyStr(field) && Contains(ToLower(field.value), term)
  }

  /** `movie.cast.some(actor => actor && actor.name && ...)`. */
  predicate CastMatches(m: Movie, term: String) {
    m.cast.Some? && exists k :: 0 <= k < |m.cast.value| && m.cast.value[k].Some? && FieldMatches(m.cast.value[k].value.name, term)
  }

  /** The search callback: any of name, producer, genre or a cast name. */
  predicate SearchHit(m: Movie, term: String) {
    FieldMatches(m.movieName, term) || FieldMatches(m.producer, term) || FieldMatches(m.genre, term) || CastMatches(m, term)
  }

  /** The filter callbacks of the four readers, for the text they were
      given. */
  function GenreTest(tag: String): Movie -> bool { (m: Movie) => FieldMatches(m.genre, ToLower(tag)) }
  function DirectorTest(name: String): Movie -> bool { (m: Movie) => FieldMatches(m.producer, ToLower(name)) }
  function ActorTest(name: String): Movie -> bool { (m: Movie) => CastMatches(m, ToLower(name)) }
  function SearchTest(query: String): Movie -> bool { (m: Movie) => SearchHit(m, ToLower(query)) }

  /** `getMoviesByGenre`: the tag is looked for in the whole genre string. */
  function ByGenre(movies: seq<Movie>, tag: String): (r: seq<Movie>)
    ensures IsSubseq(r, movies)
    ensures forall m :: m in r <==> m in movies && FieldMatches(m.genre, ToLower(tag))
    ensures forall m :: multiset(r)[m] == if FieldMatches(m.genre, ToLower(tag)) then multiset(movies)[m] else 0
  {
    FilterCount(movies, GenreTest(tag));
    Filter(movies, GenreTest(tag))
  }

  /** `getMoviesByDirector`: the name is looked for in `producer`. */
  function ByDirector(movies: seq<Movie>, name: String): (r: seq<Movie>)
    ensures IsSubseq(r, movies)
    ensures forall m :: m in r <==> m in movies && FieldMatches(m.producer, ToLower(name))
    ensures forall m :: multiset(r)[m] == if FieldMatches(m.producer, ToLower(name)) then multiset(movies)[m] else 0
  {
    FilterCount(movies, DirectorTest(name));
    Filter(movies, DirectorTest(name))
  }

  /** `getMoviesByActor`: the name is looked for in every cast name. */
  function ByActor(movies: seq<Movie>, name: String): (r: seq<Movie>)
    ensures IsSubseq(r, movies)
    ensures forall m :: m in r <==> m in movies && CastMatches(m, ToLower(name))
    ensures forall m :: multiset(r)[m] == if CastMatches(m, ToLower(name)) then multiset(movies)[m] else 0
  {
    FilterCount(movies, ActorTest(name));
    Filter(movies, ActorTest(name))
  }

  /** `searchMovies`. */
  function Search(movies: seq<Movie>, query: String): (r: seq<Movie>)
    ensures IsSubseq(r, movies)
    ensures forall m :: m in r <==> m in movies && SearchHit(m, ToLower(query))
    ensures forall m :: multiset(r)[m] == if SearchHit(m, ToLower(query)) then multiset(movies)[m] else 0
  {
    FilterCount(movies, SearchTest(query));
    Filter(movies, SearchTest(query))
  }

  /** A movie the empty query can find: one with a non-empty searched field. */
  predicate Searchable(m: Movie) {
    TruthyStr(m.movieName) || TruthyStr(m.producer) || TruthyStr(m.genre)
    || (m.cast.Some? && exists k :: 0 <= k < |m.cast.value| && m.cast.value[k].Some? && TruthyStr(m.cast.value[k].value.name))
  }

  /** The empty query is not special-cased: it keeps, in order, every movie
      with at least one non-empty searched field. */
  lemma SearchEmptyQuery(movies: seq<Movie>)
    ensures Search(movies, "") == Filter(movies, Searchable)
  {
    assert ToLower("") == "";
    forall s: String ensures Contains(ToLower(s), "") { ContainsEmpty(ToLower(s)); }
    FilterCongruent(movies, SearchTest(""), Searchable);
  }

  /** The queries are lower-cased before the test, so their case is
      irrelevant. */
  lemma QueryCaseIrrelevant(movies: seq<Movie>, q: String)
    ensures ByGenre(movies, q) == ByGenre(movies, ToLower(q))
    ensures ByDirector(movies, q) == ByDirector(movies, ToLower(q))
    ensures ByActor(movies, q) == ByActor(movies, ToLower(q))
    ensures Search(movies, q) == Search(movies, ToLower(q))
  {
    ToLowerIdempotent(q);
    FilterCongruent(movies, GenreTest(q), GenreTest(ToLower(q)));
    FilterCongruent(movies, DirectorTest(q), DirectorTest(ToLower(q)));
    FilterCongruent(movies, ActorTest(q), ActorTest(ToLower(q)));
    FilterCongruent(movies, SearchTest(q), SearchTest(ToLower(q)));
  }

  /** Search is the logical OR of the field filters: whatever the genre,
      director or actor filter keeps for the same text, search keeps too,
      in the same order. */
  lemma SearchCoversFieldFilters(movies: seq<Movie>, q: String)
    ensures IsSubseq(ByGenre(movies, q), Search(movies, q))
    ensures IsSubseq(ByDirector(movies, q), Search(movies, q))
    ensures IsSubseq(ByActor(movies, q), Search(movies, q))
  {
    FilterMonotone(movies, GenreTest(q), SearchTest(q));
    FilterMonotone(movies, DirectorTest(q), SearchTest(q));
    FilterMonotone(movies, ActorTest(q), SearchTest(q));
  }

  // ---------------------------------------------------------------------
  // details and the personal readers' defaults
  // ---------------------------------------------------------------------

  /** `getMovieDetails(movieId)`: a truthy body of `GET /movies/{id}`, else the
      first catalogue movie whose id is strictly equal, else null. */
  function MovieDetails(direct: Reply<Option<Movie>>, movies: seq<Movie>, movieId: int): (r: Option<Movie>)
    ensures direct.Ok? && direct.data.Some? ==> r == direct.data
    ensures !(direct.Ok? && direct.data.Some?) ==>
      (r.None? <==> forall k :: 0 <= k < |movies| ==> movies[k].id != Some(movieId))
    ensures !(direct.Ok? && direct.data.Some?) && r.Some? ==>
      exists i :: 0 <= i < |movies| && r.value == movies[i] && movies[i].id == Some(movieId)
        && forall k :: 0 <= k < i ==> movies[k].id != Some(movieId)
  {
    if direct.Ok? && direct.data.Some? then direct.data
    else FindFirst(movies, (m: Movie) => m.id == Some(movieId))
  }

  /** `getMovieRating`: the server's summary, or zero average and count for
      the asked id when the request fails or the body is falsy. */
  function MovieRating(reply: Reply<Option<RatingSummary>>, movieId: MovieId): (r: RatingSummary)
    ensures reply.Ok? && reply.data.Some? ==> r == reply.data.value
    ensures !(reply.Ok? && reply.data.Some?) ==> r == RatingSummary(movieId, 0.0, 0)
  {
    if reply.Ok? && reply.data.Some? then reply.data.value else RatingSummary(movieId, 0.0, 0)
  }

  /** `getMovieReviews`, `getUserFavorites`, `getUserWatchlist` and
      `getUserWatched`: the listed body, or the empty list. */
  function ListOrEmpty<T>(reply: Reply<Option<seq<T>>>): (r: seq<T>)
    ensures reply.Ok? && reply.data.Some? ==> r == reply.data.value
    ensures !(reply.Ok? && reply.data.Some?) ==> r == []
  {
    if reply.Ok? && reply.data.Some? then reply.data.value else []
  }

  /** `isMovieWatched`: `data.watched || false`; `None` is a null body or one
      without `watched`, which are read as false like a failed request. */
  function WatchedFlag(reply: Reply<Option<bool>>): (r: bool)
    ensures r <==> reply == Ok(Some(true))
  {
    match reply
    case Ok(Some(w)) => w
    case _ => false
  }

  // ---------------------------------------------------------------------
  // genre tokens
  // ---------------------------------------------------------------------

  /** `s.split(',').map(g => g.trim())`. */
  function TrimmedParts(s: String): (r: seq<String>)
    ensures |r| == |Split(s, ',')| && forall k :: 0 <= k < |r| ==> r[k] == Trim(Split(s, ',')[k])
  {
    var parts := Split(s, ',');
    seq(|parts|, k requires 0 <= k < |parts| => Trim(parts[k]))
  }

  /** The genre tokens of a movie with a truthy genre, empty ones included;
      none for a movie without one. */
  function GenreTokens(m: Movie): seq<String> {
    if TruthyStr(m.genre) then TrimmedParts(m.genre.value) else []
  }
}
