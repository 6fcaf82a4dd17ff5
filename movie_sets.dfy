/**
 * The name sets of the movies service: `getCategories`, `getDirectors` and
 * `getActors` fill a `Set` while walking the catalogue and read it back
 * with `Array.from`, the last two sorted.
 *
 * Each is a method with the service's loops, proved equal to a function
 * that lists the strings the loops add in the order they add them; the
 * properties are lemmas about those functions.
 */
module MovieSets {
  import opened Wrappers
  import opened JsString
  import opened Seqs
  import opened Movies

  predicate NonEmpty(t: String) { t != [] }

  /** The set read back holds what was added. */
  lemma DistinctMembers(xs: seq<String>)
    ensures forall t :: t in Distinct(xs) <==> t in xs
  {
    var d := Distinct(xs);
    forall t | t in d ensures t in xs {
      var k :| 0 <= k < |d| && d[k] == t;
    }
    forall t | t in xs ensures t in d {
      var k :| 0 <= k < |xs| && xs[k] == t;
    }
  }

  // ---------------------------------------------------------------------
  // getCategories
  // ---------------------------------------------------------------------

  /** The genre tokens `getCategories` adds, movie after movie. */
  function CategoryStream(movies: seq<Movie>): seq<String> {
    if movies == [] then []
    else CategoryStream(movies[..|movies| - 1]) + Filter(GenreTokens(movies[|movies| - 1]), NonEmpty)
  }

  /** What one movie adds to the stream: its non-empty tokens when its
      genre is truthy, nothing otherwise. */
  lemma CategoryStep(movies: seq<Movie>, i: nat)
    requires i < |movies|
    ensures TruthyStr(movies[i].genre) ==>
      CategoryStream(movies[..i + 1]) == CategoryStream(movies[..i]) + Filter(TrimmedParts(movies[i].genre.value), NonEmpty)
    ensures !TruthyStr(movies[i].genre) ==> CategoryStream(movies[..i + 1]) == CategoryStream(movies[..i])
  {
    assert movies[..i + 1][..i] == movies[..i];
    if !TruthyStr(movies[i].genre) {
      assert Filter(GenreTokens(movies[i]), NonEmpty) == [];
    }
  }

  /** `getCategories`. */
  function Categories(movies: seq<Movie>): seq<String> {
    Distinct(CategoryStream(movies))
  }

  /** The stream holds exactly the non-empty trimmed tokens of the
      catalogue's genres. */
  lemma {:induction false} CategoryStreamMembers(movies: seq<Movie>)
    ensures forall t :: t in CategoryStream(movies) <==>
      t != [] && exists i :: 0 <= i < |movies| && t in GenreTokens(movies[i])
  {
    if movies != [] {
      var n := |movies| - 1;
      var init, last := movies[..n], movies[n];
      CategoryStreamMembers(init);
      var f := Filter(GenreTokens(last), NonEmpty);
      assert CategoryStream(movies) == CategoryStream(init) + f;
      forall t ensures t in CategoryStream(movies) <==>
        t != [] && exists i :: 0 <= i < |movies| && t in GenreTokens(movies[i])
      {
        if t in f {
          var k :| 0 <= k < |f| && f[k] == t;
          assert NonEmpty(f[k]) && f[k] in GenreTokens(last);
          assert movies[n] == last;
        }
        if t in CategoryStream(init) {
          var i :| 0 <= i < |init| && t in GenreTokens(init[i]);
          assert movies[i] == init[i];
        }
        if t != [] && exists i :: 0 <= i < |movies| && t in GenreTokens(movies[i]) {
          var i :| 0 <= i < |movies| && t in GenreTokens(movies[i]);
          if i == n {
            var k :| 0 <= k < |GenreTokens(last)| && GenreTokens(last)[k] == t;
            assert NonEmpty(GenreTokens(last)[k]);
            assert t in f;
          } else {
            assert init[i] == movies[i];
          }
        }
      }
    }
  }

  /** The categories: no duplicates (case-sensitively), exactly the trimmed
      non-empty comma-separated genre tokens of the catalogue, in the order
      each was first met. */
  lemma CategoriesFacts(movies: seq<Movie>)
    ensures NoDup(Categories(movies))
    ensures forall t :: t in Categories(movies) <==>
      t != [] && exists i :: 0 <= i < |movies| && t in GenreTokens(movies[i])
    ensures forall i, j :: 0 <= i < j < |Categories(movies)| ==>
      FirstIndex(CategoryStream(movies), Categories(movies)[i]) < FirstIndex(CategoryStream(movies), Categories(movies)[j])
  {
    var xs := CategoryStream(movies);
    CategoryStreamMembers(movies);
    DistinctMembers(xs);
    DistinctFirstSeenOrder(xs);
  }

  /** One token of the inner loop of `getCategories`. */
  lemma TokenStep(base: seq<String>, toks: seq<String>, j: nat)
    requires j < |toks|
    ensures Distinct(base + Filter(toks[..j + 1], NonEmpty)) ==
      if toks[j] != [] then SetAdd(Distinct(base + Filter(toks[..j], NonEmpty)), toks[j])
      else Distinct(base + Filter(toks[..j], NonEmpty))
  {
    assert toks[..j + 1] == toks[..j] + [toks[j]];
    FilterAppend(toks[..j], [toks[j]], NonEmpty);
    if toks[j] != [] {
      assert base + Filter(toks[..j + 1], NonEmpty) == (base + Filter(toks[..j], NonEmpty)) + [toks[j]];
      DistinctSnoc(base + Filter(toks[..j], NonEmpty), toks[j]);
    } else {
      assert Filter(toks[..j + 1], NonEmpty) == Filter(toks[..j], NonEmpty);
    }
  }

  /** `getCategories` with its two `forEach` loops. */
  method GetCategories(movies: seq<Movie>) returns (genres: seq<String>)
    ensures genres == Categories(movies)
  {
    genres := [];
    for i := 0 to |movies|
      invariant genres == Distinct(CategoryStream(movies[..i]))
    {
      var movie := movies[i];
      CategoryStep(movies, i);
      ghost var before := CategoryStream(movies[..i]);
      if TruthyStr(movie.genre) {
        var movieGenres := TrimmedParts(movie.genre.value);
        FilterNone(before, movieGenres, NonEmpty);
        for j := 0 to |movieGenres|
          invariant genres == Distinct(before + Filter(movieGenres[..j], NonEmpty))
        {
          TokenStep(before, movieGenres, j);
          if movieGenres[j] != [] {
            genres := SetAdd(genres, movieGenres[j]);
          }
        }
        assert movieGenres[..|movieGenres|] == movieGenres;
      }
    }
    assert movies[..|movies|] == movies;
  }

  // ---------------------------------------------------------------------
  // getDirectors
  // ---------------------------------------------------------------------

  /** What `getDirectors` adds for one movie: its trimmed producer, if that
      is non-empty. */
  function ProducerName(m: Movie): seq<String> {
    if TruthyStr(m.producer) && Trim(m.producer.value) != [] then [Trim(m.producer.value)] else []
  }

  /** Whether `t` is the trimmed producer of the movie. */
  predicate Produces(m: Movie, t: String) {
    TruthyStr(m.producer) && t == Trim(m.producer.value)
  }

  lemma ProducerNameMembers(m: Movie)
    ensures forall t :: t in ProducerName(m) <==> t != [] && Produces(m, t)
  {
  }

  /** Whether `t` is the trimmed producer of a catalogue movie. */
  predicate ProducesIn(movies: seq<Movie>, t: String) {
    exists i :: 0 <= i < |movies| && Produces(movies[i], t)
  }

  function DirectorStream(movies: seq<Movie>): seq<String> {
    ConcatMap(movies, ProducerName)
  }

  /** `getDirectors`. */
  function Directors(movies: seq<Movie>): seq<String> {
    SortAsc(Distinct(DirectorStream(movies)))
  }

  lemma DirectorStreamMembers(movies: seq<Movie>)
    ensures forall t :: t in DirectorStream(movies) <==> t != [] && ProducesIn(movies, t)
  {
    ConcatMapMembers(movies, ProducerName);
    forall i | 0 <= i < |movies| {
      ProducerNameMembers(movies[i]);
    }
  }

  /** The directors: sorted ascending without duplicates (so strictly
      increasing), exactly the non-empty trimmed producers of the catalogue. */
  lemma DirectorsFacts(movies: seq<Movie>)
    ensures SortedAsc(Directors(movies)) && NoDup(Directors(movies))
    ensures forall i, j :: 0 <= i < j < |Directors(movies)| ==> !LexLe(Directors(movies)[j], Directors(movies)[i])
    ensures forall t :: t in Directors(movies) <==> t != [] && ProducesIn(movies, t)
  {
    var d := Distinct(DirectorStream(movies));
    DirectorStreamMembers(movies);
    DistinctMembers(DirectorStream(movies));
    NoDupPermutation(SortAsc(d), d);
    SortedDistinctStrict(SortAsc(d));
    assert forall t :: t in SortAsc(d) <==> t in multiset(d);
  }

  /** `getDirectors` with its `forEach` loop and the final sort. */
  method GetDirectors(movies: seq<Movie>) returns (directors: seq<String>)
    ensures directors == Directors(movies)
  {
    var names := [];
    for i := 0 to |movies|
      invariant names == Distinct(DirectorStream(movies[..i]))
    {
      var movie := movies[i];
      ConcatMapStep(movies, ProducerName, i);
      if TruthyStr(movie.producer) && Trim(movie.producer.value) != [] {
        DistinctSnoc(DirectorStream(movies[..i]), Trim(movie.producer.value));
        names := SetAdd(names, Trim(movie.producer.value));
      } else {
        assert ProducerName(movie) == [];
        assert DirectorStream(movies[..i + 1]) == DirectorStream(movies[..i]);
      }
    }
    assert movies[..|movies|] == movies;
    directors := SortAsc(names);
  }

  // ---------------------------------------------------------------------
  // getActors
  // ---------------------------------------------------------------------

  /** What `getActors` adds for one cast entry. */
  function ActorName(a: Option<Actor>): seq<String> {
    if a.Some? && TruthyStr(a.value.name) && Trim(a.value.name.value) != [] then [Trim(a.value.name.value)] else []
  }

  /** Whether `t` is the trimmed name of the cast entry. */
  predicate Names(a: Option<Actor>, t: String) {
    a.Some? && TruthyStr(a.value.name) && t == Trim(a.value.name.value)
  }

  lemma ActorNameMembers(a: Option<Actor>)
    ensures forall t :: t in ActorName(a) <==> t != [] && Names(a, t)
  {
  }

  /** What `getActors` adds for one cast array. */
  function CastNames(cast: seq<Option<Actor>>): seq<String> {
    ConcatMap(cast, ActorName)
  }

  /** What `getActors` adds for one movie: nothing without a cast array. */
  function MovieActorNames(m: Movie): seq<String> {
    if m.cast.Some? then CastNames(m.cast.value) else []
  }

  function ActorStream(movies: seq<Movie>): seq<String> {
    ConcatMap(movies, MovieActorNames)
  }

  /** `getActors`. */
  function Actors(movies: seq<Movie>): seq<String> {
    SortAsc(Distinct(ActorStream(movies)))
  }

  /** Whether `t` is the trimmed name of an entry of the cast. */
  predicate NamedIn(cast: seq<Option<Actor>>, t: String) {
    exists k :: 0 <= k < |cast| && Names(cast[k], t)
  }

  /** Whether `t` is the trimmed name of a cast entry of a catalogue movie. */
  predicate ActsIn(movies: seq<Movie>, t: String) {
    exists i :: 0 <= i < |movies| && movies[i].cast.Some? && NamedIn(movies[i].cast.value, t)
  }

  lemma MovieActorNamesMembers(m: Movie)
    ensures forall t :: t in MovieActorNames(m) <==> t != [] && m.cast.Some? && NamedIn(m.cast.value, t)
  {
    if m.cast.Some? {
      var cast := m.cast.value;
      ConcatMapMembers(cast, ActorName);
      forall k | 0 <= k < |cast| {
        ActorNameMembers(cast[k]);
      }
    }
  }

  lemma ActorStreamMembers(movies: seq<Movie>)
    ensures forall t :: t in ActorStream(movies) <==> t != [] && ActsIn(movies, t)
  {
    ConcatMapMembers(movies, MovieActorNames);
    forall i | 0 <= i < |movies| {
      MovieActorNamesMembers(movies[i]);
    }
  }

  /** The actors: sorted ascending without duplicates, exactly the non-empty
      trimmed cast names of the catalogue. */
  lemma ActorsFacts(movies: seq<Movie>)
    ensures SortedAsc(Actors(movies)) && NoDup(Actors(movies))
    ensures forall i, j :: 0 <= i < j < |Actors(movies)| ==> !LexLe(Actors(movies)[j], Actors(movies)[i])
    ensures forall t :: t in Actors(movies) <==> t != [] && ActsIn(movies, t)
  {
    var d := Distinct(ActorStream(movies));
    ActorStreamMembers(movies);
    DistinctMembers(ActorStream(movies));
    NoDupPermutation(SortAsc(d), d);
    SortedDistinctStrict(SortAsc(d));
    assert forall t :: t in SortAsc(d) <==> t in multiset(d);
  }

  /** What one movie adds to the stream: the names of its cast array, or
      nothing without one. */
  lemma ActorStep(movies: seq<Movie>, i: nat)
    requires i < |movies|
    ensures movies[i].cast.Some? ==> ActorStream(movies[..i + 1]) == ActorStream(movies[..i]) + CastNames(movies[i].cast.value)
    ensures movies[i].cast.None? ==> ActorStream(movies[..i + 1]) == ActorStream(movies[..i])
    ensures movies[i].cast.Some? ==> ActorStream(movies[..i]) + CastNames(movies[i].cast.value[..0]) == ActorStream(movies[..i])
  {
    ConcatMapStep(movies, MovieActorNames, i);
    if movies[i].cast.Some? {
      assert movies[i].cast.value[..0] == [];
    }
  }

  /** One cast entry of the inner loop of `getActors`. */
  lemma CastEntryStep(base: seq<String>, cast: seq<Option<Actor>>, j: nat)
    requires j < |cast|
    ensures Distinct(base + CastNames(cast[..j + 1])) ==
      if ActorName(cast[j]) != [] then SetAdd(Distinct(base + CastNames(cast[..j])), ActorName(cast[j])[0])
      else Distinct(base + CastNames(cast[..j]))
  {
    ConcatMapStep(cast, ActorName, j);
    if ActorName(cast[j]) != [] {
      assert base + CastNames(cast[..j + 1]) == (base + CastNames(cast[..j])) + [ActorName(cast[j])[0]];
      DistinctSnoc(base + CastNames(cast[..j]), ActorName(cast[j])[0]);
    } else {
      assert CastNames(cast[..j + 1]) == CastNames(cast[..j]);
    }
  }

  /** `getActors` with its nested `forEach` loops and the final sort. */
  method GetActors(movies: seq<Movie>) returns (actors: seq<String>)
    ensures actors == Actors(movies)
  {
    var names: seq<String> := [];
    for i := 0 to |movies|
      invariant names == Distinct(ActorStream(movies[..i]))
    {
      var movie := movies[i];
      ActorStep(movies, i);
      ghost var before := ActorStream(movies[..i]);
      if movie.cast.Some? {
        var cast := movie.cast.value;
        for j := 0 to |cast|
          invariant names == Distinct(before + CastNames(cast[..j]))
        {
          CastEntryStep(before, cast, j);
          var actor := cast[j];
          if actor.Some? && TruthyStr(actor.value.name) && Trim(actor.value.name.value) != [] {
            names := SetAdd(names, Trim(actor.value.name.value));
          }
        }
        assert cast[..|cast|] == cast;
      }
    }
    assert movies[..|movies|] == movies;
    actors := SortAsc(names);
  }
}
