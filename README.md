# MovieHub client core, modelled in Dafny

MovieHub is a movie catalogue with a React Native client and a Spring
server. This project models the client's decision logic, with the REST
service and the device's key-value store replaced by explicit inputs. It
also models the server's `Movie` entity validation. It covers:

- **Catalogue service** (`movies.js`).
  - `getAllMovies` normalises any payload into a list of movies whose
    gallery is always a list.
  - The popular and latest rankings are the ten best by rating or year.
  - The substring filters by genre, producer, actor and free query.
  - The detail lookup tries the catalogue after a failed direct fetch.
  - Categories, directors and actors are de-duplicated with `Set`-filling
    loops.
  - The readers that default on failure.
- **Session** (`auth.js`, `api.js`).
  - One stored `userData` record under the device store, held by the class
    `Session.Store`.
  - `login`, `register` and `logout`, and their error-to-message
    classification.
  - The `isAuthenticated` gate.
  - The `Bearer` header added to every request.
  - The response interceptor, which clears the session on any 401.
- **Movie detail screen** (`MovieDetails.js`). The class
  `DetailScreen.DetailScreen` holds:
  - the screen's state fields;
  - the review, status and similar-movie loads;
  - the favourite toggle, with its fallback path;
  - the watched toggle;
  - review submission and deletion.

  The status-to-message classifier, the similar-movie filter and the
  YouTube id extraction are pure functions.
- **Profile, list, registration and sign-in screens** (`ProfilePage.js`,
  `MyListPage.js`, `RegisterPage.js`, `LoginPage.js`).
  - The per-movie loop that gathers a user's reviews.
  - The review summary text.
  - The tab choice of the list screen and what it renders.
  - The ordered validation chains of the two forms.
- **Server entity** (`Movie.java`): the `@NotBlank` and `@Size` constraints
  as a validity predicate over the entity.

How the environment is represented:

- Every remote call is a `Transport.Reply<T>`, either `Ok(data)` or
  `Fail(HttpError)`. The reply is passed in as a parameter. Each handler
  also returns the sequence of `Transport.Call`s it issues, in order.
- `JSON.parse` of a gallery is an abstract `Movies.Decoder`.
- The reviews of each movie come from a `Profile.ReviewsOracle`, a function
  of the movie id.
- The answer to a confirmation dialog is a `confirmed` parameter.
- Alerts are returned as `Alerts.Notice` values.

JavaScript's own string operations are written out in `JsString`.
`String.prototype.trim` uses the ECMAScript white-space and line-terminator
set. `toLowerCase` is covered for ASCII, Latin-1, and the Turkish `Ğ`, `Ş`
and `İ`. The module also covers `includes`, `split` and `join`, the UTF-16
`length`, number-to-text conversion, `parseInt`, and the default `sort`
order. Generic sequence operations are in `Seqs`:

- `filter`, `slice(0, n)` and `find`;
- a stable sort by descending key;
- flat-map;
- insertion-ordered de-duplication, as `Set` does;
- an ascending string sort.

The model follows the code's actual behaviour in three less obvious places.

- A `null` catalogue element makes `getAllMovies` return `[]`. Line 30
  dereferences it, and the catch at line 38 turns the resulting error into
  the empty list.
- An error response with no body makes `login` and `register` throw. Line
  52 reads `.message` of `undefined`, and the forms then show their generic
  message. This is modelled as `Session.AuthOutcome.Thrown`; no
  precondition excludes it.
- `checkAuthentication` starts `loadUserLists` without awaiting it. The
  model runs the two in sequence.

## Model

| member | source | states |
|---|---|---|
| JsString.TrimStart | MovieHubFrontend/Src/services/movies.js:64 | the leading white space `parseInt` skips: the result is a suffix, starts with a non-white character, and only white space was dropped |
| JsString.Trim | MovieHubFrontend/Src/Screens/RegisterPage.js:25 | `trim()` gives a string no longer than its input that neither starts nor ends with white space |
| JsString.TrimSlice | MovieHubFrontend/Src/Screens/RegisterPage.js:25 | `trim()` is a contiguous slice of its input, with only white space cut on either side |
| JsString.TrimEmptyIffBlank | MovieHubFrontend/Src/Screens/LoginPage.js:23 | `!s.trim()` holds exactly when every character of `s` is white space |
| JsString.BlankAppend | MovieHubFrontend/Src/Screens/RegisterPage.js:25 | two all-white strings concatenate to an all-white string |
| JsString.LowerChar | MovieHubFrontend/Src/services/movies.js:78 | lower-casing one character yields one or two characters |
| JsString.ToLower | MovieHubFrontend/Src/services/movies.js:78 | `toLowerCase()` never shortens a string and at most doubles it |
| JsString.ToLowerAppend | MovieHubFrontend/Src/services/movies.js:78 | lower-casing distributes over concatenation |
| JsString.ToLowerIdempotent | MovieHubFrontend/Src/services/movies.js:90 | lower-casing an already lower-cased query changes nothing |
| JsString.ContainsIffOccurs | MovieHubFrontend/Src/services/movies.js:78 | `includes` holds exactly when the needle occurs at some position of the haystack |
| JsString.ContainsEmpty | MovieHubFrontend/Src/services/movies.js:90-114 | every string includes the empty string |
| JsString.ContainsTooLong | MovieHubFrontend/Src/services/movies.js:78 | a needle longer than the haystack is never included |
| JsString.Split | MovieHubFrontend/Src/services/movies.js:231 | `split(sep)` yields at least one part, and no part contains the separator |
| JsString.JoinSplit | MovieHubFrontend/Src/services/movies.js:231 | joining the parts of a split with the same separator gives back the original string |
| JsString.SplitJoin | MovieHubFrontend/Src/Screens/ProfilePage.js:197-199 | splitting a join of separator-free parts gives back exactly those parts |
| JsString.SplitNoSep | MovieHubFrontend/Src/services/movies.js:231 | a string without the separator splits into itself alone |
| JsString.SplitPrefix | MovieHubFrontend/Src/Screens/ProfilePage.js:203 | a separator-free word followed by the separator splits off as the first part |
| JsString.Utf16Length | MovieHubFrontend/Src/Screens/RegisterPage.js:35 | `length` counts UTF-16 code units: at least one and at most two per character |
| JsString.NatToString | MovieHubFrontend/Src/Screens/ProfilePage.js:198 | a number prints as a non-empty run of decimal digits |
| JsString.DigitsValueOfNat | MovieHubFrontend/Src/Screens/ProfilePage.js:198 | the printed digits of a number read back as that number |
| JsString.DigitRun | MovieHubFrontend/Src/services/movies.js:64 | the longest prefix of decimal digits that `parseInt` reads |
| JsString.HexRun | MovieHubFrontend/Src/services/movies.js:64 | the longest prefix of hexadecimal digits that `parseInt` reads after `0x` |
| JsString.ParseIntSigned | MovieHubFrontend/Src/services/movies.js:64 | `parseInt` of a minus sign and digits is the negated digit value |
| JsString.ParseIntUnsigned | MovieHubFrontend/Src/services/movies.js:64 | `parseInt` of a digit string is its decimal value |
| JsString.ParseIntOfIntToString | MovieHubFrontend/Src/services/movies.js:64 | `parseInt` reads any printed integer back as itself |
| JsString.LexLeTotal | MovieHubFrontend/Src/services/movies.js:258 | the default `sort` order relates any two strings |
| JsString.LexLeAntisymmetric | MovieHubFrontend/Src/services/movies.js:258 | two strings ordered both ways are equal |
| JsString.LexLeTransitive | MovieHubFrontend/Src/services/movies.js:258 | the default `sort` order is transitive |
| Seqs.Filter | MovieHubFrontend/Src/services/movies.js:49 | `filter` keeps exactly the elements passing the test, as an order-preserving subsequence |
| Seqs.FilterCount | MovieHubFrontend/Src/services/movies.js:49 | each passing element is kept as many times as it occurs in the input and every other element is dropped, which with the subsequence clause determines the result |
| Seqs.FilterAppend | MovieHubFrontend/Src/services/movies.js:76-79 | filtering distributes over concatenation |
| Seqs.FilterMonotone | MovieHubFrontend/Src/services/movies.js:90-114 | a weaker test keeps a supersequence of what a stronger test keeps |
| Seqs.Take | MovieHubFrontend/Src/services/movies.js:51 | `slice(0, n)` is the prefix of length `min(n, length)` |
| Seqs.FindFirst | MovieHubFrontend/Src/services/movies.js:137 | `find` is absent exactly when no element passes, and is otherwise the first element that passes |
| Seqs.FindIndex | MovieHubFrontend/Src/services/movies.js:137 | the position `find` stops at: no earlier element passes, and the element there does |
| Seqs.SortDescCorrect | MovieHubFrontend/Src/services/movies.js:50 | the descending sort is ordered by key, is a permutation, and keeps the catalogue order among equal keys |
| Seqs.TopFacts | MovieHubFrontend/Src/services/movies.js:49-51 | the first `n` after sorting: exactly min(`n`, length) elements, ordered, drawn from the input, no left-out element ranked above a kept one, ties kept in order, and everything when the input has at most `n` |
| Seqs.ConcatMapMembers | MovieHubFrontend/Src/Screens/ProfilePage.js:83-99 | an element of the flat-map comes from the image of some input element, and every such element is in it |
| Seqs.SetAdd | MovieHubFrontend/Src/services/movies.js:233 | `Set.add` keeps the set duplicate-free, contains the new element, and adds nothing else |
| Seqs.Distinct | MovieHubFrontend/Src/services/movies.js:226-238 | the insertion-ordered set of a sequence is duplicate-free and holds exactly its elements |
| Seqs.NoDupCount | MovieHubFrontend/Src/services/movies.js:238 | duplicate-free means every element occurs at most once |
| Seqs.FirstIndex | MovieHubFrontend/Src/services/movies.js:238 | the first position of an element holds it, and no earlier position does |
| Seqs.DistinctFirstSeenOrder | MovieHubFrontend/Src/services/movies.js:238 | `Array.from(set)` lists elements in the order they were first added |
| Seqs.InsertAscFacts | MovieHubFrontend/Src/services/movies.js:258 | inserting into an ascending list keeps it ascending and adds exactly one occurrence |
| Seqs.SortAsc | MovieHubFrontend/Src/services/movies.js:258 | `sort()` yields an ascending permutation of its input |
| Seqs.SortedDistinctStrict | MovieHubFrontend/Src/services/movies.js:258 | an ascending, duplicate-free list is strictly increasing |
| Session.StoredUser | MovieHubFrontend/Src/services/auth.js:145-153 | `getStoredUserData` is the stored record when it reads and parses, and `null` otherwise |
| Session.UserId | MovieHubFrontend/Src/Screens/MyListPage.js:46 | a stored user with a truthy id has a non-zero id, and that id is the one read |
| Session.StoredToken | MovieHubFrontend/Src/services/api.js:48-61 | `getStoredToken` is the record's token, and `null` when there is no readable record |
| Session.RequestHeaders | MovieHubFrontend/Src/services/api.js:16-32 | `Authorization: Bearer <token>` is set exactly when the token is truthy; otherwise the headers go out unchanged |
| Session.AfterResponse | MovieHubFrontend/Src/services/api.js:35-45 | a 401 removes the stored record, and any other reply leaves it unchanged |
| Session.AuthSuccessIffData | MovieHubFrontend/Src/services/auth.js:14-27 | login and register succeed exactly when the response has data; they then store `{id, name: displayName, email, token: 'mock-token'}`; falsy data gives 'Giriş başarısız' / 'Kayıt başarısız' |
| Session.StatusMessageWins | MovieHubFrontend/Src/services/auth.js:38-46 | login's 401/404/500/400 and register's 400/409/500 give their fixed messages, whatever the body says |
| Session.ClassifyCases | MovieHubFrontend/Src/services/auth.js:34-62 | an unclassified status shows a text body, then `body.message`; a missing body throws; otherwise the network or default message |
| Session.LoginOpensGate | MovieHubFrontend/Src/services/auth.js:156-167 | after a successful login with a truthy id and e-mail the gate is open, and requests carry `Bearer mock-token` |
| Session.UnauthorizedClosesGate | MovieHubFrontend/Src/services/api.js:38-41 | after a 401 the gate is closed and no header is added; any other reply leaves the gate and the headers as they were |
| Session.UnreadableIsSignedOut | MovieHubFrontend/Src/services/api.js:56-60 | a missing or unparseable record means signed out, with no user, no token and no header |
| Session.Store.constructor | MovieHubFrontend/Src/services/auth.js:145-153 | the store starts with the given record |
| Session.Store.StoreUserData | MovieHubFrontend/Src/services/auth.js:171-177 | after `storeUserData` the store reads back exactly that record |
| Session.Store.ClearUserData | MovieHubFrontend/Src/services/auth.js:180-186 | after `clearUserData` nothing is stored and the gate is closed |
| Session.Store.Intercept | MovieHubFrontend/Src/services/api.js:35-45 | every reply reaches the caller unchanged, and the store is updated as a 401 demands |
| Session.Store.Login | MovieHubFrontend/Src/services/auth.js:7-64 | one `POST /users/login`; on success the stored record is the returned user; on failure the store changes only through a 401 |
| Session.Store.Register | MovieHubFrontend/Src/services/auth.js:67-119 | one `POST /users/register`; on success the stored record is the returned user; on failure the store changes only through a 401 |
| Session.Store.Logout | MovieHubFrontend/Src/services/auth.js:122-131 | one `POST /users/logout`, and the record is cleared even when that call fails |
| Movies.NormalGallery | MovieHubFrontend/Src/services/movies.js:20-32 | a list gallery is kept; a non-empty string is decoded, and kept only if it decodes to a list; anything else becomes `[]` |
| Movies.NormalizeAllFacts | MovieHubFrontend/Src/services/movies.js:16-35 | normalising fails exactly when some element is not an object; otherwise it keeps length and order and normalises each movie |
| Movies.AllMoviesFacts | MovieHubFrontend/Src/services/movies.js:5-42 | a failed request, falsy data or a non-object element gives `[]`; a single object becomes a one-element list; a list keeps length and order; every gallery in the result is a list |
| Movies.GetAllMovies | MovieHubFrontend/Src/services/movies.js:5-42 | the mapping loop over the payload computes exactly the normalised catalogue |
| Movies.PopularRanking | MovieHubFrontend/Src/services/movies.js:45-56 | exactly 10 movies, or every rated movie when fewer are rated, each with a non-zero rating, best first, drawn from the rated movies, none left out rated above a kept one, ties in catalogue order, and all rated movies when there are at most 10 |
| Movies.LatestRanking | MovieHubFrontend/Src/services/movies.js:59-70 | exactly 10 movies, or every dated movie when fewer are dated, each with a truthy year, newest first, drawn from the dated movies, none left out newer than a kept one, ties in catalogue order, and all dated movies when there are at most 10 |
| Movies.ByGenre | MovieHubFrontend/Src/services/movies.js:73-84 | the order-preserving subsequence of movies whose lower-cased whole genre string includes the lower-cased tag, each kept as many times as it occurs |
| Movies.ByDirector | MovieHubFrontend/Src/services/movies.js:266-277 | the order-preserving subsequence of movies whose lower-cased producer includes the lower-cased name, each kept as many times as it occurs |
| Movies.ByActor | MovieHubFrontend/Src/services/movies.js:303-317 | the order-preserving subsequence of movies with a cast name that includes the lower-cased name, each kept as many times as it occurs |
| Movies.Search | MovieHubFrontend/Src/services/movies.js:87-120 | a movie is kept iff the lower-cased query is in its name, producer, genre or a cast name; order is preserved and each kept movie appears as many times as in the catalogue |
| Movies.SearchEmptyQuery | MovieHubFrontend/Src/services/movies.js:90-114 | the empty query is not special: it keeps exactly the movies with some non-empty searched field |
| Movies.QueryCaseIrrelevant | MovieHubFrontend/Src/services/movies.js:90 | the four filters give the same result for a query and its lower-cased form |
| Movies.SearchCoversFieldFilters | MovieHubFrontend/Src/services/movies.js:87-120 | whatever the genre, producer or actor filter keeps, the free search keeps too, in the same order |
| Movies.MovieDetails | MovieHubFrontend/Src/services/movies.js:123-143 | a truthy direct response wins; otherwise the first catalogue movie whose id is strictly equal, and `null` when there is none |
| Movies.MovieRating | MovieHubFrontend/Src/services/movies.js:396-404 | the server's rating, or `{movieId, average: 0, count: 0}` on failure or no data |
| Movies.ListOrEmpty | MovieHubFrontend/Src/services/movies.js:146-154 | the returned list, or `[]` on failure or a falsy body |
| Movies.WatchedFlag | MovieHubFrontend/Src/services/movies.js:359-367 | watched exactly when the server answered `true` |
| Movies.TrimmedParts | MovieHubFrontend/Src/services/movies.js:231 | the comma-separated parts of a string, each trimmed, one per part |
| MovieSets.DistinctMembers | MovieHubFrontend/Src/services/movies.js:226-238 | the set holds exactly the names added to it |
| MovieSets.CategoryStreamMembers | MovieHubFrontend/Src/services/movies.js:228-236 | the tokens added are exactly the non-empty trimmed genre tokens of some movie |
| MovieSets.CategoriesFacts | MovieHubFrontend/Src/services/movies.js:223-243 | the categories are duplicate-free, are exactly the non-empty trimmed genre tokens, and come in first-seen order |
| MovieSets.GetCategories | MovieHubFrontend/Src/services/movies.js:223-243 | the nested `forEach` loops compute exactly the categories |
| MovieSets.ProducerNameMembers | MovieHubFrontend/Src/services/movies.js:252-254 | a movie contributes its trimmed producer exactly when that is non-empty |
| MovieSets.DirectorStreamMembers | MovieHubFrontend/Src/services/movies.js:251-256 | the names added are exactly the non-empty trimmed producers |
| MovieSets.DirectorsFacts | MovieHubFrontend/Src/services/movies.js:246-263 | the directors are strictly ascending, duplicate-free, and exactly the non-empty trimmed producers |
| MovieSets.GetDirectors | MovieHubFrontend/Src/services/movies.js:246-263 | the loop and the sort compute exactly the directors |
| MovieSets.ActorNameMembers | MovieHubFrontend/Src/services/movies.js:288-289 | a cast entry contributes its trimmed name exactly when that is non-empty |
| MovieSets.MovieActorNamesMembers | MovieHubFrontend/Src/services/movies.js:286-291 | a movie contributes exactly the non-empty trimmed names of a list cast |
| MovieSets.ActorStreamMembers | MovieHubFrontend/Src/services/movies.js:285-293 | the names added are exactly the non-empty trimmed cast names of some movie |
| MovieSets.ActorsFacts | MovieHubFrontend/Src/services/movies.js:280-300 | the actors are strictly ascending, duplicate-free, and exactly the non-empty trimmed cast names |
| MovieSets.GetActors | MovieHubFrontend/Src/services/movies.js:280-300 | the nested loops and the sort compute exactly the actors |
| DetailScreen.DetailErrorMessage | MovieHubFrontend/Src/Screens/MovieDetails.js:196-208 | the reported message is one of the three fixed texts, the handler's default, or, when there is no response, the error's own message |
| DetailScreen.DetailErrorCases | MovieHubFrontend/Src/Screens/MovieDetails.js:283-295 | 404, 400 and 500 give 'Film bulunamadı', 'Geçersiz istek' and 'Sunucu hatası'; other statuses keep the default; no response gives `error.message` when set |
| DetailScreen.ResponseHidesMessage | MovieHubFrontend/Src/Screens/MovieDetails.js:196-208 | with a response, `error.message` never shows; without one, a non-empty message does |
| DetailScreen.FavoriteToggle | MovieHubFrontend/Src/Screens/MovieDetails.js:171-210 | not favourite: one add, favourite on success; favourite: a remove, then one add only if it failed; either success unsets it; if both fail the remove error is reported and the flag stays |
| DetailScreen.FavoriteFlipsOnSuccess | MovieHubFrontend/Src/Screens/MovieDetails.js:171-193 | the flag flips exactly when the alert is a success, and stays exactly when it is an error |
| DetailScreen.RemoveErrorWins | MovieHubFrontend/Src/Screens/MovieDetails.js:177-187 | when remove and fallback add both fail, the outcome does not depend on the add error, and the message classifies the remove error |
| DetailScreen.AddOnlyAsFallback | MovieHubFrontend/Src/Screens/MovieDetails.js:171-176 | a successful remove issues no add, and the add reply is irrelevant |
| DetailScreen.WatchedToggle | MovieHubFrontend/Src/Screens/MovieDetails.js:277-295 | on success the flag is the server's `result.watched` with its message; on failure the flag stays and the error is classified |
| DetailScreen.WatchedFromServer | MovieHubFrontend/Src/Screens/MovieDetails.js:277-278 | the new flag does not depend on the previous one |
| DetailScreen.OwnReview | MovieHubFrontend/Src/Screens/MovieDetails.js:62-67 | signed out: the previous pick stays; signed in: the first review whose userId equals the user's id, or none when no review matches |
| DetailScreen.SimilarMovies | MovieHubFrontend/Src/Screens/MovieDetails.js:74-102 | at most 6 movies, in catalogue order, none with the target's id, each sharing an exact trimmed genre token with the target; which six are kept is stated by SimilarComplete |
| DetailScreen.SimilarComplete | MovieHubFrontend/Src/Screens/MovieDetails.js:85-97 | the result is the first 6 eligible movies in catalogue order, or all of them when fewer are eligible: below the cap every eligible movie is included, and with 6 or more exactly 6 are shown |
| DetailScreen.NoGenreNoSimilar | MovieHubFrontend/Src/Screens/MovieDetails.js:75-77 | a target without a genre has no similar movies |
| DetailScreen.IdStart | MovieHubFrontend/Src/Screens/MovieDetails.js:126-130 | an alternative of the pattern matches at a position, followed by an id character, exactly when an id start is found there |
| DetailScreen.RunFrom | MovieHubFrontend/Src/Screens/MovieDetails.js:128 | the run of id characters from a position stops at the first `&`, `?`, `#`, newline or the end |
| DetailScreen.YouTubeVideoId | MovieHubFrontend/Src/Screens/MovieDetails.js:126-130 | a falsy URL gives `null` |
| DetailScreen.IdSearchFacts | MovieHubFrontend/Src/Screens/MovieDetails.js:128-129 | the search fails exactly when no position starts an id; otherwise it returns the run at the leftmost start |
| DetailScreen.IdSearchFound | MovieHubFrontend/Src/Screens/MovieDetails.js:128-129 | a found id is non-empty, has no stop character, is maximal, and follows a prefix at the leftmost match |
| DetailScreen.YouTubeVideoIdFacts | MovieHubFrontend/Src/Screens/MovieDetails.js:126-130 | `null` exactly for a falsy URL or no match; otherwise the non-empty maximal id after the leftmost `youtube.com/embed/`, `youtu.be/` or `youtube.com/watch?v=` |
| DetailScreen.DetailScreen.constructor | MovieHubFrontend/Src/Screens/MovieDetails.js:27-38 | the initial state: not favourite, not watched, no reviews, rating 0/0, form hidden with rating 5 and an empty comment |
| DetailScreen.DetailScreen.LoadReviews | MovieHubFrontend/Src/Screens/MovieDetails.js:48-72 | reviews and rating are fetched, with defaults on failure; the own review is picked from the new list; nothing happens without a movie |
| DetailScreen.DetailScreen.CheckMovieStatus | MovieHubFrontend/Src/Screens/MovieDetails.js:104-124 | signed out: no call and no state change; signed in: favourite iff the movie's id is in the favourites, watched iff the server says `true` |
| DetailScreen.DetailScreen.LoadSimilarMovies | MovieHubFrontend/Src/Screens/MovieDetails.js:74-102 | without a genre nothing is fetched; otherwise the similar movies of the normalised catalogue |
| DetailScreen.DetailScreen.HandleAddToFavorites | MovieHubFrontend/Src/Screens/MovieDetails.js:144-214 | signed out: the login offer, no call, state unchanged; signed in: the calls, flag and alert of the toggle, and loading ends off |
| DetailScreen.DetailScreen.HandleToggleWatched | MovieHubFrontend/Src/Screens/MovieDetails.js:250-301 | signed out: the login offer, no call, state unchanged; signed in: one toggle call, the flag from the server, and loading ends off |
| DetailScreen.DetailScreen.HandleSubmitReview | MovieHubFrontend/Src/Screens/MovieDetails.js:303-352 | a blank comment is rejected before the gate; signed out: no call; success: sends the trimmed comment, reloads the reviews and the rating, then resets the form to hidden, '' and 5; failure: the form is untouched |
| DetailScreen.DetailScreen.CloseReviewForm | MovieHubFrontend/Src/Screens/MovieDetails.js:341-343 | the form is hidden, the comment cleared and the rating back to 5; nothing else in the screen changes |
| DetailScreen.DetailScreen.HandleDeleteReview | MovieHubFrontend/Src/Screens/MovieDetails.js:354-398 | nothing happens unless 'Sil' is chosen; then one delete, and after success the reloads; after failure only the error |
| Profile.OwnReviewIn | MovieHubFrontend/Src/Screens/ProfilePage.js:85-86 | the review picked for a movie belongs to the user |
| Profile.Annotated | MovieHubFrontend/Src/Screens/ProfilePage.js:88-94 | each reviewed movie contributes its own review with the movie's name and poster, in order |
| Profile.UserReviewsAsFilter | MovieHubFrontend/Src/Screens/ProfilePage.js:83-99 | the gathered list is the annotated, order-preserving subsequence of movies with an own review |
| Profile.UserReviewsCount | MovieHubFrontend/Src/Screens/ProfilePage.js:83-99 | at most one review per movie |
| Profile.UserReviewsOwn | MovieHubFrontend/Src/Screens/ProfilePage.js:86 | every gathered review is the user's |
| Profile.UserReviewsComplete | MovieHubFrontend/Src/Screens/ProfilePage.js:88-94 | every movie with an own review contributes it |
| Profile.UserReviewsFacts | MovieHubFrontend/Src/Screens/ProfilePage.js:83-102 | at most one per movie, all the user's, and none missed |
| Profile.ReviewCallsFacts | MovieHubFrontend/Src/Screens/ProfilePage.js:85 | one review request per catalogue movie, in catalogue order |
| Profile.ReviewsStoreFacts | MovieHubFrontend/Src/Screens/ProfilePage.js:85 | the per-movie requests clear the session iff one of them answers 401 |
| Profile.ReviewLines | MovieHubFrontend/Src/Screens/ProfilePage.js:197-198 | one summary line per review, in order |
| Profile.ReviewsSummary | MovieHubFrontend/Src/Screens/ProfilePage.js:189-206 | no reviews: the information 'Henüz hiç yorum yapmamışsınız.'; otherwise the 'Yorumlarım' alert |
| Profile.SummaryLines | MovieHubFrontend/Src/Screens/ProfilePage.js:197-203 | read back line by line, the summary is the count header, an empty line, and one line per review in order |
| Profile.MyFavoritesAction | MovieHubFrontend/Src/Screens/ProfilePage.js:169-185 | the list opens on the favourites exactly when the gate is open; otherwise the login offer is shown |
| Profile.ProfileScreen.constructor | MovieHubFrontend/Src/Screens/ProfilePage.js:17-22 | the initial state: no user, loading, all counts 0, no reviews |
| Profile.ProfileScreen.LoadUserReviews | MovieHubFrontend/Src/Screens/ProfilePage.js:76-108 | the loop over the catalogue issues one review request per movie and gathers exactly the user reviews; the count is their number |
| Profile.ProfileScreen.LoadUserProfile | MovieHubFrontend/Src/Screens/ProfilePage.js:34-74 | no user or id: all counts 0 and no reviews; otherwise counts are the list lengths and the reviews are gathered; loading ends off |
| Profile.ProfileScreen.HandleLogout | MovieHubFrontend/Src/Screens/ProfilePage.js:120-166 | cancelled: nothing; confirmed: one logout, the session cleared, the user unset, and the success alert |
| Profile.ProfileScreen.HandleMyReviews | MovieHubFrontend/Src/Screens/ProfilePage.js:189-206 | no reviews: the information; otherwise the 'Yorumlarım' alert whose lines are the header and one line per gathered review |
| Profile.SummaryCountsGathered | MovieHubFrontend/Src/Screens/ProfilePage.js:102-203 | after gathering, the summary's header counts the gathered reviews, between 1 and the catalogue size |
| MyList.InitialTab | MovieHubFrontend/Src/Screens/MyListPage.js:24 | the route's tab when truthy, else 'favorites' |
| MyList.CurrentMovies | MovieHubFrontend/Src/Screens/MyListPage.js:134 | the favourites exactly when the tab is 'favorites', else the watched list |
| MyList.Render | MovieHubFrontend/Src/Screens/MyListPage.js:122-192 | loading first, then the sign-in prompt; a listing is non-empty and is the current tab's list; the empty state only when that list is empty |
| MyList.RenderFollowsTab | MovieHubFrontend/Src/Screens/MyListPage.js:134-135 | title, list and empty-state message all follow the same choice of tab |
| MyList.ProfileOpensFavorites | MovieHubFrontend/Src/Screens/ProfilePage.js:184 | from the profile, a signed-in user lands on the favourites list |
| MyList.MyListScreen.constructor | MovieHubFrontend/Src/Screens/MyListPage.js:19-24 | the initial state: empty lists, loading, signed out, the initial tab |
| MyList.MyListScreen.SelectTab | MovieHubFrontend/Src/Screens/MyListPage.js:146-162 | only the active tab changes |
| MyList.MyListScreen.LoadUserLists | MovieHubFrontend/Src/Screens/MyListPage.js:41-63 | with a user id both lists are fetched and null bodies become `[]`; without one nothing is fetched; loading ends off |
| MyList.MyListScreen.CheckAuthentication | MovieHubFrontend/Src/Screens/MyListPage.js:30-39 | signed out: no list is loaded and loading ends off; signed in: both lists are loaded |
| MyList.MyListScreen.OnRefresh | MovieHubFrontend/Src/Screens/MyListPage.js:65-69 | the authentication check again, and refreshing ends off |
| MyList.CheckedRender | MovieHubFrontend/Src/Screens/MyListPage.js:130-192 | after the check a signed-out user sees the sign-in prompt, and a signed-in one sees the chosen tab's list |
| Forms.BlankIsWhiteSpace | MovieHubFrontend/Src/Screens/RegisterPage.js:25 | a field is blank exactly when it holds only white space |
| Forms.RegisterValidation | MovieHubFrontend/Src/Screens/RegisterPage.js:25-38 | first any blank field, then unequal passwords (untrimmed), then fewer than 6 UTF-16 units (untrimmed); each message iff its case, and no message iff all checks pass |
| Forms.PasswordNotTrimmed | MovieHubFrontend/Src/Screens/RegisterPage.js:30-38 | white space around the password counts for equality and length |
| Forms.RegisterNotice | MovieHubFrontend/Src/Screens/RegisterPage.js:44-56 | a success alert iff registration succeeded; a failure shows its message or 'Kayıt olunamadı'; a throw shows the generic message |
| Forms.LoginValidation | MovieHubFrontend/Src/Screens/LoginPage.js:23-26 | the request goes ahead iff neither field is blank |
| Forms.LoginNotice | MovieHubFrontend/Src/Screens/LoginPage.js:32-44 | a success alert iff sign-in succeeded; a failure shows its message or 'Giriş yapılamadı'; a throw shows 'Giriş yapılırken bir hata oluştu' |
| Forms.LoginReportsSession | MovieHubFrontend/Src/Screens/LoginPage.js:32-34 | the form reports success iff the server returned data, and the session then holds that account |
| Forms.LoginFailureMessages | MovieHubFrontend/Src/Screens/LoginPage.js:35-44 | a 401 shows the service's fixed text; an empty text body falls back to 'Giriş yapılamadı'; a missing body shows the generic message |
| Forms.RegisterPage.constructor | MovieHubFrontend/Src/Screens/RegisterPage.js:18-22 | empty fields, not loading |
| Forms.RegisterPage.HandleRegister | MovieHubFrontend/Src/Screens/RegisterPage.js:24-57 | a failed check only alerts, with no call; otherwise one request with the trimmed name and e-mail and the untrimmed password; loading ends off |
| Forms.LoginPage.constructor | MovieHubFrontend/Src/Screens/LoginPage.js:18-20 | empty fields, not loading |
| Forms.LoginPage.HandleLogin | MovieHubFrontend/Src/Screens/LoginPage.js:22-45 | blank fields only alert, with no call; otherwise one request with the trimmed e-mail and the untrimmed password; loading ends off |
| MovieEntity.JavaTrim | src/main/java/com/moviehub/MovieHub/domain/Movie.java:19 | Java's `trim` neither starts nor ends with a character at or below U+0020 |
| MovieEntity.JavaTrimEmptyIff | src/main/java/com/moviehub/MovieHub/domain/Movie.java:19 | trimming empties a string exactly when all its characters are at or below U+0020 |
| MovieEntity.NotBlankMeaning | src/main/java/com/moviehub/MovieHub/domain/Movie.java:19 | `@NotBlank` holds exactly for a non-null value with a character above U+0020 |
| MovieEntity.FieldViolations | src/main/java/com/moviehub/MovieHub/domain/Movie.java:19-45 | a field reports a blank violation iff it is blank, and a size violation iff it is non-null and outside its bounds (name 2..50, description 2..300, year 2..25, producer 2..25, genre 2..30) |
| MovieEntity.ValidIffFields | src/main/java/com/moviehub/MovieHub/domain/Movie.java:13-46 | each violation belongs to its own field, and a movie is valid iff every constrained field passes both checks |
| MovieEntity.NullIsOnlyBlank | src/main/java/com/moviehub/MovieHub/domain/Movie.java:19-20 | a null field violates `@NotBlank` only, since `@Size` accepts null |
| MovieEntity.BlankAndSizeIndependent | src/main/java/com/moviehub/MovieHub/domain/Movie.java:19-20 | two spaces are blank but long enough, and one letter is non-blank but too short |
| MovieEntity.UnconstrainedFields | src/main/java/com/moviehub/MovieHub/domain/Movie.java:14-17 | the id and the rating take no part in validation |
| MovieEntity.ServerAndClientBlankDiffer | src/main/java/com/moviehub/MovieHub/domain/Movie.java:19 | no-break spaces pass the server's `@NotBlank`, yet the client's `trim()` empties them |

## Left out

- The HTTP client, the device store and `JSON.parse` are not modelled. Replies, the stored record and the gallery decoder are parameters, and no I/O takes place.
- Storage write failures are not modelled. `setItem` and `removeItem` are assumed to succeed; their errors are only logged.
- `Promise.all` joins and any interleaving of handlers are not modelled. Each handler runs once, alone, and its replies are taken in the order the code issues the requests.
- The response interceptor starts `clearStoredToken()` without awaiting it (api.js:40). The model finishes the removal before the rejection reaches the caller. In the code, a later read in the same handler can still see the old record before the removal lands. An example is the `isAuthenticated()` after the `Promise.all` in `loadReviews` (MovieDetails.js:61).
- `checkAuthentication` starts `loadUserLists` without awaiting it. So in `onRefresh` the refresh indicator can go off before the lists arrive. The model completes the load first.
- Mounting and re-focusing through `useEffect` and `useFocusEffect` are not modelled. Each load is its own method.
- Confirmation dialogs are not modelled. The user's choice arrives as `confirmed`.
- Rendering, styles and navigation are not modelled. This covers:
  - the navigation after sign-in and registration;
  - movie, gallery and actor presses;
  - the home screen and the presentation components.
- Floating point is left out. Ratings are `real` values and only matter for ordering.
- Movies.LatestRanking: requires every dated movie's year to parse as an integer. A `NaN` comparator result would make the order implementation-defined.
- Some catches in the source cannot fire, because the services they guard catch their own errors:
  - ProfilePage.js 53-59 and 66-70;
  - `loadUserReviews`' outer catch;
  - MyListPage.js 56-59.

  These catches are not modelled. A reviews body that is not a list is not modelled either.
- A favourites or watched body that is neither `null` nor a list is not modelled; those replies carry a list or nothing. In the code such a body gives `undefined` counts in the profile (ProfilePage.js:48-49). It makes `.some` throw in the detail screen's status check (MovieDetails.js:113). The list screen stores it as it is (MyListPage.js:53).
- A `null` body of the watched toggle and `null` entries in the favourite, watched and review lists are not modelled. Lists hold movies and reviews only.
- JsString.ToLower: covers only ASCII, Latin-1, `Ğ`, `Ş` and `İ`. Every other character is left as it is.
- Directors and actors are sorted by code point. JavaScript compares UTF-16 code units, so the two orders differ only for characters outside the Basic Multilingual Plane.
- Profile.TemplateText: prints a missing movie name as `undefined`. It does not distinguish a `null` name, which prints as `null`.
- The server's validation message texts are not modelled, nor are the `@Column` database lengths. Only the set of violations is.
- The controller, service and repository of the server and its DTO are not part of this model.
