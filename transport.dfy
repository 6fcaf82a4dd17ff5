/**
 * The HTTP client seen from the services: each request is answered by an
 * oracle with either the response body or the error axios rejects with.
 * The calls a screen makes are recorded as `Call` values so that contracts
 * can say which requests were issued and with which arguments.
 */
module Transport {
  import opened Wrappers
  import opened JsString

  /** `error.response.data` of a rejected request. */
  datatype ErrorBody =
    | TextBody(text: String)                  // a string body
    | ObjectBody(message: Option<String>)     // any other non-null body, with its `message` property
    | NoBody                                  // null or undefined

  /** A rejected request. `status` is `None` exactly when there is no
      `error.response` (a network failure or a timeout); `code` and
      `message` are `error.code` and `error.message`. */
  datatype HttpError = HttpError(status: Option<int>, body: ErrorBody, code: String, message: String)

  /** What awaiting a request yields: its response data, or the error. */
  datatype Reply<T> = Ok(data: T) | Fail(error: HttpError)

  /** The response interceptor's test `error.response?.status === 401`. */
  predicate IsUnauthorized<T>(r: Reply<T>) {
    r.Fail? && r.error.status == Some(401)
  }

  /** A movie id as the screens hold it: a movie object may lack one. */
  type MovieId = Option<int>

  /** The requests of the REST interface the client uses. User ids are only
      sent after the screens have checked that they are truthy. */
  datatype Call =
    | GetMovies                                           // GET /movies
    | GetMovie(id: int)                                   // GET /movies/{id}
    | GetReviews(movieId: MovieId)                        // GET /movies/{id}/reviews
    | GetRating(movieId: MovieId)                         // GET /movies/{id}/rating
    | PostReview(movieId: MovieId, userId: int, rating: int, comment: String)
    | DeleteReview(movieId: MovieId, userId: int)         // DELETE /movies/{id}/reviews/{user}
    | GetFavorites(userId: int)                           // GET /users/{user}/favorites
    | PostFavorite(userId: int, movieId: MovieId)         // POST /users/{user}/favorites/{id}
    | DeleteFavorite(userId: int, movieId: MovieId)       // DELETE /users/{user}/favorites/{id}
    | GetWatched(userId: int)                             // GET /users/{user}/watched
    | GetWatchedStatus(userId: int, movieId: MovieId)     // GET /users/{user}/watched/{id}
    | PutToggleWatched(userId: int, movieId: MovieId)     // PUT /users/{user}/watched/{id}/toggle
    | PostLogin(email: String, password: String)          // POST /users/login
    | PostRegister(displayName: String, email: String, password: String)
    | PostLogout                                          // POST /users/logout
}
