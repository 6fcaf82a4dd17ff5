/**
 * The "my list" screen: two tabs over the signed-in user's favourites and
 * watched movies, loaded behind the session gate, and what the screen
 * shows for a given state.
 */
module MyList {
  import opened Wrappers
  import opened JsString
  import opened Transport
  import opened Movies
  import opened Session
  import opened Profile

  const WatchedTab: String := "watched"
  const FavoritesTitle: String := "Favori Filmlerim"
  const WatchedTitle: String := "İzlediğim Filmler"
  const NoFavoritesMessage: String := "Henüz favori filminiz yok"
  const NoWatchedMessage: String := "İzleme listeniz boş"

  /** The tab the screen opens on: the route's `initialTab` when truthy,
      else the favourites. */
  function InitialTab(param: Option<String>): (r: String)
    ensures TruthyStr(param) ==> r == param.value
    ensures !TruthyStr(param) ==> r == FavoritesTab
  {
    if param.Some? && param.value != [] then param.value else FavoritesTab
  }

  /** `currentMovies`: the favourites exactly when the tab is literally
      `'favorites'`; any other tab shows the watched movies. */
  function CurrentMovies(activeTab: String, favorites: seq<Movie>, watched: seq<Movie>): (r: seq<Movie>)
    ensures activeTab == FavoritesTab ==> r == favorites
    ensures activeTab != FavoritesTab ==> r == watched
  {
    if activeTab == FavoritesTab then favorites else watched
  }

  /** What the screen renders. */
  datatype View =
    | Loading
    | SignInPrompt
    | Listing(title: String, movies: seq<Movie>)
    | EmptyList(title: String, message: String)

  /** The state fields of the screen, as one value. */
  datatype ListState = ListState(
    favoriteMovies: seq<Movie>,
    watchedMovies: seq<Movie>,
    loading: bool,
    refreshing: bool,
    isAuthenticated: bool,
    activeTab: String)

  /** The render of a state: the loading text first, then the sign-in
      prompt, then the current tab's list or its empty message. */
  function Render(st: ListState): (v: View)
    ensures st.loading ==> v == Loading
    ensures !st.loading && !st.isAuthenticated ==> v == SignInPrompt
    ensures v.Listing? ==> v.movies != [] && v.movies == CurrentMovies(st.activeTab, st.favoriteMovies, st.watchedMovies)
    ensures v.EmptyList? ==> CurrentMovies(st.activeTab, st.favoriteMovies, st.watchedMovies) == []
  {
    if st.loading then Loading
    else if !st.isAuthenticated then SignInPrompt
    else
      var favorites := st.activeTab == FavoritesTab;
      var current := CurrentMovies(st.activeTab, st.favoriteMovies, st.watchedMovies);
      var title := if favorites then FavoritesTitle else WatchedTitle;
      if |current| > 0 then Listing(title, current)
      else EmptyList(title, if favorites then NoFavoritesMessage else NoWatchedMessage)
  }

  /** The title, the list and the empty-state message all follow the same
      choice of tab. */
  lemma RenderFollowsTab(st: ListState)
    requires !st.loading && st.isAuthenticated
    ensures var v := Render(st);
      (st.activeTab == FavoritesTab ==>
        (st.favoriteMovies != [] ==> v == Listing(FavoritesTitle, st.favoriteMovies))
        && (st.favoriteMovies == [] ==> v == EmptyList(FavoritesTitle, NoFavoritesMessage)))
      && (st.activeTab != FavoritesTab ==>
        (st.watchedMovies != [] ==> v == Listing(WatchedTitle, st.watchedMovies))
        && (st.watchedMovies == [] ==> v == EmptyList(WatchedTitle, NoWatchedMessage)))
  {
  }

  /** The profile's "my favourites" button opens this screen on the
      favourites tab. */
  lemma ProfileOpensFavorites(s: Option<Stored>, favorites: seq<Movie>, watched: seq<Movie>)
    requires Authenticated(s)
    ensures MyFavoritesAction(s).OpenMyList?
    ensures CurrentMovies(InitialTab(Some(MyFavoritesAction(s).initialTab)), favorites, watched) == favorites
  {
  }

  class MyListScreen {
    /** The device store the session lives in. */
    const store: Store

    var favoriteMovies: seq<Movie>
    var watchedMovies: seq<Movie>
    var loading: bool
    var refreshing: bool
    var isAuthenticated: bool
    var activeTab: String

    function State(): ListState
      reads this
    {
      ListState(favoriteMovies, watchedMovies, loading, refreshing, isAuthenticated, activeTab)
    }

    /** The initial state, for the route's `initialTab` parameter. */
    constructor(store: Store, initialTab: Option<String>)
      ensures this.store == store
      ensures State() == ListState([], [], true, false, false, InitialTab(initialTab))
    {
      this.store := store;
      favoriteMovies := [];
      watchedMovies := [];
      loading := true;
      refreshing := false;
      isAuthenticated := false;
      activeTab := InitialTab(initialTab);
    }

    /** The two tab buttons. */
    method SelectTab(favorites: bool)
      modifies this
      ensures State() == old(State()).(activeTab := if favorites then FavoritesTab else WatchedTab)
    {
      activeTab := if favorites then FavoritesTab else WatchedTab;
    }

    /** `loadUserLists`: for a stored user with a truthy id, both lists
        (null bodies and failures read as empty); otherwise the lists stay
        as they were. Loading ends either way. */
    method LoadUserLists(favoritesReply: Reply<Option<seq<Movie>>>, watchedReply: Reply<Option<seq<Movie>>>)
      returns (calls: seq<Call>)
      modifies this, store
      ensures !HasUserId(old(store.userData)) ==>
        calls == [] && store.userData == old(store.userData) && State() == old(State()).(loading := false)
      ensures HasUserId(old(store.userData)) ==>
        var uid := UserId(old(store.userData));
        calls == [GetFavorites(uid), GetWatched(uid)]
        && store.userData == AfterResponse(AfterResponse(old(store.userData), favoritesReply), watchedReply)
        && State() == old(State()).(loading := false,
                                    favoriteMovies := ListOrEmpty(favoritesReply),
                                    watchedMovies := ListOrEmpty(watchedReply))
    {
      loading := true;
      calls := [];
      if HasUserId(store.userData) {
        var uid := UserId(store.userData);
        calls := [GetFavorites(uid), GetWatched(uid)];
        var r1 := store.Intercept(favoritesReply);
        var r2 := store.Intercept(watchedReply);
        favoriteMovies := ListOrEmpty(r1);
        watchedMovies := ListOrEmpty(r2);
      }
      loading := false;
    }

    /** `checkAuthentication`: the gate decides whether the lists are
        loaded; a signed-out user's lists are not touched. */
    method CheckAuthentication(favoritesReply: Reply<Option<seq<Movie>>>, watchedReply: Reply<Option<seq<Movie>>>)
      returns (calls: seq<Call>)
      modifies this, store
      ensures !Authenticated(old(store.userData)) ==>
        calls == [] && store.userData == old(store.userData)
        && State() == old(State()).(isAuthenticated := false, loading := false)
      ensures Authenticated(old(store.userData)) ==>
        var uid := UserId(old(store.userData));
        calls == [GetFavorites(uid), GetWatched(uid)]
        && store.userData == AfterResponse(AfterResponse(old(store.userData), favoritesReply), watchedReply)
        && State() == old(State()).(isAuthenticated := true, loading := false,
                                    favoriteMovies := ListOrEmpty(favoritesReply),
                                    watchedMovies := ListOrEmpty(watchedReply))
    {
      var authStatus := Authenticated(store.userData);
      isAuthenticated := authStatus;
      if authStatus {
        calls := LoadUserLists(favoritesReply, watchedReply);
      } else {
        loading := false;
        calls := [];
      }
    }

    /** `onRefresh`: the authentication check again, with the refresh
        indicator off afterwards. */
    method OnRefresh(favoritesReply: Reply<Option<seq<Movie>>>, watchedReply: Reply<Option<seq<Movie>>>)
      returns (calls: seq<Call>)
      modifies this, store
      ensures !Authenticated(old(store.userData)) ==>
        calls == [] && store.userData == old(store.userData)
        && State() == old(State()).(isAuthenticated := false, loading := false, refreshing := false)
      ensures Authenticated(old(store.userData)) ==>
        var uid := UserId(old(store.userData));
        calls == [GetFavorites(uid), GetWatched(uid)]
        && store.userData == AfterResponse(AfterResponse(old(store.userData), favoritesReply), watchedReply)
        && State() == old(State()).(isAuthenticated := true, loading := false, refreshing := false,
                                    favoriteMovies := ListOrEmpty(favoritesReply),
                                    watchedMovies := ListOrEmpty(watchedReply))
    {
      refreshing := true;
      calls := CheckAuthentication(favoritesReply, watchedReply);
      refreshing := false;
    }
  }

  /** After the check, a signed-out user sees the sign-in prompt whatever
      the lists held, and a signed-in one sees the chosen tab's list. */
  lemma CheckedRender(st: ListState, s: Option<Stored>, favorites: Reply<Option<seq<Movie>>>, watched: Reply<Option<seq<Movie>>>)
    ensures !Authenticated(s) ==> Render(st.(isAuthenticated := false, loading := false)) == SignInPrompt
    ensures Authenticated(s) ==>
      var after := st.(isAuthenticated := true, loading := false,
                       favoriteMovies := ListOrEmpty(favorites), watchedMovies := ListOrEmpty(watched));
      var current := CurrentMovies(st.activeTab, ListOrEmpty(favorites), ListOrEmpty(watched));
      (current != [] ==> Render(after).Listing? && Render(after).movies == current)
      && (current == [] ==> Render(after).EmptyList?)
  {
  }
}
