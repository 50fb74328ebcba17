/** The application component: the recipe collection, the favourites, the
    search criteria and the view selection, with the handlers that move them.
    Every awaited request is a parameter holding how its `fetch` settled, and
    every handler returns the requests it issued, in order. Refetches that the
    framework triggers when a dependency changes are the explicit methods
    `UserChanged`, `SetSearchTerm` and `HandleShowFavorites`. */
module App {
  import opened Wrappers
  import opened Entities
  import opened RecipeApi
  import RecipeForm
  import opened UseAuth

  /** Which authentication form is shown to a signed-out visitor. */
  datatype AuthMode = LoginMode | RegisterMode

  /** The state that decides the main content: the selected recipe, whether
      the form is open, and whether the form edits the selection. */
  datatype Nav = Nav(selected: Option<Recipe>, showForm: bool, isEditing: bool)

  /** `handleRecipeClick`: the recipe is selected and any form closes. */
  function Clicked(r: Recipe): Nav { Nav(Some(r), false, false) }

  /** `handleAddRecipe`: a non-editing form with nothing selected. */
  function Adding(): Nav { Nav(None, true, false) }

  /** `handleEditRecipe`: an editing form with the recipe selected. */
  function Editing(r: Recipe): Nav { Nav(Some(r), true, true) }

  /** The form's cancel callback, and a successful save: only the form closes. */
  function Closed(n: Nav): Nav { n.(showForm := false) }

  /** A successful list fetch or delete: the selection is cleared. */
  function Deselected(n: Nav): Nav { n.(selected := None) }

  /** `handleLogout`: the form closes and the selection is cleared. */
  function LoggedOut(n: Nav): Nav { n.(showForm := false, selected := None) }

  /** The main content, chosen by precedence. */
  datatype Screen = FormScreen(initial: Option<Recipe>) | DetailScreen(recipe: Recipe) | ListScreen

  /** The form when it is open, else the detail of the selection when there is
      one, else the list: exactly one of the three. The form edits the
      selection only when `isEditing`. */
  function ScreenOf(n: Nav): (s: Screen)
    ensures s.FormScreen? <==> n.showForm
    ensures s.DetailScreen? <==> !n.showForm && n.selected.Some?
    ensures s.ListScreen? <==> !n.showForm && n.selected.None?
    ensures s.FormScreen? ==> s.initial == (if n.isEditing then n.selected else None)
    ensures s.DetailScreen? ==> s.recipe == n.selected.value
  {
    if n.showForm then FormScreen(if n.isEditing then n.selected else None)
    else if n.selected.Some? then DetailScreen(n.selected.value)
    else ListScreen
  }

  /** The request `handleSaveRecipe` issues: an update of the selection's id
      exactly when the form edits and something is selected, else a create. */
  function SaveRequest(n: Nav, data: RecipeInput): (req: Request)
    ensures req.UpdateRecipe? <==> n.isEditing && n.selected.Some?
    ensures req.UpdateRecipe? ==> req == UpdateRecipe(n.selected.value.id, data)
    ensures !req.UpdateRecipe? ==> req == CreateRecipe(data)
  {
    if n.isEditing && n.selected.Some? then UpdateRecipe(n.selected.value.id, data)
    else CreateRecipe(data)
  }

  /** Clicking a recipe shows its detail, whatever was shown before. */
  lemma ClickShowsDetail(r: Recipe)
    ensures ScreenOf(Clicked(r)) == DetailScreen(r)
  {
  }

  /** "Add" passes the form no initial data, and its save creates a recipe. */
  lemma AddPassesNoInitialData(data: RecipeInput)
    ensures ScreenOf(Adding()) == FormScreen(None)
    ensures SaveRequest(Adding(), data) == CreateRecipe(data)
  {
  }

  /** "Edit" shows the form filled with the recipe; saving updates that
      recipe's id. */
  lemma EditShowsFilledForm(r: Recipe, data: RecipeInput)
    ensures ScreenOf(Editing(r)) == FormScreen(Some(r))
    ensures SaveRequest(Editing(r), data) == UpdateRecipe(r.id, data)
  {
  }

  /** Closing the form falls back to the detail of a still-selected recipe,
      else to the list: cancelling an edit shows the edited recipe, cancelling
      an add shows the list. */
  lemma CloseFallsBack(n: Nav, r: Recipe)
    ensures ScreenOf(Closed(n)) == (if n.selected.Some? then DetailScreen(n.selected.value) else ListScreen)
    ensures ScreenOf(Closed(Editing(r))) == DetailScreen(r)
    ensures ScreenOf(Closed(Adding())) == ListScreen
  {
  }

  /** A list fetch that succeeds while an edit form is open clears the
      selection but not `isEditing`: the form is then passed no initial data,
      and saving it creates a new recipe instead of updating the edited one. */
  lemma RefetchDuringEdit(r: Recipe, data: RecipeInput)
    ensures ScreenOf(Deselected(Editing(r))) == FormScreen(None)
    ensures SaveRequest(Deselected(Editing(r)), data) == CreateRecipe(data)
  {
  }

  /** After logout the list is shown, whatever was shown before. */
  lemma LogoutShowsList(n: Nav)
    ensures ScreenOf(LoggedOut(n)) == ListScreen
  {
  }

  /** A recipe card of the list, with its favourite star. */
  datatype Card = Card(recipe: Recipe, isFavorite: bool)

  /** What the component renders. */
  datatype View =
    | Loading
    | SignIn(mode: AuthMode)
    | FormView(initialData: Option<RecipeForm.InitialData>)
    | DetailView(recipe: Recipe, isOwner: bool)
    | ListView(cards: seq<Card>, noneFound: bool)

  /** One card per recipe, in order, starred when its id is a favourite. */
  function Cards(recipes: seq<Recipe>, favoriteIds: set<int>): (cards: seq<Card>)
    ensures |cards| == |recipes|
    ensures forall i :: 0 <= i < |cards| ==>
      cards[i].recipe == recipes[i] && (cards[i].isFavorite <==> recipes[i].id in favoriteIds)
  {
    seq(|recipes|, i requires 0 <= i < |recipes| => Card(recipes[i], recipes[i].id in favoriteIds))
  }

  /** The render: a loading indicator until the identity query settles, the
      authentication form when nobody is signed in, and otherwise the content
      `ScreenOf` picks. The detail offers editing only to the recipe's author;
      the list says "No recipes found." when it is empty. */
  function Render(loading: bool, user: Option<User>, mode: AuthMode, n: Nav,
                  recipes: seq<Recipe>, favoriteIds: set<int>): (v: View)
    ensures loading <==> v == Loading
    ensures v.SignIn? <==> !loading && user.None?
    ensures v.SignIn? ==> v.mode == mode
    ensures v.FormView? <==> !loading && user.Some? && ScreenOf(n).FormScreen?
    ensures v.FormView? ==>
      v.initialData == (if n.isEditing && n.selected.Some? then Some(RecipeForm.FromRecipe(n.selected.value)) else None)
    ensures v.DetailView? <==> !loading && user.Some? && ScreenOf(n).DetailScreen?
    ensures v.DetailView? ==> v.recipe == n.selected.value && (v.isOwner <==> v.recipe.author == user.value.username)
    ensures v.ListView? <==> !loading && user.Some? && ScreenOf(n).ListScreen?
    ensures v.ListView? ==> v.cards == Cards(recipes, favoriteIds) && (v.noneFound <==> recipes == [])
  {
    if loading then Loading
    else if user.None? then SignIn(mode)
    else match ScreenOf(n)
      case FormScreen(init) => FormView(if init.Some? then Some(RecipeForm.FromRecipe(init.value)) else None)
      case DetailScreen(r) => DetailView(r, r.author == user.value.username)
      case ListScreen => ListView(Cards(recipes, favoriteIds), recipes == [])
  }

  /** The ids of a list of recipes. */
  function Ids(recipes: seq<Recipe>): set<int>
  {
    set r | r in recipes :: r.id
  }

  /** The favourite ids after the favourites request: the ids it returned, or
      none when it failed. */
  function FavoriteIdsFrom(reply: Fetched<seq<Recipe>>): (ids: set<int>)
    ensures Settle(reply).Fail? ==> ids == {}
    ensures Settle(reply).Ok? ==> forall r :: r in Settle(reply).value ==> r.id in ids
    ensures Settle(reply).Ok? ==> forall id :: id in ids ==> exists r :: r in Settle(reply).value && r.id == id
  {
    match Settle(reply)
    case Ok(rs) => Ids(rs)
    case Fail(_) => {}
  }

  /** The component's state. */
  class AppState {
    const auth: Session
    var authMode: AuthMode
    var recipes: seq<Recipe>
    var recLoading: bool
    var selected: Option<Recipe>
    var showForm: bool
    var isEditing: bool
    var searchTerm: string
    var showFavorites: bool
    var favoriteIds: set<int>

    constructor (auth: Session)
      ensures this.auth == auth && authMode == LoginMode
      ensures recipes == [] && !recLoading && favoriteIds == {}
      ensures selected == None && !showForm && !isEditing
      ensures searchTerm == "" && !showFavorites
    {
      this.auth := auth;
      authMode := LoginMode;
      recipes, recLoading, favoriteIds := [], false, {};
      selected, showForm, isEditing := None, false, false;
      searchTerm, showFavorites := "", false;
    }

    /** The view-selection part of the state. */
    function Navigation(): Nav
      reads this
    {
      Nav(selected, showForm, isEditing)
    }

    /** What is rendered in the current state; after a logout it is the
        sign-in form or the list (`HandleLogout`). */
    function View(): View
      reads this, auth
    {
      Render(auth.loading, auth.user, authMode, Navigation(), recipes, favoriteIds)
    }

    /** The list request for the current criteria. */
    function ListRequest(): Request
      reads this
    {
      ListRecipes(ListUrl(searchTerm, showFavorites))
    }

    /** The favourites request, which is issued only when someone is signed in. */
    function FavoritesRequest(): seq<Request>
      reads this, auth
    {
      if auth.user.Some? then [GetFavorites] else []
    }

    /** `fetchRecipes` up to its await: the list is marked as refreshing while
        the previous recipes stay shown, and the list request goes out for the
        current criteria. */
    method StartFetchRecipes() returns (req: Request)
      modifies this`recLoading
      ensures recLoading && req == ListRequest()
    {
      recLoading := true;
      var url := ListRecipesUrl(searchTerm, showFavorites);
      req := ListRecipes(url);
    }

    /** `fetchRecipes` after its await: refreshing ends in every case; a
        successful request replaces the recipes and clears the selection, a
        failed one changes neither and rejects. */
    method FinishFetchRecipes(listed: Fetched<seq<Recipe>>) returns (res: Outcome<()>)
      modifies this`recLoading, this`recipes, this`selected
      ensures !recLoading && res == Discard(Settle(listed))
      ensures res.Ok? ==> recipes == Settle(listed).value && selected == None
      ensures res.Fail? ==> recipes == old(recipes) && selected == old(selected)
    {
      var outcome := Settle(listed);
      match outcome {
        case Ok(rs) =>
          recipes := rs;
          selected := None;
        case Fail(_) =>
      }
      recLoading := false;
      res := Discard(outcome);
    }

    /** `fetchRecipes`, from start to settlement. */
    method FetchRecipes(listed: Fetched<seq<Recipe>>) returns (res: Outcome<()>, issued: seq<Request>)
      modifies this`recLoading, this`recipes, this`selected
      ensures issued == [ListRequest()]
      ensures !recLoading && res == Discard(Settle(listed))
      ensures res.Ok? ==> recipes == Settle(listed).value && selected == None
      ensures res.Fail? ==> recipes == old(recipes) && selected == old(selected)
    {
      var req := StartFetchRecipes();
      res := FinishFetchRecipes(listed);
      issued := [req];
    }

    /** `fetchFavorites`: with nobody signed in the favourites become empty and
        no request is made; otherwise they become the ids the request returns,
        or empty when it fails. */
    method FetchFavorites(favs: Fetched<seq<Recipe>>) returns (issued: seq<Request>)
      modifies this`favoriteIds
      ensures issued == FavoritesRequest()
      ensures favoriteIds == (if auth.user.None? then {} else FavoriteIdsFrom(favs))
    {
      if auth.user.None? {
        favoriteIds := {};
        return [];
      }
      favoriteIds := FavoriteIdsFrom(favs);
      issued := [GetFavorites];
    }

    /** `handleToggleFavorite`: nothing happens with nobody signed in;
        otherwise the toggle request goes out and, only when it succeeds, the
        favourites are fetched again. */
    method HandleToggleFavorite(recipe: Recipe, toggled: Fetched<()>, favs: Fetched<seq<Recipe>>)
      returns (res: Outcome<()>, issued: seq<Request>)
      modifies this`favoriteIds
      ensures auth.user.None? ==> res == Ok(()) && issued == [] && favoriteIds == old(favoriteIds)
      ensures auth.user.Some? ==> res == Discard(Settle(toggled))
      ensures auth.user.Some? && res.Fail? ==>
        issued == [ToggleFavorite(recipe.id)] && favoriteIds == old(favoriteIds)
      ensures auth.user.Some? && res.Ok? ==>
        issued == [ToggleFavorite(recipe.id), GetFavorites] && favoriteIds == FavoriteIdsFrom(favs)
    {
      if auth.user.None? {
        return Ok(()), [];
      }
      res := Discard(Settle(toggled));
      issued := [ToggleFavorite(recipe.id)];
      if res.Ok? {
        var more := FetchFavorites(favs);
        issued := issued + more;
      }
    }

    /** `handleRecipeClick`. */
    method HandleRecipeClick(recipe: Recipe)
      modifies this`selected, this`showForm, this`isEditing
      ensures Navigation() == Clicked(recipe)
    {
      selected := Some(recipe);
      showForm := false;
      isEditing := false;
    }

    /** `handleAddRecipe`. */
    method HandleAddRecipe()
      modifies this`selected, this`showForm, this`isEditing
      ensures Navigation() == Adding()
    {
      showForm := true;
      isEditing := false;
      selected := None;
    }

    /** `handleEditRecipe`. */
    method HandleEditRecipe(recipe: Recipe)
      modifies this`selected, this`showForm, this`isEditing
      ensures Navigation() == Editing(recipe)
    {
      showForm := true;
      isEditing := true;
      selected := Some(recipe);
    }

    /** The form's cancel callback: only the form closes. */
    method CancelForm()
      modifies this`showForm
      ensures Navigation() == Closed(old(Navigation()))
    {
      showForm := false;
    }

    /** `handleSaveRecipe`: an update of the selection when editing, a create
        otherwise. When the request fails nothing changes and nothing else is
        requested; when it succeeds the form closes and the recipes and the
        favourites are fetched again. */
    method HandleSaveRecipe(data: RecipeInput, saved: Fetched<Recipe>,
                      listed: Fetched<seq<Recipe>>, favs: Fetched<seq<Recipe>>)
      returns (res: Outcome<()>, issued: seq<Request>)
      modifies this`showForm, this`recLoading, this`recipes, this`selected, this`favoriteIds
      ensures res == Discard(Settle(saved))
      ensures res.Fail? ==>
        issued == [SaveRequest(old(Navigation()), data)] &&
        Navigation() == old(Navigation()) && recipes == old(recipes) &&
        recLoading == old(recLoading) && favoriteIds == old(favoriteIds)
      ensures res.Ok? ==>
        issued == [SaveRequest(old(Navigation()), data), ListRequest()] + FavoritesRequest() &&
        !showForm && isEditing == old(isEditing) && !recLoading &&
        (Settle(listed).Ok? ==> recipes == Settle(listed).value && selected == None) &&
        (Settle(listed).Fail? ==> recipes == old(recipes) && selected == old(selected)) &&
        favoriteIds == (if auth.user.None? then {} else FavoriteIdsFrom(favs))
    {
      var req := SaveRequest(Navigation(), data);
      res := Discard(Settle(saved));
      issued := [req];
      if res.Fail? {
        return;
      }
      showForm := false;
      var _, listReq := FetchRecipes(listed);
      var favReq := FetchFavorites(favs);
      issued := issued + listReq + favReq;
    }

    /** `handleDeleteRecipe`: nothing happens unless confirmed. A delete that
        is not answered with 204 changes nothing and requests nothing more; a
        successful one clears the selection and fetches the recipes and the
        favourites again. */
    method HandleDeleteRecipe(recipe: Recipe, confirmed: bool, deleted: Fetched<()>,
                        listed: Fetched<seq<Recipe>>, favs: Fetched<seq<Recipe>>)
      returns (res: Outcome<()>, issued: seq<Request>)
      modifies this`recLoading, this`recipes, this`selected, this`favoriteIds
      ensures !confirmed ==>
        res == Ok(()) && issued == [] && selected == old(selected) &&
        recipes == old(recipes) && recLoading == old(recLoading) && favoriteIds == old(favoriteIds)
      ensures confirmed ==> res == DeleteOutcome(deleted)
      ensures confirmed && res.Fail? ==>
        issued == [Request.DeleteRecipe(recipe.id)] && selected == old(selected) &&
        recipes == old(recipes) && recLoading == old(recLoading) && favoriteIds == old(favoriteIds)
      ensures confirmed && res.Ok? ==>
        issued == [Request.DeleteRecipe(recipe.id), ListRequest()] + FavoritesRequest() &&
        selected == None && !recLoading &&
        recipes == (if Settle(listed).Ok? then Settle(listed).value else old(recipes)) &&
        favoriteIds == (if auth.user.None? then {} else FavoriteIdsFrom(favs))
    {
      if !confirmed {
        return Ok(()), [];
      }
      res := DeleteOutcome(deleted);
      issued := [Request.DeleteRecipe(recipe.id)];
      if res.Fail? {
        return;
      }
      selected := None;
      var _, listReq := FetchRecipes(listed);
      var favReq := FetchFavorites(favs);
      issued := issued + listReq + favReq;
    }

    /** `handleLogin`: signs in through the session; on success the
        authentication form goes back to login mode, on failure nothing
        changes and the rejection reaches the form. */
    method HandleLogin(credentials: Credentials, reply: Fetched<User>)
      returns (res: Outcome<()>, issued: seq<Request>)
      modifies this`authMode, auth`user
      ensures issued == [Login(credentials)] && res == Discard(Settle(reply))
      ensures res.Ok? ==> auth.user == Some(Settle(reply).value) && authMode == LoginMode
      ensures res.Fail? ==> auth.user == old(auth.user) && authMode == old(authMode)
    {
      res := auth.Login(reply);
      issued := [Login(credentials)];
      if res.Ok? {
        authMode := LoginMode;
      }
    }

    /** `handleRegister`: as `handleLogin`, through the registration request. */
    method HandleRegister(credentials: Credentials, reply: Fetched<User>)
      returns (res: Outcome<()>, issued: seq<Request>)
      modifies this`authMode, auth`user
      ensures issued == [Register(credentials)] && res == Discard(Settle(reply))
      ensures res.Ok? ==> auth.user == Some(Settle(reply).value) && authMode == LoginMode
      ensures res.Fail? ==> auth.user == old(auth.user) && authMode == old(authMode)
    {
      res := auth.Register(reply);
      issued := [Register(credentials)];
      if res.Ok? {
        authMode := LoginMode;
      }
    }

    /** The authentication form's submit callback: registration in register
        mode, login otherwise. */
    method SubmitCredentials(credentials: Credentials, reply: Fetched<User>)
      returns (res: Outcome<()>, issued: seq<Request>)
      modifies this`authMode, auth`user
      ensures issued == [if old(authMode) == RegisterMode then Register(credentials) else Login(credentials)]
      ensures res == Discard(Settle(reply))
      ensures res.Ok? ==> auth.user == Some(Settle(reply).value) && authMode == LoginMode
      ensures res.Fail? ==> auth.user == old(auth.user) && authMode == old(authMode)
    {
      if authMode == RegisterMode {
        res, issued := HandleRegister(credentials, reply);
      } else {
        res, issued := HandleLogin(credentials, reply);
      }
    }

    /** The authentication form's mode switch. */
    method SwitchMode()
      modifies this`authMode
      ensures authMode == (if old(authMode) == LoginMode then RegisterMode else LoginMode)
    {
      authMode := if authMode == LoginMode then RegisterMode else LoginMode;
    }

    /** `handleLogout`: the logout request goes out, the form closes and the
        selection is cleared; the session forgets the user once the request
        returns, and keeps it when the request is rejected. */
    method HandleLogout(reply: Fetched<()>) returns (issued: seq<Request>)
      modifies this`showForm, this`selected, auth`user
      ensures issued == [Logout]
      ensures Navigation() == LoggedOut(old(Navigation()))
      ensures auth.user == (if reply.Ok? then None else old(auth.user))
      ensures !auth.loading ==> View().SignIn? || View().ListView?
      ensures !auth.loading && reply.Ok? ==> View() == SignIn(authMode)
    {
      var _ := auth.Logout(reply);
      showForm := false;
      selected := None;
      issued := [Logout];
    }

    /** `handleSearch`: the recipes are fetched for the current criteria. */
    method HandleSearch(listed: Fetched<seq<Recipe>>) returns (res: Outcome<()>, issued: seq<Request>)
      modifies this`recLoading, this`recipes, this`selected
      ensures issued == [ListRequest()]
      ensures !recLoading && res == Discard(Settle(listed))
      ensures res.Ok? ==> recipes == Settle(listed).value && selected == None
      ensures res.Fail? ==> recipes == old(recipes) && selected == old(selected)
    {
      res, issued := FetchRecipes(listed);
    }

    /** Typing in the search box: a changed term is stored and the recipes are
        fetched for it; an unchanged term causes no update and no request. */
    method SetSearchTerm(term: string, listed: Fetched<seq<Recipe>>)
      returns (res: Outcome<()>, issued: seq<Request>)
      modifies this`searchTerm, this`recLoading, this`recipes, this`selected
      ensures searchTerm == term
      ensures term == old(searchTerm) ==>
        res == Ok(()) && issued == [] && recLoading == old(recLoading) &&
        recipes == old(recipes) && selected == old(selected)
      ensures term != old(searchTerm) ==>
        issued == [ListRecipes(ListUrl(term, showFavorites))] &&
        !recLoading && res == Discard(Settle(listed)) &&
        (res.Ok? ==> recipes == Settle(listed).value && selected == None) &&
        (res.Fail? ==> recipes == old(recipes) && selected == old(selected))
    {
      if term == searchTerm {
        return Ok(()), [];
      }
      searchTerm := term;
      res, issued := FetchRecipes(listed);
    }

    /** `handleShowFavorites`: the favourites-only filter flips and the recipes
        are fetched for the new criteria. */
    method HandleShowFavorites(listed: Fetched<seq<Recipe>>)
      returns (res: Outcome<()>, issued: seq<Request>)
      modifies this`showFavorites, this`recLoading, this`recipes, this`selected
      ensures showFavorites == !old(showFavorites)
      ensures issued == [ListRecipes(ListUrl(searchTerm, !old(showFavorites)))]
      ensures !recLoading && res == Discard(Settle(listed))
      ensures res.Ok? ==> recipes == Settle(listed).value && selected == None
      ensures res.Fail? ==> recipes == old(recipes) && selected == old(selected)
    {
      showFavorites := !showFavorites;
      res, issued := FetchRecipes(listed);
    }

    /** The effects that run when the signed-in user changes: the favourites
        are fetched again (or emptied when nobody is signed in), then the
        recipes. */
    method UserChanged(favs: Fetched<seq<Recipe>>, listed: Fetched<seq<Recipe>>)
      returns (res: Outcome<()>, issued: seq<Request>)
      modifies this`favoriteIds, this`recLoading, this`recipes, this`selected
      ensures issued == FavoritesRequest() + [ListRequest()]
      ensures favoriteIds == (if auth.user.None? then {} else FavoriteIdsFrom(favs))
      ensures !recLoading && res == Discard(Settle(listed))
      ensures res.Ok? ==> recipes == Settle(listed).value && selected == None
      ensures res.Fail? ==> recipes == old(recipes) && selected == old(selected)
    {
      var favReq := FetchFavorites(favs);
      var listReq;
      res, listReq := FetchRecipes(listed);
      issued := favReq + listReq;
    }
  }
}
