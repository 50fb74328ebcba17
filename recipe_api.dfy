/** The API client: the requests it sends and how it classifies the responses
    of the recipe service. The network itself is not modelled: every call is
    represented by how its `fetch` settled. */
module RecipeApi {
  import opened Wrappers
  import opened Entities
  import Strings
  import UriComponent

  /** The base address of the service (its build-time override is not modelled). */
  const BackendUrl: string := "http://localhost:8000"

  /** An HTTP response: its status, status text, body as text, and body as
      parsed JSON. */
  datatype Response<T> = Response(status: int, statusText: string, text: string, body: T)
  {
    /** `Response.ok`: a status in the range 200-299. */
    predicate IsOk() { 200 <= status <= 299 }
  }

  /** How a `fetch` settled: a response, or a rejection (network failure). */
  type Fetched<T> = Outcome<Response<T>>

  /** The requests the client can issue. */
  datatype Request =
    | Login(credentials: Credentials)
    | Register(credentials: Credentials)
    | Logout
    | GetCurrentUser
    | ListRecipes(url: string)
    | CreateRecipe(data: RecipeInput)
    | UpdateRecipe(id: int, data: RecipeInput)
    | DeleteRecipe(id: int)
    | ToggleFavorite(id: int)
    | GetFavorites

  /** `handleResponse`: a non-ok response fails with its body text, or with its
      status text when the body is empty; an ok response yields its parsed body. */
  function HandleResponse<T>(resp: Response<T>): (r: Outcome<T>)
    ensures r.Ok? <==> resp.IsOk()
    ensures r.Ok? ==> r.value == resp.body
    ensures r.Fail? ==> r.message == (if resp.text != "" then resp.text else resp.statusText)
  {
    if !resp.IsOk() then Fail(if resp.text != "" then resp.text else resp.statusText)
    else Ok(resp.body)
  }

  /** A call that awaits `fetch` and hands the response to `handleResponse`
      (login, register, listRecipes, createRecipe, updateRecipe,
      toggleFavorite, getFavorites). */
  function Settle<T>(reply: Fetched<T>): (r: Outcome<T>)
    ensures reply.Fail? ==> r == Fail(reply.message)
    ensures reply.Ok? ==> r == HandleResponse(reply.value)
  {
    match reply
    case Fail(m) => Fail(m)
    case Ok(resp) => HandleResponse(resp)
  }

  /** `getCurrentUser`: 401 means "no session" and yields no user; every other
      status goes through `handleResponse`. */
  function CurrentUserOutcome(reply: Fetched<User>): (r: Outcome<Option<User>>)
    ensures reply.Ok? && reply.value.status == 401 ==> r == Ok(None)
    ensures reply.Ok? && reply.value.status != 401 ==>
      (r.Ok? <==> reply.value.IsOk()) &&
      (r.Ok? ==> r.value == Some(reply.value.body)) &&
      (r.Fail? ==> r.message == HandleResponse(reply.value).message)
    ensures reply.Fail? ==> r == Fail(reply.message)
  {
    match reply
    case Fail(m) => Fail(m)
    case Ok(resp) =>
      if resp.status == 401 then Ok(None)
      else match HandleResponse(resp)
        case Ok(u) => Ok(Some(u))
        case Fail(m) => Fail(m)
  }

  /** `deleteRecipe`: succeeds on status 204 only; any other status, ok or not,
      fails with "Failed to delete". */
  function DeleteOutcome<T>(reply: Fetched<T>): (r: Outcome<()>)
    ensures r.Ok? <==> reply.Ok? && reply.value.status == 204
    ensures reply.Ok? && r.Fail? ==> r.message == "Failed to delete"
    ensures reply.Fail? ==> r == Fail(reply.message)
  {
    match reply
    case Fail(m) => Fail(m)
    case Ok(resp) => if resp.status != 204 then Fail("Failed to delete") else Ok(())
  }

  /** `logout`: the response is not inspected; only a rejected fetch fails. */
  function LogoutOutcome<T>(reply: Fetched<T>): (r: Outcome<()>)
    ensures r.Ok? <==> reply.Ok?
    ensures reply.Fail? ==> r.message == reply.message
  {
    match reply
    case Fail(m) => Fail(m)
    case Ok(_) => Ok(())
  }

  /** The query parameters of `listRecipes`, in order: the search term when it
      is non-empty, then the favourites flag when it is set. */
  function ListParams(search: string, showFavorites: bool): (params: seq<string>)
    ensures |params| == (if search != "" then 1 else 0) + (if showFavorites then 1 else 0)
    ensures search != "" ==> params[0] == "search=" + UriComponent.Encode(search)
    ensures showFavorites ==> params[|params| - 1] == "favorites=true"
    ensures !showFavorites ==> forall i :: 0 <= i < |params| ==> params[i] != "favorites=true"
  {
    assert search != "" ==> ("search=" + UriComponent.Encode(search))[0] == 's';
    (if search != "" then ["search=" + UriComponent.Encode(search)] else []) +
    (if showFavorites then ["favorites=true"] else [])
  }

  /** The address `listRecipes` fetches. */
  function ListUrl(search: string, showFavorites: bool): (url: string)
    ensures BackendUrl + "/recipes" <= url
    ensures url == BackendUrl + "/recipes" <==> search == "" && !showFavorites
  {
    var params := ListParams(search, showFavorites);
    BackendUrl + "/recipes" + (if |params| > 0 then "?" + Strings.Join(params, '&') else "")
  }

  /** `listRecipes` building its address: parameters are pushed onto a list,
      and `?` plus the `&`-joined list is appended when the list is non-empty. */
  method ListRecipesUrl(search: string, showFavorites: bool) returns (url: string)
    ensures url == ListUrl(search, showFavorites)
    ensures search == "" && !showFavorites ==> url == BackendUrl + "/recipes"
  {
    url := BackendUrl + "/recipes";
    var params: seq<string> := [];
    if search != "" {
      params := params + ["search=" + UriComponent.Encode(search)];
    }
    if showFavorites {
      params := params + ["favorites=true"];
    }
    if |params| > 0 {
      url := url + "?" + Strings.Join(params, '&');
    }
  }

  /** The list address is the bare collection path exactly when there is no
      parameter; otherwise its query splits on `&` back into the parameters,
      a `search=` one exactly when the search is non-empty and
      `favorites=true` exactly when favourites are requested, in that order. */
  lemma {:induction false} ListUrlQuery(search: string, showFavorites: bool)
    ensures search == "" && !showFavorites <==> ListParams(search, showFavorites) == []
    ensures ListParams(search, showFavorites) == [] ==>
      ListUrl(search, showFavorites) == BackendUrl + "/recipes"
    ensures ListParams(search, showFavorites) != [] ==>
      exists query ::
        ListUrl(search, showFavorites) == BackendUrl + "/recipes?" + query &&
        Strings.Split(query, '&') == ListParams(search, showFavorites)
    ensures |ListParams(search, showFavorites)| ==
      (if search != "" then 1 else 0) + (if showFavorites then 1 else 0)
    ensures search != "" ==>
      ListParams(search, showFavorites)[0] == "search=" + UriComponent.Encode(search)
    ensures showFavorites ==>
      ListParams(search, showFavorites)[|ListParams(search, showFavorites)| - 1] == "favorites=true"
    ensures !showFavorites ==> forall i :: 0 <= i < |ListParams(search, showFavorites)| ==>
      ListParams(search, showFavorites)[i] != "favorites=true"
  {
    var params := ListParams(search, showFavorites);
    if params != [] {
      UriComponent.EncodedHasNoDelimiters(search);
      assert "&" == ['&'];
      forall i | 0 <= i < |params| ensures '&' !in params[i] {
      }
      Strings.SplitJoin(params, '&');
      var query := Strings.Join(params, '&');
      assert ListUrl(search, showFavorites) == BackendUrl + "/recipes?" + query;
    }
  }
}
