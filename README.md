# Recipe Explorer client — a Dafny model

This project models the client-side logic of the Recipe Explorer web
application, a browser front end for browsing, searching, creating, editing,
deleting and favouriting recipes stored by a remote HTTP/JSON service. It
covers five parts:

- the application component (`App.js`): the view state and the handlers for
  fetching, favourites, saving, deleting and logging out, plus the choice of
  what to render;
- the recipe form (`RecipeForm.js`): how its fields are set up from the
  edited recipe, how one field changes, and how the multi-line list fields
  turn back into sequences on submit;
- the credentials form (`AuthForm.js`): the length check and the error text;
- the session hook (`useAuth.js`): the current user and the start-up loading
  flag;
- the API client (`recipeApi.js`): the address of the list request and how
  responses are classified by status.

Modules, one per source file plus three shared ones:

| module | file | models |
|---|---|---|
| `Wrappers` | wrappers.dfy | optional values and how an awaited call settles (`Ok(value)` / `Fail(message)`) |
| `Entities` | entities.dfy | the user, credentials, recipe and recipe-input records |
| `Strings` | strings.dfy | JavaScript `split`/`join` on one character, `trim`, and `length` in UTF-16 code units |
| `UriComponent` | uri_component.dfy | `encodeURIComponent` (UTF-8 bytes percent-encoded as in section 2.1 of RFC 3986) |
| `RecipeApi` | recipe_api.dfy | `recipeApi.js` |
| `RecipeForm` | recipe_form.dfy | `RecipeForm.js` |
| `AuthForm` | auth_form.dfy | `AuthForm.js` (class `CredentialsForm`) |
| `UseAuth` | use_auth.dfy | `useAuth.js` (class `Session`) |
| `App` | app.dfy | `App.js` (class `AppState`, the pure view-selection functions and the render) |

How the asynchronous code is modelled:

- Every awaited `fetch` is a parameter of type `Fetched<T>`. It holds either
  the response (status, status text, body text and parsed body) or the
  rejection of a network failure.
- `window.confirm` is a boolean parameter.
- Each handler of `AppState` runs to completion with the given outcomes. It
  returns the requests it issued, in order, so a contract can say that no
  request was made.
- `fetchRecipes` is also split at its await point: `StartFetchRecipes`, then
  `FinishFetchRecipes`. The state in between (refreshing, old list still
  shown) is stated too.
- The framework's dependency-triggered refetches are explicit methods:
  - `UserChanged` for a change of user;
  - `SetSearchTerm` for typing in the search box. An unchanged value causes
    no update, as with the framework's bail-out on equal state;
  - `HandleShowFavorites` for the favourites filter.

Behaviours of the code worth knowing:

- Cancelling an edit form shows the detail of the still-selected recipe, not
  the list (`App.CloseFallsBack`).
- Logging out forgets the user only when the logout request does not reject.
  The local session is not cleared unconditionally
  (`UseAuth.Session.Logout`).
- A list fetch that succeeds while an edit form is open clears the selection
  but keeps `isEditing`. The form is then passed no initial data, and saving
  it creates a new recipe instead of updating the edited one
  (`App.RefetchDuringEdit`).
  Edits are not kept safe across background refreshes.
- After a toggle, favourites are fetched again only when the toggle request
  succeeds, not unconditionally (`App.AppState.HandleToggleFavorite`).
- Failed list, save and delete requests reject. Nothing in the component
  catches them or shows them, so the model returns the rejection and changes
  nothing else.

## Model

| member | source | states |
|---|---|---|
| `Strings.Split` | recipe_frontend/src/components/RecipeForm.js:23-24 | `split` on one character yields at least one piece, and no piece contains the separator |
| `Strings.JoinSplit` | recipe_frontend/src/components/RecipeForm.js:10-24 | joining the pieces of a split restores the string |
| `Strings.Join` | recipe_frontend/src/components/RecipeForm.js:10-11 | `join` of no pieces is empty; otherwise the first piece starts the result, and the separator appears once there are two pieces |
| `Strings.SplitWithoutSeparator` | recipe_frontend/src/components/RecipeForm.js:23-24 | a string without the separator splits into itself alone |
| `Strings.SplitAround` | recipe_frontend/src/components/RecipeForm.js:23-24 | splitting `a + sep + b` gives the pieces of `a` followed by those of `b` |
| `Strings.SplitJoin` | recipe_frontend/src/components/RecipeForm.js:10-24 | a non-empty list of pieces free of the separator survives join-then-split unchanged |
| `Strings.TrimStartSpec` | recipe_frontend/src/components/RecipeForm.js:23-24 | dropping leading whitespace keeps a suffix that does not start with whitespace, and everything dropped is whitespace |
| `Strings.TrimEndSpec` | recipe_frontend/src/components/RecipeForm.js:23-24 | dropping trailing whitespace keeps a prefix that does not end with whitespace, and everything dropped is whitespace |
| `Strings.Trim` | recipe_frontend/src/components/RecipeForm.js:23-24 | `trim` leaves neither end as JavaScript whitespace |
| `Strings.TrimOfTrimmed` | recipe_frontend/src/components/RecipeForm.js:23-24 | trimming an already-trimmed string changes nothing |
| `Strings.TrimKeepsOut` | recipe_frontend/src/components/RecipeForm.js:23-24 | trimming adds no character, so a trimmed piece of a split still lacks the separator |
| `Strings.Utf16Length` | recipe_frontend/src/components/AuthForm.js:15 | `length` counts UTF-16 code units: between the number of characters and twice that |
| `Strings.Utf16LengthInBmp` | recipe_frontend/src/components/AuthForm.js:15 | inside the Basic Multilingual Plane, `length` is the number of characters |
| `UriComponent.HexDigit` | recipe_frontend/src/api/recipeApi.js:48 | a value below 16 maps to an upper-case hexadecimal digit |
| `UriComponent.Utf8` | recipe_frontend/src/api/recipeApi.js:48 | a character encodes as one to four bytes, each below 256 |
| `UriComponent.PercentBytes` | recipe_frontend/src/api/recipeApi.js:48 | each byte becomes three characters, all of them `%` or hexadecimal digits |
| `UriComponent.EncodeChar` | recipe_frontend/src/api/recipeApi.js:48 | an unreserved character is copied; any other character becomes non-empty percent-encoded text |
| `UriComponent.Encode` | recipe_frontend/src/api/recipeApi.js:48 | the encoded search is empty only for an empty input, and holds only unreserved characters, `%` and hexadecimal digits |
| `UriComponent.EncodedHasNoDelimiters` | recipe_frontend/src/api/recipeApi.js:48 | an encoded search never contains `&`, `=`, `?` or `#` |
| `UriComponent.EncodeUnreserved` | recipe_frontend/src/api/recipeApi.js:48 | a search made only of unreserved characters is sent as it is |
| `RecipeApi.HandleResponse` | recipe_frontend/src/api/recipeApi.js:6-9 | a response fails exactly when its status is outside 200-299. The failure message is the body text, or the status text when the body is empty. An ok response yields its parsed body |
| `RecipeApi.Settle` | recipe_frontend/src/api/recipeApi.js:13-21 | a call that awaits `fetch` and then `handleResponse` passes on a network rejection unchanged, and otherwise classifies the response |
| `RecipeApi.CurrentUserOutcome` | recipe_frontend/src/api/recipeApi.js:38-44 | status 401 yields "no user" rather than an error. Every other status yields the user exactly when `handleResponse` accepts it, or else fails with that message |
| `RecipeApi.DeleteOutcome` | recipe_frontend/src/api/recipeApi.js:76-82 | a delete succeeds exactly on status 204. Any other status, including other 2xx, fails with "Failed to delete" |
| `RecipeApi.LogoutOutcome` | recipe_frontend/src/api/recipeApi.js:31-37 | logout succeeds whatever the status and fails only when the request itself rejects |
| `RecipeApi.ListParams` | recipe_frontend/src/api/recipeApi.js:47-49 | one parameter per set option: `search=` with the encoded term first when the search is non-empty, `favorites=true` last when the flag is set, and never `favorites=true` when it is not |
| `RecipeApi.ListUrl` | recipe_frontend/src/api/recipeApi.js:46-50 | the address always starts with base + `/recipes`, and is exactly that when the search is empty and the flag is off |
| `RecipeApi.ListRecipesUrl` | recipe_frontend/src/api/recipeApi.js:45-50 | pushing parameters and appending `?` plus the `&`-join gives the list address. With no search and no favourites flag it is exactly base + `/recipes` |
| `RecipeApi.ListUrlQuery` | recipe_frontend/src/api/recipeApi.js:46-50 | the address has no query exactly when the search is empty and the favourites flag is off. Otherwise the query splits on `&` back into the parameters: `search=` first exactly when the search is non-empty, `favorites=true` last exactly when the flag is set: there are as many parameters as set options, and none is `favorites=true` when the flag is off |
| `RecipeForm.ShowLines` | recipe_frontend/src/components/RecipeForm.js:10-11 | an absent list shows as `''`; a non-empty list of single lines shows as text that splits on newlines back into that list |
| `RecipeForm.InitForm` | recipe_frontend/src/components/RecipeForm.js:5-12 | without initial data every field is empty. Otherwise each field is the given value or `''` when absent, a zero duration starts empty, and the lists are joined with newlines |
| `RecipeForm.HandleChange` | recipe_frontend/src/components/RecipeForm.js:14-17 | the named field takes the typed value and every other field keeps its value |
| `RecipeForm.TrimEach` | recipe_frontend/src/components/RecipeForm.js:23-24 | `map(trim)` keeps one piece per piece |
| `RecipeForm.TrimEachAt` | recipe_frontend/src/components/RecipeForm.js:23-24 | the `map(trim)` step trims each piece in place |
| `RecipeForm.DropEmpty` | recipe_frontend/src/components/RecipeForm.js:23-24 | `filter(Boolean)` keeps no more pieces than it gets, none of them empty, and keeps a list without empty pieces whole |
| `RecipeForm.DropEmptyClean` | recipe_frontend/src/components/RecipeForm.js:23-24 | filtering trimmed single-line pieces leaves only non-empty, trimmed single lines |
| `RecipeForm.ParseLines` | recipe_frontend/src/components/RecipeForm.js:23-24 | every submitted ingredient or instruction is non-empty, trimmed and a single line |
| `RecipeForm.Submit` | recipe_frontend/src/components/RecipeForm.js:19-26 | title, cuisine, duration and description pass through unchanged. Each list is `ParseLines` of its text (split on newlines, trimmed, empties dropped), so it holds only clean lines |
| `RecipeForm.TrimEachAppend` | recipe_frontend/src/components/RecipeForm.js:23 | trimming piecewise distributes over concatenation |
| `RecipeForm.DropEmptyAppend` | recipe_frontend/src/components/RecipeForm.js:24 | dropping empty pieces distributes over concatenation, so order is preserved |
| `RecipeForm.DropEmptyOfNonEmpty` | recipe_frontend/src/components/RecipeForm.js:24 | a list with no empty piece survives the filter unchanged |
| `RecipeForm.ParseLinesAppend` | recipe_frontend/src/components/RecipeForm.js:23-24 | the lines of `a + "\n" + b` are those of `a` followed by those of `b` (order kept) |
| `RecipeForm.ParseOneLine` | recipe_frontend/src/components/RecipeForm.js:23-24 | a single line yields its trim, or nothing when the trim is empty |
| `RecipeForm.ShowThenParse` | recipe_frontend/src/components/RecipeForm.js:10-24 | round trip: clean lines joined for editing and submitted unchanged come back as the same list |
| `RecipeForm.ParseIdempotent` | recipe_frontend/src/components/RecipeForm.js:10-24 | submission normalises: showing and re-parsing parsed lines changes nothing |
| `RecipeForm.ResubmitUnchanged` | recipe_frontend/src/components/RecipeForm.js:5-26 | opening a stored recipe and saving it untouched passes on its fields and, for clean lists, the same lists |
| `AuthForm.LengthsAcceptable` | recipe_frontend/src/components/AuthForm.js:15 | the guard counts code units: enough characters always pass, and a passing username has at least 2 characters and a passing password at least 3 |
| `AuthForm.ErrorText` | recipe_frontend/src/components/AuthForm.js:22 | the error shown for a rejection is its message, or "Error" when the message is empty, and is never empty |
| `AuthForm.CredentialsForm.constructor` | recipe_frontend/src/components/AuthForm.js:5-6 | both inputs and the error start empty |
| `AuthForm.CredentialsForm.HandleChange` | recipe_frontend/src/components/AuthForm.js:8-10 | only the named input changes |
| `AuthForm.CredentialsForm.HandleSubmit` | recipe_frontend/src/components/AuthForm.js:12-24 | the callback gets the credentials exactly when the username has at least 3 and the password at least 6 code units. A rejected length check shows the fixed message; a rejection from the callback shows `ErrorText` of its message; a success leaves the error reset to `''` |
| `AuthForm.AcceptableInBmp` | recipe_frontend/src/components/AuthForm.js:15 | for text inside the Basic Multilingual Plane, the guard is `|username| >= 3 && |password| >= 6`, both directions |
| `AuthForm.CountsCodeUnits` | recipe_frontend/src/components/AuthForm.js:15 | enough characters always pass. "ab"/"secret1" is rejected, while a two-character username with an astral character passes |
| `Wrappers.Discard` | recipe_frontend/src/hooks/useAuth.js:16-23 | an `async` wrapper that returns nothing settles as its awaited call does: it fulfils exactly when that call does, and a rejection keeps its message |
| `UseAuth.Session.constructor` | recipe_frontend/src/hooks/useAuth.js:6-7 | no user, loading |
| `UseAuth.Session.Start` | recipe_frontend/src/hooks/useAuth.js:9-14 | loading ends whatever the outcome. The user is what the identity query yields (none on 401), or none when the query fails |
| `UseAuth.Session.Login` | recipe_frontend/src/hooks/useAuth.js:16-19 | success makes the returned identity current; failure keeps the user and rejects with the message |
| `UseAuth.Session.Register` | recipe_frontend/src/hooks/useAuth.js:20-23 | the same contract as login |
| `UseAuth.Session.Logout` | recipe_frontend/src/hooks/useAuth.js:24-27 | the user is cleared once the request returns, whatever its status; a rejected request keeps it |
| `App.ScreenOf` | recipe_frontend/src/App.js:181-207 | precedence: form exactly when `showForm`, otherwise detail exactly when something is selected, otherwise list. The form gets the selection only when `isEditing` |
| `App.SaveRequest` | recipe_frontend/src/App.js:99-103 | saving updates `selected.id` exactly when `isEditing` and something is selected, and creates otherwise |
| `App.ClickShowsDetail` | recipe_frontend/src/App.js:81-85 | clicking a recipe shows its detail and closes any form |
| `App.AddPassesNoInitialData` | recipe_frontend/src/App.js:88-92 | "Add" passes the form no initial data, and saving it creates |
| `App.EditShowsFilledForm` | recipe_frontend/src/App.js:93-97 | "Edit" shows the form for that recipe, and saving it updates that id |
| `App.CloseFallsBack` | recipe_frontend/src/App.js:185 | closing the form falls back to the detail of a still-selected recipe, else to the list. A cancelled edit shows the recipe; a cancelled add shows the list |
| `App.RefetchDuringEdit` | recipe_frontend/src/App.js:43-44 | a successful list fetch during an edit leaves the form passed no initial data, and its save creates instead of updating |
| `App.LogoutShowsList` | recipe_frontend/src/App.js:126-130 | after logout the list is the content shown |
| `App.Cards` | recipe_frontend/src/App.js:197-205 | one card per recipe, in order, starred exactly when its id is a favourite |
| `App.Render` | recipe_frontend/src/App.js:141-207 | exactly one view is rendered: loading until the identity query settles, then the sign-in form with nobody signed in, then what `ScreenOf` picks. Editing is offered only to the author, and an empty list says none were found |
| `App.FavoriteIdsFrom` | recipe_frontend/src/App.js:56-57 | a failed favourites request yields the empty set. Otherwise the favourites are exactly the ids of the returned recipes |
| `App.AppState.constructor` | recipe_frontend/src/App.js:21-33 | empty list, not refreshing, nothing selected, no form, empty search, favourites filter off, no favourites, login mode |
| `App.AppState.StartFetchRecipes` | recipe_frontend/src/App.js:36-42 | refreshing is set and the list request goes out for the current search and filter. The recipes and selection stay as they are |
| `App.AppState.FinishFetchRecipes` | recipe_frontend/src/App.js:43-47 | refreshing always ends. Success replaces the recipes and clears the selection; failure changes neither and rejects |
| `App.AppState.FetchRecipes` | recipe_frontend/src/App.js:36-48 | the two halves together: exactly one list request, then the settlement above |
| `App.AppState.FetchFavorites` | recipe_frontend/src/App.js:51-58 | with no user the favourites become empty and no request is made. Otherwise they become the returned ids, or empty when the request fails |
| `App.AppState.HandleToggleFavorite` | recipe_frontend/src/App.js:74-78 | without a user nothing changes and nothing is requested. Otherwise the toggle goes out, and favourites are refetched only after it succeeds |
| `App.AppState.HandleRecipeClick` | recipe_frontend/src/App.js:81-85 | the recipe is selected, the form is closed and not editing |
| `App.AppState.HandleAddRecipe` | recipe_frontend/src/App.js:88-92 | a non-editing form opens with nothing selected |
| `App.AppState.HandleEditRecipe` | recipe_frontend/src/App.js:93-97 | an editing form opens with the recipe selected |
| `App.AppState.CancelForm` | recipe_frontend/src/App.js:185 | only `showForm` changes |
| `App.AppState.HandleSaveRecipe` | recipe_frontend/src/App.js:98-107 | issues `SaveRequest`. On failure nothing changes, the form stays open and nothing else is requested. On success the form closes and both the recipes and the favourites are fetched again |
| `App.AppState.HandleDeleteRecipe` | recipe_frontend/src/App.js:108-115 | nothing happens unless confirmed. A delete not answered 204 changes nothing and leaves the selection. A successful delete clears the selection and fetches the recipes and favourites again |
| `App.AppState.HandleLogin` | recipe_frontend/src/App.js:118-121 | login through the session; success returns the form to login mode, failure changes nothing and rejects |
| `App.AppState.HandleRegister` | recipe_frontend/src/App.js:122-125 | the same through registration |
| `App.AppState.SubmitCredentials` | recipe_frontend/src/App.js:155 | register mode registers, otherwise logs in |
| `App.AppState.SwitchMode` | recipe_frontend/src/App.js:157 | the authentication mode flips between login and register |
| `App.AppState.HandleLogout` | recipe_frontend/src/App.js:126-130 | the logout request goes out, the form closes and the selection clears. The user is cleared once the request returns. Once the identity query has settled, the view is the sign-in form or the list, and the sign-in form when the request did not reject |
| `App.AppState.HandleSearch` | recipe_frontend/src/App.js:133-135 | one list request for the current criteria, with the fetch settlement above |
| `App.AppState.SetSearchTerm` | recipe_frontend/src/App.js:68-71 | a changed term is stored and triggers exactly one list request for it; an unchanged term triggers nothing |
| `App.AppState.HandleShowFavorites` | recipe_frontend/src/App.js:136-138 | the filter flips and triggers exactly one list request for the new criteria |
| `App.AppState.UserChanged` | recipe_frontend/src/App.js:61-71 | on a change of user the favourites are fetched again (or emptied with no user), then the recipes |

## Left out

- HTTP, `fetch` and JSON: each call is its settled outcome. A JSON body that
  fails to parse on an ok response, and fields missing from the service's
  recipes, are not modelled; `Recipe` has every field.
- The build-time override of the service address (`process.env`): the
  address is the constant default.
- Concurrency: racing list fetches, and responses that arrive after logout,
  are not modelled. Each handler runs to completion with the outcomes given,
  and a late response is not modelled.
- Rejections that nothing catches: a failed list, save, delete or logout
  request rejects `fetchRecipes`, `handleSaveRecipe`, `handleDeleteRecipe` or
  `logout`, the model returns that rejection, and nothing displays it.
  `HandleLogout`, and the list refetch that a successful save or delete
  starts, drop the rejection instead, as the calls left un-awaited at
  recipe_frontend/src/App.js:105-106, 112-113 and 127 do. Unhandled-rejection
  reporting by the browser is not modelled.
- `fetchFavorites` is not among them: it turns a failed request into the
  empty set (recipe_frontend/src/App.js:56, `App.FavoriteIdsFrom`) and never
  rejects.
- React scheduling: batching of state updates and the effect run on first
  mount, with no user, are not modelled separately. `UserChanged` covers what
  the effects do whenever they run.
- The theme toggle and its DOM attribute, the header, sidebar, toolbar, card
  and detail markup, and the browser-enforced input constraints (`required`,
  `maxLength`, `min`, `max`, `minLength`) are presentation only.
- `App.Render` has no "Refreshing..." label: the toolbar
  (recipe_frontend/src/App.js:176-179) that shows it is the only place
  `recLoading` is visible. The fetch handlers keep `recLoading` as state.
- The recipe form's own field state after it has mounted: its fields are set
  from the initial data only when it mounts
  (recipe_frontend/src/components/RecipeForm.js:5-12), and the same form
  stays in place while it is shown (recipe_frontend/src/App.js:177-186).
  `RecipeForm.InitForm` is the state a freshly mounted form starts from. So
  pressing "Add" while editing a recipe keeps that recipe's values in the
  fields, and saving creates a copy of it. After a refetch during an edit,
  the fields likewise still hold the edited recipe's values. The model
  states what the form is passed (`App.ScreenOf`), not what it shows then.
- `UriComponent.Encode`, `RecipeApi.ListRecipesUrl`: a search text is a
  sequence of Unicode scalar values, so it cannot hold a lone surrogate.
  `encodeURIComponent` throws a `URIError` on one, and then `listRecipes`
  rejects before any request is made; that path is not modelled.
- `getRecipe` is never called by the component and is not modelled.
- The remaining `recipeApi` calls (login, register, listRecipes,
  createRecipe, updateRecipe, toggleFavorite, getFavorites) are all
  `RecipeApi.Settle` over their own request. Their JSON bodies are not built.
