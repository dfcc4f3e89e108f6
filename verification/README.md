# Book review client: a Dafny model of its request lifecycle and form logic

This project models the discrete logic of a React/Redux single-page client for a book catalogue with reviews, favourites and AI recommendations. The model covers:

- **Request descriptors.** Every action creator under `src/store/actions` is modelled as a pure function. It builds a call descriptor: the URL, the HTTP method, the body, the REQUEST/SUCCESS/FAILURE types and the `actionData` carried along. The builders do skip-to-page conversion, `{param}` placeholder substitution, `URLSearchParams` serialisation and trimmed search terms.
- **The API middleware.** It is a pure function from a dispatched value and the HTTP call's outcome (`Ok(response)` or `Err(error)`) to the actions it emits and the request it issues. What `await dispatch(...)` yields is the last emitted action.
- **The sixteen slice reducers.** They are total functions from a slice state and an action to the next state. A `Replay` function folds the middleware's output through a reducer, so lifecycle lemmas can state what a slice holds after a whole request.
- **The book and recommendations services.** The model covers the book-list query built by the service, the service's fallback to top-rated books, and the periodic fallback reasons.
- **The components' decision logic**, with `useState` replaced by explicit state records, call outcomes and user confirmations as inputs, and the dispatched descriptors as outputs. The components are the pagination strip, the review form, the sign-in dialog, the profile form, the review editor, the favourites list, the search bar, the book listing page and the book card.

JavaScript values the code reads loosely (`response.data?.books || []`) are modelled by a small `Json` datatype with JavaScript truthiness and `||`. Strings are `seq<char>`, and numbers are unbounded integers. Ratings on the book card are `real`.

## Model

| member | source | states |
|---|---|---|
| ApiMiddleware.NormalizeError | src/middlewares/api.ts:51-59 | The failure action's `error` holds the descriptor's error message (else "An error occurred") and the server's `error.code` (else "UNKNOWN_ERROR"), and every field of the raw error is spread over both |
| ApiMiddleware.Run | src/middlewares/api.ts:7-61 | A value without a call descriptor reaches the reducers unchanged and alone; a descriptor yields exactly two actions, REQUEST first, then SUCCESS with the response only when the method is supported and the call succeeded, otherwise FAILURE with the normalised error; both carry every actionData field at top level and nothing else besides `type` and `response`/`error` |
| ApiMiddleware.DispatchResult | src/middlewares/api.ts:7-61 | `await dispatch(d)` yields a plain action itself; for a descriptor, the SUCCESS action with the response when the call succeeds, otherwise the FAILURE action with the normalised error (an empty object for an unsupported method) |
| ApiMiddleware.DispatchResultError | src/middlewares/api.ts:44-59 | For actionData without an `error` field, the awaited result has a truthy `error` exactly when the call did not succeed |
| ApiMiddleware.AwaitedResult | src/middlewares/api.ts:44-59 | For a descriptor built as every builder builds one, the awaited result has a truthy `error` exactly when the call failed, and otherwise carries the response |
| ApiMiddleware.Issued | src/middlewares/api.ts:26-41 | GET requests go to the descriptor's full URL with its data as parameters; POST, PUT and DELETE go to the trimmed base address plus `/v1` plus the descriptor's path, DELETE without a body; an unsupported method issues no request |
| Urls.GetBase | src/services/api.ts:147-149 | The base address is the configured one when set and non-empty, else `http://localhost:5001`, and is never empty |
| Urls.TrimBaseSlashes | src/services/api.ts:9-12 | The HTTP client's base loses at most two trailing slashes, only slashes, and keeps a slash only when more than two were there |
| Urls.DropLeadingSlashes | src/services/api.ts:55-109 | A relative path loses exactly its leading slashes |
| Urls.CombineRooted | src/services/api.ts:55-109 | A path with one leading slash, such as `/v1/...`, is appended as it is to the trimmed base |
| Urls.CombineUrls | src/services/api.ts:9-12 | An empty path leaves the base; otherwise the address is the trimmed base, exactly one slash, and the path without its leading slashes |
| AddFavoriteActions.AddFavorite | src/store/actions/addFavoriteActions.ts:12-29 | Adding a favourite is a POST whose body is exactly `{ bookId }` to `/favorites`, failing with "Add to Favorites Failed" and carrying the id in actionData |
| AddFavoriteActions.UpdateFavoriteOptimisticAction | src/store/actions/addFavoriteActions.ts:35-40 | The optimistic update carries `{ bookId, isFavorite }` as its response |
| AuthActions.LoginUser | src/store/actions/authActions.ts:17-33 | Sign-in is a POST of the credentials, unchanged, to `/auth/login`, failing with "Login Failed" |
| AuthActions.RegisterUser | src/store/actions/authActions.ts:35-51 | Sign-up is a POST of the user data, unchanged, to `/auth/register`, failing with "Registration Failed" |
| AuthActions.LogoutUser | src/store/actions/authActions.ts:53-55 | The logout action has a type and nothing else |
| AuthActions.SetAuthDataAction | src/store/actions/authActions.ts:57-59 | The auth-data action carries its argument as the response |
| CheckFavoriteActions.FavoriteFlag | src/store/actions/checkFavoriteActions.ts:44-49 | The status payload reads back the book id and the flag |
| CheckFavoriteActions.CheckFavorite | src/store/actions/checkFavoriteActions.ts:14-31 | The status check is a GET of base + `/api/v1` + the check path with the id substituted, failing with "Check Favorite Status Failed" and carrying the id |
| CheckFavoriteActions.CheckFavoritePath | src/store/actions/checkFavoriteActions.ts:15 | An id without `$` lands as the last segment after `/favorites/check/` |
| CheckFavoriteActions.CheckFavoriteSafe | src/store/actions/checkFavoriteActions.ts:37-42 | A guest gets nothing to dispatch; a signed-in reader gets exactly the status check |
| CheckFavoriteActions.UpdateFavoriteStatusAction | src/store/actions/checkFavoriteActions.ts:44-49 | The status update carries `{ bookId, isFavorite }` as its response |
| CheckFavoriteActions.ClearFavoriteStatusAction | src/store/actions/checkFavoriteActions.ts:51-53 | The clear action has a type and nothing else |
| CheckUserReviewActions.CheckUserReview | src/store/actions/checkUserReviewActions.ts:10-27 | The own-review check is a GET of base + `/v1/reviews/check/` + the id as written, failing with "Check User Review Failed" |
| CreateReviewActions.CreateReview | src/store/actions/createReviewActions.ts:10-32 | Creating a review is a POST of book id, rating and text to `/reviews`, failing with "Create Review Failed" |
| DeleteReviewActions.DeleteReview | src/store/actions/deleteReviewActions.ts:10-27 | Deleting a review is a DELETE of the very path an update of that review uses, failing with "Delete Review Failed" |
| GetBookActions.GetBook | src/store/actions/getBookActions.ts:11-27 | One book is a GET of base + `/api/v1/books/` + the id, failing with "Get Book Failed" |
| GetBookReviewsActions.GetBookReviews | src/store/actions/getBookReviewsActions.ts:11-34 | A book's reviews are a GET under `/api/v1` with the id substituted into the path and `skip` and `limit` appended, defaulting to 0 and 10 when absent |
| GetBookReviewsActions.BookReviewsPath | src/store/actions/getBookReviewsActions.ts:12-13 | When the base has no `{` and the id no `$`, the id lands as the segment after `/reviews/book/` |
| GetBookReviewsActions.BookReviewsDefaults | src/store/actions/getBookReviewsActions.ts:11-14 | Called without paging, the request asks for `skip=0&limit=10` |
| GetBooksActions.BooksQuery | src/store/actions/getBooksActions.ts:20-34 | The query is `skip` when given, else `page` (default 1), then `limit` (default 12), then the trimmed search term only when it is not blank |
| GetBooksActions.BooksQueryNames | src/store/actions/getBooksActions.ts:24-34 | Exactly one of `skip` and `page` is sent, `limit` always, and `search` exactly for a non-blank term |
| GetBooksActions.GetBooks | src/store/actions/getBooksActions.ts:14-55 | The book list is a GET of base + `/v1/books?` + the serialised query, failing with "Fetch Books Failed" |
| GetBooksActions.GetBooksQueryReadsBack | src/store/actions/getBooksActions.ts:36-39 | The URL starts with the books address and its query splits on `&` into exactly the encoded parameters |
| GetBooksActions.UpdateBooksTaskAction | src/store/actions/getBooksActions.ts:66-68 | The task action carries its argument as the response |
| GetBooksActions.UpdateBookInListAction | src/store/actions/getBooksActions.ts:70-72 | The list-update action carries the book under `book` and nothing else |
| BookParams.WithSearch | src/store/actions/searchBooksActions.ts:13-18 | Adding a term keeps page, limit and skip |
| GetFavoritesActions.FavoritesQuery | src/store/actions/getFavoritesActions.ts:18-23 | The favourites query is `page` (the offset's page, computed with JavaScript division) then `limit` |
| GetFavoritesActions.GetFavorites | src/store/actions/getFavoritesActions.ts:14-41 | The favourites list is a GET of base + `/v1/favorites?` + the query with defaults 0 and 20; its success type appends exactly when `append` is true and replaces otherwise |
| GetFavoritesActions.GetFavoritesSimple | src/store/actions/getFavoritesActions.ts:48-50 | The simple form asks for the same address and never appends |
| GetFavoritesActions.FavoritesQueryReadsBack | src/store/actions/getFavoritesActions.ts:16-23 | For a positive page size the query reads back as `page=⌊skip/limit⌋+1` and `limit` in decimal |
| GetFavoritesActions.UpdateFavoritesTaskAction | src/store/actions/getFavoritesActions.ts:52-54 | The task action carries its argument as the response |
| GetRecommendationsActions.GetRecommendations | src/store/actions/getRecommendationsActions.ts:13-29 | Recommendations are a GET of base + `/v1/recommendations`, failing with "Failed to fetch AI recommendations" |
| GetRecommendationsActions.ClearRecommendationsAction | src/store/actions/getRecommendationsActions.ts:35-37 | The clear action has a type and nothing else |
| GetUserReviewsActions.GetUserReviews | src/store/actions/getUserReviewsActions.ts:11-35 | A user's reviews are a GET with the id substituted into the first `{userId}` of the whole address and the offset's page and the limit appended unencoded, defaults 0 and 20 |
| GetUserReviewsActions.UserReviewsPath | src/store/actions/getUserReviewsActions.ts:12-13 | When the base has no `{` and the id no `$`, the id lands as the segment after `/reviews/user/` |
| GetUserReviewsActions.UserReviewsAddress | src/store/actions/getUserReviewsActions.ts:11-17 | Under the same conditions and a positive limit, the address asks for page `⌊skip/limit⌋+1` |
| RemoveFavoriteActions.RemoveFavorite | src/store/actions/removeFavoriteActions.ts:10-27 | Removing a favourite is a DELETE of the favourite's path, failing with "Remove from Favorites Failed" and carrying the id |
| RemoveFavoriteActions.RemoveFavoritePath | src/store/actions/removeFavoriteActions.ts:11 | An id without `$` lands as the segment after `/favorites/` |
| UpdateReviewActions.ReviewPath | src/store/actions/updateReviewActions.ts:11 | A review's path is `/reviews`, a slash, and the id as written |
| UpdateReviewActions.UpdateReview | src/store/actions/updateReviewActions.ts:10-31 | Updating a review is a PUT of rating and text to the review's path, failing with "Update Review Failed" |
| UpdateReviewActions.ReviewPathInjective | src/store/actions/updateReviewActions.ts:11 | Different review ids address different paths |
| UpdateUserProfileActions.UpdateUserProfile | src/store/actions/updateUserProfileActions.ts:10-28 | The profile update is a PUT of the profile data, unchanged, to `/users/profile`, failing with "Update User Profile Failed" |
| SearchBooksActions.SearchQuery | src/store/actions/searchBooksActions.ts:18-29 | The search query is `skip` or `page`, then `limit`, then the trimmed term, always |
| SearchBooksActions.SearchBooks | src/store/actions/searchBooksActions.ts:13-49 | A search is a GET of base + `/v1/books?` + the search query, failing with "Search Books Failed" and carrying the trimmed term |
| SearchBooksActions.ClearSearchResultsAction | src/store/actions/searchBooksActions.ts:59-61 | The clear action has a type and nothing else |
| SearchBooksActions.SearchMatchesBookList | src/store/actions/searchBooksActions.ts:13-49 | For a non-blank term a search asks for exactly the address the book list asks for with that term |
| SearchBooksActions.BlankSearchDiffers | src/store/actions/searchBooksActions.ts:29 | For a blank term the search still sends an empty `search` while the book list sends none |
| AuthReducer.Reduce | src/store/reducers/authReducer.ts:31-114 | A sign-in or sign-up request sets loading, clears the error and its details and keeps the session; a success signs in with the response data's user and token; a failure signs out and records the failure's message and status code; a signed-out session never holds a user or token; an unhandled action changes nothing; only a success or restored auth data signs in; logout returns the initial state |
| AuthReducer.ReplayConsistent | src/store/reducers/authReducer.ts:31-114 | Any sequence of actions keeps "signed out means no user and no token" |
| AuthReducer.LogoutIdempotent | src/store/reducers/authReducer.ts:78-92 | Signing out twice is signing out once |
| AuthReducer.SetAuthDataSignsIn | src/store/reducers/authReducer.ts:94-112 | Restored auth data signs in with the given user and token, whatever they are, and clears the error |
| AuthReducer.LoginLifecycle | src/store/reducers/authReducer.ts:32-76 | A sign-in through the middleware ends not loading, signed in exactly when the call succeeded with the server's user and token, signed out with the error recorded when it failed, with "Login Failed" as the message when the server's error has none and the error's own status code, else the server's `error.code`, else UNKNOWN_ERROR |
| SearchBooksReducer.ReplaceBook | src/store/reducers/searchBooksReducer.ts:101-103 | Each result whose `_id` matches the edited book is replaced by it, in place; the others stay |
| SearchBooksReducer.Reduce | src/store/reducers/searchBooksReducer.ts:36-111 | A request sets loading, clears the error and keeps the details and data apart from the searched mark; a success stores the response's books (else an empty list), its meta pagination (else the empty page 0 of 12) and the term (else empty); a failure records the details and keeps the data; any lifecycle action marks that a search was made, and only clearing unmarks it; clearing returns the initial state; an unhandled action changes nothing |
| SearchBooksReducer.ClearIdempotent | src/store/reducers/searchBooksReducer.ts:80-98 | Clearing twice is clearing once |
| SearchBooksReducer.UpdateBookInListReplaces | src/store/reducers/searchBooksReducer.ts:100-109 | An edited book replaces every result with its id, keeping order, length and the rest of the slice |
| SearchBooksReducer.SearchRecordsTerm | src/store/reducers/searchBooksReducer.ts:47-64 | A successful search through the middleware records the trimmed term the request carried, the response's books and meta pagination, and ends not loading, without error, marked as searched |
| SearchBooksReducer.SuccessRecordsTerm | src/store/reducers/searchBooksReducer.ts:37-64 | The same for any search descriptor whose actionData carries a term |
| GetBooksReducer.Reduce | src/store/reducers/getBooksReducer.ts:33-85 | A request sets loading and clears the error, nothing else; a success stores the response's books (else an empty list) and its meta pagination (else the empty page 0 of 12) and keeps the details; a failure records the details and keeps the list; the books task action only ends loading; an unhandled action changes nothing |
| GetBooksReducer.UpdateBooksTaskIgnoresPayload | src/store/reducers/getBooksReducer.ts:78-83 | The books task action only clears the loading flag, whatever its payload |
| GetBooksReducer.LoadLifecycle | src/store/reducers/getBooksReducer.ts:34-76 | A book-list request through the middleware ends not loading, with the response's books and meta pagination (defaults when absent) on success and the previous list and a recorded error on failure |
| GetBooksReducer.GetBooksLifecycle | src/store/reducers/getBooksReducer.ts:34-76 | Every request the book-list builder makes ends not loading, in error exactly when it failed, with the response's books and pagination on success and the previous data on failure |
| GetBookReviewsReducer.Reduce | src/store/reducers/getBookReviewsReducer.ts:32-72 | An unhandled action changes nothing; only a success replaces the reviews; a request clears the previous error |
| GetBookReviewsReducer.LoadLifecycle | src/store/reducers/getBookReviewsReducer.ts:33-70 | A reviews request through the middleware ends with the response's reviews and pagination, with no defaults, on success and the previous reviews on failure |
| GetBookReviewsReducer.GetBookReviewsLifecycle | src/store/reducers/getBookReviewsReducer.ts:33-70 | Every request the reviews builder makes ends not loading, in error exactly when it failed, with the response's reviews and pagination on success and the previous data on failure |
| GetRecommendationsReducer.Reduce | src/store/reducers/getRecommendationsReducer.ts:26-73 | A request sets loading, clears the error and details and keeps the data; a success stores the response's recommendations (else an empty list) labelled with its source, or "ai" when it names none; a failure drops the shown recommendations; clearing returns the initial state; an unhandled action changes nothing |
| GetRecommendationsReducer.ClearIdempotent | src/store/reducers/getRecommendationsReducer.ts:62-71 | Clearing twice is clearing once, and both give the initial state |
| GetRecommendationsReducer.LoadLifecycle | src/store/reducers/getRecommendationsReducer.ts:27-60 | A recommendations request through the middleware ends with the server's list on success and an empty list on failure |
| GetRecommendationsReducer.Lifecycle | src/store/reducers/getRecommendationsReducer.ts:27-60 | The same for any descriptor with the recommendation types |
| CheckUserReviewReducer.Reduce | src/store/reducers/checkUserReviewReducer.ts:25-62 | A request sets loading, clears the error and details and keeps the data; a success stores the server's flag and its review, null when absent; a failed check reads as not reviewed; an unhandled action changes nothing |
| CheckUserReviewReducer.CheckLifecycle | src/store/reducers/checkUserReviewReducer.ts:26-60 | A check through the middleware ends with the server's flag and review (null when absent) on success and "not reviewed" on failure |
| CheckUserReviewReducer.Lifecycle | src/store/reducers/checkUserReviewReducer.ts:26-60 | The same for any descriptor with the check types |
| ReviewReducers.Mutation | src/store/reducers/updateReviewReducer.ts:22-50 | A request sets loading and clears the error and details; a success stores the response's `data`; a failure records the details with null data; an unhandled action changes nothing; an error flag always comes with null data |
| ReviewReducers.MutationLifecycle | src/store/reducers/createReviewReducer.ts:22-50 | A mutation through the middleware ends not loading, holding the response's `data` when the call succeeded and null with the error set otherwise |
| ReviewReducers.UpdateReviewLifecycle | src/store/reducers/updateReviewReducer.ts:22-50 | Updating a review leaves the server's answer in the slice, or null and the error when the update failed |
| ReviewReducers.CreateReviewLifecycle | src/store/reducers/createReviewReducer.ts:22-50 | Creating a review leaves the server's answer in the slice, or null and the error when it failed |
| ReviewReducers.DeleteReviewLifecycle | src/store/reducers/deleteReviewReducer.ts:22-50 | Deleting a review leaves the server's answer in the slice, or null and the error when it failed |
| ReviewReducers.CreateReview | src/store/reducers/createReviewReducer.ts:22-50 | The create-review slice takes the mutation step for its own three types: loading on request, the response's `data` on success, null data with the details on failure |
| ReviewReducers.UpdateReview | src/store/reducers/updateReviewReducer.ts:22-50 | The update-review slice takes the mutation step for its own three types |
| ReviewReducers.DeleteReview | src/store/reducers/deleteReviewReducer.ts:22-50 | The delete-review slice takes the mutation step for its own three types |
| Slices.EmptyPagination | src/store/reducers/getBooksReducer.ts:20-27 | The starting pagination has exactly the six pagination keys |
| Slices.ErrorDetails | src/store/reducers/getBooksReducer.ts:68-76 | The recorded error details are exactly the failure's message and status code |
| Slices.Requested | src/store/reducers/getUserReviewsReducer.ts:17-22 | A request on a slice that starts empty sets loading, keeps existing data and supplies `{}` when there is none, and touches nothing else |
| Slices.Failed | src/store/reducers/getUserReviewsReducer.ts:28-36 | A failure on such a slice sets the error and its details and keeps the data |
| Slices.Loaded | src/store/reducers/getUserReviewsReducer.ts:23-27 | A success on such a slice stores the new data and leaves the error flag and details as they were |
| Slices.ReplayKeepsError | src/store/reducers/getUserReviewsReducer.ts:16-38 | For a reducer that never clears the error flag, a set flag survives every later sequence of actions |
| LooseReducers.Lifecycle | src/store/reducers/removeFavoriteReducer.ts:16-38 | A request sets loading and keeps the data or `{}`; a success ends loading with the loaded data; a failure ends loading, sets the error and records the details, keeping the data; an unhandled action changes nothing; no action clears the error flag or touches the meta |
| LooseReducers.GetUserReviews | src/store/reducers/getUserReviewsReducer.ts:16-38 | The lifecycle step with the response's `data` as the loaded data; the error flag is never cleared |
| LooseReducers.UpdateUserProfile | src/store/reducers/updateUserProfileReducer.ts:16-38 | The lifecycle step with the response's `data` as the loaded data; the error flag is never cleared |
| LooseReducers.RemoveFavorite | src/store/reducers/removeFavoriteReducer.ts:16-38 | The lifecycle step with the response's `data` as the loaded data; the error flag is never cleared |
| LooseReducers.GetBook | src/store/reducers/getBookReducer.ts:16-38 | The lifecycle step with the response data's `book` as the loaded data; the error flag is never cleared |
| LooseReducers.AddFavorite | src/store/reducers/addFavoriteReducer.ts:17-44 | The lifecycle step with the response's `data` for the add-favourite types; the optimistic update stores its payload as the data and ends loading; the error flag is never cleared |
| LooseReducers.LifecycleRun | src/store/reducers/getBookReducer.ts:16-38 | For any reducer that takes the lifecycle step, one request through the middleware ends not loading; success stores what the reducer loads and leaves the error flag as it was; failure sets the flag and keeps the data the request supplied |
| LooseReducers.GetBookRun | src/store/reducers/getBookReducer.ts:16-38 | Opening a book through the middleware ends not loading with the response data's `book` and the error flag unchanged on success, and with the previous data (or `{}`) and the error set on failure |
| LooseReducers.UserReviewsErrorSticks | src/store/reducers/getUserReviewsReducer.ts:23-27 | After a failure, even a successful refetch of a user's reviews leaves the error flag set while storing the new data |
| LooseReducers.OptimisticStoresFlag | src/store/reducers/addFavoriteReducer.ts:38-42 | The optimistic update stores `{ bookId, isFavorite }` as the slice's data |
| GetFavoritesReducer.Appended | src/store/reducers/getFavoritesReducer.ts:31-41 | An appended page keeps the response's fields and lists the favourites already held followed by the new ones |
| GetFavoritesReducer.Merged | src/store/reducers/getFavoritesReducer.ts:51-56 | The task payload is merged over the data: its keys win, the rest is kept, and no other key appears |
| GetFavoritesReducer.Reduce | src/store/reducers/getFavoritesReducer.ts:18-58 | A request sets loading over the list held, or `{}`; a replacing page becomes the data and an appended one follows the list held, each ending loading and setting `meta` from the response; a failure ends loading, sets the error flag, records the failure's message and status code and keeps the list; the task action merges its payload; an unhandled action changes nothing; no action clears the error flag, and only a page changes `meta` |
| GetFavoritesReducer.LoadLifecycle | src/store/reducers/getFavoritesReducer.ts:19-50 | A favourites request through the middleware ends not loading; on success the response's meta and either its data or the held favourites followed by the new ones, with the error flag unchanged; on failure the error set and the held list (or `{}`) kept |
| GetFavoritesReducer.FavoritesLifecycle | src/store/reducers/getFavoritesReducer.ts:19-50 | Every request the favourites builder makes runs that lifecycle, appending exactly when asked to |
| GetFavoritesReducer.AppendConcatenates | src/store/reducers/getFavoritesReducer.ts:31-41 | An appended page follows the held favourites in order, and the list's length is the sum of both |
| GetFavoritesReducer.ReplaceDiscards | src/store/reducers/getFavoritesReducer.ts:25-30 | A replacing page keeps nothing of the previous data |
| GetFavoritesReducer.TaskMerges | src/store/reducers/getFavoritesReducer.ts:51-56 | After the task action every key reads the payload's value when the payload has it and the old value otherwise |
| CheckFavoriteReducer.SetStatus | src/store/reducers/checkFavoriteReducer.ts:32-35 | Setting a status writes the flag under the key's string form and keeps every other book's flag |
| CheckFavoriteReducer.Reduce | src/store/reducers/checkFavoriteReducer.ts:18-61 | A request sets loading over the data held, or `{}`, and keeps every status; a success stores the response's data and sets the response's flag under the book id read from `actionData`; a failure ends loading, sets the error flag and records the details, keeping data and statuses; clearing empties the statuses; an unhandled action changes nothing; no action clears the error flag |
| CheckFavoriteReducer.UpdateStatusFrame | src/store/reducers/checkFavoriteReducer.ts:46-54 | A status update sets its book's flag, adds no other key, keeps every other flag and the error flag |
| CheckFavoriteReducer.UpdateStatusIdempotent | src/store/reducers/checkFavoriteReducer.ts:46-54 | Applying the same status update twice is applying it once |
| CheckFavoriteReducer.CheckStoresUnderUndefined | src/store/reducers/checkFavoriteReducer.ts:26-36 | A successful status check through the middleware stores the flag under the key "undefined", whatever the book, because the reducer reads the id from an `actionData` field the action does not have |
| CheckFavoriteReducer.CheckRun | src/store/reducers/checkFavoriteReducer.ts:26-36 | The same for any descriptor with the check types whose actionData holds a message and a book id |
| Redux.OfType | src/store/actions/authActions.ts:53-55 | An action creator without payload yields an action with its type and no other field |
| Redux.WithResponse | src/store/actions/authActions.ts:57-59 | An action creator with a payload yields exactly a type and that payload as `response` |
| Redux.ActionData | src/store/actions/addFavoriteActions.ts:24-27 | A descriptor's actionData reads back its error message and every extra field |
| Pagination.PageRun | src/components/BookList/Pagination.tsx:34-36 | The counting loop lists the pages from its first to its last bound, one each, in order, and nothing when the bounds cross |
| Pagination.Window | src/components/BookList/Pagination.tsx:41-49 | With more than five pages the middle run is always three pages, starting no earlier than page 2 and ending no later than the page before the last |
| Pagination.VisiblePages | src/components/BookList/Pagination.tsx:28-73 | Up to five pages are all shown in order without ellipsis; beyond that the strip has five to seven entries, starts with page 1 and ends with the last page; every strip is well formed (pages in range, neighbours consecutive, an ellipsis only between pages at least two apart, never first or last) and contains the current page whenever it is in range |
| Pagination.Strip | src/components/BookList/Pagination.tsx:38-69 | The strip for more than five pages holds the whole middle run, and an ellipsis exactly where the run leaves a gap to the first or the last page |
| Pagination.Increasing | src/components/BookList/Pagination.tsx:51-64 | In a well-formed strip, pages further right have higher numbers |
| Pagination.VisiblePagesIncrease | src/components/BookList/Pagination.tsx:28-73 | The page numbers shown strictly increase from left to right, so none is shown twice, for any current page |
| Pagination.Controls | src/components/BookList/Pagination.tsx:24-26 | Nothing is rendered for one page or none; otherwise a well-formed strip of at least two entries |
| Pagination.PageClick | src/components/BookList/Pagination.tsx:75-79 | A click asks for a page exactly when it is on a number other than the current page and nothing is loading |
| Pagination.ClickStaysInRange | src/components/BookList/Pagination.tsx:75-79 | Any click on the strip asks, at most, for an existing page other than the current one |
| Pagination.Previous | src/components/BookList/Pagination.tsx:81-85 | Previous asks for the page before exactly when there is one and nothing is loading |
| Pagination.Next | src/components/BookList/Pagination.tsx:87-91 | Next asks for the page after exactly when there is one and nothing is loading |
| Pagination.ItemRange | src/components/BookList/Pagination.tsx:93-94 | The last item shown is the end of the current page or the total, whichever is smaller |
| Pagination.ItemRangeFits | src/components/BookList/Pagination.tsx:93-94 | On a page that holds an item the range is non-empty, within the total and at most one page long |
| JsNumber.FloorDiv | src/store/actions/getUserReviewsActions.ts:16 | `Math.floor(a / b)` rounds toward negative infinity for a non-zero divisor and gives Infinity, -Infinity or NaN for a zero one |
| JsNumber.Add | src/store/actions/getFavoritesActions.ts:18 | Adding an integer moves a finite number and leaves Infinity and NaN as they are |
| JsNumber.ToString | src/store/actions/getFavoritesActions.ts:22-23 | A finite number is written in decimal and positive infinity as "Infinity" |
| SkipPaging.PageOf | src/store/actions/getUserReviewsActions.ts:16 | For a positive page size the page is the 1-based one holding the offset; a zero page size gives NaN or Infinity |
| SkipPaging.PageOfMultiple | src/store/actions/getFavoritesActions.ts:18 | An offset of k whole pages asks for page k + 1 |
| SkipPaging.NextPage | src/store/actions/getFavoritesActions.ts:18 | Moving the offset on by one page moves the requested page on by one |
| Pagination.GapBothSides | src/components/BookList/Pagination.tsx:51-69 | A middle run clear of both ends is shown with an ellipsis on each side, and the strip is well formed |
| Pagination.GapBeforeOnly | src/components/BookList/Pagination.tsx:51-69 | A middle run reaching the page before the last has an ellipsis only after page 1, and the strip is well formed |
| Pagination.GapAfterOnly | src/components/BookList/Pagination.tsx:51-69 | A middle run starting at page 2 has an ellipsis only before the last page, and the strip is well formed |
| Pagination.NoGap | src/components/BookList/Pagination.tsx:51-69 | A middle run touching both ends needs no ellipsis, and the strip is well formed |
| Pagination.RunWellFormed | src/components/BookList/Pagination.tsx:32-36 | The plain run of all pages is a well-formed strip |
| FormEncoding.Utf8 | src/store/actions/getBooksActions.ts:22-38 | A character becomes one to four UTF-8 bytes: itself below 0x80, and only continuation-range bytes otherwise |
| FormEncoding.EncodeByte | src/store/actions/getBooksActions.ts:37-38 | A serialised byte never contains the `&` or `=` that delimit pairs |
| FormEncoding.EncodeBytes | src/store/actions/getBooksActions.ts:37-38 | A serialised byte string never contains `&` or `=` |
| FormEncoding.Encode | src/store/actions/getBooksActions.ts:25-38 | A serialised name or value never contains `&` or `=`, whatever text was appended |
| FormEncoding.EncodeKept | src/store/actions/getBooksActions.ts:25-30 | Text made only of letters, digits and `*-._` is serialised unchanged |
| FormEncoding.EncodeInt | src/store/actions/getBooksActions.ts:25-30 | A number's decimal text, as appended for `page`, `skip` and `limit`, is serialised unchanged |
| FormEncoding.EncodePair | src/store/actions/getBooksActions.ts:22-38 | A serialised `name=value` pair contains no `&` |
| FormEncoding.EncodePairs | src/store/actions/getBooksActions.ts:22-38 | One serialised pair per appended parameter, in the order appended |
| FormEncoding.SerializeSplits | src/store/actions/getBooksActions.ts:37-38 | Splitting the query string on `&` gives back exactly the serialised pairs, in order |
| FormEncoding.SerializeNonEmpty | src/store/actions/getBooksActions.ts:37-38 | A query with a parameter is a non-empty string, so the `?` and the query are always added |
| FieldRules.EmailTest | src/components/Auth/AuthModal.tsx:119 | The scan reports a match exactly when some `@` has a non-space before it and is followed by non-spaces up to a `.` with a non-space after it |
| FieldRules.ShortAddressAccepted | src/components/Auth/AuthModal.tsx:119 | `a@b.co` matches the email pattern |
| FieldRules.NoAtRejected | src/components/Auth/AuthModal.tsx:119 | A text with no `@` never matches |
| FieldRules.EmailError | src/components/Auth/AuthModal.tsx:117-121 | A blank email is reported as required, otherwise as invalid exactly when the pattern does not match, and nothing else |
| FieldRules.AcceptedEmailShape | src/components/UserProfile/ProfileSettings.tsx:32-36 | An accepted email has at least five characters, an `@` and a `.` |
| ReviewForm.Initialise | src/components/BookDetails/ReviewForm.tsx:39-47 | An existing review given with the flag fills the rating and text; anything else resets both; errors are untouched |
| ReviewForm.Validate | src/components/BookDetails/ReviewForm.tsx:78-93 | A rating error exactly for rating 0; a text error for a blank text, and otherwise exactly for one over 100 characters |
| ReviewForm.ButtonMatchesValidation | src/components/BookDetails/ReviewForm.tsx:78-137 | For a non-negative rating the submit button is enabled exactly when validation passes; a negative rating disables the button although validation would let it through |
| ReviewForm.IsFormValid | src/components/BookDetails/ReviewForm.tsx:137 | An enabled submit button means validation passes; a missing rating or over-long text disables it |
| ReviewForm.TextChange | src/components/BookDetails/ReviewForm.tsx:126-134 | Text of at most 100 characters replaces the text and clears its error; a longer one leaves the form unchanged |
| ReviewForm.RatingChange | src/components/BookDetails/ReviewForm.tsx:119-124 | The rating is replaced and its error cleared; text and its error are kept |
| ReviewForm.Remaining | src/components/BookDetails/ReviewForm.tsx:136 | The remaining count and the text's length add up to 100, so it is non-negative exactly within the limit |
| ReviewForm.EditsKeepWithinLimit | src/components/BookDetails/ReviewForm.tsx:119-136 | No sequence of typing and rating edits takes the text over 100 characters |
| ReviewForm.ReviewId | src/components/BookDetails/ReviewForm.tsx:105 | The review's `_id` when present, else its `id`, else nothing |
| ReviewForm.Submit | src/components/BookDetails/ReviewForm.tsx:95-117 | The validation errors are recorded; a request goes out exactly when they are empty, an update exactly for a flagged existing review with an id, otherwise a create for this book, always with the trimmed text and the form's rating |
| ReviewForm.SubmittedTextFits | src/components/BookDetails/ReviewForm.tsx:85-111 | A submitted text is never empty and never over 100 characters |
| BookService.GetBooksPath | src/services/bookService.ts:28-47 | The path is `/books?` followed by a query that splits back into the serialised book-list parameters |
| BookService.ServiceMatchesAction | src/services/bookService.ts:28-47 | For a base address without a trailing slash the service requests the very address the book-list action creator builds |
| BookService.AddressOf | src/services/api.ts:55-57 | A rooted path is requested under the base address followed by `/v1` |
| BookService.PlainBaseKept | src/services/api.ts:9-12 | A base address without a trailing slash is used as it is |
| BookService.SearchOverridesParams | src/services/bookService.ts:66-68 | Any `search` field of the caller's parameters is replaced by the term |
| BookService.SearchMatchesAction | src/services/bookService.ts:66-68 | For a non-blank term the service search requests the same address as the search action creator |
| BookService.BlankSearchOmitted | src/services/bookService.ts:41-43 | A blank term sends no `search` parameter |
| BookService.BookByIdPath | src/services/bookService.ts:52-54 | The path is the books path, a slash and the id, unchanged |
| BookService.BookAddressesDiffer | src/services/bookService.ts:52-54 | The service's single-book address never equals the one the single-book action creator requests |
| RecommendationsService.FallbackReason | src/services/recommendationsService.ts:62-77 | The reason is one of the ten, and the index-th for the first ten positions |
| RecommendationsService.FallbackReasonPeriodic | src/services/recommendationsService.ts:76 | Positions any multiple of ten apart get the same reason |
| RecommendationsService.FallbackRecommendations | src/services/recommendationsService.ts:37-44 | For a list without null or undefined books: one entry per book, in order, carrying the book, the reason for its position, the fallback id, confidence 0.7, source `fallback` and the clock's timestamp |
| RecommendationsService.Fallback | src/services/recommendationsService.ts:27-57 | A failed request rethrows its error; otherwise the envelope is returned exactly when `data.books` is a list with no null or undefined book, with one recommendation per book in order; a missing list rejects, and so does a nullish book, whose `_id` read throws |
| RecommendationsService.GetRecommendations | src/services/recommendationsService.ts:14-22 | A successful AI request is returned as it is and no fallback is requested; a failed one requests the top-rated books and settles as the fallback does, so its own error never surfaces |
| AuthModal.PasswordError | src/components/Auth/AuthModal.tsx:123-127 | A blank password is reported as required; otherwise an error is reported exactly for fewer than seven characters of the untrimmed value |
| AuthModal.Validate | src/components/Auth/AuthModal.tsx:114-135 | Errors are recorded only under email, password and name; email and password exactly as their checks report, the name exactly when signing up with a blank name |
| AuthModal.DistinctKeys | src/components/Auth/AuthModal.tsx:117-131 | The three field keys are different, so no check overwrites another's error |
| AuthModal.SignInIgnoresName | src/components/Auth/AuthModal.tsx:129-134 | Signing in passes exactly when email and password pass, whatever the name holds |
| AuthModal.Submit | src/components/Auth/AuthModal.tsx:137-156 | Something is sent exactly when validation recorded nothing; signing in sends email and password only, signing up the name as well |
| AuthModal.BaseMessage | src/components/Auth/AuthModal.tsx:57-64 | The message is the details' `message`, else their `error`, else their `errorMessage`, else "An error occurred", and is never falsy |
| AuthModal.SliceDetailsUseErrorMessage | src/components/Auth/AuthModal.tsx:55-64 | With the details the auth slice records, the message is the failure's `errorMessage`, else the generic one |
| AuthModal.FirstHolding | src/components/Auth/AuthModal.tsx:67-83 | The category is left unset exactly when no test holds |
| AuthModal.Classify | src/components/Auth/AuthModal.tsx:67-83 | Status 401 always means invalid credentials, and a message stays unclassified exactly when none of the five tests holds on its lower-cased text |
| AuthModal.FirstTestWins | src/components/Auth/AuthModal.tsx:67-83 | A message gets a test's category exactly when that test holds and no earlier test does |
| AuthModal.ClassifyIgnoresCase | src/components/Auth/AuthModal.tsx:67-83 | A message and its lower-case form are classified alike |
| AuthModal.ToLowerIdempotent | src/components/Auth/AuthModal.tsx:68 | Lower-casing twice is lower-casing once |
| AuthModal.Friendly | src/components/Auth/AuthModal.tsx:66-83 | A classified message is replaced by one of the five friendly texts; an unclassified one is shown as it is |
| AuthModal.FriendlyNotBlank | src/components/Auth/AuthModal.tsx:66-83 | A message with text never becomes empty: every friendly replacement has words in it |
| AuthModal.ErrorEffect | src/components/Auth/AuthModal.tsx:54-95 | Without an error and details the general error is blanked and the others kept; with both, status 401 gives the invalid-credentials text without reading the message, a string message gives its friendly form as the only error, and any other message throws |
| AuthModal.InputChange | src/components/Auth/AuthModal.tsx:97-112 | The typed field alone changes in the form; afterwards neither that field's error nor the general one shows, and every other error is kept |
| AuthModal.BackdropKeepsErrorVisible | src/components/Auth/AuthModal.tsx:38-87 | For details with a string message or status 401, when the backdrop refuses to close the dialog the error effect has put a non-empty general message on show |
| AuthModal.BackdropCloses | src/components/Auth/AuthModal.tsx:38-45 | A backdrop click closes the dialog for a signed-in user or when no error is recorded, and only then |
| ProfileSettings.UserText | src/components/UserProfile/ProfileSettings.tsx:15-18 | A user field holding a string is shown as it is; anything else shows as empty |
| ProfileSettings.FromUser | src/components/UserProfile/ProfileSettings.tsx:22-27 | The form takes the user's email and name as shown |
| ProfileSettings.Validate | src/components/UserProfile/ProfileSettings.tsx:29-44 | Errors only under email and name: the email exactly as its check reports, the name exactly when blank |
| ProfileSettings.PassesExactly | src/components/UserProfile/ProfileSettings.tsx:29-44 | The form passes exactly when the email is non-blank and matches the pattern and the name is non-blank |
| ProfileSettings.InputChange | src/components/UserProfile/ProfileSettings.tsx:46-61 | The typed field alone changes; its error is deleted exactly when it was showing, and otherwise the errors are untouched |
| ProfileSettings.InputChangeKeepsOthers | src/components/UserProfile/ProfileSettings.tsx:53-60 | Typing adds no error, keeps every other one, the general error included, and leaves none showing for the typed field |
| ProfileSettings.Cancel | src/components/UserProfile/ProfileSettings.tsx:90-97 | Cancelling restores the user's values, clears every error and leaves editing |
| ProfileSettings.AuthData | src/components/UserProfile/ProfileSettings.tsx:77-80 | The auth-data payload carries the given user and token |
| ProfileSettings.Settle | src/components/UserProfile/ProfileSettings.tsx:71-87 | The auth data is set exactly when the awaited result has no error and its reply's `data` can be read, storing `data.profile` with the token and leaving editing; otherwise only the general error is recorded |
| ProfileSettings.Submit | src/components/UserProfile/ProfileSettings.tsx:63-88 | An invalid form records its errors and sends nothing; a valid one sends email and name, and either updates the auth state and clears the errors or shows the general error |
| ProfileSettings.SubmitUpdatesAuthOnSuccess | src/components/UserProfile/ProfileSettings.tsx:63-88 | A valid form updates the auth state exactly when the call succeeds with a reply carrying `data`, and then stores that reply's `data.profile` with the token |
| ReviewItem.ReviewKey | src/components/UserProfile/ReviewItem.tsx:35 | A review is named by its `id` when present, else by its `_id` |
| ReviewItem.StartEdit | src/components/UserProfile/ReviewItem.tsx:49-56 | The editor opens on this review with its rating, its comment or else its text, and no errors |
| ReviewItem.CancelEdit | src/components/UserProfile/ReviewItem.tsx:58-65 | Cancelling closes the editor with rating 0, an empty comment and no errors |
| ReviewItem.StartThenCancel | src/components/UserProfile/ReviewItem.tsx:49-113 | Opening the editor shows the review in it; cancelling shows it as text again |
| ReviewItem.RatingChange | src/components/UserProfile/ReviewItem.tsx:126-134 | The rating changes, the comment and open review are kept, and the rating error is removed exactly when it was showing |
| ReviewItem.CommentChange | src/components/UserProfile/ReviewItem.tsx:149-157 | The comment changes, the rating and open review are kept, and the comment error is removed exactly when it was showing |
| ReviewItem.CheckUpdate | src/components/UserProfile/ReviewItem.tsx:67-77 | The update is sent exactly for a rating from 1 to 5 and a non-blank comment, with the untrimmed comment; otherwise the rating error alone, else the comment error alone |
| ReviewItem.Update | src/components/UserProfile/ReviewItem.tsx:67-93 | A refused check records its error and sends nothing; otherwise the update is sent, and a refetch of the current page comes with a closed editor, while a failure shows only the general error |
| ReviewItem.UpdateRefetchesOnSuccess | src/components/UserProfile/ReviewItem.tsx:79-89 | After a valid press the list is refetched exactly when the update call succeeded |
| ReviewItem.Delete | src/components/UserProfile/ReviewItem.tsx:34-47 | The delete is sent exactly when the reader confirms, for this review's key; any refetch is of the current page; the editor is untouched |
| ReviewItem.DeleteRefetchesOnSuccess | src/components/UserProfile/ReviewItem.tsx:38-42 | A confirmed delete refetches exactly when the call succeeded |
| ReviewItem.DeleteAndUpdateShareThePath | src/components/UserProfile/ReviewItem.tsx:35-68 | The delete and the update of the same review go to the same address |
| FavoriteBooks.Total | src/components/UserProfile/FavoriteBooks.tsx:23 | The total is the first truthy of the meta pagination's `totalItems`, the data's pagination `totalItems` and the data's `total`, else 0 |
| FavoriteBooks.NoLoadMoreWhenComplete | src/components/UserProfile/FavoriteBooks.tsx:209 | When the list already holds the whole total, Load More is not offered |
| FavoriteBooks.ShowsLoadMore | src/components/UserProfile/FavoriteBooks.tsx:209 | Load More is offered only for a numeric total larger than a non-empty list, and never while loading |
| FavoriteBooks.LoadMore | src/components/UserProfile/FavoriteBooks.tsx:78-81 | Load More moves the offset on by exactly one page of 20 |
| FavoriteBooks.SkipAfterPresses | src/components/UserProfile/FavoriteBooks.tsx:17-81 | After any number of presses the offset is that many pages |
| FavoriteBooks.LoadMoreReplacesThePage | src/components/UserProfile/FavoriteBooks.tsx:27-81 | After n presses the request asks for page n + 1, and its success replaces the list rather than appending |
| FavoriteBooks.RemovalFailed | src/components/UserProfile/FavoriteBooks.tsx:46-48 | The awaited removal reports an error exactly when the call failed |
| FavoriteBooks.ErrorsAfterRemoval | src/components/UserProfile/FavoriteBooks.tsx:36-54 | This book's error shows exactly when the removal failed, with the removal message; every other book's error is kept and no other key appears |
| FavoriteBooks.Remove | src/components/UserProfile/FavoriteBooks.tsx:34-68 | Three dispatches in order: the book marked not favourite, the removal, then the book marked favourite again on failure or the current page refetched on success |
| FavoriteBooks.RollbackOnlyOnFailure | src/components/UserProfile/FavoriteBooks.tsx:48-58 | The status is rolled back exactly when the removal failed |
| FavoriteBooks.RollbackMarksFavourite | src/components/UserProfile/FavoriteBooks.tsx:43-50 | After a failed removal the status slice marks the book favourite, whatever it held before, and every other book's flag is untouched |
| SearchBar.DebouncedCall | src/components/BookList/SearchBar.tsx:35-41 | A debounced term of three or more characters is searched for, an empty one clears the search, and one or two characters do nothing |
| SearchBar.Mount | src/components/BookList/SearchBar.tsx:22-41 | Both terms start from the initial value, a timer is pending, and the debounced effect runs once on that value |
| SearchBar.Step | src/components/BookList/SearchBar.tsx:25-64 | Typing sets the term and restarts the timer without calling; the timer copies a changed term into the debounced term and runs its effect; the clear button empties both terms and clears, twice when the debounced term was non-empty; submit searches a term of three or more characters; the recommendations button navigates only for a signed-in reader; new callbacks from the parent repeat the effect on the debounced term; no event makes more than two calls |
| SearchBar.NoShortSearch | src/components/BookList/SearchBar.tsx:35-58 | No run of typing, waiting, submitting and clearing ever searches for fewer than three characters |
| SearchBar.TypeThenWait | src/components/BookList/SearchBar.tsx:25-41 | Typing a new term and letting the timer fire makes exactly the debounced call for that term |
| SearchBar.HintMeansNoAction | src/components/BookList/SearchBar.tsx:35-137 | The short-term hint shows exactly for non-empty terms on which neither the timer nor a submission would act |
| SearchBar.Run | src/components/BookList/SearchBar.tsx:25-64 | No events make no calls, and each event adds at most two calls |
| SearchBar.ShowsHint | src/components/BookList/SearchBar.tsx:137 | The hint shows exactly for non-empty terms the debounced effect ignores |
| BookListing.View | src/components/BookList/BookListing.tsx:23-97 | The grid shows the search results and their pagination exactly while searching after a search, else the book list; loading and error follow the search slice whenever searching; "no results" only for a finished search with an empty list |
| BookListing.LoadEffect | src/components/BookList/BookListing.tsx:36-41 | The first page of books is requested exactly when not searching and no books are held |
| BookListing.HandleSearch | src/components/BookList/BookListing.tsx:43-52 | Searching always starts with the term; its first page is requested exactly when the trimmed term has three or more characters |
| BookListing.HandleClear | src/components/BookList/BookListing.tsx:54-65 | Clearing resets the listing and clears the results first, then requests the first page of books exactly when none are held |
| BookListing.HandlePageChange | src/components/BookList/BookListing.tsx:67-79 | While searching a non-empty term the page of the search is requested, otherwise the page of the book list |
| BookListing.PagingKeepsTheSearch | src/components/BookList/BookListing.tsx:43-79 | After a search of a long enough term, changing page asks for that page of the same term |
| BookListing.ShortTermSearchedOnPaging | src/components/BookList/BookListing.tsx:43-79 | A non-blank term of fewer than three trimmed characters sends no request, yet changing page then searches for it |
| BookListing.ClearShowsBooks | src/components/BookList/BookListing.tsx:54-65 | After clearing, the search slice is back to its start and the grid shows the book list |
| BookCard.Truncate | src/components/BookList/BookCard.tsx:51-58 | A description of at most forty-five space-separated words is kept as it is; a longer one ends with the ellipsis |
| BookCard.TruncateKeepsAPrefix | src/components/BookList/BookCard.tsx:51-58 | A long description becomes its own text up to a space, followed by the ellipsis, and has exactly forty-five words |
| BookCard.TruncateIdempotent | src/components/BookList/BookCard.tsx:51-58 | Shortening a shortened description changes nothing |
| BookCard.RenderStars | src/components/BookList/BookCard.tsx:60-81 | Exactly five stars, each the one its position calls for |
| BookCard.StarsShape | src/components/BookList/BookCard.tsx:62-78 | A position holds a full star exactly below the rating's floor, a half star exactly at the floor of a fractional rating, and a hollow one otherwise |
| BookCard.StarTally | src/components/BookList/BookCard.tsx:60-81 | For a rating from 0 to 5 the full stars number its floor, and one half star is shown exactly when the rating is fractional |
| BookCard.TallyPrefix | src/components/BookList/BookCard.tsx:65-79 | From any position on, the full and half stars number what remains of the floor and the fraction |
| BookCard.OnImage | src/components/BookList/BookCard.tsx:29-36 | Either event finishes loading; the image has failed exactly when it had already or this event is the error |
| BookCard.FailureIsFinal | src/components/BookList/BookCard.tsx:33-103 | Once the image has failed, the fallback stays whatever events follow |
| BookCard.PlaceholderGoneAfterAnyEvent | src/components/BookList/BookCard.tsx:29-87 | After any event the loading placeholder is gone for good |
| BookCard.Click | src/components/BookList/BookCard.tsx:38-193 | A click on View Details or the heart passes the book's id to that button's own callback exactly when the reader is signed in (the buttons exist only then) and the callback was given |
| BookCard.HeartLabel | src/components/BookList/BookCard.tsx:135 | The heart's label names the removal for a favourite and the addition otherwise |
| BookCard.ReviewNoun | src/components/BookList/BookCard.tsx:180 | The noun is singular exactly for one review |
| Text.Trim | src/store/actions/getBooksActions.ts:32-33 | The trimmed text is the infix left after leading and trailing whitespace, starts and ends with a non-space, and is empty exactly for all-whitespace text |
| Text.ToLower | src/components/Auth/AuthModal.tsx:68-80 | Lower-casing keeps the length and maps each character on its own |
| Text.Split | src/components/BookList/BookCard.tsx:52 | Splitting gives at least one piece and no piece holds the separator |
| Text.SplitLength | src/components/BookList/BookCard.tsx:52-54 | Splitting gives one more piece than the text has separators |
| Text.JoinSplit | src/components/BookList/BookCard.tsx:52-57 | Joining the pieces of a split gives the text back |
| Text.SplitJoin | src/components/BookList/BookCard.tsx:55 | Splitting joined separator-free words gives the words back |
| Text.JoinPrefix | src/components/BookList/BookCard.tsx:55 | Joining the first words gives a prefix of joining all of them, followed by the separator |
| Text.IntToString | src/store/actions/getBooksActions.ts:25-30 | An integer is written as decimal digits with a minus sign exactly for a negative number |
| Text.NatToStringRoundTrip | src/store/actions/getBooksActions.ts:25-30 | Reading back the digits written for a natural number gives the number |
| Text.IndexOf | src/store/actions/getUserReviewsActions.ts:13 | The first position where the pattern occurs, or none exactly when it never occurs |
| Text.FillPlaceholder | src/store/actions/getUserReviewsActions.ts:12-13 | Replacing a placeholder that only occurs after a text not holding its first character puts the value, without `$`, exactly in its place |

## Behaviour kept as the code has it

The model follows the code wherever the code's behaviour is surprising. The lemmas named here state that behaviour:

- **Failure normalisation.** The middleware builds the failure's `error` from `actionData.errorMessage` and the server's `error.code` only, then spreads the raw error over both fields. It reads no validation-message list. It never skips a call because an auth error is already recorded (`ApiMiddleware.NormalizeError`, `ApiMiddleware.Run`).
- **Sticky errors.** Several slices never clear `error` once a failure has set it, not even on a later success: add-favourite, remove-favourite, user reviews, profile update, single book and favourites (`LooseReducers.UserReviewsErrorSticks`, `Slices.ReplayKeepsError`).
- **Favourite-status key.** The favourite-status slice reads `action.actionData.bookId`, but the middleware spreads `actionData` over the action itself. A completed check therefore stores its answer under the key `"undefined"` (`CheckFavoriteReducer.CheckStoresUnderUndefined`, `CheckFavoriteReducer.CheckRun`).
- **`/api/v1` against `/v1`.** The single-book, book-review and favourite-check builders request addresses under `/api/v1`, while the other GET builders and the HTTP client use `/v1` (`BookService.BookAddressesDiffer`).
- **Double clear.** The search bar's clear button clears the search once itself, and a second time through the debounce effect when the debounced term was not already empty (`SearchBar.Step`).
- **Trimmed and untrimmed length checks.** The listing page checks the trimmed term's length before it searches, while the search bar checks the raw length. A term such as `"ab "` is debounced into a search call that sends no request. Changing page afterwards does search for it (`BookListing.ShortTermSearchedOnPaging`).
- **Favourite rollback.** A failed favourite removal marks the book favourite again, whatever its status was before the removal (`FavoriteBooks.RollbackMarksFavourite`).

## Left out

- **Transport and browser plumbing.** The HTTP transport (axios, its interceptors, timeouts and headers), `localStorage` reads and writes, the redirect on 401, and the authentication service are not modelled. They are I/O. The reducers' returned state is modelled, and their storage writes are not.
- **The base address.** `getBase()` is a parameter `base` of every builder. `Urls.GetBase` states its choice between the configured and the default address.
- **Time and asynchrony.** Awaiting, promise interleavings, out-of-order responses and real timers are not modelled. Each HTTP call is an input outcome. The search bar's debounce timer is an explicit `Fire` event.
- **`Date.now()` and `new Date().toISOString()`.** In the fallback recommendations these are parameters `now` and `createdAt`.
- **Rendering.** Markup, styling, focus, scrolling (`window.scrollTo`) and `console` logging are not modelled. This includes the book card's debug log of the favourite flag and the listing's placeholder click handlers, which only log.
- **User confirmation.** The review editor's `window.confirm` answer is a boolean input.
- **Identical wrappers.** The `*Action` wrappers that only forward to a builder are modelled by the builder itself.
- **Absent string fields.** An absent id or text on a review is modelled as the empty string, which is falsy like `undefined`.
- **TypeErrors inside reducers.** A reducer reading a field of a malformed response would throw, and this is not modelled: `Json.Get` yields `Undefined` instead. The components' and the services' own TypeErrors are modelled. Caught ones: the profile update's reply without `data`, and the fallback's non-list `books` or null or undefined book, which reject the fallback. Uncaught one: a non-string auth message with a status other than 401, on which the error effect throws (`AuthModal.ErrorEffect` returns `None` for the throw).
- **Spreading a string or an array.** `{...x}` for a string or an array would add index keys ("0", "1", ...). `Json.Fields` leaves them out, since no field the client reads is an index.
- **A missing slice state.** A reducer called with no state is modelled by each reducer's `Init` constant.
- **The root reducer.** The root reducer registers only the auth slice. The components read the other slices as inputs.
- **The listing's current page.** The listing page keeps a current page in its state but never reads it, so it is not part of the listing state.
- **Unused components.** Components without decision logic (grid, modal, header, profile page, star widget) are not part of this model. Neither are the routing files.
- **The remaining dialog resets.** The sign-in dialog's mode-change, explicit-close, Escape and signed-in resets of form and errors are not modelled, because each is a plain reset to the empty form. Its `isOpen` gate is not modelled either.
- BookCard.Truncate: the card always calls `truncateDescription` with the default three lines, so the line count is the constant 3 rather than a parameter.
- BookCard.RenderStars: ratings are exact reals. The floating-point remainder `rating % 1` and `toFixed(1)` are not modelled.
- RecommendationsService.FallbackRecommendations: the confidence 0.7 is the integer 70 in hundredths. The fallback id renders the book's `_id` as a template literal does (`Json.ToStr`); numbers are integers in this model.
- FavoriteBooks.Total: the Load More comparison is only defined for a numeric total. JavaScript's coercion of a string total in `<` is not modelled, and such a total never shows the button.
- AuthModal.Classify: the status comparison `>= 500` is modelled for numbers and for strings of decimal digits. Other strings that JavaScript would coerce to a number, such as ones with spaces, a sign or a fraction, are treated as below 500.
- SearchBar.Step: the clear button is drawn only while the typed term is non-empty; the model accepts the clear event in any state.
- AuthModal.ToLowerIdempotent: `toLowerCase` is modelled for ASCII letters only.
- FormEncoding.Utf8: lone surrogate code units, which `URLSearchParams` replaces with U+FFFD, are not modelled, because Dafny characters are Unicode scalar values.
- ReviewForm.Remaining: lengths count Unicode scalar values rather than UTF-16 code units.
- JsNumber.FloorDiv: numbers are integers, so fractional `skip` or `limit` values are not modelled. Only the infinite and NaN results of a zero divisor are.
