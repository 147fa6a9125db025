# BlogNest in Dafny

BlogNest is a small blog application: a FastAPI back end with a SQLite
database, and a React single-page front end. This project models its logic
as pure functions over immutable data and proves properties of that model.

Back end:

- **Reactions.** The like/dislike store is a map from (blog, user) to a
  reaction. `interact` is a three-state toggle: none, like, dislike.
- **Reads.** The counts, search and ordering of `get_one`, `get_all` and
  `get_category_blogs`, and the per-category blog counts of `get_categories`.
- **Writes.** `create`, `delete` and `update`, each behind the
  "exists, then owner" check.
- **Seeding.** The category table is filled at start-up.

Front end:

- **Session.** The authentication context, the HTTP interceptors and the
  route guard.
- **Blog modal.** Its local counter arithmetic and its agreement with the
  server's toggle.
- **Cards and pages.** The string helpers of the blog card, and the
  submission and list logic of the login, home, category and profile pages.
- **Create/edit modal.** The modal that creates or edits a blog.

Modules:

| file | module | models |
|---|---|---|
| wrappers.dfy | `Wrappers` | `Option` and `Result` |
| text.dfy | `Text` | JavaScript's `trim`, ASCII `toLowerCase`, `includes`, `split(c)[0]`, `join`, integer rendering |
| sorting.dfy | `Sorting` | ordering newest first by a timestamp |
| sql_like.dfy | `SqlLike` | SQLite's `LIKE` as used by SQLAlchemy's `contains` |
| models.dfy | `Models`, `Database` | the SQLAlchemy classes; `CATEGORIES` and `seed_categories` |
| blog_repository.dfy | `BlogRepository` | `backend/repository/blog.py` |
| blog_modal.dfy | `BlogModal` | `BlogModal.js` |
| http.dfy | `Http` | the shape of a rejected request |
| auth_context.dfy | `AuthContext` | `AuthContext.js` |
| api.dfy | `Api` | `services/api.js` |
| protected_route.dfy | `ProtectedRoute` | `ProtectedRoute.js` |
| blog_card.dfy | `BlogCard` | `BlogCard.js` |
| login_page.dfy | `LoginPage` | `LoginPage.js` |
| listing.dfy | `Listing` | the blog item the pages hold, `filter`, and the close-modal refetch rule |
| home_page.dfy | `HomePage` | `HomePage.js` |
| category_blog_page.dfy | `CategoryBlogPage` | `CategoryBlogPage.js` |
| profile_page.dfy | `ProfilePage` | `ProfilePage.js` |
| create_blog_modal.dfy | `CreateBlogModal` | `CreateBlogModal.js` |

Things the code calls but cannot be seen here become parameters:

- token decoding is `decode: string -> Result<Claims, string>`;
- `Date.now()` is `now`;
- `parseInt` is `parse: string -> Option<int>`;
- `window.confirm` is a boolean `confirmed`;
- every network answer is a `Result` passed in.

Timestamps are integers.

Behaviours of the code worth knowing:

- **Tokens without `exp`.** A token without `exp` never expires: `undefined * 1000 < now` is false. The code fails open.
- **Unlike.** It removes the item from the liked list only after the request succeeds.
- **Blog modal.** It moves its counters only after the request succeeds and never rolls back. It always starts from "no interaction".
- **Signup.** A signup needs no separate success message: the context logs the new user in, so the page's "no data" branches never run (`LoginPage.ContextAlwaysReturnsData`).
- **A 401.** It clears only the stored token before the full page load to `/login`. The fresh start then comes up signed out (`Api.RejectionSignsOut`).

## Model

| member | source | states |
|---|---|---|
| Text.Trim | frontend/src/pages/LoginPage.js:32-40 | `trim` removes exactly the leading and trailing JavaScript whitespace: the result sits in the input with only whitespace before and after it, and starts and ends with non-space |
| Text.TrimEmptyIffBlank | frontend/src/pages/LoginPage.js:32-40 | `!s.trim()` holds exactly when every character of `s` is whitespace |
| Text.Lower | frontend/src/pages/CategoryBlogPage.js:27-29 | `toLowerCase` restricted to ASCII keeps the length and maps each character through the ASCII fold |
| Text.BeforeFirst | frontend/src/components/BlogCard.js:48-54 | `split(c)[0]` is the longest prefix without `c`, followed in the input by `c` when `c` occurs |
| Text.Join | frontend/src/pages/LoginPage.js:66 | `join(sep)` of no items is empty, of one item is that item, and of more puts the separator between the first item and the join of the rest |
| Text.JoinSnoc | frontend/src/pages/LoginPage.js:66 | joining one more item at the end appends the separator and that item, so the join reads the same from either end |
| Text.NatToStringRoundTrip | backend/repository/blog.py:64 | the decimal rendering used in the 404 message reads back as the same number |
| Sorting.SortDesc | backend/repository/blog.py:47 | ordering by `created_at` descending returns a permutation of the input that is ordered newest first |
| Sorting.SortDescOfSorted | frontend/src/pages/HomePage.js:20 | sorting a list already newest first leaves it unchanged |
| SqlLike.PercentMatchesAll | backend/repository/blog.py:43-44 | the pattern `%` matches every string |
| SqlLike.LiteralPrefix | backend/repository/blog.py:43-44 | a wildcard-free term followed by `%` matches exactly the strings that start with the term, ignoring ASCII case |
| SqlLike.LeadingPercent | backend/repository/blog.py:43-44 | a leading `%` matches when the rest of the pattern matches some suffix |
| SqlLike.ContainsIsFoldedSubstring | backend/repository/blog.py:43-44 | `column.contains(term)` for a term without `%` or `_` holds exactly when the lowercased term occurs in the lowercased column |
| Database.SeedRows | backend/database.py:43-45 | seeding an empty table inserts the 25 entries of `CATEGORIES` in list order, with row ids 1 to 25 |
| Database.Seed | backend/database.py:41-45 | an empty table is seeded; a non-empty table is left exactly as it was |
| Database.SeedIdempotent | backend/database.py:41-45 | seeding twice gives the same table as seeding once |
| Database.CategoryNamesDistinct | backend/database.py:13-39 | no two entries of `CATEGORIES` share a name, as the unique `name` column requires |
| Database.SeedKeepsUnique | backend/models.py:11-15 | seeding keeps category names and ids unique |
| BlogRepository.Toggle | backend/repository/blog.py:107-124 | the next reaction is none exactly when the prior reaction is the clicked kind, and the clicked kind otherwise; the modal's `newInteraction` takes the same step |
| BlogRepository.Edit | backend/repository/blog.py:107-124 | editing one (blog, user) entry leaves every other entry as it was |
| BlogRepository.CountAfterEdit | backend/repository/blog.py:59-60 | editing one entry moves a blog's count of a kind by at most the entry's own change, and leaves other blogs' counts alone |
| BlogRepository.Interact | backend/repository/blog.py:97-127 | a missing blog gives 404 with its id. Otherwise the stored reaction becomes the toggle of the prior one, every other (blog, user) entry and all blogs are unchanged, and the message is "Removed", "Changed interaction to" or "Added" followed by the kind |
| BlogRepository.InteractCounts | backend/repository/blog.py:97-127 | after a click, the blog's count of each kind drops by one if that kind was held and grows by one if it is held now; other blogs' counts do not move |
| BlogRepository.GetOne | backend/repository/blog.py:58-68 | a missing blog gives 404; otherwise the blog with its likes and dislikes equal to the number of like and dislike records for it, 0 when there are none |
| BlogRepository.SelectedIdsLiteralSearch | backend/repository/blog.py:41-45 | for a term without `%` or `_`, a query keeps exactly the stored blogs of the category whose lowercased title or owner's lowercased username contains the lowercased term; with a search, a blog whose owner is missing is dropped |
| BlogRepository.ViewsNewestFirst | backend/repository/blog.py:47-56 | the result lists the view of each requested blog exactly once and nothing else, newest first |
| BlogRepository.Query | backend/repository/blog.py:21-56 | the selected blogs with their counts, each exactly once, newest first |
| BlogRepository.GetAll | backend/repository/blog.py:21-56 | `get_all` returns every blog matching the search, each once, with its counts, newest first |
| BlogRepository.GetCategoryBlogs | backend/repository/blog.py:135-169 | `get_category_blogs` returns only blogs of the category, each matching blog once, newest first |
| BlogRepository.SelectedIdsDistinct | backend/repository/blog.py:47-56 | no query result lists the same blog twice |
| BlogRepository.NoSearchKeepsCategory | backend/repository/blog.py:41 | an absent or empty search term filters nothing beyond the category |
| BlogRepository.NextRowId | backend/repository/blog.py:16-18 | the new blog's id is one more than the largest id present, or 1 in an empty table, and is not in use |
| BlogRepository.Create | backend/repository/blog.py:8-19 | the new row holds the request's fields, the caller as owner, `published` true and the creation time; every other blog, the reactions, users and categories are unchanged |
| BlogRepository.CreateBlog | backend/repository/blog.py:8-19 | creation uses the database's choice of id |
| BlogRepository.CheckOwner | backend/repository/blog.py:73-77 | 404 when the blog is missing, else 403 when the caller is not its owner, else no error |
| BlogRepository.Delete | backend/repository/blog.py:70-81 | on 404 or 403 nothing changes. Otherwise exactly that blog is removed and the reaction rows are left as they were |
| BlogRepository.DeleteWithInteractions | backend/repository/blog.py:70-81 | the same checks; on success exactly that blog and exactly its reaction rows are removed |
| BlogRepository.Update | backend/repository/blog.py:83-95 | on 404 or 403 nothing changes. Otherwise title, description, body and category are replaced, and owner, creation time and `published` are kept |
| BlogRepository.GetCategories | backend/repository/blog.py:129-133 | every category row in table order, with the number of blogs filed under it |
| BlogRepository.CreateBumpsBlogCount | backend/repository/blog.py:129-133 | creating a blog adds one to its own category's count and nothing to the others |
| BlogRepository.DeleteDropsBlogCount | backend/repository/blog.py:129-133 | deleting a blog takes one off its own category's count and nothing off the others, for the delete as written and for the corrected one |
| BlogRepository.CreatedBlogStartsAtZero | backend/repository/blog.py:58-68 | in a store whose reactions all belong to existing blogs, a new blog reads back with 0 likes and 0 dislikes |
| BlogRepository.InteractKeepsValid | backend/repository/blog.py:97-127 | a click never attaches a reaction to a missing blog |
| BlogRepository.DeleteWithInteractionsKeepsValid | backend/repository/blog.py:70-81 | the corrected delete leaves no reaction without its blog |
| BlogRepository.UpdateKeepsValid | backend/repository/blog.py:83-95 | an update leaves no reaction without its blog |
| BlogRepository.DeleteThenCreateInheritsLikes | backend/repository/blog.py:79 | as written, deleting blog 1 with one like and then creating a blog gives the new blog id 1 and 1 like |
| BlogModal.Open | frontend/src/components/BlogModal.js:6-9 | the modal starts with the given blog, no interaction and no change recorded |
| BlogModal.Bump | frontend/src/components/BlogModal.js:28-33 | moving a counter changes that counter only |
| BlogModal.Recount | frontend/src/components/BlogModal.js:23-37 | each counter moves by whether its kind is held after the click minus whether it was held before; every other field is kept |
| BlogModal.HandleInteraction | frontend/src/components/BlogModal.js:15-44 | a failed request changes nothing. A successful one records a change, moves to the next interaction and recounts |
| BlogModal.ClickEffects | frontend/src/components/BlogModal.js:27-36 | a successful click moves likes plus dislikes by -1 when undoing, 0 when switching and +1 when new. It keeps id, title, description and body, and the modal reports a change on close |
| BlogModal.ChangedStaysSet | frontend/src/components/BlogModal.js:20 | once a click has succeeded, the flag passed to `onClose` stays true |
| BlogModal.ClickAgreesWithServer | frontend/src/components/BlogModal.js:15-39 | when the modal starts from the server's stored reaction and counts, one successful click leaves it showing the server's counts and reaction after `interact` |
| BlogModal.RunAgreesWithServer | frontend/src/components/BlogModal.js:15-39 | the same holds after any run of successful clicks, each answered before the next is made |
| BlogModal.SettleAsWritten | frontend/src/components/BlogModal.js:15-39 | a click settles with the interaction its handler read at click time; when that is the current one, it is exactly `HandleInteraction` |
| BlogModal.OverlappingLikesDiverge | frontend/src/components/BlogModal.js:16-39 | two like clicks from one render, both sent before either answer: the server ends where it began while the modal shows two more likes and a held like |
| BlogModal.ServerRun | backend/repository/blog.py:97-127 | a run of clicks on an existing blog never removes or changes blogs |
| BlogModal.OpenForgetsStoredLike | frontend/src/components/BlogModal.js:8 | a user who already liked the blog and clicks like sees the count go up while the server takes the like away |
| AuthContext.Start | frontend/src/contexts/AuthContext.js:9-11 | the first token is the stored one, with no user and loading true |
| AuthContext.Logout | frontend/src/contexts/AuthContext.js:93-99 | storage, token, user and header are all cleared, so the session is not authenticated |
| AuthContext.Init | frontend/src/contexts/AuthContext.js:13-31 | loading ends false. No token leaves the session as is. An undecodable token, or one with `exp * 1000 < now`, logs out. A valid token sets the user to its claims and the header to "Bearer " plus the token |
| AuthContext.Login | frontend/src/contexts/AuthContext.js:33-71 | success exactly when the answer carries a truthy, decodable `access_token`. Then storage, token and header come from that token, the user is its decoding, and the data is returned. Any failure clears the session and rethrows, with "No access token received from server" for a missing token |
| AuthContext.Signup | frontend/src/contexts/AuthContext.js:73-91 | a failed account creation rethrows and leaves the session; a successful one is followed by `login` |
| AuthContext.LoginAllOrNothing | frontend/src/contexts/AuthContext.js:47-69 | after `login` either token, storage, user and header all carry the new token, or none of them is set |
| AuthContext.LifecycleKeepsConsistent | frontend/src/contexts/AuthContext.js:13-99 | init, logout and signup keep the user equal to the decoding of the token and the header equal to "Bearer " plus the token |
| AuthContext.StartUp | frontend/src/contexts/AuthContext.js:9-31 | after start-up the session is authenticated exactly when the stored token is truthy, decodable and not expired; a rejected token is removed from storage |
| AuthContext.LogoutThenReload | frontend/src/contexts/AuthContext.js:93-99 | a reload after logout starts signed out and not loading |
| AuthContext.InitSettles | frontend/src/contexts/AuthContext.js:13-31 | running the token effect again after it settled changes nothing |
| AuthContext.LogoutIdempotent | frontend/src/contexts/AuthContext.js:93-99 | logging out twice is logging out once |
| AuthContext.LoginThenEffect | frontend/src/contexts/AuthContext.js:13-59 | after a login, the token effect keeps a token still valid at `now` and logs out an expired one |
| Api.AttachBearer | frontend/src/services/api.js:10-21 | with a stored token the request gains `Authorization: Bearer <token>` and is otherwise unchanged; without one it passes through untouched |
| Api.OnResponse | frontend/src/services/api.js:24-36 | every outcome is passed on unchanged. A 401 and nothing else drops the stored token and redirects to the login page |
| Api.SignedInRequestsCarryToken | frontend/src/services/api.js:12-15 | while signed in, the attached header is the session's own header |
| Api.RejectionSignsOut | frontend/src/services/api.js:29-33 | after a 401 the reloaded app starts unauthenticated |
| ProtectedRoute.Guard | frontend/src/components/ProtectedRoute.js:5-13 | the placeholder while loading, whatever the token; otherwise the outlet exactly when the token is truthy and the redirect exactly when it is not |
| ProtectedRoute.GuardAfterStartUp | frontend/src/components/ProtectedRoute.js:5-13 | after start-up the guard lets through exactly the authenticated sessions |
| ProtectedRoute.GuardFollowsLoginAndLogout | frontend/src/components/ProtectedRoute.js:5-13 | after login the guard lets through exactly when authenticated; after logout it redirects |
| BlogCard.Or | frontend/src/components/BlogCard.js:93 | `a \|\| b` is `a` when `a` is truthy and `b` otherwise |
| BlogCard.Excerpt | frontend/src/components/BlogCard.js:91-101 | a missing, empty or non-string description gives "No description available". One of at most 120 characters is kept as is; a longer one becomes its first 120 characters and "...". The result is never longer than 123 |
| BlogCard.AuthorName | frontend/src/components/BlogCard.js:104-117 | `author_name`, then `creator.username`, then `creator.email`, and "Unknown Author" when none of them is truthy; the result is always truthy |
| BlogCard.UnknownAuthorOnlyWithoutNames | frontend/src/components/BlogCard.js:104-117 | the card reads "Unknown Author" exactly when no name field is truthy, or when the first truthy one is that very text |
| BlogCard.CleanDateString | frontend/src/components/BlogCard.js:34-54 | an empty input gives "Unknown date". Otherwise the result is the prefix before the first `T` if there is one, else before the first space if there is one, else the whole input |
| BlogCard.TimestampLayoutsAgree | frontend/src/components/BlogCard.js:48-54 | an ISO timestamp and a SQL timestamp with the same date clean to that date |
| BlogCard.DisplayTitle | frontend/src/components/BlogCard.js:121 | a falsy title shows as "Untitled" |
| BlogCard.DisplayCount | frontend/src/components/BlogCard.js:128-129 | a falsy count shows as 0 |
| LoginPage.SignupProblem | frontend/src/pages/LoginPage.js:32-40 | the first blank field among username, email and password is reported, with its own message; none when all three have non-space text |
| LoginPage.ItemTexts | frontend/src/pages/LoginPage.js:66 | each entry of a `detail` list becomes its `msg`, or its text |
| LoginPage.ErrorMessage | frontend/src/pages/LoginPage.js:56-76 | the first that applies: 422, 401 and 400 each give their fixed text; a `detail` list is joined with ", "; a `detail` text is shown; then the server's `message`, the error's own message, a thrown string, and "An error occurred. Please try again." |
| LoginPage.HandledStatusIgnoresBody | frontend/src/pages/LoginPage.js:58-63 | for 422, 401 and 400 the status alone decides the message, whatever the body and the error's own message |
| LoginPage.OwnErrorsShownVerbatim | frontend/src/pages/LoginPage.js:72-73 | an error the page throws itself is shown with its own message |
| LoginPage.EmptyMessageOnlyFromDetailList | frontend/src/pages/LoginPage.js:56-76 | the message is empty only for a `detail` list or a thrown empty string |
| LoginPage.DetailBeatsMessages | frontend/src/pages/LoginPage.js:64-73 | outside 422, 401 and 400, a server `detail` text wins over the server's `message` and the error's own message |
| LoginPage.BeginSubmit | frontend/src/pages/LoginPage.js:18-19 | a submission clears the error and sets loading |
| LoginPage.Settle | frontend/src/pages/LoginPage.js:21-81 | loading ends false on every path. Data navigates home; a failure shows its message. Falsy login data shows "Login failed - no data returned"; falsy signup data switches to login mode with the account-created note |
| LoginPage.Submit | frontend/src/pages/LoginPage.js:16-82 | login mode runs `login`. Signup mode first checks the fields, and on a blank field leaves the session untouched and shows the field's message; otherwise it runs `signup`. Loading ends false |
| LoginPage.InvalidSignupSendsNothing | frontend/src/pages/LoginPage.js:32-42 | with a blank signup field the outcome does not depend on any server answer: no request is made |
| LoginPage.ContextAlwaysReturnsData | frontend/src/pages/LoginPage.js:22-50 | the page reaches home exactly when the context's call succeeded, the session is then authenticated, and the mode never flips |
| LoginPage.ToggleMode | frontend/src/pages/LoginPage.js:119-125 | ignored while loading; otherwise it flips the mode and clears the error |
| Listing.Filter | frontend/src/pages/ProfilePage.js:58 | `filter` keeps exactly the items that pass, with their multiplicities |
| Listing.FilterAppend | frontend/src/pages/CategoryBlogPage.js:27-29 | filtering works piecewise, so kept items keep their relative order |
| Listing.FilterKeepAll | frontend/src/pages/CategoryBlogPage.js:27-29 | a filter that passes everything changes nothing |
| Listing.FilterKeepNone | frontend/src/pages/CategoryBlogPage.js:27 | a filter that passes nothing leaves nothing |
| Listing.FilterKeepsSorted | frontend/src/pages/CategoryBlogPage.js:24-31 | filtering a list ordered newest first leaves it ordered |
| Listing.AfterClose | frontend/src/pages/HomePage.js:39-44 | the refetch counter moves exactly when the closing modal reports a change |
| HomePage.TopOfSorted | frontend/src/pages/HomePage.js:19-21 | the front of an ordered list is ordered, and nothing behind it is newer than anything in it |
| HomePage.Newest | frontend/src/pages/HomePage.js:19-22 | the shown list is newest first and at most nine long (all items when fewer). It is drawn from the response, and no omitted blog is newer than a shown one |
| HomePage.ShortSortedShownAsIs | frontend/src/pages/HomePage.js:19-21 | a response of at most nine blogs already newest first is shown as it is |
| HomePage.NewestIdempotent | frontend/src/pages/HomePage.js:19-21 | taking the newest nine of the newest nine changes nothing |
| HomePage.FetchBlogs | frontend/src/pages/HomePage.js:14-29 | loading ends false. Success shows the newest nine and keeps any earlier error; failure keeps the list and sets "Failed to fetch blogs." |
| HomePage.ErrorHidesGridForGood | frontend/src/pages/HomePage.js:23-28 | once a fetch has failed, no later fetch shows the grid again |
| HomePage.RefetchKeepsError | frontend/src/pages/HomePage.js:50 | no run of fetches clears an error |
| HomePage.CardClick | frontend/src/pages/HomePage.js:35-37 | clicking a card selects that blog and nothing else changes |
| HomePage.CloseModal | frontend/src/pages/HomePage.js:39-44 | closing the modal deselects and refetches exactly when the modal reports an interaction; the list, loading flag and error stay |
| CategoryBlogPage.Shown | frontend/src/pages/CategoryBlogPage.js:24-31 | the list is newest first and drawn from the response. A blank term keeps every item. Otherwise exactly the items whose lowercased title, or lowercased author username, contains the lowercased term are kept; the author is read from `author` as written or from `creator` when corrected |
| CategoryBlogPage.SearchIsOrderedFilter | frontend/src/pages/CategoryBlogPage.js:24-31 | with a term, the list is the ordered response filtered, so matching items keep their order |
| CategoryBlogPage.AuthorSearchFindsNothing | frontend/src/pages/CategoryBlogPage.js:27 | as written, on items without an `author` object, which is what the server sends, an author search shows nothing |
| CategoryBlogPage.CreatorSearchShowsOwner | frontend/src/pages/CategoryBlogPage.js:24-31 | with the search reading `creator`, a blog whose owner's username contains the term is shown |
| CategoryBlogPage.AuthorSearchMissesOwner | frontend/src/pages/CategoryBlogPage.js:27 | a blog searched for by its owner's own username is missed as written and found when the search reads `creator` |
| CategoryBlogPage.CreatorSearchAgreesWithServer | backend/schemas.py:87-97 | for a term without `%` or `_`, the corrected author test agrees with the server's `LIKE` test on the owner's username |
| CategoryBlogPage.TitleSearchAgreesWithServer | frontend/src/pages/CategoryBlogPage.js:29 | for a term without `%` or `_`, the browser's title test agrees with the server's `LIKE` test |
| CategoryBlogPage.PickCategory | frontend/src/pages/CategoryBlogPage.js:33-35 | the heading takes the first result's category only when none is set and the result is non-empty |
| CategoryBlogPage.Fetch | frontend/src/pages/CategoryBlogPage.js:20-42 | loading ends false. Success keeps the searched list, with the author search reading `author` as written or `creator` when corrected, and picks the heading; failure keeps list and heading and sets "Failed to fetch blogs for this category." |
| CategoryBlogPage.CategoryFixedOnceSet | frontend/src/pages/CategoryBlogPage.js:33-35 | once the heading names a category, no fetch changes it, as written or corrected |
| CategoryBlogPage.AuthorFetchShowsNothing | frontend/src/pages/CategoryBlogPage.js:20-35 | as written, a fetch searching by author for a non-blank term on the server's answer sets an empty list and leaves the heading as it was |
| CategoryBlogPage.CloseModal | frontend/src/pages/CategoryBlogPage.js:48-53 | closing the modal deselects and refetches exactly when the modal reports an interaction; the list, heading, loading flag and error stay |
| ProfilePage.FetchProfile | frontend/src/pages/ProfilePage.js:20-41 | without a user nothing changes. Otherwise both lists are replaced and the error cleared, or on failure the lists are kept and "Failed to fetch profile data." is set. Loading ends false |
| ProfilePage.HandleDelete | frontend/src/pages/ProfilePage.js:43-53 | a request is sent exactly when confirmed, to `/blog/{id}`. Success bumps the refetch counter, failure sets the error, and neither touches the lists. No card calls it: `BlogCard` ignores `onDelete` |
| ProfilePage.DeleteThenRefetch | frontend/src/pages/ProfilePage.js:43-53 | a confirmed delete the server accepts asks for a refetch; when the refetch reports the server's blogs of the user, the deleted blog is gone and the user's other blogs stay. The delete as written leaves the same blogs, so the refetch is the same under both deletes |
| ProfilePage.HandleUnlike | frontend/src/pages/ProfilePage.js:55-63 | success removes every liked entry with that id, keeps the others with their multiplicities and order, and leaves the error; failure keeps the list and sets "Failed to update liked blogs.". No card calls it: `BlogCard` ignores `onUnlike` |
| ProfilePage.UnlikeKeepsOrder | frontend/src/pages/ProfilePage.js:58 | the unlike filter works piecewise on the list, so the entries that stay keep their relative order |
| ProfilePage.UnlikeAgreesWithServer | frontend/src/pages/ProfilePage.js:55-58 | when the liked list shows exactly the blogs the server records as liked, it still does after an unlike |
| ProfilePage.OpenCreate | frontend/src/pages/ProfilePage.js:86 | the create button opens the create modal |
| ProfilePage.CloseCreateModal | frontend/src/pages/ProfilePage.js:65-70 | closing the create modal refetches exactly when a blog was saved |
| ProfilePage.CloseViewModal | frontend/src/pages/ProfilePage.js:72-77 | closing the view modal refetches exactly when it reports an interaction |
| CreateBlogModal.Prefill | frontend/src/components/CreateBlogModal.js:22-27 | editing fills the form from the blog; creating starts empty. No page passes `blogToEdit`, so only the create path is reached |
| CreateBlogModal.Mount | frontend/src/components/CreateBlogModal.js:15-28 | the categories are loaded, or "Could not load categories." is shown; the form is prefilled |
| CreateBlogModal.PayloadOf | frontend/src/components/CreateBlogModal.js:35 | the body holds exactly title, description, body and the parsed category |
| CreateBlogModal.RequestFor | frontend/src/components/CreateBlogModal.js:38-44 | one request: `PUT /blog/{id}` when editing, `POST /blog` otherwise, carrying the form's payload. The edit path is not reached from any page |
| CreateBlogModal.AsBlogCreate | backend/schemas.py:41-48 | a payload with a numeric category is read by the server as a `BlogCreate` with the same four fields |
| CreateBlogModal.UntouchedEditResendsBlog | frontend/src/components/CreateBlogModal.js:22-44 | saving an untouched edit sends back the blog's own fields. The edit path is not reached from any page |
| CreateBlogModal.Submit | frontend/src/components/CreateBlogModal.js:30-50 | success calls `onClose(true)`. Failure re-enables the form, keeps the modal open and shows the server's `detail`, or "An error occurred." |
| CreateBlogModal.RequestClose | frontend/src/components/CreateBlogModal.js:53-55 | a close request is ignored while submitting; otherwise it calls `onClose()` with no argument |
| CreateBlogModal.OnlySavesRefreshProfile | frontend/src/components/CreateBlogModal.js:45-55 | on the profile page a save triggers a refetch and a plain close does not |
| CreateBlogModal.FailureThenCloseCloses | frontend/src/components/CreateBlogModal.js:46-55 | after a failed save the modal is still open and can be closed |

## Left out

- Styling, markup and console logging. This covers the placeholder card `BlogCard` renders for a missing blog.
- Date parsing and `toLocaleDateString`. Only the string cleaning before them is modelled. Timestamps are integers.
- Token decoding, JWT signing and bcrypt. Decoding is an abstract function.
- `parseInt`, `window.confirm`, the clock and every network answer. They are parameters.
- The axios base URL and timeout. A timeout is one more failure.
- React effect scheduling and re-rendering. Each handler is one transition from the state before it. The refetch is a counter whose change means "fetch again".
- `Promise.all`. The profile's two fetches are one result: both lists, or a failure.
- SQLAlchemy sessions and commits. Each repository call is one atomic step on the store.
- Foreign-key behaviour. The model follows SQLite's default, where foreign keys are not enforced.
- `CategoriesPage.js`, `Navbar.js`, `App.js`, the routers and `main.py`. They only wire or render.
- Unicode case folding. `toLowerCase` and SQLite's `LIKE` fold ASCII letters only here. SQLite itself also folds only ASCII.
- String lengths count characters, not UTF-16 code units. This affects `BlogCard.Excerpt` on text outside the Basic Multilingual Plane.
- BlogRepository.Query: does not fix the order of blogs created at the same instant. The database's order for ties is unspecified.
- HomePage.Newest: does not state how `sort` orders blogs with equal timestamps. It states the order by timestamp and which blogs are kept.
- Non-string scalar `detail` values. JSON numbers and booleans in an error body are outside `Http.Detail`.
- BlogModal.RunAgreesWithServer: covers only clicks whose request is answered before the next click. The handler reads `userInteraction` from the render the click came from, and the buttons stay enabled during a request. So clicks that overlap a request in flight fall outside this lemma. `BlogModal.OverlappingLikesDiverge` shows where they lead.
- Unreached handlers. `BlogCard` takes only `blog` and `onClick`, so the profile page's `onDelete` and `onUnlike` are never called. No page passes `blogToEdit` to the create modal, so its edit path is never taken. `ProfilePage.HandleDelete`, `ProfilePage.HandleUnlike` and the modal's edit rows model these handlers as written.

## Findings

| source | as written | input that shows it | evidently intended | confidence | as-written member | corrected member |
|---|---|---|---|---|---|---|
| backend/repository/blog.py:79 | `delete` removes only the blog row. Its reaction rows stay, because SQLite does not enforce the foreign key and the bulk delete skips ORM cascades. Because the id is an `INTEGER PRIMARY KEY` without `AUTOINCREMENT`, deleting the newest blog lets the next blog reuse its id | blog 1 is the only blog and user 9 likes it. Its owner deletes it, then creates a new blog. The new blog gets id 1 and reads back with 1 like | deleting a blog also deletes its reactions, so a new blog starts at 0 likes and 0 dislikes | medium, not executed | BlogRepository.DeleteThenCreateInheritsLikes | BlogRepository.DeleteWithInteractions |
| frontend/src/pages/CategoryBlogPage.js:27 | the author search reads `blog.author?.username`, but the server's `ShowBlog` carries the owner as `creator` and has no `author`, so every author search with a non-blank term shows nothing | one blog whose owner is `alice`; searching by author for "alice" shows an empty list | the search reads `blog.creator?.username`, so the blog is shown | high, not executed | CategoryBlogPage.AuthorSearchMissesOwner | CategoryBlogPage.CreatorSearchAgreesWithServer |
| frontend/src/components/BlogModal.js:16-39 | the handler reads `userInteraction` from the render the click came from, and the buttons stay enabled while a request is in flight | with no interaction held, two like clicks before the first answer arrives: the server adds the like and removes it, while the modal shows two more likes and a held like | each click works from the interaction left by the one before, as when every request is answered before the next click | medium, not executed | BlogModal.OverlappingLikesDiverge | BlogModal.RunAgreesWithServer |
