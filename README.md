# Article CMS: a verified model of its session, token and content core

This project models, in Dafny, the core of a Spring Boot and React content-management system for articles, categories, comments and users. The browser side covers:

- the authentication service and context, which track a signed-in user, a pending second-factor challenge and logout;
- the login page and the route guard;
- the API error interceptor, the authorisation header and the formatting, image-path and CSV-export helpers;
- the article, category, dashboard, user-administration and profile pages' handlers.

The server side covers:

- the login lockout and the second-factor (TOTP) checks;
- the JWT utilities over a token table and a blacklist, and the session endpoints;
- the CSV import and the upload helpers;
- the article, category and comment services over one shared store, with their cascades;
- the user administration endpoints;
- the e-mail column converter and its encryption helper;
- the article-log endpoint.

Each source file is one module (`common.dfy` holds shared helpers: `Option`/`Result` and Java- and JavaScript-style string operations).

Code that changes state step by step is a `class` whose methods carry `modifies` clauses. Examples: the client session (`AuthService.AuthClient`), the token table (`UserTokenRepository.TokenTable`), the shared content store (`ContentStore.Database`), the CSV loop (`FileUpload.CsvImport`) and the page components. Each method's `ensures` states its whole new state in terms of specification functions, and lemmas prove what the source promises about those functions:

- round trips (Bearer header, CSV read-back, e-mail encryption);
- invariants kept (distinct ids, referential consistency of the store, blacklisted tokens never valid);
- both directions of the if-and-only-if decisions (route guard, lockout, MFA checks).

Things outside the program are parameters:

- the server's replies;
- the clock (`now`);
- JWT signing and parsing (RFC 7519), the TOTP check (RFC 6238), the AES cipher and Base64 codec (RFC 4648) and DOMPurify's `sanitize`, all passed as function values.

Java's `deleteById` on a missing id, `List.remove`, `String.split`, `trim`, `compareTo`, truncating `int` division and JavaScript truthiness are written out explicitly.

The three client phases (anonymous, waiting for a second factor, signed in) are described as exclusive. The code does not enforce this: a challenge received while a user is still stored keeps that user and sets the pending username as well. The model follows the code, and `AuthService.AuthClient.CurrentPhase` ranks a stored user first.

## Model

| member | source | states |
|---|---|---|
| AuthService.RolesOrEmpty | blog-frontend/src/services/auth.service.js:49 | the stored roles are the reply's roles, or the empty list when the reply has none |
| AuthService.OutcomeValid | blog-frontend/src/services/auth.service.js:114-123 | the `valid` flag of the value `validateMfa` resolves with is true exactly for a signed-in result |
| AuthService.AuthClient.constructor | blog-frontend/src/services/auth.service.js:11 | the service starts with no pending username and with the record a previous page load stored |
| AuthService.AuthClient.CurrentPhase | blog-frontend/src/services/auth.service.js:179-186 | the client is signed in exactly when a record is stored, and waits for a second factor exactly when nothing is stored and a username is pending |
| AuthService.AuthClient.Login | blog-frontend/src/services/auth.service.js:14-61 | an MFA challenge records the typed username and stores nothing, and its username and message fall back to the typed name and the default text; a successful reply with a token stores exactly token, username and roles; any other reply is returned untouched; a failed request is rethrown with nothing changed |
| AuthService.AuthClient.ValidateMfa | blog-frontend/src/services/auth.service.js:63-134 | the explicit username wins over the pending one, and with neither there is no request; the code is sent with every non-digit removed; a token signs in and clears the pending name whatever `valid` says; otherwise `valid === false` gives the fixed rejection, any other reply is passed on, and storage is untouched |
| AuthService.AuthClient.Logout | blog-frontend/src/services/auth.service.js:136-167 | the server is told only when a stored user has a token; the record and the pending username are cleared in every case; failure is reported only for a failed server call |
| AuthService.AuthClient.HasRole | blog-frontend/src/services/auth.service.js:188-192 | false with no stored user, otherwise membership in the stored roles |
| AuthService.AuthClient.IsAdmin | blog-frontend/src/services/auth.service.js:194-196 | the same as `hasRole('ROLE_ADMIN')` |
| AuthContext.ChallengeMessage | blog-frontend/src/context/AuthContext.js:43-48 | the challenge's message, or the default text; never empty |
| AuthContext.AuthState.constructor | blog-frontend/src/context/AuthContext.js:10-13 | no user, loading, no MFA request, no MFA username |
| AuthContext.AuthState.LoadUser | blog-frontend/src/context/AuthContext.js:15-34 | a stored user becomes the context's user; loading ends in every case |
| AuthContext.AuthState.Login | blog-frontend/src/context/AuthContext.js:37-60 | an MFA-required value sets the flag and records the typed username, leaving the user unchanged; any other resolved value becomes the user and clears the MFA state; an error is rethrown with nothing changed |
| AuthContext.AuthState.ValidateMfa | blog-frontend/src/context/AuthContext.js:63-98 | the explicit username wins over the stored one, and with neither it throws before any call; `valid === false` changes nothing; an access token sets the user and clears the MFA state; any other shape throws |
| AuthContext.AuthState.Logout | blog-frontend/src/context/AuthContext.js:101-122 | user, MFA flag and MFA username are cleared whether the service resolves or throws |
| AuthContext.AuthState.HasRole | blog-frontend/src/context/AuthContext.js:130-133 | false whenever no user is set; otherwise membership in the user's roles, and the TypeError of `user.roles.includes` when a raw reply carries no roles |
| LoginPage.RedirectTarget | blog-frontend/src/components/auth/Login.js:45 | the remembered path, or '/' when there is none |
| LoginPage.LoginErrorText | blog-frontend/src/components/auth/Login.js:84-92 | the reply's message, else the error's message, else its string form, else the fixed default, each case stated; never empty |
| LoginPage.MfaErrorText | blog-frontend/src/components/auth/Login.js:134-139 | the reply's message, else the error's message, else the fixed default, each case stated; never empty |
| LoginPage.LoginForm.constructor | blog-frontend/src/components/auth/Login.js:27-37 | every field starts empty and no dialog is open |
| LoginPage.LoginForm.SyncMfaUsername | blog-frontend/src/components/auth/Login.js:48-55 | while the dialog is open the typed username is copied to the MFA username; otherwise nothing changes |
| LoginPage.LoginForm.HandleLogin | blog-frontend/src/components/auth/Login.js:57-94 | an empty username or password shows the required-fields message and makes no call; an MFA challenge opens the dialog, records the typed name and does not navigate; success navigates to the remembered page; an error shows its text |
| LoginPage.LoginForm.HandleMfaSubmit | blog-frontend/src/components/auth/Login.js:96-112 | a blank code sets an error and makes no call; the username is the dialog's, else the context's, else the typed one, and with none it errors without a call |
| LoginPage.LoginForm.ApplyMfaCall | blog-frontend/src/components/auth/Login.js:115-140 | a falsy `valid` shows the message or the default, clears the code and keeps the dialog open; success closes the dialog and navigates to the remembered page; an error shows its text |
| AppRoutes.AnyHeld | blog-frontend/src/App.js:157 | true exactly when some required role is held |
| AppRoutes.ProtectedRoute | blog-frontend/src/App.js:129-162 | loading shows the loading view; no user redirects to /login carrying the location; with required roles, a user record without roles throws the `includes` TypeError, and one with no overlap is redirected home; otherwise the children render, so with no required roles any signed-in user passes |
| AppRoutes.AdminMenuMatchesAdminRoute | blog-frontend/src/App.js:422 | for any user record that both the shell and the context hold, with or without roles, the admin menu shows exactly when a route guarded by the admin role would render |
| AppRoutes.AppShell.constructor | blog-frontend/src/App.js:95-99 | on mount the shell's user is the stored record, or nobody |
| AppRoutes.AppShell.LogOut | blog-frontend/src/App.js:110-114 | the shell's user is cleared and the admin menu hidden |
| AppRoutes.AppShell.AdminMenuVisible | blog-frontend/src/App.js:422 | the menu entries show exactly when the shell's user exists and its roles include 'ROLE_ADMIN' |
| AppRoutes.MenuLagsSignIn | blog-frontend/src/App.js:83-99 | a shell mounted with nobody stored hides the admin menu while an administrator signed in later passes the admin route guard |
| AuthHeader.AuthHeader | blog-frontend/src/services/auth-header.js:1-30 | no header exactly when nothing is stored, parsing fails, the value is neither object nor string, or an object has neither `accessToken` nor `token`; every header starts with 'Bearer ' |
| AuthHeader.ServerReadsChosenCredential | blog-frontend/src/services/auth-header.js:13-21 | reading the header back gives `accessToken` when present, else `token`, else the stored string; no header gives no credential |
| ApiClient.UserMessage | blog-frontend/src/services/api.js:43-72 | a server reply gives its body's `error`, else its `message`, else 'Server error: ' and the status, so it is never empty; no reply gives the connection message; an unsent request gives its own message |
| ApiClient.SessionAfter | blog-frontend/src/services/api.js:58-63 | a 401 reply removes the stored user and moves the window to /login; any other failure leaves both alone |
| ApiClient.SessionAfterIdempotent | blog-frontend/src/services/api.js:58-63 | handling the same failure a second time changes nothing more |
| ApiClient.ApiError.constructor | blog-frontend/src/services/api.js:39 | the error carries its failure and no readable message yet |
| ApiClient.Window.constructor | blog-frontend/src/services/api.js:62 | the window starts at the given location |
| ApiClient.OnResponseError | blog-frontend/src/services/api.js:39-78 | the same error is rejected again with `userMessage` set to its readable message; stored user and location change only as a 401 demands; the pending MFA username is untouched |
| ApiClient.Coerced | blog-frontend/src/services/api.js:117-119 | a non-empty string id becomes a number or NaN; every other value is kept; no non-empty string survives |
| ApiClient.SortParam | blog-frontend/src/services/api.js:92 | `field,direction`: the field, one comma, the direction; for a comma-free field the first comma is where the server splits it (see ArticleController.SortRoundTrip) |
| ApiClient.CoercedIdempotent | blog-frontend/src/services/api.js:117-144 | coercing twice (create, then update of the same object) is the same as coercing once |
| ApiClient.CoercedDecimalText | blog-frontend/src/services/api.js:118 | the decimal text of an integer of magnitude at most 2^53 (every integer a JavaScript number holds exactly) coerces to that integer |
| ApiClient.ArticlePayload.constructor | blog-frontend/src/services/api.js:112 | the payload holds the given category id |
| ApiClient.CoerceCategoryId | blog-frontend/src/services/api.js:116-119 | the article object's category id is replaced in place by its coerced value |
| ApiClient.UploadGuard | blog-frontend/src/services/api.js:217-227 | an upload goes ahead exactly when a file is given and it is at most 5 MiB; a missing file and a too-large file are rejected with their own messages, the missing file first |
| ApiClient.IndexOfAny | blog-frontend/src/services/api.js:264 | the position of the first stop character, or the length when there is none |
| ApiClient.Pathname | blog-frontend/src/services/api.js:264-265 | a parsed path starts with '/' and holds no query or fragment; no `scheme://` gives no path |
| ApiClient.RewriteUploadUrl | blog-frontend/src/services/api.js:261-266 | a URL without 'http' is returned unchanged; one with it becomes a path starting with '/' |
| ApiClient.RewriteStripsOrigin | blog-frontend/src/services/api.js:261-266 | an `http` or `https` upload URL whose host is a plain dotted name (optionally with a port up to 65535) and whose path the URL parser would not normalise (no dot segments, no character it encodes) is rewritten to exactly that path |
| ApiClient.RootedPathStripped | blog-frontend/src/services/api.js:261-266 | for a rooted path without '?' or '#', the rewrite keeps exactly the text after the host |
| FormatUtils.MaskEmail | blog-frontend/src/utils/formatUtils.js:12-27 | an absent address masks to the empty string; any other gives at least three characters including '@' |
| FormatUtils.MaskParts | blog-frontend/src/utils/formatUtils.js:16-22 | whichever parts the split gives, the mask has at least three characters and contains '@' |
| FormatUtils.MaskEmailShape | blog-frontend/src/utils/formatUtils.js:19-22 | for `local@domain`, the first character and the domain survive and the rest of the local part becomes at least two stars |
| FormatUtils.MaskEmailIgnoresSecondAt | blog-frontend/src/utils/formatUtils.js:16 | whatever follows a second '@' is dropped: the mask equals that of the address cut there |
| FormatUtils.MaskEmailWithoutAt | blog-frontend/src/utils/formatUtils.js:17 | an address without '@' masks to the fixed '***@***' |
| FormatUtils.ObfuscateText | blog-frontend/src/utils/formatUtils.js:37-54 | an empty text stays empty; a text no longer than the visible parts becomes all stars; otherwise the visible start and end survive and the stars between number at least two |
| FormatUtils.ObfuscateLength | blog-frontend/src/utils/formatUtils.js:41-49 | the output keeps the input's length, except when exactly one character is hidden: then it is one longer |
| ImageHelper.ImageUrl | blog-frontend/src/utils/imageHelper.js:7-32 | a falsy path gives null and only then; a path starting with 'http' is kept; a bare file name is put under the origin's upload directory |
| ImageHelper.RootedPathPrefixedByOrigin | blog-frontend/src/utils/imageHelper.js:18-28 | every path starting with '/' becomes the origin followed by the path, whichever of the three branches handles it |
| ExportUtils.SafeStringify | blog-frontend/src/utils/ExportUtils.js:7-22 | null and undefined become the empty string; an object whose serialisation fails becomes the fixed '[Object]' |
| ExportUtils.Values | blog-frontend/src/utils/ExportUtils.js:128-132 | one sanitized cell per column, in column order |
| ExportUtils.Titles | blog-frontend/src/utils/ExportUtils.js:125 | one sanitized title per column, in column order |
| ExportUtils.FieldBodyEscape | blog-frontend/src/utils/ExportUtils.js:132 | a field with its quotes doubled, followed by the closing quote, reads back as exactly the original field |
| ExportUtils.RecordReadsBack | blog-frontend/src/utils/ExportUtils.js:129-133 | a line of quoted, escaped fields joined by ',' reads back as those fields, whatever follows it after a line break |
| ExportUtils.DocumentReadsBack | blog-frontend/src/utils/ExportUtils.js:137 | lines of such records joined by '\n' read back as exactly the records |
| ExportUtils.CsvContentReadsBack | blog-frontend/src/utils/ExportUtils.js:120-137 | when no sanitized title contains a quote, the exported text reads back as the titles followed by each item's cells |
| ExportUtils.QuotedTitleBreaksHeader | blog-frontend/src/utils/ExportUtils.js:125 | a title containing a quote makes the exported text unreadable as CSV, because the header does not double it |
| ExportUtils.CsvContentEscapedHeaderReadsBack | blog-frontend/src/utils/ExportUtils.js:125-132 | with the header escaped like the rows, the text reads back as titles and cells for every title |
| ExportUtils.MissingKeyEmptyCell | blog-frontend/src/utils/ExportUtils.js:130-132 | a key missing from an item exports as the empty quoted cell |
| ArticleList.FilterByTab | blog-frontend/src/components/articles/ArticleList.js:160-169 | tabs 1 to 4 select a status and every other tab shows all articles |
| ArticleList.TabsDistinct | blog-frontend/src/components/articles/ArticleList.js:163-166 | the four status tabs select four different statuses |
| ArticleList.WithStatus | blog-frontend/src/components/articles/ArticleList.js:122-125 | with no status every article is kept; otherwise exactly the articles of that status are kept |
| ArticleList.ApiSortField | blog-frontend/src/components/articles/ArticleList.js:113 | 'likes' is sent to the server as 'id'; every other field is sent as it is |
| ArticleList.InsertOrdered | blog-frontend/src/components/articles/ArticleList.js:140-144 | inserting into a list ordered by like count keeps it ordered |
| ArticleList.SortByLikes | blog-frontend/src/components/articles/ArticleList.js:139-145 | the result is a permutation of the articles, ordered by like count in the requested direction |
| ArticleList.MarkLiked | blog-frontend/src/components/articles/ArticleList.js:128-136 | each article is kept and marked liked exactly when its id is in the stored liked map |
| ArticleList.Displayed | blog-frontend/src/components/articles/ArticleList.js:118-147 | the shown list is the tab's articles marked from the liked map, so every mark agrees with the map; under 'likes' it is reordered by like count in the chosen direction, otherwise kept in the server's order |
| ArticleList.ToggleLikeIn | blog-frontend/src/components/articles/ArticleList.js:241-253 | only the toggled article changes: its count moves by one and its mark flips |
| ArticleList.ToggleTwiceRestores | blog-frontend/src/components/articles/ArticleList.js:226-253 | liking and then unliking an article (or the reverse) restores the list exactly |
| ArticleList.NextSort | blog-frontend/src/components/articles/ArticleList.js:214-224 | the same field flips the direction; a new field becomes the sort field in descending order |
| ArticleList.SortTwiceRestores | blog-frontend/src/components/articles/ArticleList.js:215-217 | sorting twice on the current field restores the direction |
| ArticleList.PageCount | blog-frontend/src/components/articles/ArticleList.js:679 | the least number of pages of the given size that holds every article |
| ArticleList.ArticleListState.constructor | blog-frontend/src/components/articles/ArticleList.js:66-84 | first page, six per page, sorted by id descending, the 'all' tab, nothing liked |
| ArticleList.ArticleListState.HandleSort | blog-frontend/src/components/articles/ArticleList.js:214-224 | the sort moves as the next-sort rule says and the page goes back to the first; nothing else changes |
| ArticleList.ArticleListState.HandleToggleLike | blog-frontend/src/components/articles/ArticleList.js:226-257 | the id is added to or removed from the liked map, the articles change as the toggle says, and marks that agreed with the map still agree |
| ArticleList.ArticleListState.HandleChangePage | blog-frontend/src/components/articles/ArticleList.js:196-198 | the 1-based pager page becomes the 0-based page |
| ArticleList.ArticleListState.HandleChangeSize | blog-frontend/src/components/articles/ArticleList.js:200-203 | the new size, back on the first page |
| ArticleList.ArticleListState.HandleTabChange | blog-frontend/src/components/articles/ArticleList.js:209-212 | the new tab, back on the first page |
| ArticleList.AvatarColor | blog-frontend/src/components/articles/ArticleList.js:290-293 | always a palette colour |
| ArticleList.AvatarColorPeriodic | blog-frontend/src/components/articles/ArticleList.js:292 | ids 18 apart get the same colour |
| ArticleList.Initials | blog-frontend/src/components/articles/ArticleList.js:295-298 | one character: '?' for an empty title, otherwise the first character upper-cased |
| ArticleForm.FormErrors | blog-frontend/src/components/articles/ArticleForm.js:249-268 | a field has an error exactly when it fails its rule: blank title, blank or over-4000-character content, falsy category, empty status; each error carries its own message, and the content message says which content rule failed; the image path is never checked |
| ArticleForm.ContentLimit | blog-frontend/src/components/articles/ArticleForm.js:258 | for non-blank content, the length error appears exactly beyond 4000 characters, counted untrimmed |
| ArticleForm.ValidFormShape | blog-frontend/src/components/articles/ArticleForm.js:249-272 | the form passes exactly when title and content are not blank, the content has at most 4000 characters, and a category and a status are set |
| ArticleForm.ImageCheck | blog-frontend/src/components/articles/ArticleForm.js:220-229 | a file is accepted exactly when its type mentions 'image' and it is at most 5 MiB; a non-image is refused with the type message even when also too large; an image over 5 MiB gets the size message |
| ArticleForm.FinalImagePath | blog-frontend/src/components/articles/ArticleForm.js:321-332 | a newly chosen file sends its uploaded URL; otherwise the form's path is sent |
| ArticleForm.SubmittedCategoryId | blog-frontend/src/components/articles/ArticleForm.js:324-326 | a falsy category id is sent as null; a set one is parsed as the shared client coercion does |
| ArticleForm.LoadErrorText | blog-frontend/src/components/articles/ArticleForm.js:167-181 | 404 names the article id; 403 reports missing permission; another status shows the body's error or the generic text; no reply and unsent requests have their own texts |
| ArticleForm.Cleared | blog-frontend/src/components/articles/ArticleForm.js:207-213 | the same fields keep their messages, except that the edited field's message becomes empty |
| ArticleForm.ArticleEditor.constructor | blog-frontend/src/components/articles/ArticleForm.js:48-61 | empty fields with status 'PUBLISHED', no validation messages, no error, no file |
| ArticleForm.ArticleEditor.ValidateForm | blog-frontend/src/components/articles/ArticleForm.js:249-272 | the stored messages are exactly the form's errors, and the form is valid exactly when there are none |
| ArticleForm.ArticleEditor.HandleChange | blog-frontend/src/components/articles/ArticleForm.js:200-214 | only the named field takes the typed value, and only its message is cleared |
| ArticleForm.ArticleEditor.HandleCategoryPick | blog-frontend/src/components/articles/ArticleForm.js:200-214 | the category becomes the picked numeric id and its message is cleared |
| ArticleForm.ArticleEditor.HandleImageChange | blog-frontend/src/components/articles/ArticleForm.js:216-241 | no file changes nothing; a rejected file keeps the previous file and shows why; an accepted one is kept and clears the error |
| ArticleDetail.WithoutComment | blog-frontend/src/components/articles/ArticleDetail.js:165 | exactly the comments whose id differs from the deleted one remain |
| ArticleDetail.WithoutCommentConcat | blog-frontend/src/components/articles/ArticleDetail.js:165 | the remaining comments keep their order: deleting from two joined lists deletes from each |
| ArticleDetail.AddThenDelete | blog-frontend/src/components/articles/ArticleDetail.js:149-165 | a comment added under a fresh id and then deleted leaves the list as it was |
| ArticleDetail.InlineSrcMatchesImageHelper | blog-frontend/src/components/articles/ArticleDetail.js:252-260 | the image source written out on the page agrees with `getImageUrl` for every non-empty path |
| ArticleDetail.CountLabel | blog-frontend/src/components/articles/ArticleDetail.js:321-328 | the singular word exactly for a count of one, otherwise the plural |
| ArticleDetail.ArticleDetailState.constructor | blog-frontend/src/components/articles/ArticleDetail.js:40-71 | the article counts as liked exactly when its id is in the stored liked map; the loaded comments and like count are shown and the comment box is empty |
| ArticleDetail.ArticleDetailState.HandleToggleLike | blog-frontend/src/components/articles/ArticleDetail.js:109-132 | the like flag flips, the count moves by one in the same direction, and the stored map gains or loses the article id to match |
| ArticleDetail.ArticleDetailState.HandleAddComment | blog-frontend/src/components/articles/ArticleDetail.js:134-159 | a blank comment is refused with its message and no request; a created comment is appended and the box cleared; a failure shows the server's message or the default and keeps the text |
| ArticleDetail.ArticleDetailState.HandleDeleteComment | blog-frontend/src/components/articles/ArticleDetail.js:161-171 | nothing happens without confirmation; a successful delete removes that id's comments; a failed one keeps them and shows the failure text |
| CategoryList.SaveErrorText | blog-frontend/src/components/categories/CategoryList.js:139-141 | the server's message when it sent one, otherwise the fixed update or create text, according to whether the category has an id |
| CategoryList.CategoryListState.constructor | blog-frontend/src/components/categories/CategoryList.js:44-56 | first page, five per page, sorted by id descending, dialog closed, no messages |
| CategoryList.CategoryListState.HandleSort | blog-frontend/src/components/categories/CategoryList.js:110-119 | the sort moves exactly as on the article list (same field flips, new field descending), but the page is kept |
| CategoryList.CategoryListState.HandleChangePage | blog-frontend/src/components/categories/CategoryList.js:101-103 | the 1-based pager page becomes the 0-based page |
| CategoryList.CategoryListState.HandleChangeSize | blog-frontend/src/components/categories/CategoryList.js:105-108 | the new size, back on the first page |
| CategoryList.CategoryListState.HandleOpenDialog | blog-frontend/src/components/categories/CategoryList.js:83-87 | the dialog opens on the given category with no validation message |
| CategoryList.CategoryListState.HandleChange | blog-frontend/src/components/categories/CategoryList.js:93-99 | the typed title is kept and the validation message cleared |
| CategoryList.CategoryListState.HandleSave | blog-frontend/src/components/categories/CategoryList.js:121-144 | a blank title is refused with its message and no request; a truthy id is updated, otherwise a category is created; success closes the dialog, failure keeps it open and shows the save error text |
| AdminDashboard.CountStatus | blog-frontend/src/components/admin/AdminDashboard.js:145-148 | a status count never exceeds the number of articles |
| AdminDashboard.StatusCountsBounded | blog-frontend/src/components/admin/AdminDashboard.js:142-148 | the four status counts together never exceed the total |
| AdminDashboard.UncategorisedNotCounted | blog-frontend/src/components/admin/AdminDashboard.js:155 | an article without a category adds to no category's count |
| AdminDashboard.CountInCategoryFront | blog-frontend/src/components/admin/AdminDashboard.js:154-162 | counting an id from the front gives the same count as the loop's back-to-front count |
| AdminDashboard.PerCategory | blog-frontend/src/components/admin/AdminDashboard.js:164-169 | one entry per category, in category order, named by the title, with the number of articles whose category id is that category's |
| AdminDashboard.SumValuesSnoc | blog-frontend/src/components/admin/AdminDashboard.js:154-169 | one more article adds one to the entry of every category carrying its id, and nothing when it has no category |
| AdminDashboard.PerCategoryBounded | blog-frontend/src/components/admin/AdminDashboard.js:154-169 | with distinct category ids, the per-category counts add up to at most the number of articles |
| AdminDashboard.RecentActivity | blog-frontend/src/components/admin/AdminDashboard.js:182-191 | exactly min(10, n) entries, the k-th carrying the id, title and creation date of the k-th newest article, marked 'Created' of type 'article' |
| AdminDashboard.RecentActivityFromArticles | blog-frontend/src/components/admin/AdminDashboard.js:182-191 | sorting the dashboard's own articles, the activity list has min(10, n) entries, each showing one of those articles |
| AdminDashboard.CalculateStats | blog-frontend/src/components/admin/AdminDashboard.js:141-204 | for the dashboard's articles sorted newest first, the map-filling loop and the loop over categories produce exactly the statistics: total, the four status counts, the category total, the per-category entries and the recent activity |
| AdminDashboard.WithoutArticle | blog-frontend/src/components/admin/AdminDashboard.js:238-241 | exactly the articles whose id differs from the deleted one remain |
| AdminDashboard.PageSlice | blog-frontend/src/components/admin/AdminDashboard.js:386 | the rows of the page in order, at most a page's worth; empty past the end |
| AdminDashboard.DashboardState.constructor | blog-frontend/src/components/admin/AdminDashboard.js:75-98 | the fetched articles and categories with their statistics, first page of five rows, nothing selected |
| AdminDashboard.DashboardState.HandleOpenActionMenu | blog-frontend/src/components/admin/AdminDashboard.js:221-224 | the menu remembers the article it was opened on |
| AdminDashboard.DashboardState.HandleCloseActionMenu | blog-frontend/src/components/admin/AdminDashboard.js:227-230 | no article is selected afterwards |
| AdminDashboard.DashboardState.HandleDeleteArticle | blog-frontend/src/components/admin/AdminDashboard.js:233-250 | a confirmed, successful delete removes the selected article and recomputes the statistics from what remains; a failure keeps both and shows its message; without confirmation nothing changes; the menu closes in every case |
| AdminDashboard.DashboardState.HandleChangePage | blog-frontend/src/components/admin/AdminDashboard.js:285-287 | the table shows the chosen page |
| AdminDashboard.DashboardState.HandleChangeRowsPerPage | blog-frontend/src/components/admin/AdminDashboard.js:289-292 | the new page size, back on the first page |
| UserManagement.EditForm | blog-frontend/src/components/admin/UserManagement.js:40 | a role name is kept; a role object with a name becomes that name; one without a name is kept as the object |
| UserManagement.SaveForm | blog-frontend/src/components/admin/UserManagement.js:60 | every role becomes an object: a name becomes the object of that name and an object is kept |
| UserManagement.EditThenSaveRestores | blog-frontend/src/components/admin/UserManagement.js:40-60 | opening and saving without touching the boxes sends every role object back unchanged and every bare name as an object of that name |
| UserManagement.MapRoles | blog-frontend/src/components/admin/UserManagement.js:40-60 | the roles mapped one by one, in order |
| UserManagement.ToggleRole | blog-frontend/src/components/admin/UserManagement.js:48-55 | a role that is present is removed everywhere and nothing else; an absent one is appended |
| UserManagement.ToggleAbsentTwice | blog-frontend/src/components/admin/UserManagement.js:48-55 | ticking and unticking an absent role gives back the very same list |
| UserManagement.TogglePresentTwice | blog-frontend/src/components/admin/UserManagement.js:48-55 | unticking and ticking a present role keeps the same roles, with that role moved to the end |
| UserManagement.UserManagementState.constructor | blog-frontend/src/components/admin/UserManagement.js:14-20 | no users, loading, no dialogs, no snackbar |
| UserManagement.CanManage | blog-frontend/src/components/admin/UserManagement.js:22-26 | false with nobody signed in; the `includes` TypeError for a record without roles; true exactly when the roles hold the admin role |
| UserManagement.UserManagementState.OnViewer | blog-frontend/src/components/admin/UserManagement.js:22-37 | the list is fetched exactly for a viewer holding the admin role; a viewer without roles throws the `includes` TypeError and changes nothing; success shows the users, failure shows the fetch error; loading ends either way |
| UserManagement.UserManagementState.HandleEditClick | blog-frontend/src/components/admin/UserManagement.js:39-42 | the dialog opens on the user with roles normalised to names |
| UserManagement.UserManagementState.HandleEditUsername | blog-frontend/src/components/admin/UserManagement.js:44-46 | only the edited user's username changes |
| UserManagement.UserManagementState.HandleEditEmail | blog-frontend/src/components/admin/UserManagement.js:44-46 | only the edited user's email changes |
| UserManagement.UserManagementState.HandleEditMfa | blog-frontend/src/components/admin/UserManagement.js:44-46 | only the edited user's MFA flag changes |
| UserManagement.UserManagementState.HandleRoleToggle | blog-frontend/src/components/admin/UserManagement.js:48-55 | the edited user's roles are toggled as the toggle rule says |
| UserManagement.UserManagementState.HandleEditSave | blog-frontend/src/components/admin/UserManagement.js:57-68 | the record sent carries only role objects; success closes the dialog with 'User updated', failure keeps it and shows the failure |
| UserManagement.UserManagementState.HandleDeleteClick | blog-frontend/src/components/admin/UserManagement.js:70-73 | the id is remembered and the confirmation dialog opens |
| UserManagement.UserManagementState.HandleDeleteConfirm | blog-frontend/src/components/admin/UserManagement.js:75-84 | the remembered id is sent; success closes the dialog with 'User deleted', failure keeps it and shows the failure |
| Profile.DigitCodeBlankIff | blog-frontend/src/components/user/Profile.js:179 | a digits-only code is blank exactly when it is empty |
| Profile.ProfileState.constructor | blog-frontend/src/components/user/Profile.js:52-79 | two-factor off, both dialogs closed, empty code (well formed), no error, no snackbar |
| Profile.ProfileState.HandleVerificationCodeChange | blog-frontend/src/components/user/Profile.js:282-289 | non-digits are stripped and the result is taken, clearing the error, only when it has at most six characters; otherwise nothing changes; the code stays digits-only with at most six characters |
| Profile.ProfileState.HandleVerify2FA | blog-frontend/src/components/user/Profile.js:178-216 | a blank code only warns, with no request; otherwise the secret and code are sent; a truthy reply message enables two-factor, clears the code and resets `showQRDialog`; a falsy one shows 'Invalid verification code'; a thrown error shows the server's message or the default; the code stays well formed |
| Profile.ProfileState.HandleVerify2FAClosing | blog-frontend/src/components/user/Profile.js:178-216 | the intended verification: a blank code only warns; otherwise the secret and the code are sent; a success enables two-factor sign-in, clears `showQRDialog`, closes the dialog on screen and clears code and error; an empty reply message or a thrown call shows its error and changes nothing else; in every case but success the dialog is left as it was |
| Profile.ProfileState.HandleCloseQRDialog | blog-frontend/src/components/user/Profile.js:276-280 | the dialog closes and the code and error are cleared |
| Profile.VerifiedDialogStaysOpen | blog-frontend/src/components/user/Profile.js:194 | as written, a successful verification leaves an open two-factor dialog open |
| MfaService.QrParameters | src/main/java/com/ali/service/MFAService.java:33-42 | the QR data names the user's email as label, the given secret, the issuer 'Blog Application', SHA1, six digits and a 30-second period |
| MfaService.VerifyCode | src/main/java/com/ali/service/MFAService.java:56-65 | a missing or blank code fails without consulting the verifier; otherwise the verdict is the verifier's on the code with every non-digit removed |
| MfaService.NonSpaceMakesNonBlank | src/main/java/com/ali/service/MFAService.java:57 | a code holding any character other than white space is not blank |
| MfaService.NonBlankHasNonSpace | src/main/java/com/ali/service/MFAService.java:57 | a code that is not blank holds a character other than white space |
| MfaService.CleanedKeepsDigit | src/main/java/com/ali/service/MFAService.java:62 | a code holding a digit still holds one after cleaning |
| MfaService.CleaningTwiceHarmless | src/main/java/com/ali/service/MFAService.java:56-65 | for a code holding a digit, cleaning it before the call gives the same verdict as passing it raw |
| MfaService.SeparatorsIgnored | src/main/java/com/ali/service/MFAService.java:62 | inserting any non-digit into a non-blank code changes neither its blankness nor the verdict |
| MfaService.MfaAccount.constructor | src/main/java/com/ali/service/MFAService.java:67-79 | the account holds the given flag and secret |
| MfaService.MfaAccount.IsMfaEnabled | src/main/java/com/ali/service/MFAService.java:67-69 | true exactly when the user's flag is set |
| MfaService.MfaAccount.EnableMfa | src/main/java/com/ali/service/MFAService.java:71-74 | the flag is set and the secret stored |
| MfaService.MfaAccount.DisableMfa | src/main/java/com/ali/service/MFAService.java:76-79 | the flag is cleared and the secret removed |
| AuthController.EntryOf | src/main/java/com/ali/controller/AuthController.java:74-85 | a user name without a row reads as a fresh row: no strikes, no lockout |
| AuthController.MinutesLeft | src/main/java/com/ali/controller/AuthController.java:88 | the whole minutes left plus one: at least one, bracketing the time left, and at most eleven within a ten-minute lockout |
| AuthController.AfterFailure | src/main/java/com/ali/controller/AuthController.java:116-125 | the fifth strike starts a ten-minute lockout from now and resets the count; an earlier strike only counts up |
| AuthController.FailuresAccumulate | src/main/java/com/ali/controller/AuthController.java:116-125 | fewer than five strikes outside a lockout only add up |
| AuthController.FifthFailureLocks | src/main/java/com/ali/controller/AuthController.java:79-122 | five wrong passwords in a row on an unlocked name lock it for ten minutes from the fifth, with the count back at zero |
| AuthController.LoginAttempts.constructor | src/main/java/com/ali/controller/AuthController.java:78 | the table starts empty |
| AuthController.LoginAttempts.AuthenticateUser | src/main/java/com/ali/controller/AuthController.java:82-130 | a locked name is refused with the minutes left and nothing attempted (its row is created if missing); a success removes the row and issues a temporary token exactly for a two-factor user; a bad password counts a strike, and the fifth locks; any other error keeps the row; no row ever holds five strikes |
| AuthController.Account.constructor | src/main/java/com/ali/controller/AuthController.java:272 | the account holds the given fields and no failed attempts |
| AuthController.Login | src/main/java/com/ali/controller/AuthController.java:259-353 | a token is issued exactly when the account is known, active and unexpired, the password matches, a two-factor account sent a code that verifies, and authentication succeeds, and then the reply carries the principal's authority names as `roles`, which every other reply leaves out; each failed check gives its own status and message in that order; a wrong password adds one to the stored counter, a right one resets it; no other account field changes |
| AuthController.ResetPasswordWithMfa | src/main/java/com/ali/controller/AuthController.java:401-419 | the password becomes the encoded new one, with 200 and the success message, exactly when all three fields are given, the user exists and, before the call, had two-factor on and a secret the code verifies against; otherwise 400 and the password is unchanged, with the missing-field, unknown-user and invalid-code messages in that order; no other account field changes |
| AuthController.LogoutReply | src/main/java/com/ali/controller/AuthController.java:421-451 | a request with no Authorization header never reaches the handler and gets the catch-all handler's 500; a header not starting with 'Bearer ' gets 400; the token after the prefix reaches the blacklist only when its subject is readable; 200 exactly when it was blacklisted |
| AuthController.LogoutBlacklistsClientToken | src/main/java/com/ali/controller/AuthController.java:426-435 | a client's own 'Bearer ' header blacklists exactly the token the client holds and replies 200 |
| MfaValidation.ValidateMfaCode | src/main/java/com/ali/controller/MFAValidationController.java:48-126 | the guards run in order (username, code, known user, two-factor on) with their own replies; a token is returned exactly when the verifier accepts the code's digits for the user's secret, and a rejected code gives 'Invalid verification code' |
| MfaValidation.TokenOnlyAfterVerifiedCode | src/main/java/com/ali/controller/MFAValidationController.java:84-110 | a token implies a code with at least one digit, a two-factor user, and the verifier's acceptance of those digits |
| MfaValidation.SeparatorsDoNotMatter | src/main/java/com/ali/controller/MFAValidationController.java:84 | a non-digit typed into a non-empty code does not change the reply |
| UserTokenRepository.IndexOfToken | src/main/java/com/ali/repository/UserTokenRepository.java:17 | the position of the first row holding the token, or the table's length when none does |
| UserTokenRepository.FlagUser | src/main/java/com/ali/repository/UserTokenRepository.java:26-28 | every row of that user is blacklisted and every other row is unchanged, in place |
| UserTokenRepository.FlagToken | src/main/java/com/ali/repository/UserTokenRepository.java:30-32 | every row holding the token is blacklisted and every other row is unchanged, in place |
| UserTokenRepository.FlagUserLeavesNoActive | src/main/java/com/ali/repository/UserTokenRepository.java:23-28 | after flagging a user, the active-token query finds none of that user's rows at any time, and other users' rows are untouched |
| UserTokenRepository.FlagTokenIdempotent | src/main/java/com/ali/repository/UserTokenRepository.java:30-32 | blacklisting a token twice is the same as once |
| UserTokenRepository.UserTokenRepo.constructor | src/main/java/com/ali/repository/UserTokenRepository.java:15 | the table starts empty |
| UserTokenRepository.UserTokenRepo.FindByToken | src/main/java/com/ali/repository/UserTokenRepository.java:17 | a row is found exactly when some row holds the token, and it is a row of the table holding it |
| UserTokenRepository.UserTokenRepo.FindActiveTokensByUsername | src/main/java/com/ali/repository/UserTokenRepository.java:23-24 | exactly the user's rows that are not blacklisted and expire after the given time |
| UserTokenRepository.UserTokenRepo.Insert | src/main/java/com/ali/repository/UserTokenRepository.java:15 | the new row is added at the end |
| UserTokenRepository.UserTokenRepo.Update | src/main/java/com/ali/repository/UserTokenRepository.java:15 | only the saved row changes |
| UserTokenRepository.UserTokenRepo.BlacklistAllTokensForUser | src/main/java/com/ali/repository/UserTokenRepository.java:26-28 | the table becomes the flagged table, and afterwards the user has no active token at any time |
| UserTokenRepository.UserTokenRepo.BlacklistToken | src/main/java/com/ali/repository/UserTokenRepository.java:30-32 | the table becomes the token-flagged table |
| UserTokenRepository.UserTokenRepo.DeleteExpiredTokens | src/main/java/com/ali/repository/UserTokenRepository.java:34-36 | exactly the rows expiring strictly before the cut-off go; a row expiring at the cut-off stays; order is kept |
| TokenService.TruncDiv | src/main/java/com/ali/service/TokenServiceImpl.java:28 | Java integer division: the quotient truncated toward zero for either sign |
| TokenService.ClientIp | src/main/java/com/ali/service/TokenServiceImpl.java:99-110 | a non-empty forwarded-for header wins; otherwise the remote address |
| TokenService.NewRow | src/main/java/com/ali/service/TokenServiceImpl.java:26-38 | a new row for the user and token, not blacklisted, created and last used now, expiring after the whole seconds of the lifetime (less than a second early, never late); without a request no address or agent is recorded |
| TokenService.AppendedRowFound | src/main/java/com/ali/service/TokenServiceImpl.java:40-46 | a row saved for a token no earlier row holds is the one a lookup by that token finds |
| TokenService.UnstoredTokenInvalid | src/main/java/com/ali/service/TokenServiceImpl.java:49-57 | a token no row holds is never valid |
| TokenService.TokenServiceImpl.constructor | src/main/java/com/ali/service/TokenServiceImpl.java:21-22 | the service works on the given table |
| TokenService.TokenServiceImpl.CreateToken | src/main/java/com/ali/service/TokenServiceImpl.java:24-41 | exactly the new row is saved at the end of the table and returned |
| TokenService.TokenServiceImpl.IsTokenValid | src/main/java/com/ali/service/TokenServiceImpl.java:48-57 | true exactly when the row found for the token is not blacklisted and expires strictly after now; a valid token always has a row |
| TokenService.TokenServiceImpl.GetActiveTokensForUser | src/main/java/com/ali/service/TokenServiceImpl.java:59-62 | exactly the user's rows that are not blacklisted and unexpired now, in table order |
| TokenService.TokenServiceImpl.BlacklistAllUserTokens | src/main/java/com/ali/service/TokenServiceImpl.java:64-69 | every row of the user is blacklisted and nothing else changes |
| TokenService.TokenServiceImpl.BlacklistToken | src/main/java/com/ali/service/TokenServiceImpl.java:71-76 | a token shorter than ten characters throws before the table is touched; otherwise every row holding it is blacklisted |
| TokenService.TokenServiceImpl.UpdateTokenUsage | src/main/java/com/ali/service/TokenServiceImpl.java:78-86 | only the found row's last-used time becomes now; an unknown token changes nothing |
| TokenService.TokenServiceImpl.CleanupExpiredTokens | src/main/java/com/ali/service/TokenServiceImpl.java:88-94 | exactly the rows that had not expired before now remain, in order and with their duplicates |
| JwtBlacklistRepository.Survivors | src/main/java/com/ali/repository/JwtBlacklistRepository.java:34-36 | exactly the entries not expired strictly before now survive, and their number plus the expired count is the old size |
| JwtBlacklistRepository.CleanupKeepsLive | src/main/java/com/ali/repository/JwtBlacklistRepository.java:35 | an entry expiring at now or later survives a cleanup at now |
| JwtBlacklistRepository.CleanupForgetsExpiredToken | src/main/java/com/ali/repository/JwtBlacklistRepository.java:35 | once all entries for a token have expired, a cleanup leaves none for it |
| JwtBlacklistRepository.JwtBlacklistRepo.constructor | src/main/java/com/ali/repository/JwtBlacklistRepository.java:14 | a new table is empty |
| JwtBlacklistRepository.JwtBlacklistRepo.FindAllByUserId | src/main/java/com/ali/repository/JwtBlacklistRepository.java:29 | exactly the entries recorded for that user id |
| JwtBlacklistRepository.JwtBlacklistRepo.Save | src/main/java/com/ali/repository/JwtBlacklistRepository.java:14-19 | the entry is appended and its token then exists in the table |
| JwtBlacklistRepository.JwtBlacklistRepo.DeleteExpiredTokens | src/main/java/com/ali/repository/JwtBlacklistRepository.java:34-36 | the expired entries are deleted and their number is returned |
| JwtBlacklistService.JwtBlacklistServiceImpl.constructor | src/main/java/com/ali/service/impl/JwtBlacklistServiceImpl.java:23-24 | the service works on the given table |
| JwtBlacklistService.JwtBlacklistServiceImpl.BlacklistToken | src/main/java/com/ali/service/impl/JwtBlacklistServiceImpl.java:26-32 | a new entry without user or reason, listed now, is appended even for a token already listed; the token is then blacklisted |
| JwtBlacklistService.JwtBlacklistServiceImpl.BlacklistTokenFor | src/main/java/com/ali/service/impl/JwtBlacklistServiceImpl.java:34-40 | a new entry with the user's id and the reason is appended; the token is then blacklisted |
| JwtBlacklistService.JwtBlacklistServiceImpl.GetBlacklistedTokensForUser | src/main/java/com/ali/service/impl/JwtBlacklistServiceImpl.java:48-61 | nothing for a missing user or one without an id; otherwise exactly that user's entries |
| JwtBlacklistService.JwtBlacklistServiceImpl.CleanupExpiredTokens | src/main/java/com/ali/service/impl/JwtBlacklistServiceImpl.java:63-69 | the expired entries go and the count removed is returned |
| JwtBlacklistService.StaysListedUntilExpiry | src/main/java/com/ali/service/impl/JwtBlacklistServiceImpl.java:26-46 | whatever the table held before, a token blacklisted with an expiry stays blacklisted across a cleanup at any time up to that expiry |
| JwtUtils.LiveClaims | src/main/java/com/ali/security/jwt/JwtUtils.java:108-124 | a token parses exactly when its signature checks and its expiry is not yet passed; the claims are then those signed |
| JwtUtils.UserNameFromToken | src/main/java/com/ali/security/jwt/JwtUtils.java:108-133 | the subject of a token that parses; otherwise a JwtException |
| JwtUtils.ExpirationFromToken | src/main/java/com/ali/security/jwt/JwtUtils.java:117-124 | the expiry, not before now, of a token that parses; otherwise a JwtException |
| JwtUtils.SingleSession | src/main/java/com/ali/security/jwt/JwtUtils.java:48-66 | after the user's rows are blacklisted and a fresh row appended, the fresh row is the user's only live row |
| JwtUtils.JwtUtilsImpl.constructor | src/main/java/com/ali/security/jwt/JwtUtils.java:29-39 | the configured lifetimes and services are those given |
| JwtUtils.JwtUtilsImpl.GenerateJwtToken | src/main/java/com/ali/security/jwt/JwtUtils.java:45-72 | the user's rows are blacklisted, the signed token is stored as their only live row; a failed store is swallowed and the token (then never valid) still returned |
| JwtUtils.JwtUtilsImpl.GenerateTokenFromUsername | src/main/java/com/ali/security/jwt/JwtUtils.java:74-83 | a token for the user with the configured lifetime, stored nowhere |
| JwtUtils.JwtUtilsImpl.GenerateTempToken | src/main/java/com/ali/security/jwt/JwtUtils.java:85-92 | a token for the user with the temporary lifetime, stored nowhere |
| JwtUtils.JwtUtilsImpl.GenerateJwtTokenFromTempToken | src/main/java/com/ali/security/jwt/JwtUtils.java:94-106 | a bad or expired temporary token throws and changes nothing; otherwise the subject's rows are blacklisted and a full token for the subject is returned |
| JwtUtils.JwtUtilsImpl.BlacklistToken | src/main/java/com/ali/security/jwt/JwtUtils.java:142-175 | false and no change for a token that does not parse; otherwise a blacklist entry with its expiry is saved, its rows flagged (a short token's failure swallowed) and the answer is true |
| JwtUtils.JwtUtilsImpl.ValidateJwtToken | src/main/java/com/ali/security/jwt/JwtUtils.java:177-206 | valid exactly when not blacklisted, live in the token table and parsing; only then does the found row's last-used time move to now |
| JwtUtils.LoggedOutTokenRejected | src/main/java/com/ali/security/jwt/JwtUtils.java:142-206 | a token blacklisted at logout never validates again, whatever the token table and the blacklist held before |
| TokenController.FlagTokens | src/main/java/com/ali/controller/TokenController.java:61-65 | blacklisting a list of tokens one by one keeps the table's size |
| TokenController.FlagTokensAt | src/main/java/com/ali/controller/TokenController.java:61-65 | the flagged rows are exactly those holding a listed token, whatever the order |
| TokenController.OthersMembers | src/main/java/com/ali/controller/TokenController.java:61-63 | the tokens handed over are exactly the sessions' tokens other than the current one |
| TokenController.LongEnoughIff | src/main/java/com/ali/service/TokenServiceImpl.java:74 | every handed-over token survives the service's ten-character log line exactly when each is at least ten long |
| TokenController.ShortSpoils | src/main/java/com/ali/service/TokenServiceImpl.java:74 | one short token makes the loop throw |
| TokenController.SessionAmongOthers | src/main/java/com/ali/controller/TokenController.java:61-63 | a session whose token differs from the current one is handed over |
| TokenController.OnlyCurrentStaysActive | src/main/java/com/ali/controller/TokenController.java:56-65 | afterwards the user's only live rows hold the current token, and rows with the current token are untouched |
| TokenController.Redact | src/main/java/com/ali/controller/TokenController.java:38-39 | every session is kept in order with its token replaced by "[REDACTED]" |
| TokenController.RedactionHidesTokens | src/main/java/com/ali/controller/TokenController.java:38-41 | no listed session shows a token value |
| TokenController.TokenControllerImpl.constructor | src/main/java/com/ali/controller/TokenController.java:25-26 | the controller works on the given service |
| TokenController.TokenControllerImpl.GetMyActiveSessions | src/main/java/com/ali/controller/TokenController.java:31-42 | the user's live sessions, in order, each redacted |
| TokenController.TokenControllerImpl.InvalidateOtherSessions | src/main/java/com/ali/controller/TokenController.java:47-71 | 401 and no change for a request without an Authorization header, which the security chain refuses; 400 and no change for a header not starting with "Bearer "; 200 exactly when every other live token is long enough, and then all of them are flagged; otherwise the exception reaches the catch-all handler, 500 with "An unexpected error occurred", and a prefix of them is flagged |
| TokenController.TokenControllerImpl.BlacklistOthers | src/main/java/com/ali/controller/TokenController.java:60-65 | the loop stops at the first throwing token having flagged the ones before it; without a throw every other token is flagged |
| TokenController.TokenControllerImpl.InvalidateSessionsForUser | src/main/java/com/ali/controller/TokenController.java:87-96 | every row of the named user is blacklisted and the message names the user |
| TokenController.TokenControllerImpl.RunTokenCleanup | src/main/java/com/ali/controller/TokenController.java:101-110 | exactly the rows not yet expired remain |
| FileUpload.Draft.Content | src/main/java/com/ali/controller/FileUploadController.java:132 | the placeholder content holds the title at a fixed place, so the title can be read back from it |
| FileUpload.CleanField | src/main/java/com/ali/controller/FileUploadController.java:115-117 | a cleaned field holds no double quote |
| FileUpload.Message | src/main/java/com/ali/controller/FileUploadController.java:106-165 | every error text starts with "Line <n>: " for the line it is about |
| FileUpload.MessagesAt | src/main/java/com/ali/controller/FileUploadController.java:190 | the reply lists each error's text at the error's own position |
| FileUpload.LineRules | src/main/java/com/ali/controller/FileUploadController.java:103-170 | fewer than four pieces rejects with the count; a line is imported exactly when it has a title and a category; the upper-cased status is kept only when it names a constant, otherwise the line is imported with a warning |
| FileUpload.CommaFreeFieldsRead | src/main/java/com/ali/controller/FileUploadController.java:103-117 | comma-free fields are read back in place: field 1 the title, 2 the status, 3 the category |
| FileUpload.OutcomesBy | src/main/java/com/ali/controller/FileUploadController.java:95-98 | one outcome per data line, data line k being file line k + 2 |
| FileUpload.ImportAccounting | src/main/java/com/ali/controller/FileUploadController.java:105-181 | every data line is imported or rejected, and the errors are the rejections plus the status warnings |
| FileUpload.DataLines | src/main/java/com/ali/controller/FileUploadController.java:90-91 | everything after the header line |
| FileUpload.WrittenTotalOvercounts | src/main/java/com/ali/controller/FileUploadController.java:189 | as written, the total counts each line with a bad status twice |
| FileUpload.StatusTypoCountedTwice | src/main/java/com/ali/controller/FileUploadController.java:164-189 | a file with one data line whose status names no constant reports a total of 2 |
| FileUpload.CsvImport.constructor | src/main/java/com/ali/controller/FileUploadController.java:85-95 | the loop starts at line 1 with no successes, errors or articles |
| FileUpload.CsvImport.Record | src/main/java/com/ali/controller/FileUploadController.java:105-181 | a rejection adds its error; an import adds its warning if any, hands the article over and counts a success |
| FileUpload.CsvImport.ProcessLines | src/main/java/com/ali/controller/FileUploadController.java:94-182 | after the loop the counter is the last line's number and the errors, articles and success count are those of all data lines in order |
| FileUpload.UploadCsv | src/main/java/com/ali/controller/FileUploadController.java:55-200 | an empty file, then a name not ending ".csv", is refused with its message; otherwise every data line is processed and the successes plus the rejections make up the total, which is the number of data lines |
| FileUpload.LastIndexOf | src/main/java/com/ali/controller/FileUploadController.java:312 | the index of the last occurrence, none exactly when absent |
| FileUpload.FileExtension | src/main/java/com/ali/controller/FileUploadController.java:311-313 | the name's suffix from its last '.', holding no other '.'; ".jpg" for a missing name or one without a '.' |
| FileUpload.UploadImage | src/main/java/com/ali/controller/FileUploadController.java:284-332 | an empty file, then a content type not starting "image/", is refused; a stored image is named by the fresh id plus the extension and served from the images route |
| FileUpload.StoredNameKeepsExtension | src/main/java/com/ali/controller/FileUploadController.java:311-315 | an image named base.ext is stored with extension .ext |
| FileUpload.PngIsNotJpeg | src/main/java/com/ali/controller/FileUploadController.java:399-402 | a ".png" name is served as image/png, not caught by the JPEG test |
| FileUpload.DetermineContentType | src/main/java/com/ali/controller/FileUploadController.java:398-412 | ".jpg"/".jpeg" give image/jpeg, and the octet-stream default applies exactly when no listed suffix matches |
| FileUpload.Segments | src/main/java/com/ali/controller/FileUploadController.java:425 | the path's name elements, none empty |
| FileUpload.Normalize | src/main/java/com/ali/controller/FileUploadController.java:429 | a normalised path has no "." or ".." element and is no longer than the original |
| FileUpload.NormalizeExtends | src/main/java/com/ali/controller/FileUploadController.java:429 | appending elements without ".." keeps the normalised base as a prefix |
| FileUpload.RelativeWithoutParentContained | src/main/java/com/ali/controller/FileUploadController.java:425-432 | a relative path with no ".." element always passes the containment check |
| FileUpload.ParentSegments | src/main/java/com/ali/controller/FileUploadController.java:420-425 | "../name" has the elements ".." and name |
| FileUpload.ParentOfBaseRefused | src/main/java/com/ali/controller/FileUploadController.java:425-432 | climbing out of a one-element upload directory is refused |
| ContentRepository.Ids | src/main/java/com/ali/repository/ArticleRepository.java:13 | every stored row's id is among the table's ids |
| ContentRepository.Find | src/main/java/com/ali/repository/ArticleRepository.java:13 | `findById` finds something exactly when the id is stored, and what it finds is stored under that id |
| ContentRepository.MaxId | src/main/java/com/ali/entity/Article.java:16-18 | no stored id exceeds it |
| ContentRepository.NextId | src/main/java/com/ali/entity/Article.java:16-18 | a generated id is never one already taken |
| ContentRepository.Replace | src/main/java/com/ali/repository/ArticleRepository.java:13 | saving a loaded entity keeps the table's size |
| ContentRepository.IdsAppend | src/main/java/com/ali/repository/ArticleRepository.java:13 | appending a row adds exactly its id |
| ContentRepository.IdsOwner | src/main/java/com/ali/repository/ArticleRepository.java:13 | every id present belongs to a stored row |
| ContentRepository.FilterIds | src/main/java/com/ali/repository/ArticleRepository.java:13 | deleting rows never introduces an id |
| ContentRepository.FilterKeepsDistinct | src/main/java/com/ali/repository/ArticleRepository.java:13 | deleting rows keeps the primary key unique |
| ContentRepository.AppendFound | src/main/java/com/ali/entity/Article.java:16-18 | a saved new entity is found under its generated id, other ids find what they found before, and keys stay unique |
| ContentRepository.AppendDistinct | src/main/java/com/ali/entity/Article.java:16-18 | appending a row with a fresh id keeps keys unique |
| ContentRepository.FindAppend | src/main/java/com/ali/repository/ArticleRepository.java:13 | a lookup after an append finds the old row first, else the new one |
| ContentRepository.ReplaceFound | src/main/java/com/ali/repository/ArticleRepository.java:13 | saving under an existing id makes that id find the new value, leaves other ids and the key set alone |
| ContentRepository.ReplaceKeepsIds | src/main/java/com/ali/repository/ArticleRepository.java:13 | saving under an id keeps every id and their uniqueness |
| ContentRepository.ReplaceFinds | src/main/java/com/ali/repository/ArticleRepository.java:13 | what each id finds after saving under an id |
| ContentRepository.ReplaceMembers | src/main/java/com/ali/repository/ArticleRepository.java:13 | every row after saving is the new row or an old one |
| ContentRepository.RemoveFound | src/main/java/com/ali/repository/ArticleRepository.java:13 | after `deleteById` the id is gone, other ids find what they found before and keys stay unique |
| ContentStore.Database.constructor | src/main/java/com/ali/entity/Article.java:32-37 | an empty store is consistent |
| ContentStore.AddArticleConsistent | src/main/java/com/ali/entity/Article.java:32-34 | a new article under an existing category keeps keys and links consistent |
| ContentStore.AddCategoryConsistent | src/main/java/com/ali/entity/Category.java:15-20 | a new category keeps the store consistent |
| ContentStore.AddCommentConsistent | src/main/java/com/ali/entity/Article.java:36-37 | a new comment on an existing article keeps the store consistent |
| ContentStore.ReplaceArticleConsistent | src/main/java/com/ali/entity/Article.java:32-34 | re-saving an article under an existing category keeps the store consistent |
| ContentStore.OverwriteArticleConsistent | src/main/java/com/ali/entity/Article.java:36-37 | merging an article with an empty comment list onto a stored one removes that article's comments and keeps the store consistent |
| ContentStore.ReplaceCategoryConsistent | src/main/java/com/ali/entity/Category.java:15-20 | re-saving a category keeps the store consistent |
| ContentStore.ReplaceCommentConsistent | src/main/java/com/ali/entity/Article.java:36-37 | re-saving a comment on an existing article keeps the store consistent |
| ContentStore.DeleteArticleConsistent | src/main/java/com/ali/entity/Article.java:36-37 | deleting an article with its comments (the cascade) keeps the store consistent and leaves no comment on it |
| ContentStore.DeleteCategoryConsistent | src/main/java/com/ali/entity/Category.java:22-23 | deleting a category with its articles and their comments keeps the store consistent and leaves nothing filed under it |
| Entities.FirstIndex | src/main/java/com/ali/entity/Article.java:68-69 | the position of the first occurrence: it holds the element and none before it does |
| Entities.RemoveFirst | src/main/java/com/ali/entity/Article.java:68-69 | `List.remove` of an absent element leaves the list as it was |
| Entities.RemoveFirstDropsFirst | src/main/java/com/ali/entity/Article.java:68-69 | `List.remove` drops exactly the first occurrence and keeps everything around it |
| Entities.RemoveAppended | src/main/java/com/ali/entity/Article.java:63-71 | removing what was just appended restores the list |
| Entities.RemoveKeepsSecondCopy | src/main/java/com/ali/entity/Article.java:68-69 | a list holding an element twice still holds it after one removal |
| Entities.CommentEntity.constructor | src/main/java/com/ali/entity/Article.java:36-37 | a new comment belongs to no article |
| Entities.ArticleEntity.constructor | src/main/java/com/ali/entity/Article.java:37-53 | a new article is a draft with no comments and no category |
| Entities.ArticleEntity.AddComment | src/main/java/com/ali/entity/Article.java:63-66 | the comment is appended and points back to the article; nothing else changes |
| Entities.ArticleEntity.RemoveComment | src/main/java/com/ali/entity/Article.java:68-71 | the comment's first occurrence goes and it points to no article |
| Entities.CategoryEntity.constructor | src/main/java/com/ali/entity/Category.java:22-23 | a new category has no articles |
| Entities.CategoryEntity.AddArticle | src/main/java/com/ali/entity/Category.java:57-60 | the article is appended and points back to the category; the article's title, status and comments and the category's title are unchanged |
| Entities.CategoryEntity.RemoveArticle | src/main/java/com/ali/entity/Category.java:62-65 | the article's first occurrence goes and it points to no category; the article's title, status and comments and the category's title are unchanged |
| Entities.AddThenRemoveComment | src/main/java/com/ali/entity/Article.java:63-71 | adding a new comment and removing it leaves the article's list as it was |
| Entities.AddThenRemoveArticle | src/main/java/com/ali/entity/Category.java:57-65 | adding a new article and removing it leaves the category's list as it was |
| ArticleService.ArticlesTitled | src/main/java/com/ali/service/impl/ArticleServiceImpl.java:40-50 | every article for a null title; otherwise exactly the articles whose title contains it, ignoring case |
| ArticleService.SearchIgnoresCase | src/main/java/com/ali/service/impl/ArticleServiceImpl.java:47 | upper- or lower-casing the query does not change the result |
| ArticleService.EmptySearchListsAll | src/main/java/com/ali/service/impl/ArticleServiceImpl.java:47 | an empty query lists every article |
| ArticleService.NewArticle | src/main/java/com/ali/service/impl/ArticleServiceImpl.java:78-104 | blank title, then blank content, then missing category id fail in that order; the article is built exactly when the category exists, with the given fields and PUBLISHED for a missing status (where it is stored is decided by CreateArticle) |
| ArticleService.UnknownCategoryNamed | src/main/java/com/ali/service/impl/ArticleServiceImpl.java:100-103 | an unknown category is reported with its id |
| ArticleService.CreateArticle | src/main/java/com/ali/service/impl/ArticleServiceImpl.java:71-121 | a failed check saves nothing; a request id naming a stored article overwrites that article and removes its comments; otherwise the article is appended under a fresh id; it is found under the id returned and the store stays consistent |
| ArticleService.MergeKeepsCategoryLink | src/main/java/com/ali/service/impl/ArticleServiceImpl.java:155-167 | the merge never points an article at a missing category, and an unknown one keeps the stored category |
| ArticleService.MergeIdempotent | src/main/java/com/ali/service/impl/ArticleServiceImpl.java:137-167 | applying the same update twice equals applying it once |
| ArticleService.MergeOwnFieldsUnchanged | src/main/java/com/ali/service/impl/ArticleServiceImpl.java:137-167 | an update carrying the article's own fields changes nothing |
| ArticleService.EmptyUpdateClearsImage | src/main/java/com/ali/service/impl/ArticleServiceImpl.java:137-150 | an update that sets nothing keeps every field but clears the image path |
| ArticleService.UpdateArticle | src/main/java/com/ali/service/impl/ArticleServiceImpl.java:123-182 | a missing id gives null and changes nothing; otherwise the merged article replaces the stored one under the same id, comments and categories stay, and the store stays consistent |
| ArticleService.ExistsById | src/main/java/com/ali/service/impl/ArticleServiceImpl.java:249-255 | a null id is never present; otherwise exactly when the article is stored |
| ArticleService.DeleteArticle | src/main/java/com/ali/service/impl/ArticleServiceImpl.java:184-200 | a missing id fails and changes nothing; otherwise the article and exactly its comments are removed, and the store stays consistent |
| ArticleController.CreateGate | src/main/java/com/ali/controller/ArticleManagementController.java:39-56 | passes exactly when the title and content are not blank and a category id is given |
| ArticleController.GateLeavesOnlyUnknownCategory | src/main/java/com/ali/controller/ArticleManagementController.java:39-63 | past the controller's checks the service can fail only on an unknown category, which it names |
| ArticleController.TextViolation | src/main/java/com/ali/dto/ArticleDTO.java:17-23 | a `@NotEmpty @Size(max)` text fails exactly when null, empty or too long, with the empty message for the first two and the size message otherwise |
| ArticleController.Violations | src/main/java/com/ali/dto/ArticleDTO.java:14-23 | the errors map names exactly the failing fields among categoryId (null), title (null, empty or over 255) and content (null, empty or over 4000), each with its annotation's message |
| ArticleController.ValidBodyComplete | src/main/java/com/ali/dto/ArticleDTO.java:14-23 | a body that passes validation has a category id and a non-empty title and content within their sizes |
| ArticleController.GateAfterValidation | src/main/java/com/ali/controller/ArticleManagementController.java:39-56 | behind validation, the controller's own checks refuse only whitespace titles or contents, never a missing category id |
| ArticleController.ValidUpdateOverwritesText | src/main/java/com/ali/controller/ArticleManagementController.java:145 | behind validation an update always overwrites the stored title and content |
| ArticleController.CreateArticle | src/main/java/com/ali/controller/ArticleManagementController.java:33-73 | 400 with the field-to-message map when bean validation fails, before anything else; then 400 with the first failed check of its own, 500 with the service's message, or 201 with the saved article, appended under a fresh id or, for a request id naming a stored article, overwriting it and its comments removed |
| ArticleController.GetArticle | src/main/java/com/ali/controller/ArticleManagementController.java:97-130 | 200 with the stored article exactly when it exists; otherwise 404 naming the id |
| ArticleController.UpdateKeepsStoredImage | src/main/java/com/ali/controller/ArticleManagementController.java:150-162 | an update without an image path keeps the stored path |
| ArticleController.UpdateTakesGivenImage | src/main/java/com/ali/controller/ArticleManagementController.java:150-152 | a non-empty image path in the request always wins |
| ArticleController.UpdateArticle | src/main/java/com/ali/controller/ArticleManagementController.java:144-175 | 400 with the field-to-message map and no change when bean validation fails; otherwise 404 "Article not found" and no change for a missing id, or 200 with the merged article, the stored image kept when none is sent |
| ArticleController.DeleteArticle | src/main/java/com/ali/controller/ArticleManagementController.java:177-187 | 204 exactly when the article existed, which is then removed with its comments; otherwise 500 with the service's "No article entity with id" message and no change; categories never change; either way it no longer exists |
| ArticleController.ParseSort | src/main/java/com/ali/controller/ArticleManagementController.java:211-217 | fails exactly when the parameter splits into nothing; the field is the first piece, ascending exactly when a second piece equals "asc" ignoring case |
| ArticleController.SortFieldBeforeFirstComma | src/main/java/com/ali/controller/ArticleManagementController.java:212-213 | the sort field is the text before the first comma |
| ArticleController.BareFieldSortsDescending | src/main/java/com/ali/controller/ArticleManagementController.java:212-215 | a comma-free parameter sorts by itself, descending |
| ArticleController.JavaSplitPair | src/main/java/com/ali/controller/ArticleManagementController.java:212 | two comma-free pieces joined by a comma split back into them |
| ArticleController.SortRoundTrip | src/main/java/com/ali/controller/ArticleManagementController.java:211-217 | parsing the "field,direction" string the client builds recovers the field and direction |
| ArticleController.DefaultSortIsIdDescending | src/main/java/com/ali/controller/ArticleManagementController.java:206-217 | the default "id,desc" sorts by id, descending |
| ArticleController.UpdateArticleWithImage | src/main/java/com/ali/controller/ArticleManagementController.java:290-321 | 404 and no change for a missing id; otherwise only the image path is replaced, a missing path clearing it, and the id, title and path are returned |
| CategoryService.CreateCategory | src/main/java/com/ali/service/impl/CategoryServiceImpl.java:29-44 | fails exactly for a null or blank title and then saves nothing; otherwise the title, untrimmed, is saved under a fresh id |
| CategoryService.UpdateCategory | src/main/java/com/ali/service/impl/CategoryServiceImpl.java:61-73 | a missing id gives null and no change; a null title fails on the not-null column; otherwise the title is replaced, with no blank check, and found under the id |
| CategoryService.DeleteCategory | src/main/java/com/ali/service/impl/CategoryServiceImpl.java:75-80 | a missing id fails and changes nothing; otherwise the category, its articles and their comments go, leaving nothing filed under it |
| CategoryService.FirstNamed | src/main/java/com/ali/service/impl/CategoryServiceImpl.java:107-110 | the first category whose trimmed title equals the trimmed name ignoring case; none exactly when no category matches |
| CategoryService.TrimmedNameMatches | src/main/java/com/ali/service/impl/CategoryServiceImpl.java:109-120 | a category titled with the trimmed name matches that name |
| CategoryService.FirstNamedAppend | src/main/java/com/ali/service/impl/CategoryServiceImpl.java:107-121 | a matching category appended to a table without a match is the one found |
| CategoryService.FoundAfterFindByName | src/main/java/com/ali/service/impl/CategoryServiceImpl.java:103-124 | after a find-or-create the name is always found |
| CategoryService.FindByNameIdempotent | src/main/java/com/ali/service/impl/CategoryServiceImpl.java:103-124 | a second find-or-create with the same name creates nothing |
| CategoryService.AlikeNamesFindAlike | src/main/java/com/ali/service/impl/CategoryServiceImpl.java:109 | names differing only in case or surrounding white space find the same category |
| CategoryService.FindByName | src/main/java/com/ali/service/impl/CategoryServiceImpl.java:101-124 | the first matching category, unchanged table; otherwise a new category titled with the trimmed name, which the name then finds |
| CategoryController.CreateCategory | src/main/java/com/ali/controller/CategoryManagementController.java:30-40 | 201 with the saved category exactly when the title is not blank; otherwise 500 with the service's message and no change |
| CategoryController.GetCategory | src/main/java/com/ali/controller/CategoryManagementController.java:54-65 | 200 with the stored category exactly when the id exists; otherwise 404 |
| CategoryController.UpdateCategory | src/main/java/com/ali/controller/CategoryManagementController.java:68-79 | 404 for a missing id, 500 for a null title, otherwise 200 with the category under its new title |
| CategoryController.DeleteCategory | src/main/java/com/ali/controller/CategoryManagementController.java:82-90 | 204 exactly when the category existed, removed with its cascade; otherwise 500 and no change |
| CommentService.NewComment | src/main/java/com/ali/service/impl/CommentServiceImpl.java:35-51 | blank text, then a missing article id, then an unknown article fail in that order; otherwise a comment with the given text on the named article (where it is stored is decided by CreateComment) |
| CommentService.CreateComment | src/main/java/com/ali/service/impl/CommentServiceImpl.java:32-57 | a failed check saves nothing; a request id naming a stored comment overwrites it; otherwise the comment is appended under a fresh id; either way it belongs to an existing article, is found under the id returned, and the store stays consistent |
| CommentService.GetCommentById | src/main/java/com/ali/service/impl/CommentServiceImpl.java:59-66 | null exactly for a missing id; otherwise the stored comment, which belongs to an existing article |
| CommentService.Updated | src/main/java/com/ali/service/impl/CommentServiceImpl.java:100-111 | the text is overwritten, null included, and the article changes only to a named article that exists |
| CommentService.UpdateIdempotent | src/main/java/com/ali/service/impl/CommentServiceImpl.java:100-111 | applying the same update twice equals applying it once |
| CommentService.UpdateComment | src/main/java/com/ali/service/impl/CommentServiceImpl.java:92-116 | null exactly for a missing id, with no change; otherwise the updated comment replaces the stored one under its id and the store stays consistent |
| AdminUsers.UserTable.constructor | src/main/java/com/ali/controller/AdminUserController.java:40 | the table holds the given users, one row per id |
| AdminUsers.GetAllUsers | src/main/java/com/ali/controller/AdminUserController.java:37-43 | 200 with every user in table order, each with its password nulled and nothing else changed |
| AdminUsers.RoleName | src/main/java/com/ali/controller/AdminUserController.java:68-76 | a role object gives its name, a string naming a role constant gives itself; anything else fails |
| AdminUsers.ResolveRoles | src/main/java/com/ali/controller/AdminUserController.java:56-59 | resolves exactly when every request role maps to a row of the role table; the names come from the table and include every request role's; a failure is one a request role raises |
| AdminUsers.ResolvedNamesRequested | src/main/java/com/ali/controller/AdminUserController.java:56-59 | every resolved role name comes from one of the request's roles |
| AdminUsers.NewRoles | src/main/java/com/ali/controller/AdminUserController.java:56 | a null role list fails before any lookup; otherwise the roles resolve as the stream does |
| AdminUsers.UpdateUser | src/main/java/com/ali/controller/AdminUserController.java:45-66 | 404 for a missing id; a role failure gives 500 with nothing saved; otherwise username, email, roles, MFA flag and active flag come from the request, the rest is kept, and the reply has no password |
| AdminUsers.ReactivateUser | src/main/java/com/ali/controller/AdminUserController.java:78-106 | 404 for a missing id; otherwise the account is active again with its creation time reset to now, and the reply has no password |
| AdminUsers.DeleteUser | src/main/java/com/ali/controller/AdminUserController.java:108-125 | 404 for a missing id; otherwise the row stays and the account becomes inactive |
| AdminUsers.BelowTotal | src/main/java/com/ali/controller/AdminUserController.java:165 | two different dates are ordered one way or the other |
| AdminUsers.BelowIrreflexive | src/main/java/com/ali/controller/AdminUserController.java:165 | no date sorts before itself |
| AdminUsers.BelowTransitive | src/main/java/com/ali/controller/AdminUserController.java:165 | the date order is transitive |
| AdminUsers.TallyCounts | src/main/java/com/ali/controller/AdminUserController.java:143-153 | the map holds exactly the days someone was created on, each with the number of users created that day |
| AdminUsers.DatesOwner | src/main/java/com/ali/controller/AdminUserController.java:157-162 | every listed day belongs to an entry |
| AdminUsers.DatesAppend | src/main/java/com/ali/controller/AdminUserController.java:157-162 | adding an entry adds its day, and a new day keeps the days distinct |
| AdminUsers.Insert | src/main/java/com/ali/controller/AdminUserController.java:165 | inserting adds exactly one entry, at the front or behind the first |
| AdminUsers.InsertMembers | src/main/java/com/ali/controller/AdminUserController.java:165 | inserting keeps every entry and adds the new one |
| AdminUsers.InsertAscending | src/main/java/com/ali/controller/AdminUserController.java:165 | inserting a new day into ascending entries keeps them ascending |
| AdminUsers.SortedByDateSorts | src/main/java/com/ali/controller/AdminUserController.java:165 | sorting by date is a permutation that leaves distinct days strictly ascending |
| AdminUsers.DatesOfMembers | src/main/java/com/ali/controller/AdminUserController.java:165 | entries with the same members list the same days |
| AdminUsers.AscendingDistinct | src/main/java/com/ali/controller/AdminUserController.java:165 | strictly ascending entries have distinct days, the first below all the rest |
| AdminUsers.ReplyFromTally | src/main/java/com/ali/controller/AdminUserController.java:155-165 | the tally's entries sorted by date list each creation day once, in order, with its count |
| AdminUsers.RegistrationsPerDay | src/main/java/com/ali/controller/AdminUserController.java:141-168 | the reply lists, in ascending date order and once each, exactly the days someone was created on, each with the number of users created that day |
| EmailConverter.EncryptedIffBase64 | src/main/java/com/ali/converter/EmailConverter.java:106-109 | the "already encrypted" test holds exactly for nonempty Base64-alphabet text; its '@' test is implied |
| EmailConverter.ToColumn | src/main/java/com/ali/converter/EmailConverter.java:36-58 | null stays null; disabled or already-encrypted values are written as they are; a value is changed only when it is nonempty, not encrypted-looking, and then to the cipher's output; a cipher failure keeps the value |
| EmailConverter.FromColumn | src/main/java/com/ali/converter/EmailConverter.java:68-98 | null stays null; disabled or values with '@' are read as they are; a stored value is replaced only by a decryption that holds '@' |
| EmailConverter.Base64HasNoAt | src/main/java/com/ali/converter/EmailConverter.java:106-109 | Base64 text never contains '@' |
| EmailConverter.AddressRoundTrip | src/main/java/com/ali/converter/EmailConverter.java:36-98 | with a working cipher, an address written and read back is the same address, enabled or not, cipher failing or not |
| EmailConverter.PlainTextReadsBackCiphertext | src/main/java/com/ali/converter/EmailConverter.java:36-98 | a value without '@' that is not Base64-shaped is stored as its ciphertext and read back as that ciphertext, not as itself |
| EmailConverter.WriteIdempotent | src/main/java/com/ali/converter/EmailConverter.java:36-58 | converting an already converted value changes nothing (no double encryption) |
| EncryptionUtil.KeyOf | src/main/java/com/ali/util/EncryptionUtil.java:84-91 | the key is 32 bytes: the key text's first min(len, 32) bytes, then zeros |
| EncryptionUtil.GenerateKey | src/main/java/com/ali/util/EncryptionUtil.java:84-91 | the fresh buffer holds exactly the 32-byte key |
| EncryptionUtil.KeyIgnoresTail | src/main/java/com/ali/util/EncryptionUtil.java:86-89 | key texts agreeing on their first 32 bytes give the same key |
| EncryptionUtil.ZeroPaddingCollides | src/main/java/com/ali/util/EncryptionUtil.java:86-89 | a short key text and the same text with a trailing zero byte give the same key |
| EncryptionUtil.Encrypt | src/main/java/com/ali/util/EncryptionUtil.java:32-46 | null, empty or disabled values come back unchanged; otherwise the result is the cipher's output, and an error exactly when the cipher fails |
| EncryptionUtil.Decrypt | src/main/java/com/ali/util/EncryptionUtil.java:54-77 | null stays null; the value changes only when it is nonempty, enabled and without '@', and then to the deciphered text |
| EncryptionUtil.DecryptUsesDecipher | src/main/java/com/ali/util/EncryptionUtil.java:54-77 | a nonempty '@'-free value with encryption enabled is replaced by its deciphered text whenever deciphering succeeds |
| LogController.Matching | src/main/java/com/ali/controller/LogController.java:23-25 | the kept lines are exactly the lines of the file that mention the service class or "article" |
| LogController.LastAtMost | src/main/java/com/ali/controller/LogController.java:26-28 | the result is the last min(n, size) elements of the list |
| LogController.ArticleLogs | src/main/java/com/ali/controller/LogController.java:19-29 | the reply is the last fifty (or fewer) matching lines, in file order, each a line of the file that mentions articles |
| LogController.FewMatchesAllReturned | src/main/java/com/ali/controller/LogController.java:26-28 | with at most fifty matching lines, all of them are returned |
| LogController.LowerKeepsContains | src/main/java/com/ali/controller/LogController.java:24 | lower-casing keeps an occurrence of a substring, lower-cased |
| LogController.ContainsPrefixOf | src/main/java/com/ali/controller/LogController.java:24 | a string containing u contains every prefix of u |
| LogController.MentionsArticleIgnoringCase | src/main/java/com/ali/controller/LogController.java:24 | the filter keeps a line exactly when its lower-case form contains "article": the class-name test is subsumed |

## Left out

- React rendering, MUI styling, timers, snackbars and `window.location` navigation: UI, not logic. Navigation targets are returned as values.
- HTTP transport: every request's reply (or rejection) is a parameter. The refetches that follow a save or a delete are not modelled.
- File-system I/O: reading `logs/app.log`, storing uploaded files and checking that a served file exists and is readable. The lines read, and whether the file exists, are inputs.
- JWT signing and parsing, TOTP verification, QR image generation, the AES cipher, UTF-8 and Base64 encoding, and DOMPurify are uninterpreted function parameters.
- UUID file names and random like counts are nondeterministic and are left out. The UUID is a parameter.
- Time is the parameter `now`. Expiry uses jjwt's convention that a token is live while `now <= exp`.
- Case mapping (`toLowerCase`, `toUpperCase`, `equalsIgnoreCase`) is ASCII only. Unicode case folding is not modelled.
- Concurrency (the `ConcurrentHashMap` of failed logins, double submissions) is modelled sequentially.
- Floating-point output (dashboard percentages, upload progress) and locale date formatting are not modelled.
- User.java, Comment.java, StatusEnum.java, ERole.java and Role.java are not part of this model beyond the fields the core reads.
- UserTokenRepository.UserTokenRepo.FindByToken: takes the first matching row. Spring would throw on duplicate tokens, and the model does not assume tokens are unique.
- Repository `findAll` order is insertion order. Paging (`PageRequest`) and `Sort.by` with a blank property are not modelled. Image URLs, timestamps and generated ids are kept only where a contract speaks of them.
- Repository `deleteById` on a missing id is an error ("No article entity with id ..."). Spring's full exception text is not reproduced.
- FileUpload.CsvImport.ProcessLines: the line-processing body is passed as a function value. The `createCategory`/`createArticle` calls inside it are taken to succeed, so the store is not updated by the CSV import.
- Passwords are cleared in replies only. The stored hash is not modelled.
- AdminUsers.RegistrationsPerDay: only the fallback grouping is modelled. The repository-query branch is left out, and role-lookup errors are kept as structured values rather than exception texts.
- AdminUsers.UpdateUser: field setters applied before a failing role lookup are not flushed to the store. The source relies on the transaction rolling back.
- CategoryService: the `TITLE_NULL` error text stands for Hibernate's exception message, which is not reproduced.
- ArticleList: the random like counts and the stability of the JavaScript sort for equal keys are not modelled.
- ArticleDetail: the browser-storage liked map is modelled as the set of liked article ids. Its JSON encoding and the `true` values are not modelled.
- Profile: `handle2FAToggle`, `handleOpenQRDialog` and `handleDisable2FA` are not modelled. They only open dialogs and forward requests.
- AdminDashboard: `mostPopularArticles` is left out, since it ranks random like counts. For `recentActivity` the articles sorted newest first are an input: the sort by `new Date(createDateTime)` is not modelled.
- AuthController: `register`, `setup-admin`, the debug direct login and `verify2FA` are not modelled. They only delegate to other services.
- CommentService and CategoryService: `getAllCategoryList`, `getCommentsByArticleId`, `getAllComments`, `deleteComment` and the delete-all operations are not modelled. They are plain repository reads or deletes.
- ArticleService: `getArticleListByCategoryId`, `deleteAllArticles` and `debugArticle` are not modelled. They are plain repository reads or deletes, or logging.
- FileUploadController: the `csv-test` and `test` endpoints only echo their input and are left out.
- JwtBlacklistService: the scheduled cleanup is the same operation as `cleanupExpiredTokens`. Its cron trigger is not modelled.
- TokenController: `getAllActiveSessions` is a placeholder in the source and is left out.
- ApiClient.Pathname: cuts the URL text after the authority. It does not model what `new URL(..).pathname` also does: removing "." and ".." segments, percent-encoding characters such as spaces, and reading '\\' as '/' for special schemes. Nor does it model how the parser reads the authority: an empty host after "http://" (where extra slashes are skipped), '\\' ending the authority, and hosts or ports the constructor refuses, which make it throw. RewriteStripsOrigin is therefore stated only for `http`/`https`, a plain dotted host name with an optional port up to 65535, and a path none of these change; labels starting "xn--" that are not valid Punycode are not excluded.
- ApiClient.Coerced: `parseInt` returns a double, so a digit run beyond 2^53 in magnitude becomes the nearest double, while Common.ParseInt keeps the exact integer; CoercedDecimalText is stated only up to 2^53.
- ArticleForm.SubmittedCategoryId: the same rounding of `parseInt` beyond 2^53 is not modelled.
- ApiClient.RewriteUploadUrl: inherits the missing URL normalisation of Pathname for addresses containing 'http'.
- ArticleForm.ContentLimit: `|s|` counts Unicode scalar values, while JavaScript's `length` counts UTF-16 code units, so content with characters outside the Basic Multilingual Plane is measured shorter than in the source.
- ArticleForm.FormErrors: the 4000-character limit is counted in scalar values, not UTF-16 code units.
- ArticleForm.ValidFormShape: the same counting gap as FormErrors.
- ArticleList.Initials: the first scalar value is taken where `charAt(0)` takes the first UTF-16 code unit, which for an emoji is half a surrogate pair.
- FormatUtils.MaskEmail: `substring` and `length` are modelled on scalar values, not UTF-16 code units.
- FormatUtils.ObfuscateText: the same counting gap as MaskEmail.
- ArticleController.Violations: `@Size` counts Java `String.length()`, which is UTF-16 code units; the model counts scalar values. The `timestamp` and `status` entries of the validation reply are not modelled.
- CategoryController.CreateCategory: the endpoint validates a `@Valid CategoryDTO`. CategoryDTO.java is not part of this model, so whatever constraints it declares are not checked before the controller runs.
- CategoryController.UpdateCategory: the same unmodelled `@Valid CategoryDTO` step as CreateCategory.
- AppRoutes.AppShell: only the admin-menu test reads the shell's user record. The header, avatar and drawer entries that also read it are rendering and are not modelled.
- AuthController.LogoutReply: the catch-all handler's reply also carries `timestamp` and `details`; only the status and message are modelled.
- TokenController.TokenControllerImpl.InvalidateOtherSessions: the 401 body comes from AuthEntryPointJwt.java, which is not part of this model, so only the status is stated. AuthTokenFilter.java is not part of this model either, so whether a header not starting with "Bearer " passes the security chain is not modelled: the handler's own 400 is stated. The 500 reply's `details` (the exception's message) and `timestamp` are not modelled.
- ArticleService.CreateArticle: a request id naming no stored row is modelled as an insert under a fresh id, which is what the merge of Hibernate 5 does; the creation and update timestamps of a merged row are not modelled.
- CommentService.CreateComment: the same merge of a request id as ArticleService.CreateArticle.

## Findings

| source | as written | input that shows it | evidently intended | confidence | as-written member | corrected member |
|---|---|---|---|---|---|---|
| blog-frontend/src/utils/ExportUtils.js:125 | column titles are wrapped in quotes without doubling the quotes inside them, unlike the data cells | a column titled `a"b` exports the header `"a"b"`, which does not read back as CSV | titles escaped like the cells, so every export reads back as titles and values | not executed | ExportUtils.QuotedTitleBreaksHeader | ExportUtils.CsvContentEscapedHeaderReadsBack |
| blog-frontend/src/components/user/Profile.js:194 | a successful verification closes `showQRDialog`, but the dialog on screen (line 586) is bound to `open2FADialog` | an open dialog and the reply "2FA enabled": the dialog stays open | the dialog on screen closes after a successful verification | not executed | Profile.VerifiedDialogStaysOpen | Profile.ProfileState.HandleVerify2FAClosing |
| src/main/java/com/ali/controller/FileUploadController.java:189 | `totalCount` is `successCount + errors.size()`, and a line with an unknown status is both imported and listed as an error | a header and the line `0,T,X,C`, with the status constants DRAFT and PUBLISHED, report a total of 2 for one data line | `totalCount` is the number of data lines | not executed | FileUpload.WrittenTotalOvercounts | FileUpload.UploadCsv |
