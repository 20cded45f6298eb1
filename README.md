# Blogger core, modelled in Dafny

Blogger is an Android blogging client. Most of it is UI. This project models the
parts that hold logic:

- **Date reformatting.** `formatDateTime` (`date_format.dfy`) is java.time's strict
  parse of `yyyy-MM-dd'T'HH:mm:ss.SSS'Z'`, its SMART resolution, and the
  `dd/MM/yyyy HH:mm` printer. The model covers both year layouts, day clamping and
  `24:00`.
- **Local tables.** The likes table (`like_dao.dfy`), the draft table
  (`draft_dao.dfy`) and the post cache (`cached_posts.dfy`) are classes over a map or
  an ordered sequence of rows. Each DAO statement is one atomic update.
- **Record mappings.** `PostRecord.toPost` is in `posts.dfy`. The cache's
  entity/post mappers are in `cached_posts.dfy`.
- **Feed sync worker.** `SyncFeedWorker.doWork` (`sync_feed_worker.dfy`): fetch,
  clear the cache, refill it, and report the outcome.
- **Signed-in user record.** The record in the user data store and its following list
  (`user_data_store.dfy`).
- **Screen state holders.** The view models of the add-post, search and settings
  screens (`add_post.dfy`, `search_screen.dfy`, `settings_screen.dfy`). Each is a
  class whose methods are the event handlers.

Remote calls, database faults, the clock and navigation are inputs and outputs of
the methods:

- A remote call's outcome is a parameter (`Fetch`, `NetworkResult`).
- An IOException is a fault parameter (`fault`, `insertFault`, `ioFault`).
- The clock's values are parameters (`postedOn`, `postedAt`).
- A navigation or an emitted message is a returned value (`navigateBack`, `event`,
  `notifications`, `effects`).

Every coroutine launch is one atomic step. The search screen's job and delayed reset
are the exception. They are separate steps (`OnSearchResponse`, `OnFoundResetFires`),
so cancellation and stale responses are visible.

## Model

| member | source | states |
|---|---|---|
| DateFormat.FormatDateTime | app/src/main/java/com/peterchege/blogger/core/util/utilities.kt:26-32 | every accepted text prints in the shape `dd/MM/yyyy HH:mm` (two-digit day, month, hour and minute; four-digit year, or '+' and more digits from year 10000 on); every failure is the one parse exception |
| DateFormat.FormatIsShaped | app/src/main/java/com/peterchege/blogger/core/util/utilities.kt:30 | the printer always yields the `dd/MM/yyyy HH:mm` shape for a valid date-time |
| DateFormat.Resolve | app/src/main/java/com/peterchege/blogger/core/util/utilities.kt:28 | resolution only yields real date-times (month 1..12, day within the month, hour 0..23, minute and second 0..59, year 1..999999999) |
| DateFormat.ParsesExactlyLayouts | app/src/main/java/com/peterchege/blogger/core/util/utilities.kt:27-28 | parsing and resolving together reject every text outside the 24-character layout and the '+'-signed layout with 5 to 19 year digits (a '-'-signed year, which java.time reads and then rejects in resolution, is rejected here when parsing) |
| DateFormat.RejectsOtherShapes | app/src/main/java/com/peterchege/blogger/core/util/utilities.kt:27-28 | any text of neither layout is rejected by the exception; there is no fallback value |
| DateFormat.AcceptsExactly | app/src/main/java/com/peterchege/blogger/core/util/utilities.kt:27-28 | a text of the usual layout is accepted iff year >= 1, month 1..12, day 1..31, minute <= 59, and either hour <= 23 with second <= 59 or exactly 24:00:00.000 |
| DateFormat.ReordersFields | app/src/main/java/com/peterchege/blogger/core/util/utilities.kt:28-30 | on a real calendar date before 24:00 the output is the input's own day, month, year, hour and minute digits in the new order: no zone shift, seconds and fraction dropped |
| DateFormat.ClampsDay | app/src/main/java/com/peterchege/blogger/core/util/utilities.kt:28 | a day past its month's end (up to 31) prints as the month's last day |
| DateFormat.EndOfDayRollsOver | app/src/main/java/com/peterchege/blogger/core/util/utilities.kt:28-30 | `24:00:00.000` prints as 00:00 on the next calendar day |
| DateFormat.SignedYearPrinted | app/src/main/java/com/peterchege/blogger/core/util/utilities.kt:27-30 | for an accepted '+'-signed text before 24:00, the year read is the value of its digits, and it prints as '+' and its decimal digits from 10000 on, or as four zero-padded digits below that |
| DateFormat.PrintedYearOfText | app/src/main/java/com/peterchege/blogger/core/util/utilities.kt:28-30 | for any accepted text before 24:00, in either layout, the output's year field is the parsed year: '+' and its decimal digits from 10000 on, four zero-padded digits below |
| DateFormat.IgnoresSecondsAndFraction | app/src/main/java/com/peterchege/blogger/core/util/utilities.kt:30 | two accepted texts differing only in seconds and milliseconds give the same output |
| Posts.ToPost | app/src/main/java/com/peterchege/blogger/room/entities/PostRecord.kt:35-47 | `_id` becomes the id; title, body, author, postedAt and postedOn are copied; `ImageUrl` becomes imageUrl; the three trailing lists are empty |
| Posts.ToPostInjective | app/src/main/java/com/peterchege/blogger/room/entities/PostRecord.kt:35-47 | no column is lost: distinct rows map to distinct posts |
| LikeDao.Replace | app/src/main/java/com/peterchege/blogger/core/room/dao/LikeDao.kt:30-31 | REPLACE insert: the key now holds the new row, the key set gains it, every other row stays |
| LikeDao.ReplaceAllLastWins | app/src/main/java/com/peterchege/blogger/core/room/dao/LikeDao.kt:27-28 | after a list insert each key holds the last element written with it; a key not mentioned keeps its old row or stays absent |
| LikeDao.ReplaceAllKeyed | app/src/main/java/com/peterchege/blogger/core/room/dao/LikeDao.kt:27-28 | a list insert keeps every row under its own key, so keys stay unique |
| LikeDao.WithoutPost | app/src/main/java/com/peterchege/blogger/core/room/dao/LikeDao.kt:36-37 | delete by post removes exactly the rows whose likepostId is that post; all others are unchanged |
| LikeDao.AllRows | app/src/main/java/com/peterchege/blogger/core/room/dao/LikeDao.kt:33-34 | a like is returned iff it is the row stored under its key |
| LikeDao.DeleteUndoesInsert | app/src/main/java/com/peterchege/blogger/core/room/dao/LikeDao.kt:30-37 | inserting a like and then deleting its post's likes equals deleting them without the insert, unless the insert overwrote another post's like |
| LikeDao.LikeTable.InsertLike | app/src/main/java/com/peterchege/blogger/core/room/dao/LikeDao.kt:30-31 | the table becomes the REPLACE of the like into the old table; keys stay unique |
| LikeDao.LikeTable.InsertLikes | app/src/main/java/com/peterchege/blogger/core/room/dao/LikeDao.kt:27-28 | the table becomes the element-by-element REPLACE of the list, in list order |
| LikeDao.LikeTable.GetAllLikes | app/src/main/java/com/peterchege/blogger/core/room/dao/LikeDao.kt:33-34 | every stored row, and nothing else |
| LikeDao.LikeTable.DeleteLike | app/src/main/java/com/peterchege/blogger/core/room/dao/LikeDao.kt:36-37 | the table loses exactly that post's likes; no row for the post remains |
| LikeDao.LikeTable.DeleteAllLikes | app/src/main/java/com/peterchege/blogger/core/room/dao/LikeDao.kt:39-40 | the table is empty whatever it held, so a repeat changes nothing |
| DraftDao.DraftById | app/src/main/java/com/peterchege/blogger/room/dao/DraftDao.kt:30-31 | a row comes back iff the id is stored, and it is the row of that id |
| DraftDao.DeleteUndoesInsert | app/src/main/java/com/peterchege/blogger/room/dao/DraftDao.kt:27-34 | inserting a draft under an unused id and deleting that id restores the table |
| DraftDao.InsertThenRead | app/src/main/java/com/peterchege/blogger/room/dao/DraftDao.kt:27-31 | after a REPLACE insert the draft reads back under its id, every other id reads as before, and ids stay unique |
| DraftDao.DraftTable.GetAllDrafts | app/src/main/java/com/peterchege/blogger/room/dao/DraftDao.kt:24-25 | a draft is returned iff it is the row stored under its id |
| DraftDao.DraftTable.InsertDraft | app/src/main/java/com/peterchege/blogger/room/dao/DraftDao.kt:27-28 | a draft with an existing id overwrites the old one; all other rows stay |
| DraftDao.DraftTable.GetDraftById | app/src/main/java/com/peterchege/blogger/room/dao/DraftDao.kt:30-31 | for a stored id, the row of that id |
| DraftDao.DraftTable.DeleteDraftById | app/src/main/java/com/peterchege/blogger/room/dao/DraftDao.kt:33-34 | only that id's row goes |
| DraftDao.DraftTable.DeleteAllDrafts | app/src/main/java/com/peterchege/blogger/room/dao/DraftDao.kt:36-37 | the table is empty whatever it held |
| CachedPosts.MappingRoundTrip | app/src/main/java/com/peterchege/blogger/data/local/posts/cache/CachedPostsDataSourceImpl.kt:37-45 | toCacheEntity and toExternalModel are inverse to each other |
| CachedPosts.ToCacheEntities | app/src/main/java/com/peterchege/blogger/data/local/posts/cache/CachedPostsDataSourceImpl.kt:36-38 | one row per post, in list order, each via toCacheEntity |
| CachedPosts.ToExternalModels | app/src/main/java/com/peterchege/blogger/data/local/posts/cache/CachedPostsDataSourceImpl.kt:50-53 | one post per row, count and order kept |
| CachedPosts.PostById | app/src/main/java/com/peterchege/blogger/data/local/posts/cache/CachedPostsDataSourceImpl.kt:43-46 | null iff no row has the id; otherwise a post with that id whose row is in the cache |
| CachedPosts.InsertThenGet | app/src/main/java/com/peterchege/blogger/data/local/posts/cache/CachedPostsDataSourceImpl.kt:34-46 | a post just inserted is what a lookup of its id returns |
| CachedPosts.UpsertAllFrom | app/src/main/java/com/peterchege/blogger/data/local/posts/cache/CachedPostsDataSourceImpl.kt:34-41 | after a list insert every row is an old row or an inserted one, so after a clear only inserted rows remain |
| CachedPosts.FillEmpty | app/src/main/java/com/peterchege/blogger/data/local/posts/cache/CachedPostsDataSourceImpl.kt:34-41 | inserting rows with distinct ids into an empty cache leaves exactly those rows, in order, and never a union with earlier contents |
| CachedPosts.ReplaceRoundTrip | app/src/main/java/com/peterchege/blogger/data/local/posts/cache/CachedPostsDataSourceImpl.kt:34-53 | writing posts with distinct ids into an empty cache reads back as the same list |
| CachedPosts.CachedPostsDataSource.InsertCachedPosts | app/src/main/java/com/peterchege/blogger/data/local/posts/cache/CachedPostsDataSourceImpl.kt:34-41 | one REPLACE insert per post, in list order (none for an empty list); an IOException at insert n leaves the first n written and reports failure |
| CachedPosts.CachedPostsDataSource.GetCachedPostById | app/src/main/java/com/peterchege/blogger/data/local/posts/cache/CachedPostsDataSourceImpl.kt:43-49 | null for an absent id, otherwise the mapped row of that id |
| CachedPosts.CachedPostsDataSource.GetCachedPosts | app/src/main/java/com/peterchege/blogger/data/local/posts/cache/CachedPostsDataSourceImpl.kt:50-53 | every row mapped, count and order kept |
| CachedPosts.CachedPostsDataSource.DeleteAllPostsFromCache | app/src/main/java/com/peterchege/blogger/data/local/posts/cache/CachedPostsDataSourceImpl.kt:55-59 | the cache is empty whatever it held, so a repeat changes nothing |
| SyncFeed.DoWork | app/src/main/java/com/peterchege/blogger/core/work/sync_feed/SyncFeedWorker.kt:49-65 | the result is never retry; a failed fetch (HTTP or IO) leaves the cache untouched and fails; a full insert succeeds with exactly the fetched rows; an insert fault fails with the cache cleared and partly refilled; a successful sync of posts with distinct ids leaves the cache reading back as the fetched list; "Syncing" comes first and "Failed to sync feed" on every failure |
| UserDataStore.IsLoggedIn | app/src/main/java/com/peterchege/blogger/core/datastore/repository/UserDataStoreRepository.kt:33-40 | false for no record; otherwise true iff the id is not empty |
| UserDataStore.WithoutFollowed | app/src/main/java/com/peterchege/blogger/core/datastore/repository/UserDataStoreRepository.kt:51-56 | an entry remains iff it was there and has another followedId |
| UserDataStore.WithoutFollowedCounts | app/src/main/java/com/peterchege/blogger/core/datastore/repository/UserDataStoreRepository.kt:54 | every occurrence of an entry with another id is kept, every one with that id is dropped |
| UserDataStore.WithoutFollowedAppend | app/src/main/java/com/peterchege/blogger/core/datastore/repository/UserDataStoreRepository.kt:54 | the filter distributes over concatenation, so the survivors keep their order |
| UserDataStore.RemoveUndoesAdd | app/src/main/java/com/peterchege/blogger/core/datastore/repository/UserDataStoreRepository.kt:44-56 | following an id not yet followed and then unfollowing it restores the list |
| UserDataStore.RemoveIdempotent | app/src/main/java/com/peterchege/blogger/core/datastore/repository/UserDataStoreRepository.kt:51-56 | unfollowing twice is unfollowing once |
| UserDataStore.UserDataStoreRepository.IsUserLoggedIn | app/src/main/java/com/peterchege/blogger/core/datastore/repository/UserDataStoreRepository.kt:33-40 | true iff a record is stored and its id is not empty |
| UserDataStore.UserDataStoreRepository.GetLoggedInUser | app/src/main/java/com/peterchege/blogger/core/datastore/repository/UserDataStoreRepository.kt:41-43 | the stored record, unchanged |
| UserDataStore.UserDataStoreRepository.AddUserFollowing | app/src/main/java/com/peterchege/blogger/core/datastore/repository/UserDataStoreRepository.kt:44-50 | appends the entry after all earlier ones, without de-duplicating; no record stays no record |
| UserDataStore.UserDataStoreRepository.RemoveUserFollowing | app/src/main/java/com/peterchege/blogger/core/datastore/repository/UserDataStoreRepository.kt:51-58 | the following list is filtered by followedId, other fields kept; no record stays no record |
| UserDataStore.UserDataStoreRepository.SetLoggedInUser | app/src/main/java/com/peterchege/blogger/core/datastore/repository/UserDataStoreRepository.kt:59-63 | the record is replaced wholesale |
| UserDataStore.UserDataStoreRepository.UnsetLoggedInUser | app/src/main/java/com/peterchege/blogger/core/datastore/repository/UserDataStoreRepository.kt:64-68 | no record remains, so nobody is signed in |
| SettingsScreen.SettingScreenUiState.ToggledSignOut | app/src/main/java/com/peterchege/blogger/presentation/screens/settings/SettingsScreenViewModel.kt:64-68 | the sign-out flag flips and the theme flag stays |
| SettingsScreen.SettingScreenUiState.ToggledTheme | app/src/main/java/com/peterchege/blogger/presentation/screens/settings/SettingsScreenViewModel.kt:70-73 | the theme flag flips and the sign-out flag stays |
| SettingsScreen.ToggleTwiceRestores | app/src/main/java/com/peterchege/blogger/presentation/screens/settings/SettingsScreenViewModel.kt:64-73 | either toggle applied twice restores the state |
| SettingsScreen.TogglesCommute | app/src/main/java/com/peterchege/blogger/presentation/screens/settings/SettingsScreenViewModel.kt:64-73 | the two toggles are independent of each other's order |
| SettingsScreen.SettingsScreenViewModel.constructor | app/src/main/java/com/peterchege/blogger/presentation/screens/settings/SettingsScreenViewModel.kt:32-36 | both dialogs start closed |
| SettingsScreen.SettingsScreenViewModel.ToggleSignOutDialog | app/src/main/java/com/peterchege/blogger/presentation/screens/settings/SettingsScreenViewModel.kt:64-68 | the state becomes the sign-out toggle of the old one |
| SettingsScreen.SettingsScreenViewModel.ToggleThemeDialog | app/src/main/java/com/peterchege/blogger/presentation/screens/settings/SettingsScreenViewModel.kt:70-73 | the state becomes the theme toggle of the old one |
| SettingsScreen.SettingsScreenViewModel.SignOutUser | app/src/main/java/com/peterchege/blogger/presentation/screens/settings/SettingsScreenViewModel.kt:75-88 | effects in order: logout(userId, fcmToken as device token), unset user, delete all likes, delete all followers twice, navigate home; afterwards nobody is signed in and the likes table is empty |
| SearchScreen.TermCases | app/src/main/java/com/peterchege/blogger/presentation/screens/search_screen/SearchScreenViewModel.kt:110-129 | a term searches (length > 3) or resets (length < 2), never both, and does neither exactly at length 2 or 3 |
| SearchScreen.SearchScreenViewModel.constructor | app/src/main/java/com/peterchege/blogger/presentation/screens/search_screen/SearchScreenViewModel.kt:52-77 | the initial fields: empty term, found, not loading, no error, no results, posts search type, no job |
| SearchScreen.SearchScreenViewModel.OnChangeSearchType | app/src/main/java/com/peterchege/blogger/presentation/screens/search_screen/SearchScreenViewModel.kt:94-96 | only the search type changes |
| SearchScreen.SearchScreenViewModel.OnChangeSearchTerm | app/src/main/java/com/peterchege/blogger/presentation/screens/search_screen/SearchScreenViewModel.kt:107-135 | loading is on and the term stored; a term longer than 3 replaces the held job by a new running one (at most one held); a term shorter than 2 schedules the isFound reset; results untouched |
| SearchScreen.SearchScreenViewModel.OnSearchResponse | app/src/main/java/com/peterchege/blogger/presentation/screens/search_screen/SearchScreenViewModel.kt:113-127 | only the held running job's response lands: it ends loading, and replaces both result lists on success and keeps them on error or exception; a cancelled job changes nothing |
| SearchScreen.SearchScreenViewModel.OnFoundResetFires | app/src/main/java/com/peterchege/blogger/presentation/screens/search_screen/SearchScreenViewModel.kt:129-134 | the delayed reset sets isFound to true and nothing else |
| AddPost.SavableImageUri | app/src/main/java/com/peterchege/blogger/presentation/screens/dashboard/addpost_screen/AddPostScreenViewModel.kt:135-138 | no image is saved as "", an image as its text |
| AddPost.LoadedUri | app/src/main/java/com/peterchege/blogger/presentation/screens/dashboard/addpost_screen/AddPostScreenViewModel.kt:89-90 | "" loads as no image, anything else as the uri of that text |
| AddPost.StoredUriRoundTrip | app/src/main/java/com/peterchege/blogger/presentation/screens/dashboard/addpost_screen/AddPostScreenViewModel.kt:89-90 | a stored image string survives a load followed by a save |
| AddPost.AttachedUriRoundTrip | app/src/main/java/com/peterchege/blogger/presentation/screens/dashboard/addpost_screen/AddPostScreenViewModel.kt:135-138 | an attached image survives a save followed by a load iff it is not the empty-text uri |
| AddPost.WithDraft | app/src/main/java/com/peterchege/blogger/presentation/screens/dashboard/addpost_screen/AddPostScreenViewModel.kt:86-93 | loading a draft sets title, body, image, isFromDraft and draftId, and keeps the dialog and loading flags |
| AddPost.DraftOf | app/src/main/java/com/peterchege/blogger/presentation/screens/dashboard/addpost_screen/AddPostScreenViewModel.kt:141-155 | the saved row carries the form's title, body and savable image under the given id |
| AddPost.ReopenedDraftSavesUnchanged | app/src/main/java/com/peterchege/blogger/presentation/screens/dashboard/addpost_screen/AddPostScreenViewModel.kt:84-147 | opening a draft and saving it without edits writes back the very same row |
| AddPost.AuthorName | app/src/main/java/com/peterchege/blogger/presentation/screens/dashboard/addpost_screen/AddPostScreenViewModel.kt:172 | the username, or "" when nobody is signed in |
| AddPost.AddPostScreenViewModel.constructor | app/src/main/java/com/peterchege/blogger/presentation/screens/dashboard/addpost_screen/AddPostScreenViewModel.kt:81-97 | a stored draft named by the navigation argument is loaded into the empty form; otherwise the form stays empty |
| AddPost.AddPostScreenViewModel.OnCloseDialog | app/src/main/java/com/peterchege/blogger/presentation/screens/dashboard/addpost_screen/AddPostScreenViewModel.kt:99-101 | closes the dialog, nothing else |
| AddPost.AddPostScreenViewModel.OnBackPress | app/src/main/java/com/peterchege/blogger/presentation/screens/dashboard/addpost_screen/AddPostScreenViewModel.kt:103-109 | navigates back with the state unchanged iff title and body are both empty; otherwise opens the save-draft dialog and stays |
| AddPost.AddPostScreenViewModel.OnChangePostTitle | app/src/main/java/com/peterchege/blogger/presentation/screens/dashboard/addpost_screen/AddPostScreenViewModel.kt:111-114 | only the title changes |
| AddPost.AddPostScreenViewModel.OnChangePostBody | app/src/main/java/com/peterchege/blogger/presentation/screens/dashboard/addpost_screen/AddPostScreenViewModel.kt:116-118 | only the body changes |
| AddPost.AddPostScreenViewModel.OnChangePhotoUri | app/src/main/java/com/peterchege/blogger/presentation/screens/dashboard/addpost_screen/AddPostScreenViewModel.kt:120-122 | only the image changes |
| AddPost.AddPostScreenViewModel.OnSaveDraftDismiss | app/src/main/java/com/peterchege/blogger/presentation/screens/dashboard/addpost_screen/AddPostScreenViewModel.kt:125-129 | closes the dialog and always navigates back |
| AddPost.AddPostScreenViewModel.OnSaveDraftConfirm | app/src/main/java/com/peterchege/blogger/presentation/screens/dashboard/addpost_screen/AddPostScreenViewModel.kt:131-165 | closes the dialog; a draft with an id is rewritten ("updated"), a new form is inserted ("saved"), and either navigates back; a draft without an id saves nothing and still navigates back; an IOException writes nothing, shows "Failed to save Draft" and stays |
| AddPost.AddPostScreenViewModel.PostArticle | app/src/main/java/com/peterchege/blogger/presentation/screens/dashboard/addpost_screen/AddPostScreenViewModel.kt:168-186 | an upload starts and the screen navigates iff an image is attached; the body carries title, body, the author name ("" when signed out), the clock values, and the title again as photo |

## Left out

- UI rendering, navigation controllers and Compose state are out of scope. Navigation is a returned flag or effect.
- Coroutine dispatchers, Flow/StateFlow reactivity and `stateIn` sharing are not modelled. Each handler runs as one atomic step. The search job and the delayed isFound reset are separate steps; their timing is not modelled.
- AddPost.AddPostScreenViewModel.constructor: the draft is loaded in the same step. The source loads it in a launched coroutine, so the load can overwrite edits typed before it completes; that interleaving is not modelled.
- Exceptions other than the IOException fault parameters and the worker's HttpException are not modelled. This includes a failing remote logout in `signOutUser` and a failing database call in the DAOs. In the source they propagate.
- Foreground notification ids (`Random.nextInt`) and the notification channel are left out. Only the notification texts are kept, in order.
- The clock values of `postArticle` are parameters. Their `dd/MM/yyyy` and 12-hour `hh:mm:ss` formatting is not modelled.
- The upload work manager, the remote API and the followers data source are outside this model. Their calls appear only as effects or inputs.
- SyncFeed.DoWork: the worker imports a cache data-source interface from another package than the one CachedPostsDataSourceImpl implements, and no implementation of it is visible. It is assumed to behave as CachedPostsDataSourceImpl (DeleteAllPostsFromCache, InsertCachedPosts); the cache post-states rest on that assumption.
- SettingsScreen.SettingsScreenViewModel.SignOutUser: the auth repository is outside this model. Its `logoutUser` call is an effect only. Its `unsetLoggedInUser` is assumed to clear the record of UserDataStoreRepository; the post-state "nobody is signed in" rests on that assumption.
- The like entity, the draft record, the cached-post entity and DAO, the draft repository, the cache mappers, and the Post, User and Following classes are declared in files that are not part of this model. The model assumes:
  - tables keyed by a primary key, with REPLACE on insert;
  - field-for-field mappers;
  - getDraftById in the repository returns null for an unknown id;
  - updateDraft writes the row of that id;
  - the database gives a new draft an unused id (the `newDraftId` precondition).
- The source has two post classes: one returned by the API, used by PostRecord.toPost, and one used by the cache data source. Both are the single `Posts.Post` here.
- The source has two draft record classes: the one the draft DAO stores, and the one the add-post screen hands to the draft repository. Both are the single `DraftDao.DraftRecord` here.
- Columns that no modelled statement reads are not modelled. For likes, that is every column but the key and likepostId.
- LikesLocalDataSourceImpl is a one-to-one forward to LikeDao. Its calls are modelled as LikeTable operations.
- `onProfileNavigate` and `loadUser` of the search screen only navigate or collect a flow. They are left out.
- Strings are sequences of Dafny characters. Kotlin's UTF-16 length in the search-term thresholds is taken as the sequence length.
- The value of `Constants.SEARCH_TYPE_POSTS` is outside this model. It is a constructor parameter of the search screen.
- The cache table keeps rows in insertion order, which stands in for the order of an unordered `SELECT *`. The likes and draft queries return sets.
