# Youth club website: the JSON store and the page state machines, in Dafny

The website keeps its gallery items, blog posts and join-form submissions in a single
JSON document on disk. The document has the shape `{ gallery: [], blogs: [], joinSubmissions: [] }`.
An Express backend exposes list, create, update and delete routes over this document.
Every request reads the whole document, changes one collection in memory and writes
the whole document back. Around the store sit the React pages and components that
the model also covers:

- the blog and gallery pages, with a "Load More / Show Less" window and a modal
  that steps cyclically through the posts;
- the home-page carousel, with a transition lock and swipe detection;
- the navigation bar, which hides on scroll and has dropdowns;
- the join form;
- the administrator's submissions table, with a status filter and per-row status
  selectors.

The model has these parts:

- `Json` is a JSON value and a record (`map<string, Value>`). It includes object spread
  `{...a, ...b}` as `Spread`.
- `JsNumbers` is JavaScript's `parseInt` as the ECMAScript algorithm defines it:
  leading white space, a sign, a `0x` prefix, the longest digit run, and NaN when the
  run is empty. NaN is `None`. The module also has decimal rendering of an integer and
  `%`, which truncates toward zero.
- `Store` is the persisted document and the route handlers.
  - The file is an `Option<Document>`. `None` stands for a file that is missing,
    unreadable or not valid JSON, each of which `readDatabase` turns into the empty
    document.
  - `Database` is the in-memory object that a handler mutates.
  - `Server` holds the file. Each route is a method whose `ensures` states the reply
    and the new file contents in terms of the old file.
- `StoreProperties` holds what the routes promise across calls: lookup by id, deletion,
  and which fields a create or an update can set.
- `Lists`, `Pagination` and `Cyclic` hold the list filtering, the visible-window and
  the modular-stepping logic that several pages share.
- `BlogPage`, `GalleryPage`, `HomePage`, `Navbar`, `JoinModal` and `SubmissionsAdmin`
  model the frontend components. Each one's `useState` hooks become the fields of a
  class. Event handlers and timer callbacks become methods.
- `EndToEnd` connects the requests the frontend sends to what the backend then stores.

Clocks, `Date.now()` and network results are parameters. Events that a timer fires are
explicit method calls: the 30-second refresh, the 5-second slide advance, and the
500 ms transition unlock. The slide advance runs the closure that the interval captured
when it was installed, not the latest render's handler (see "## Findings").

Where the code and its description differ, the model follows the code:

- `PUT /api/gallery/:id` and `PUT /api/blogs/:id` merge the whole body, so a client can
  overwrite `id`, `uploadDate` and `date`. `StoreProperties.MergeLookup` states this.
- `PUT /api/join-submissions/:id/status` stores whatever `status` the body carries.
  The value is not checked against `pending`/`approved`/`rejected`, and a body with no
  `status` removes the field from the stored record, because `JSON.stringify` drops
  `undefined`.
- Ids come from `Date.now()` and nothing enforces that they are unique. Uniqueness is
  therefore a precondition of the lemmas that need it. Lookup always finds the first
  match, and delete removes every match.
- A blog post's `date` and `uploadDate` come from two separate readings of the clock,
  so they can differ across midnight.
- Any failure to read or parse the file yields the empty document. It is not reported
  as a server error.
- An id in a path is read with `parseInt`, which stops at the first character that is
  not a digit. A path with trailing non-digits therefore selects its numeric prefix:
  `PUT /api/gallery/12abc` updates the record with id 12, and `DELETE /api/blogs/12abc`
  deletes it. Only a path whose number has no leading digit (such as `abc`) matches
  nothing. `JsNumbers.ParseIntReadsPrefix` states this.

## Model

| member | source | states |
|---|---|---|
| Json.Spread | backend/index.js:96 | `{...a, ...b}`: the keys are the union; a key present in `b` takes `b`'s value, any other keeps `a`'s |
| JsNumbers.ParseInt | backend/index.js:89 | `parseInt(req.params.id)` (also lines 107, 146, 164, 203, 222): a number is read only when a decimal digit follows the white space and sign; a negative result needs a leading `-`, and a leading `-` never gives a positive one |
| JsNumbers.ParseDigits | backend/index.js:89 | the unsigned part of `parseInt`: any number it reads is non-negative and its text starts with a decimal digit |
| JsNumbers.IntToString | frontend/src/admin/services/dataService.js:156 | `${id}` for an integer: it starts with `-` exactly for negatives, and everything after the sign is decimal digits (at least one) |
| JsNumbers.ParseIntRoundTrip | backend/index.js:203 | `parseInt` applied to the decimal rendering of any integer id gives back that id |
| JsNumbers.ParseIntReadsPrefix | backend/index.js:89 | `parseInt` of an integer's decimal text followed by anything that does not continue the number (no decimal digit, and no `x` after a lone `0`) gives that integer, so a path with trailing non-digits selects its numeric prefix (also lines 107, 146, 164, 203, 222) |
| JsNumbers.NoLeadingDigitIsNaN | backend/index.js:89 | when, after leading white space and an optional sign, no decimal digit follows, `parseInt` is NaN |
| JsNumbers.TrimStart | backend/index.js:89 | the result is a suffix of the input, every removed character is ECMAScript white space, and the result does not start with white space |
| JsNumbers.DigitRun | backend/index.js:89 | the digit run is a prefix of the input, all of it is digits of the radix, and it is as long as possible |
| JsNumbers.Decimal | frontend/src/admin/services/dataService.js:156 | the rendering of a natural number is nonempty and all digits, with no leading zero unless the number is 0 |
| JsNumbers.DecimalValue | frontend/src/admin/services/dataService.js:156 | reading the digits of the rendering back gives the number |
| JsNumbers.JsRem | frontend/src/pages/Blog.jsx:46 | JavaScript `%`: equals Euclidean `%` on non-negative operands, takes the sign of the dividend, has magnitude below the divisor's, and differs from the dividend by a multiple of the divisor, which fixes it for every sign |
| Store.Load | backend/index.js:41-53 | each collection of the loaded document is the file's, or empty when the file is unusable (the default at lines 47-51) |
| Store.IdMatches | backend/index.js:90 | `item.id === id`: a NaN id equals nothing, and a stored id equals a parsed one only when it is that same number |
| Store.StatusOf | backend/index.js:204 | `const { status } = req.body`: a value exactly when the body has a `status` field, and then that field's value |
| Store.Server.ReadDatabase | backend/index.js:41-53 | a fresh in-memory document, equal to the stored one, or empty in all three collections when the file is missing or unreadable |
| Store.Server.WriteDatabase | backend/index.js:56-58 | the file afterwards holds exactly the in-memory document |
| Store.Server.List | backend/index.js:61-68 | the reply is the stored collection (or an empty one when the file is unusable) and the file is untouched |
| Store.Server.PostGallery | backend/index.js:70-84 | the reply is the new item, and the file is the old document with the item appended to `gallery` and nothing else changed |
| Store.Server.PostBlog | backend/index.js:126-141 | the reply is the new post, and the file is the old document with the post appended to `blogs` and nothing else changed |
| Store.Server.PostJoinSubmission | backend/index.js:183-198 | the reply is the new submission, appended to `joinSubmissions`; the other collections are unchanged |
| Store.Server.PostJoin | backend/index.js:241-256 | the legacy route stores the same submission but replies with the request body |
| Store.Server.UpdateById | backend/index.js:86-102 | no record with the parsed id: 404 and the file is unchanged; otherwise the first match is replaced by the body merged over it, and that merged record is the reply |
| Store.Server.UpdateStatus | backend/index.js:200-217 | no match: 404 and no write; otherwise only the first match's `status` changes, to the body's value (removed when absent) |
| Store.Server.DeleteById | backend/index.js:104-114 | the reply is a success message, and the collection becomes the old one without the records whose id equals the parsed id, even when none matched |
| Store.Database.constructor | backend/index.js:44 | the in-memory object holds the parsed document |
| Store.Database.Push | backend/index.js:78 | the record is appended to the named collection; the other collections are unchanged |
| Store.Database.Replace | backend/index.js:96 | position `i` of the named collection holds the new record; nothing else changes |
| Store.Database.Assign | backend/index.js:108 | the named collection is reassigned; the others are kept |
| Store.FindIndex | backend/index.js:90 | `findIndex` with strict `===` on ids: -1 exactly when no record matches, otherwise the first matching position |
| Store.RemoveById | backend/index.js:108 | `filter` on `!==`: no survivor has the id, each comes from the input in the original order, and every record without the id keeps its multiplicity, so it survives |
| Store.DatePart | backend/index.js:76 | `split('T')[0]`: the longest prefix of the timestamp with no `T`, ending at the first `T` when there is one |
| Store.NewGalleryItem | backend/index.js:73-77 | the item has the body's keys plus `id` and `uploadDate`; those two are set from the clock, and every other field is the body's |
| Store.NewBlogPost | backend/index.js:129-134 | the post has the body's keys plus `id`, `date` and `uploadDate`, the last two from their own clock readings; every other field is the body's |
| Store.NewSubmission | backend/index.js:186-191 | the submission has the body's keys plus `id`, `submissionDate` and `status`; status is `"pending"`, and every other field is the body's |
| Store.WithStatus | backend/index.js:211 | only `status` changes: it is present exactly when the new value is defined, and then it holds that value |
| StoreProperties.NumericId | backend/index.js:90 | a record matches an id exactly when its `id` field is that number |
| StoreProperties.FreshIdKeepsIdsUnique | backend/index.js:75 | appending a record whose `Date.now()` id is not yet in use keeps all ids distinct |
| StoreProperties.CreatedRecordIsFound | backend/index.js:78-90 | after a create whose id was unused, looking up that id finds the new record at the end |
| StoreProperties.DeleteRemovesExactlyOne | backend/index.js:108 | with unique ids, deleting an existing id removes exactly the record `findIndex` finds and keeps the rest in order |
| StoreProperties.DeleteIdempotent | backend/index.js:104-114 | deleting the same id twice leaves the same collection as deleting it once |
| StoreProperties.DeleteWithoutMatchKeepsAll | backend/index.js:108 | deleting an id that nothing matches leaves the collection unchanged, although the file is still written |
| StoreProperties.DeletedIdNotFound | backend/index.js:108 | after a delete, no record has that id |
| StoreProperties.NaNMatchesNothing | backend/index.js:89-90 | a path id that `parseInt` reads as NaN matches no record, so update is a 404 and delete removes nothing |
| StoreProperties.SameMatchesSameIndex | backend/index.js:90 | two collections that agree on which positions match an id give the same `findIndex` |
| StoreProperties.StatusUpdateKeepsLookup | backend/index.js:211 | changing a submission's status does not change which record any id finds |
| StoreProperties.MergeLookup | backend/index.js:96 | a merge whose body has no `id` keeps every lookup; a body with an `id` overwrites the stored id |
| StoreProperties.GalleryItemIgnoresAssignedFields | backend/index.js:73-77 | client-sent `id` and `uploadDate` have no effect on the stored item |
| StoreProperties.BlogPostIgnoresAssignedFields | backend/index.js:129-134 | client-sent `id`, `date` and `uploadDate` have no effect on the stored post |
| StoreProperties.SubmissionIgnoresAssignedFields | backend/index.js:186-191 | client-sent `id`, `submissionDate` and `status` have no effect on the stored submission |
| StoreProperties.StatusUpdateIdempotent | backend/index.js:211 | setting the same status twice is the same as setting it once |
| Lists.Filter | backend/index.js:108 | `Array.prototype.filter`: every survivor comes from the input and satisfies the predicate, and the result is no longer than the input (that every satisfying element survives is `Lists.FilterCount`) |
| Lists.FilterIsSubsequence | backend/index.js:108 | filtering keeps the relative order of the survivors |
| Lists.FilterCount | backend/index.js:108 | a kept value keeps its multiplicity and a dropped value has none |
| Lists.FilterKeepsAll | backend/index.js:108 | filtering with a predicate every element satisfies changes nothing |
| Lists.FilterIdempotent | backend/index.js:104-114 | filtering twice with the same predicate is filtering once |
| Lists.FilterAppend | backend/index.js:108 | filtering distributes over concatenation |
| Lists.FilterRemovesAt | backend/index.js:108 | when only the element at one position fails the predicate, filtering removes exactly that position and keeps the rest in order |
| Pagination.HasMore | frontend/src/pages/Blog.jsx:34 | `hasMore` (also Gallery.jsx:32): some items are not yet shown, so "Load More" is rendered |
| Pagination.ShowLessOffered | frontend/src/pages/Blog.jsx:153 | the guard of "Show Less" (also Gallery.jsx:117): everything is shown, exactly, and the list is longer than the initial window |
| Pagination.Visible | frontend/src/pages/Blog.jsx:33 | `slice(0, count)` is the prefix of length `min(count, n)` |
| Pagination.Grown | frontend/src/pages/Blog.jsx:144 | when "Load More" is offered, pressing it strictly grows the window without passing the end of the list |
| Pagination.ShowLessThenLoadMore | frontend/src/pages/Blog.jsx:153-156 | when "Show Less" is offered, "Load More" is not; after it, "Load More" is offered again with a full initial window |
| Pagination.NoButtonWhenWindowExceedsList | frontend/src/pages/Gallery.jsx:105-120 | when a refresh leaves fewer items than the window, neither button is shown |
| Pagination.LoadMoreShowsAll | frontend/src/pages/Blog.jsx:141-144 | enough presses of "Load More" show the whole list, and the button then disappears |
| Pagination.GrowingKeepsPrefix | frontend/src/pages/Gallery.jsx:108 | growing the window only appends: what was visible stays visible in the same order |
| Cyclic.Next | frontend/src/pages/Blog.jsx:45-47 | `(i + 1) % n` stays in range, steps forward, and wraps from the last to the first |
| Cyclic.Prev | frontend/src/pages/Blog.jsx:49-51 | `(i - 1 + n) % n` stays in range, steps back, and wraps from the first to the last |
| Cyclic.NextPrevInverse | frontend/src/pages/Blog.jsx:45-51 | next and previous undo each other |
| BlogPage.Blog.constructor | frontend/src/pages/Blog.jsx:6-10 | the initial state: window 4, modal closed, index 0, no posts, loading |
| BlogPage.Blog.VisibleBlogs | frontend/src/pages/Blog.jsx:33 | the rendered cards are the first `min(visibleCount, n)` posts |
| BlogPage.Blog.ModalPost | frontend/src/pages/Blog.jsx:169 | the modal shows a post exactly when it is open and the index names a post, and that post is `blogData[currentBlogIndex]` |
| BlogPage.Blog.Refresh | frontend/src/pages/Blog.jsx:12-31 | the fetched posts replace the data and loading ends; the window, the index and the modal are kept |
| BlogPage.Blog.LoadMore | frontend/src/pages/Blog.jsx:141-144 | the window grows by 2, capped at the list length, and the old visible posts stay a prefix |
| BlogPage.Blog.ShowLess | frontend/src/pages/Blog.jsx:153-156 | the window returns to 4 and "Load More" is offered again |
| BlogPage.Blog.OpenModal | frontend/src/pages/Blog.jsx:36-39 | opening a visible post's modal shows exactly that post |
| BlogPage.Blog.CloseModal | frontend/src/pages/Blog.jsx:41-43 | the modal is closed and shows nothing |
| BlogPage.Blog.NextBlog | frontend/src/pages/Blog.jsx:45-47 | the index moves to the next post cyclically; with no posts it becomes NaN |
| BlogPage.Blog.PrevBlog | frontend/src/pages/Blog.jsx:49-51 | the index moves to the previous post cyclically; with no posts it becomes NaN |
| BlogPage.NextThenPrevRestores | frontend/src/pages/Blog.jsx:45-51 | while a post is shown, "next" then "previous" returns to the same post |
| GalleryPage.Gallery.constructor | frontend/src/pages/Gallery.jsx:6-8 | the initial state: window 6, no items, loading |
| GalleryPage.Gallery.VisibleImages | frontend/src/pages/Gallery.jsx:31 | the rendered images are the first `min(visibleCount, n)` items |
| GalleryPage.Gallery.Refresh | frontend/src/pages/Gallery.jsx:10-29 | the fetched items replace the data and the window is kept; the visible images are a prefix of the data |
| GalleryPage.Gallery.LoadMore | frontend/src/pages/Gallery.jsx:105-108 | the window grows by 6, capped at the list length, and keeps what was visible |
| GalleryPage.Gallery.ShowLess | frontend/src/pages/Gallery.jsx:117-120 | the window returns to 6 and "Load More" is offered again |
| HomePage.Truthy | frontend/src/pages/Home.jsx:92 | JavaScript truthiness of a touch coordinate: `null` and `0` are falsy |
| HomePage.Home.constructor | frontend/src/pages/Home.jsx:8-12 | first slide, unlocked, join modal closed, no touch recorded |
| HomePage.Home.NextSlide | frontend/src/pages/Home.jsx:50-56 | while a transition runs, nothing changes; otherwise it advances cyclically over the three slides and locks, and the interval re-installed for the new slide sees the lock held |
| HomePage.Home.TimerTick | frontend/src/pages/Home.jsx:42-56 | the interval runs the `nextSlide` of the render that installed it: when that render held the lock, nothing changes; otherwise it advances cyclically, and the re-installed interval then sees the lock held |
| HomePage.StaleTicksNeverAdvance | frontend/src/pages/Home.jsx:42-48 | after any slide change, any number of ticks, each after its transition has ended, leave the slide where it is |
| HomePage.TimerAdvancesOnlyOnce | frontend/src/pages/Home.jsx:42-56 | from a fresh page, the first tick advances one slide and the second does not |
| HomePage.FreshTicksKeepAdvancing | frontend/src/pages/Home.jsx:42-56 | with a tick that reads the current lock, `k` ticks, each after its transition has ended, advance `k` slides modulo three |
| HomePage.Home.PrevSlide | frontend/src/pages/Home.jsx:58-64 | while a transition runs, nothing changes; otherwise it steps back cyclically and locks |
| HomePage.Home.GoToSlide | frontend/src/pages/Home.jsx:66-72 | it jumps to the chosen slide and locks, unless a transition runs or that slide is already shown |
| HomePage.Home.Unlock | frontend/src/pages/Home.jsx:54 | the 500 ms timeout ends the transition |
| HomePage.Home.TouchStart | frontend/src/pages/Home.jsx:82-85 | it records the start position and clears the end |
| HomePage.Home.TouchMove | frontend/src/pages/Home.jsx:87-89 | it records the end position |
| HomePage.Home.TouchEnd | frontend/src/pages/Home.jsx:91-104 | with a start or end of 0 or none, nothing changes; a swipe of more than 50 px left advances, more than 50 px right steps back, and anything shorter changes nothing |
| HomePage.Home.SetJoinModalOpen | frontend/src/pages/Home.jsx:162 | the join button opens the modal, and its close callback (line 238) closes it |
| HomePage.NextUnlockPrevRestores | frontend/src/pages/Home.jsx:50-64 | advancing, waiting out the transition, then stepping back returns to the same slide |
| HomePage.DoubleNextMovesOnce | frontend/src/pages/Home.jsx:50-56 | two advances inside one transition move only one slide |
| Navbar.Toggled | frontend/src/components/Navbar.jsx:45-47 | toggling the open dropdown closes it, and toggling any other opens that one |
| Navbar.ToggleTwice | frontend/src/components/Navbar.jsx:45-47 | toggling the same dropdown twice restores an open one and otherwise leaves all closed |
| Navbar.NavigationBar.constructor | frontend/src/components/Navbar.jsx:4-8 | not scrolled, menu closed, no dropdown, visible, at 0 |
| Navbar.NavigationBar.HandleScroll | frontend/src/components/Navbar.jsx:11-27 | scrolled exactly past 10 px; hidden when moving down past 100 px, shown when moving up, otherwise unchanged; the invariant "hidden only past 100 px" is kept |
| Navbar.NavigationBar.DropdownToggle | frontend/src/components/Navbar.jsx:45-47 | the open dropdown follows `Toggled` |
| Navbar.NavigationBar.DropdownHover | frontend/src/components/Navbar.jsx:86 | hovering opens that dropdown (also line 124) |
| Navbar.NavigationBar.DropdownClose | frontend/src/components/Navbar.jsx:49-51 | no dropdown is open |
| Navbar.NavigationBar.ToggleMobileMenu | frontend/src/components/Navbar.jsx:169 | the mobile menu flips |
| JoinModal.WithField | frontend/src/components/JoinModal.jsx:22-24 | the chosen field takes the value, and every other field and the interests are kept |
| JoinModal.ToggleInterest | frontend/src/components/JoinModal.jsx:26-33 | the interest's membership flips; on removal the list that remains is an order-preserving subsequence holding every other interest with its original count, and a new interest is appended at the end |
| JoinModal.ToggleTwiceRestores | frontend/src/components/JoinModal.jsx:26-33 | ticking and then unticking an unticked interest restores the exact list |
| JoinModal.ToggleKeepsNoDuplicates | frontend/src/components/JoinModal.jsx:26-33 | toggling never duplicates an interest |
| JoinModal.StrArray | frontend/src/components/JoinModal.jsx:47 | the interests are sent as an array of the same strings, in order |
| JoinModal.SubmissionBody | frontend/src/components/JoinModal.jsx:41-49 | the request has exactly seven keys: `name` is first name, a space, then last name, and the rest are copied from the form |
| JoinModal.JoinForm.constructor | frontend/src/components/JoinModal.jsx:5-15 | an empty form, not submitting |
| JoinModal.JoinForm.InputChange | frontend/src/components/JoinModal.jsx:22-24 | the form becomes `WithField` of the old form |
| JoinModal.JoinForm.Checked | frontend/src/components/JoinModal.jsx:194 | a checkbox is ticked exactly when its interest is in the form's list |
| JoinModal.JoinForm.InterestToggle | frontend/src/components/JoinModal.jsx:26-33 | the interest's checkbox (line 194) flips, and nothing else in the form changes |
| JoinModal.JoinForm.Submit | frontend/src/components/JoinModal.jsx:35-74 | it sends the body built from the form; on success the form resets and the modal closes, on failure the form is kept; submitting ends either way |
| SubmissionsAdmin.HasStatus | frontend/src/admin/components/JoinSubmissionsManager.jsx:28 | the filter callback: a submission passes exactly when its `status` is the chosen string |
| SubmissionsAdmin.Filtered | frontend/src/admin/components/JoinSubmissionsManager.jsx:26-29 | "all" shows every submission; any other choice shows exactly the submissions whose status equals it, in order and with their multiplicities |
| SubmissionsAdmin.StatusColor | frontend/src/admin/components/JoinSubmissionsManager.jsx:31-38 | yellow exactly for pending, green for approved, red for rejected, and gray for anything else |
| SubmissionsAdmin.SelectableStatusesAreColoured | frontend/src/admin/components/JoinSubmissionsManager.jsx:119-127 | the three statuses a row can select get three distinct colours, none of them gray |
| SubmissionsAdmin.PathText | frontend/src/admin/services/dataService.js:156 | `${id}` in the URL: for a numeric id the text parses back to that id |
| SubmissionsAdmin.StatusRequest | frontend/src/admin/services/dataService.js:154-161 | the body is `{status: choice}`, and the id rendered into the URL parses back to the numeric id |
| EndToEnd.StatusChangeUpdatesRow | frontend/src/admin/components/JoinSubmissionsManager.jsx:119-121 | choosing a status in a row updates that row's submission on the server, to exactly that status |
| EndToEnd.SubmittedFormIsStoredPending | frontend/src/services/apiService.js:33-56 | a submitted form is stored as pending with the server's timestamp and the form's values; the client's own `submissionDate` and `status` have no effect |

## Findings

| source | as written | input that shows it | evidently intended | confidence | as-written member | corrected member |
|---|---|---|---|---|---|---|
| frontend/src/pages/Home.jsx:42-56 | the interval is re-installed only when `currentSlide` changes, and each slide change sets `isTransitioning` in the same update, so the installed `nextSlide` closure always sees the lock held after the first change; the unlock at line 54 re-renders but does not re-install it | mount the page, wait 5 s (slide 0 to 1), then wait any number of further 5 s periods: the slide stays at 1; likewise after a swipe or a dot click | the carousel advances every 5 seconds once the 500 ms transition has ended | high for the closure capture; not executed | HomePage.StaleTicksNeverAdvance | HomePage.FreshTicksKeepAdvancing |

## Left out

- HomePage.Home.TimerTick: the 5-second period itself, and its restart whenever the
  interval is re-installed, are not modelled; only which closure a tick runs is. The
  model takes a slide change to be rendered with its lock already set. That holds whether
  or not React batches the two updates, because each handler sets the lock first.

- HTTP plumbing (Express routing, CORS, the JSON body limit, `listen`) and the health
  endpoint at backend/index.js:232-238: they hold no state that the store uses.
- File-system failures on write, and a file that parses but lacks one of the three
  arrays: the model's file is either a well-formed document or unusable. With an array
  missing, the list routes reply 200 with `res.json(undefined)`, an empty body, while
  the create, update and delete routes throw inside their `try` and reply 500.
- JSON text itself (`JSON.stringify` indentation and key order): records are maps.
- JavaScript numbers are integers here. Fractional values, ids beyond 2^53 (where
  `parseInt` and `===` lose precision) and the exponent form of large numbers are not
  modelled.
- Request bodies that are not JSON objects: a body is a record.
- Concurrent requests: each handler runs alone, so the lost update between two
  interleaved read-modify-write handlers is not modelled.
- Records are values: `db.joinSubmissions[index].status = status` is modelled as
  replacing the record at that index. Nothing else aliases it.
- React rendering and batching: each handler runs on the latest state. The spinner's
  brief `loading = true` during a refresh and the `isSubmitting` flag during a request
  are folded into the methods, which end with them false.
- Timers and intervals are explicit calls (`Refresh`, `NextSlide`, `Unlock`) rather than
  scheduled events.
- Failed fetches: `fetchBlogPosts` answers `[]` on error (apiService.js:27-29), which the
  model treats as a refresh with an empty list.
- CSS class strings, `formatDate`, `alert`, `console.error`, `e.preventDefault` and the
  slide contents: presentation only. The status colour is an enum.
- The submissions table's `handleDelete` (behind `window.confirm`) and its details
  modal: the delete request is `Store.Server.DeleteById`, and the modal only displays
  a record.
- The remaining services in dataService.js and apiService.js, and the other pages
  (About, Vision, Footer, MainWeb, App, AdminPage, AdminPanel, Login, BlogManager,
  GalleryManager): they only fetch or display. Only the request shapes used above are
  modelled.
