# Supabase Tasks: the App component in Dafny

`src/App.jsx` is a single React component. It signs a user in against Supabase. It then lists, adds, toggles, renames and deletes that user's tasks, and shows them with search, a done/pending filter and dashboard counters. This project models the component's logic and leaves out its markup and its network plumbing. It has two parts:

- **The views** (module `Projection`, over the string operations of module `Text`). `stats` counts the total, done and pending tasks and a rounded completion percentage. `visibleTasks` keeps the tasks whose lower-cased title contains the trimmed, lower-cased search text and that pass the `all | pending | done` filter, in list order. Both are pure functions, proved against independent characterisations:
  - `Filter` is proved to give a subsequence. It keeps exactly the elements that pass the test, and it distributes over concatenation.
  - `Trim` is proved to give the slice left after cutting white space from both ends.
  - `Contains` is proved to hold exactly when the needle occurs at some offset.
  - `Percent` is proved to be the whole number nearest to `100 * done / total`, with halves rounded up.
- **The component state** (module `AppComponent`, class `App`). Its fields are the component's state slots: `tasks`, `title`, `msg`, `loading`, `query`, `filter`, `editingId` and `editingTitle`. Its methods are the handlers `fetchTasks`, `signOut`, `addTask`, `toggleDone`, `deleteTask`, `startEdit`, `cancelEdit` and `saveEdit`, plus the four input setters. Each handler is one step:
  - It validates its input.
  - It makes at most one call to the store. The reply to that call is a method parameter of type `Response` (module `Remote`).
  - It updates the fields according to the reply.

  The ghost field `sent` records every request made. Each method's contract therefore states whether a call was made and what it carried. Each contract also states the whole new state.

The class invariant `Valid()` has two parts. First, no edit draft exists without a task in edit. Second, every title written to the store was trimmed and non-empty. Every handler preserves it.

What the contracts establish:
- A blank new-task text or edit draft is rejected before any call, and nothing changes.
- A failed save keeps the draft.
- Sign-out clears the list, the search, the filter and the draft.
- Adding, toggling, renaming and deleting never touch `tasks`. Only a load or a sign-out replaces it.
- A failed load keeps the last list and shows the error.
- Every load ends with `loading` false.

Behaviour of the code worth knowing, modelled as written:
- `fetchTasks` applies every reply unconditionally. There is no coalescing of overlapping reloads, and no guard that keeps a late reply from refilling the list after sign-out.
- `deleteTask` leaves an edit draft of the deleted task in place.
- A delete error is shown like any other error.
- `signOut` does not look at the provider's reply. It keeps `title`, `msg` and `loading`.
- `toggleDone` sends the negation of the done flag of the caller's copy of the task, which may be stale.
- `saveEdit(id)` writes to the `id` it is given. The only caller passes the task in edit.

## Model

| member | source | states |
|---|---|---|
| `Text.IsSpace` | src/App.jsx:95 | the characters `trim` strips; among ASCII exactly space, TAB, LF, VT, FF and CR, and never a letter or a digit |
| `Text.TrimStart` | src/App.jsx:95 | leading white space is gone: the result is no longer than the input and is empty or starts with a character trim keeps |
| `Text.TrimStartIsSuffix` | src/App.jsx:95 | what TrimStart keeps is a suffix of the input and everything before it is white space |
| `Text.TrimEnd` | src/App.jsx:95 | trailing white space is gone: the result is empty or ends with a character trim keeps |
| `Text.TrimEndIsPrefix` | src/App.jsx:95 | what TrimEnd keeps is a prefix of the input and everything after it is white space |
| `Text.Trim` | src/App.jsx:95 | `String.prototype.trim`: the result is a slice of the input with only white space outside it; it has no white space at either end; it is empty exactly when the input is all white space |
| `Text.TrimIsSlice` | src/App.jsx:138 | the trimmed text is the slice between the first and last non-space characters |
| `Text.TrimIdempotent` | src/App.jsx:138 | trimming twice is trimming once |
| `Text.TrimStartSkipsBlank` | src/App.jsx:159 | a blank prefix does not change what TrimStart keeps |
| `Text.TrimEndSkipsBlank` | src/App.jsx:159 | a blank suffix does not change what TrimEnd keeps |
| `Text.TrimStartKeepsTail` | src/App.jsx:159 | after text that is not blank, TrimStart leaves everything that follows untouched |
| `Text.TrimIgnoresPadding` | src/App.jsx:159 | white space added around a string does not change its trimmed form |
| `Text.LowerChar` | src/App.jsx:159 | maps A-Z to a-z and leaves every other character alone |
| `Text.Lower` | src/App.jsx:159 | `toLowerCase`: same length, no upper-case letter left, each character unchanged or its lower-case letter |
| `Text.LowerKeepsLowercase` | src/App.jsx:162 | a string without upper-case letters is its own lower case |
| `Text.Contains` | src/App.jsx:162 | `includes`: true exactly when the needle occurs at some offset of the haystack (so always for an empty needle) |
| `Projection.Filter` | src/App.jsx:161-167 | `Array.prototype.filter`: result is a subsequence of the input, every element passes the test, and each passing value occurs in the result exactly as many times as in the input (so none is omitted) while a failing one does not occur at all |
| `Projection.FilterAppend` | src/App.jsx:161-167 | filtering a concatenation is concatenating the filtered parts, so order is inherited and never re-sorted |
| `Projection.FilterExt` | src/App.jsx:151 | filters by pointwise-equal tests agree |
| `Projection.FilterPartition` | src/App.jsx:150-152 | the elements passing a test and those failing it together number the whole list |
| `Projection.FilterKeepsAll` | src/App.jsx:164 | a test every element passes keeps the list as it is |
| `Projection.Percent` | src/App.jsx:153 | 0 for an empty list; otherwise the integer nearest to 100*done/total with halves rounded up (`2*total*p <= 200*done + total < 2*total*p + 2*total`), and at most 100 when done <= total |
| `Projection.StatsOf` | src/App.jsx:149-155 | `stats`: done counts the tasks passing `IsDone`, the `(t) => t.is_done` callback of line 151; total is the list length, done <= total, done + pending == total, percent in [0,100], 0 when total is 0, otherwise the rounded share of done tasks |
| `Projection.SearchKey` | src/App.jsx:159 | the trimmed, lower-cased query; empty exactly when the query is all white space |
| `Projection.MatchesQuery` | src/App.jsx:162 | `matchesQuery`: an empty key matches every task; otherwise the key must occur somewhere in the lower-cased title |
| `Projection.MatchesFilter` | src/App.jsx:163-164 | `matchesFilter`: "all" passes every task; "done" passes exactly the done tasks and "pending" exactly the others |
| `Projection.Shows` | src/App.jsx:161-167 | the filter callback: a task is kept exactly when the key is empty or occurs in its lower-cased title, and it passes the filter mode |
| `Projection.VisibleTasks` | src/App.jsx:158-168 | `visibleTasks`: a subsequence of the task list; every entry matches both the search and the filter; each matching task occurs in it as many times as in the list, and a non-matching one not at all |
| `Projection.VisibleTasksAppend` | src/App.jsx:161-167 | the visible list preserves the list's order: visible(a + b) == visible(a) + visible(b) |
| `Projection.ShowsEverythingByDefault` | src/App.jsx:162-164 | with blank search text and the "all" filter the whole list is shown |
| `Projection.StatsCountDoneTasks` | src/App.jsx:149-152 | `stats.done` is the number of positions holding a done task and `stats.pending` the number holding a task not done |
| `Projection.FilteredCountsMatchStats` | src/App.jsx:149-168 | with blank search text the "done" list has `stats.done` entries and the "pending" list has `stats.pending` entries |
| `Projection.SearchIgnoresPadding` | src/App.jsx:159 | white space around the search text does not change the visible list |
| `Projection.PendingFilterScenario` | src/App.jsx:149-168 | tasks "buy milk" (pending) and "pay rent" (done) under "pending" show only "buy milk", with stats 2/1/1/50% |
| `Projection.SearchScenario` | src/App.jsx:158-168 | searching " MILK " over the same two tasks shows only "buy milk" |
| `Remote.RowsOrEmpty` | src/App.jsx:67 | `data \|\| []`: no rows for a null reply, otherwise exactly the rows returned |
| `AppComponent.App.constructor` | src/App.jsx:12-25 | the initial state: empty list, empty inputs and message, not loading, filter "all", no draft, no calls made |
| `AppComponent.App.FetchTasks` | src/App.jsx:57-69 | one list request; on success the list is replaced wholesale by the rows (or `[]` when null) and the message cleared; on error the list is kept and the message shows the error; `loading` ends false; the other fields are untouched |
| `AppComponent.App.SignOut` | src/App.jsx:84-91 | one sign-out request; afterwards the list is empty, query "", filter "all", no draft, so the counters are all 0 and nothing is visible; title, message and loading flag are kept |
| `AppComponent.App.AddTask` | src/App.jsx:93-106 | blank text: no call and nothing changes; otherwise one insert of the trimmed text for the user, then the input is cleared on success or kept with the error shown on failure; the list is never touched |
| `AppComponent.App.ToggleDone` | src/App.jsx:108-116 | one update setting is_done to the negation of the given task's flag; only the message changes (cleared, or the error) |
| `AppComponent.App.DeleteTask` | src/App.jsx:118-122 | one delete of the row; only the message changes; an edit draft of the deleted task stays |
| `AppComponent.App.StartEdit` | src/App.jsx:125-128 | the draft slot holds the task's id and title, replacing any previous draft; no call |
| `AppComponent.App.CancelEdit` | src/App.jsx:131-134 | the draft slot is empty (no id, text ""); no call |
| `AppComponent.App.SaveEdit` | src/App.jsx:137-146 | blank draft: no call and nothing changes (so with no task in edit, never a call); otherwise one rename to the trimmed draft, then the slot is emptied on success or kept unchanged with the error shown on failure; the list is never touched |
| `AppComponent.App.SetTitle` | src/App.jsx:224 | the new-task input holds the typed text; nothing else changes |
| `AppComponent.App.SetQuery` | src/App.jsx:235 | the search input holds the typed text; nothing else changes |
| `AppComponent.App.SetFilter` | src/App.jsx:241-259 | the filter is the chosen mode; nothing else changes |
| `AppComponent.App.SetEditingTitle` | src/App.jsx:303 | the draft holds the typed text while a task is in edit; nothing else changes |

The method `AppComponent.BlankSubmissionsAreRejected` exercises the class through its contracts alone. It shows that a blank task and a blank edit draft make no call, and that the draft survives.

## Left out

- The Supabase client (src/App.jsx:29-33, 44-53, 61-64, 73, 80, 85, 100-102, 110-113, 120, 142) is not modelled. Each call is a `Remote.Request` added to the ghost log `sent`. Its reply is a `Remote.Response` parameter of the handler. Row-level security and the order the store returns rows in are the store's business.
- The session state and the two effects (src/App.jsx:5, 28-55) are left out. These are the auth listener, the initial load on sign-in and the realtime channel whose callback calls `fetchTasks`. They only schedule calls to `FetchTasks`, and the signed-in user's id is passed to `AddTask` as a parameter.
- `signUp` and `signIn` (src/App.jsx:71-82) and the `email`/`password` inputs are left out. They only forward to the identity provider and set the message.
- Interleaving at `await` points is not modelled. Each handler runs as one atomic step, so the states in which `loading` is true, or a message was cleared while a reply is still pending, are not observable. Neither are overlapping handlers, such as two loads in flight.
- The rendering (src/App.jsx:170 onward) is not modelled: markup, styles, `StatCard`, `pillStyle` and `preventDefault`.
- The `filter` state is a string in the source. The model uses the three values the buttons set. Any other string would act as "pending", but nothing in the component sets one.
- `user_id` and `created_at` of a row are not part of `Projection.Task`. The component never reads them.
- `Projection.Percent`: computed in exact integer arithmetic as `(200*done + total) / (2*total)`, not as the floating-point `Math.round((done / total) * 100)`. For a ratio whose binary rounding lands just beside a half, the float result may differ by one.
- `Text.Lower`: lower-cases only A-Z. `toLowerCase` also lower-cases the rest of Unicode, so a search involving non-ASCII capitals is not modelled. `Text.IsSpace` covers the full ECMAScript white-space and line-terminator set of code points that `trim` removes.
- JavaScript strings are UTF-16 code units. The model uses Unicode scalar values, so surrogate pairs are not modelled.
- An error whose `message` is missing is not modelled. The model always carries a message string.
