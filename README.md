# Quote list synchronisation, modelled in Dafny

This project models the logic of `dom-manipulation/script.js`, a browser page that keeps a list of quotes (`{id, text, category}`) and syncs it with a server every ten seconds. The model covers:

- **Server mapping**: the first five fetched posts become quotes with id `server-<post id>`, text = post title, category `Server-<user id>`.
- **Reconciliation**: each server quote, in batch order, overwrites the first local quote with the same id. Server data wins. A conflict is counted only when the text differs. When no local quote has that id, the server quote is appended and counted as added.
- **Notification**: the choice between the full "sync complete" message, the shorter "N quotes added" message, and no message.
- **Adding a quote**: a quote is added only when both form fields are non-empty. Its id is `local-<timestamp>`.
- **Categories**: the category filter, the random pick, the drop-down option list (`'all'`, then each category once in first-seen order) and the restore of the saved filter.

Layout, one module per concern:

- `wrappers.dfy` (`Wrappers`): `Option`.
- `decimal.dfy` (`Decimal`): how a template literal prints a non-negative integer below 10^21, and a parser proved to be its inverse.
- `quotes.dfy` (`Quotes`): the `Quote` record, the two id namespaces, and `FindIndex` (the `findIndex` lookup on ids).
- `server.dfy` (`ServerPosts`): posts to quotes.
- `reconcile.dfy` (`Reconciliation`): `Merge`, the specification of the reconcile loop as a left fold of `Apply`, and the lemmas about it.
- `notify.dfy` (`Notify`): the notification choice.
- `categories.dfy` (`Categories`): filter, pick, options, restore.
- `store.dfy` (`QuoteStore`): the class `Store` holding the mutable `quotes` list. Its methods are `Reconcile` (the in-place loop, proved to compute `Merge`), `SyncWithServer` and `AddQuote`.

The fetch result, `Date.now()` and `Math.random()` are parameters: `FetchResult`, `now: nat` and `u: real` in `[0, 1)`. A failed fetch is `FetchFailed`, and the model shows that it leaves the list untouched.

Behaviour the model keeps as the page has it:

- The add path checks only that each field is non-empty. It does not trim, so `" "` is accepted.
- A category-only change overwrites the entry but is not counted. A sync can therefore change the list while showing no notification (`Notify.SilentPassCanChangeList`).
- The page has no import de-duplication, no push of local quotes to the server, and no guard against overlapping passes. None of these is modelled.
- The option list is `['all', ...new Set(categories)]`, so a quote whose category is `'all'` makes `'all'` appear twice. The model keeps this.

## Model

| member | source | states |
|---|---|---|
| Decimal.DecimalString | dom-manipulation/script.js:38 | the rendering of a number is a non-empty digit string with no leading zero, a single digit exactly for numbers below ten |
| Decimal.RenderThenParse | dom-manipulation/script.js:38 | parsing the rendering of `n` gives back `n` |
| Decimal.ParseThenRender | dom-manipulation/script.js:38 | every string the parser accepts is the rendering of the number it yields (the other half of the bijection) |
| Decimal.DecimalInjective | dom-manipulation/script.js:38 | two numbers render to the same string if and only if they are equal |
| Quotes.ServerIdRoundTrip | dom-manipulation/script.js:38 | the post id can be recovered from the quote id `server-<id>` |
| Quotes.ServerPostIdRoundTrip | dom-manipulation/script.js:38 | every id from which a post id is recovered is exactly `server-<that id>` |
| Quotes.ServerIdInjective | dom-manipulation/script.js:38 | posts get the same quote id if and only if they have the same post id |
| Quotes.LocalIdInjective | dom-manipulation/script.js:149 | quotes added at different time stamps get different ids, and vice versa |
| Quotes.NamespacesDisjoint | dom-manipulation/script.js:38 | no id is both a `server-` id and a `local-` id |
| Quotes.FindIndex | dom-manipulation/script.js:47 | the result is -1 exactly when no entry has the id; otherwise it is the first position holding the id |
| ServerPosts.ToQuote | dom-manipulation/script.js:37-40 | a post's quote carries a server id that decodes to the post id, the post title as text and `Server-<userId>` as category |
| ServerPosts.MapPosts | dom-manipulation/script.js:36-41 | the mapping keeps length and order: element `i` is the quote of post `i` |
| ServerPosts.ServerQuotes | dom-manipulation/script.js:36-41 | the batch has min(5, number of posts) quotes, in post order, each mapped from its post and carrying a `server-` id |
| ServerPosts.ServerQuotesUniqueIds | dom-manipulation/script.js:36-41 | distinct ids among the first five posts give a batch without duplicate ids |
| Reconciliation.Apply | dom-manipulation/script.js:47-60 | a server quote whose id is absent is appended and counted as added; otherwise it replaces the first entry with its id in place, and a conflict is counted only if the text differs |
| Reconciliation.Merge | dom-manipulation/script.js:43-61 | counters never decrease, at most one count per server quote, and the final length is the initial length plus the number added |
| Reconciliation.ApplyKeepsOtherIds | dom-manipulation/script.js:47-59 | processing one server quote moves no other id's first position and leaves that entry as it was |
| Reconciliation.MergeKeepsUnmatched | dom-manipulation/script.js:46-61 | an entry whose id no server quote carries keeps its value and its position |
| Reconciliation.MergeShape | dom-manipulation/script.js:46-61 | the pass never reorders or removes: old positions keep their ids and hold the old entry or a server quote, and new positions hold server quotes |
| Reconciliation.LocalQuoteUntouched | dom-manipulation/script.js:46-61 | a batch of `server-` ids never alters a `local-` quote |
| Reconciliation.MergePreservesUniqueIds | dom-manipulation/script.js:47-59 | a list without duplicate ids keeps that property through any pass |
| Reconciliation.MergeFresh | dom-manipulation/script.js:56-59 | a batch of new, distinct ids is appended whole and in order, with added raised by its length and no conflict |
| Reconciliation.MergeIntoEmpty | dom-manipulation/script.js:56-59 | reconciling distinct ids into an empty list yields the batch itself, all counted as added |
| Reconciliation.MergeSettles | dom-manipulation/script.js:46-61 | after a pass with distinct ids, each server quote is the entry found under its id |
| Reconciliation.MergeSettledIsNoOp | dom-manipulation/script.js:49-55 | a pass over quotes already in place changes neither the list nor the counters |
| Reconciliation.ReconcileIdempotent | dom-manipulation/script.js:46-61 | a second pass with the same batch of distinct ids adds 0, counts 0 conflicts and leaves the list unchanged |
| Reconciliation.IdempotenceNeedsUniqueIds | dom-manipulation/script.js:46-61 | with two server quotes sharing an id, the second pass still counts conflicts |
| Reconciliation.TextChangeCountsConflict | dom-manipulation/script.js:52-55 | a matching quote with a different text is replaced and counts one conflict |
| Reconciliation.CategoryOnlyChangeUncounted | dom-manipulation/script.js:52-55 | a matching quote differing only in category is replaced but counts no conflict |
| Notify.Choose | dom-manipulation/script.js:68-76 | the full message is chosen exactly when a counter is positive and carries both counts; the short message exactly when both counters are zero and the list grew, carrying the growth |
| Notify.QuotesAddedUnreachable | dom-manipulation/script.js:68-72 | after a reconcile pass the "quotes added" branch is never taken, and no message is shown exactly when both counters are zero |
| Notify.SilentPassCanChangeList | dom-manipulation/script.js:52-55 | a pass that shows no message can still have rewritten a category |
| Categories.WithCategory | dom-manipulation/script.js:97 | the result holds exactly the quotes of that category and no others |
| Categories.WithCategoryAppend | dom-manipulation/script.js:97 | filtering distributes over concatenation, so original order is kept |
| Categories.Filtered | dom-manipulation/script.js:95-97 | `'all'` gives the whole list; any other value gives exactly the quotes of that category |
| Categories.RandomIndex | dom-manipulation/script.js:104 | `floor(u * n)` with `u` in [0, 1) is a valid index |
| Categories.PickQuote | dom-manipulation/script.js:95-105 | nothing is shown exactly when no quote matches the filter; otherwise the shown quote is in the list and matches the filter |
| Categories.Distinct | dom-manipulation/script.js:127 | the result has the same elements as the input, each once |
| Categories.DistinctFirstSeenOrder | dom-manipulation/script.js:127 | the elements appear in the order of their first occurrence in the input |
| Categories.CategoriesOf | dom-manipulation/script.js:127 | element `i` is the category of quote `i` |
| Categories.CategoryOptions | dom-manipulation/script.js:127 | the options start with `'all'`, followed by each quote category exactly once and nothing else |
| Categories.RestoredFilter | dom-manipulation/script.js:128-134 | the restored filter is always an option; it is the saved one exactly when that is present, non-empty and an option; otherwise it is `'all'` |
| QuoteStore.Store.constructor | dom-manipulation/script.js:7 | the store starts with the loaded list |
| QuoteStore.Store.Reconcile | dom-manipulation/script.js:43-61 | the in-place loop leaves the list and counters equal to `Merge` of the old list, and the length grows by the number added |
| QuoteStore.Store.SyncWithServer | dom-manipulation/script.js:22-82 | a failed fetch leaves the list unchanged; otherwise the list becomes the merge of the first five mapped posts, and the notice is chosen from the counts and is never the short "added" one |
| QuoteStore.Store.AddQuote | dom-manipulation/script.js:143-158 | exactly one quote `{local-<now>, text, category}` is appended when both fields are non-empty; otherwise the list is unchanged |
| QuoteStore.SyncKeepsLocalQuotes | dom-manipulation/script.js:36-61 | a sync never alters a quote added on the page |
| QuoteStore.SecondSyncIsQuiet | dom-manipulation/script.js:36-76 | syncing the same posts again (distinct ids among the first five) leaves the list unchanged and shows no message |
| QuoteStore.AddQuoteKeepsUniqueIds | dom-manipulation/script.js:149-150 | adding keeps ids unique when the time stamp differs from those of earlier local quotes |

## Left out

- The `fetch` call, the `response.ok` check and JSON decoding (lines 29-33) are network I/O. Their outcome is the parameter `FetchResult`, and every failure is `FetchFailed`.
- Posts are modelled with a natural-number `id` and `userId` and a string `title`. A JSON value of another type (a missing field, a string or fractional id) is not modelled.
- Reading quotes from `localStorage` and the default quotes (lines 7-10), `saveQuotes` (13-15), and the `lastCategoryFilter` and `lastQuote` storage are persistence, not modelled. The saved filter is the parameter `saved` of `RestoredFilter`.
- A stored list containing `null` entries is not modelled. Reading `.id` of `null` in `findIndex` (line 47) would throw part-way through the loop. Entries that are numbers, strings or booleans have no `id` and are skipped; the model has no such entries either, since every element is a `Quote`.
- QuoteStore.Store.SyncWithServer: an exception after the merge is not modelled. If `saveQuotes` (line 64) or `populateCategories` (line 65) throws, the catch at lines 78-80 runs with the list already merged in memory: no notice is shown and the error text is displayed. The model reports `Synced` with a notice in that case.
- Decimal.DecimalString: only integers below 10^21 are modelled, because JavaScript prints larger numbers in exponent form (`1e+21`). Post ids, user ids and time stamps at or above 10^21 would get different ids on the page.
- `setInterval`, the `async` structure and the `DOMContentLoaded` wiring (lines 85, 176-186) are event-loop concerns. Nothing is awaited inside the loop, so a pass is one sequential step.
- DOM construction, `innerHTML`, `alert` texts, the capitalised option labels and `createAddQuoteForm` are UI. A notice is a structured value, not a message string.
- `Math.random()` is the parameter `u`, and `Date.now()` is the parameter `now`. Two quotes added in the same millisecond would share an id. `AddQuoteKeepsUniqueIds` therefore assumes a fresh time stamp.
- `exportToJsonFile` and `importFromJsonFile` (lines 172-173) are empty stubs with nothing to model.
- `populateCategories` after a sync or an add only redraws the drop-down. Its logic is `CategoryOptions` and `RestoredFilter`.
