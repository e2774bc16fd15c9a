# A verified model of phanpy's status cache and timeline logic

phanpy is a web client for Mastodon. This project models, in Dafny, the parts of it that are sequential logic rather than view code, and proves what that logic promises:

- **The shared status cache** (`States`, from `src/utils/states.js`):
  - cache keys `instance/id`;
  - `getStatus`;
  - `saveStatus`, with its argument juggling and its `override` guard;
  - the thread traverser. It walks a same-author reply chain backwards, fetches at most four missing parents, and writes thread numbers 1..n.
- **The home timeline** (`Home`, from `src/pages/home-v1.jsx`). A page is:
  - sorted newest first;
  - saved to the cache and projected to `{id, reblog, reply}` entries;
  - regrouped by the boosts-carousel rule;
  - then used to replace or extend `states.home`.

  The "New posts" button prepends the streamed entries the timeline does not have yet.
- **Interactions with a post** (`StatusActions`, from `src/components/status.jsx`):
  - who may boost;
  - the boost confirmation text;
  - the optimistic boost, favourite and bookmark protocol;
  - the delete tombstone;
  - `formatDuration`;
  - the merge of boosters and favouriters in the reactions list.
- **Shortcuts** (`Shortcuts`, from `src/components/shortcuts-settings.jsx`):
  - move up, move down and remove;
  - the add form and its limit of 9;
  - the route and title of each kind of shortcut.
- **The hashtag page** (`Hashtags`, from `src/pages/hashtag.jsx`):
  - the tag list read from the route;
  - adding a tag (case-insensitive, at most 5 tags) and removing one;
  - the routes built from the tags;
  - shortcut de-duplication;
  - the "another instance" prompt;
  - the page fetch.
- **The account page** (`AccountStatuses`, from `src/pages/account-statuses.jsx`): pinned posts are flagged and grouped in front of the first page.
- **Polls** (`Polls`, from `src/components/poll.jsx`):
  - the vote total and rounding precision;
  - when results are shown;
  - which options lead, and the percentages;
  - the choices a vote sends;
  - the vote and voter labels.
- **Names** (`Names`, from `src/components/name-text.jsx`):
  - how a display name is normalised and shortened;
  - when the `@username` is hidden next to it.

Two shared modules support these:
- `Text` models the JavaScript string operations the code relies on: `trim`, `toLowerCase`, `join`, `split` on a run of separators, the default `sort` order, and `toString`/`padStart`.
- `Optional` holds the `Option` type.

Timestamps are integers. Every remote request is a parameter of the operation that makes it: a page function, a fetch oracle, or an `Option` response where `None` is a failed request. User answers (`confirm`, `prompt`) are parameters too.

Where the code and a plain reading of its intent differ, the model follows the code:
- **The thread traverser fetches up to four parents.** The guard is `fetchIndex++ > 3`, so it stops at the fifth fetch, not the fourth (`States.FetchGuard`, `States.TraverseFetchBudget`).
- **The `override: false` guard of `saveStatus` looks up the bare status id, not the instance key.** So a post cached under `instance/id` does not block the write (`States.Writes`).
- **A `null` instance argument is taken for the options object**, because `typeof null` is `'object'` (`States.ResolveSaveArgs`).
- **A failed boost, favourite or bookmark is not reported to the user.** The rendered object is restored and the error is only logged.
- **Cache keys are not injective when ids contain `/`.** The post `b` on instance `a` and the post `a/b` with no instance share the key `a/b` (`States.StatusKeyCollision`). Injectivity is proved for ids without a slash.
- **"Add to Shortcuts" on the hashtag page does not consult the limit of 9.**
- **A typed `+` passes the add field's pattern**, but once the route is read back the tag splits in two. `Hashtags.AddedTagsRoundTrip` therefore assumes the tag has no `+`.

## Model

| member | source | states |
|---|---|---|
| States.StatusKey | src/utils/states.js:75-77 | defines the cache key: `instance/id`, or the bare id when there is no instance |
| States.StatusKeyIdInjective | src/utils/states.js:75-77 | for one instance, two ids give the same cache key exactly when they are the same id |
| States.StatusKeyRoundTrip | src/utils/states.js:75-77 | for an id without a slash, the key splits at its last slash back into the id and the instance; with no instance the key is the bare id |
| States.StatusKeyInjective | src/utils/states.js:75-77 | over ids without a slash, the key determines both the id and the instance |
| States.StatusKeyCollision | src/utils/states.js:75-77 | with slashes allowed in ids, ("b" on instance "a") and ("a/b" with no instance) share a key |
| States.ResolveSaveArgs | src/utils/states.js:87-95 | a named instance is kept; an object or `null` second argument becomes the options and drops the instance; otherwise a third options argument is laid over the defaults; each option missing from the options in force defaults to override on, threading on |
| States.Writes | src/utils/states.js:96-97 | defines when a save writes anything: a status is given, and override is on or the bare id is not cached |
| States.SaveInto | src/utils/states.js:96-103 | a missing status, or override off with the bare id already cached, leaves the cache unchanged. Otherwise the new keys are exactly the status's key and its reblog's key, the reblog sits under its key, the status under its own (unless the reblog has its id), and every other key keeps its entry |
| States.StatusCache.GetStatus | src/utils/states.js:79-85 | finds an entry exactly when the key built from the id and instance is cached, and returns that entry |
| States.StatusCache.SaveStatus | src/utils/states.js:87-114 | the cache becomes `SaveInto` of the resolved arguments; a traversal of the status is scheduled exactly when something was written and threading is not skipped; thread numbers are untouched |
| States.StatusCache.Traverse | src/utils/states.js:120-140 | result, cache and fetch counter are those of the recursive `traverse` specification, including the abort cases; thread numbers and the schedule are untouched |
| States.StatusCache.Threadify | src/utils/states.js:116-154 | after traversing, a chain of two or more gets numbers 1..n written in order; an abort or a single status writes no number |
| States.StatusCache.RunScheduledJob | src/utils/states.js:106-113 | the oldest scheduled frame threads the saved status and then its reblog, and leaves the schedule |
| States.FetchGuard | src/utils/states.js:132 | the bound 3 of `fetchIndex++ > 3`, which lets four parent fetches through |
| States.TraverseSpec | src/utils/states.js:120-140 | defines `traverse`: a post not replying to its own author heads the chain; otherwise the parent comes from the cache or, within the fetch bound, is fetched and saved with threading skipped, and the post is appended to the parent's chain |
| States.WriteNumbers | src/utils/states.js:142-149 | defines the numbering pass: each post of the chain, root first, gets its position plus one |
| States.TraverseNeverNotAThread | src/utils/states.js:122-128 | the "Not a thread" abort can never be reached |
| States.TraverseFetchBudget | src/utils/states.js:129-137 | the fetch counter only grows; a resolved or failed traversal used at most 4 fetches; "too many fetches" happens exactly when a fifth fetch was needed |
| States.TraverseFetchMonotone | src/utils/states.js:132 | the shared fetch counter never decreases during a traversal |
| States.TraverseChainShape | src/utils/states.js:120-139 | a resolved chain is root first and ends with the status traversed from: its first post does not reply to its own author, every later one does |
| States.TraverseGrowsCache | src/utils/states.js:129-137 | a traversal only adds cache entries, never removes one |
| States.TraverseCachedChain | src/utils/states.js:129-139 | a traversal that fetches nothing leaves the cache as it was, and each post of its chain is the cached parent of the next |
| States.WriteNumbersPositions | src/utils/states.js:143-148 | for a chain with distinct ids, the i-th post from the root is numbered i + 1 and every other key keeps its number |
| Home.Project | src/pages/home-v1.jsx:48-52 | defines the `{id, reblog, reply}` view entry of one status; a reply is a truthy `inReplyToAccountId` |
| Home.ProjectAll | src/pages/home-v1.jsx:46-53 | one view entry per status, in order, carrying its id, its reblog's id and whether it is a reply |
| Home.SortPage | src/pages/home-v1.jsx:40-45 | the page array ends newest first and is a permutation of the fetched page |
| Home.InsertNewest | src/pages/home-v1.jsx:41-45 | moving one status left past newer-ordered ones extends the sorted prefix by one and keeps the page a permutation |
| Home.SortedCopy | src/pages/home-v1.jsx:41-45 | the sorted page is newest first, of the same length, and holds the same statuses |
| Home.IsBoost | src/pages/home-v1.jsx:62 | defines a boost: an entry whose `reblog` id is present and non-empty, i.e. truthy |
| Home.Boosts | src/pages/home-v1.jsx:62-64 | the boost stash holds only boosts |
| Home.NonBoosts | src/pages/home-v1.jsx:65-66 | the special list holds only non-boosts |
| Home.BoostsPartition | src/pages/home-v1.jsx:60-71 | boosts and non-boosts together are exactly the page, nothing lost or added |
| Home.RunStep | src/pages/home-v1.jsx:62-70 | one more entry creates a run of three boosts exactly when it is a boost following two boosts |
| Home.Carousel | src/pages/home-v1.jsx:72-98 | defines the regrouped page: untouched unless boosts exceed a quarter or three come in a row; otherwise the non-boosts with one group of all boosts, at the end above three quarters, else at half the non-boosts |
| Home.BoostsCarousel | src/pages/home-v1.jsx:55-98 | the single loop and its `serialBoosts` counter give the carousel: grouped exactly when boosts exceed a quarter or three boosts appear in a row, otherwise untouched |
| Home.CarouselKeepsEveryItem | src/pages/home-v1.jsx:72-98 | every entry of the page appears exactly once in the output, either on its own or inside the group |
| Home.CarouselPlacement | src/pages/home-v1.jsx:74-94 | a grouped page has the non-boosts in order plus one group: last when boosts exceed three quarters, else at index half the non-boosts; length is non-boosts + 1 |
| Home.SaveAllCaches | src/pages/home-v1.jsx:46-47 | after a page is saved, every status and embedded reblog of it is cached and no earlier key is lost |
| Home.SavePage | src/pages/home-v1.jsx:46-47 | each status is saved in order with the page's instance, and one traversal is scheduled per status |
| Home.PageEntriesOf | src/pages/home-v1.jsx:46-98 | a non-empty page yields at least one timeline entry, with or without the carousel |
| Home.Unseen | src/pages/home-v1.jsx:364-367 | a streamed entry is kept exactly when no single entry of the timeline has its id |
| Home.UnseenIsFilter | src/pages/home-v1.jsx:364-368 | the kept entries are a `filter` of the streamed ones: it distributes over concatenation and keeps or drops each entry by its id, so order and repeats are kept |
| Home.HomeTimeline.FetchStatuses | src/pages/home-v1.jsx:30-120 | a first load resets the iterator and `homeNew`; a non-empty page, sorted and saved, replaces `home` (with `homeLast` its first entry) or is appended; an empty page changes neither; the sorted page is returned with the iterator's `done`; a failed fetch leaves the fetch time |
| Home.HomeTimeline.TakePage | src/pages/home-v1.jsx:39-115 | the non-empty page is sorted, saved, projected and placed on the timeline, replacing or appending |
| Home.HomeTimeline.ShowNewPosts | src/pages/home-v1.jsx:362-371 | without the carousel the unseen streamed entries go in front of the timeline; the buffer is emptied either way |
| StatusActions.CanBoost | src/components/status.jsx:296-304 | direct posts are never boostable; public and unlisted ones exactly when signed in; followers-only ones exactly when the viewer is the author, signed in or not |
| StatusActions.ConfirmText | src/components/status.jsx:326-329 | the confirm text always starts with the boost question |
| StatusActions.ConfirmWarnsIffUndescribed | src/components/status.jsx:322-329 | the warning is added exactly when some attachment has no description or one made only of white space |
| StatusActions.Shown.MayInteract | src/components/status.jsx:316 | defines who may boost, favourite or bookmark: a signed-in viewer on the post's own instance |
| StatusActions.Toggle | src/components/status.jsx:336-340 | the optimistic copy flips the action's flag, moves its counter one step toward the new flag (none for bookmarks), and changes no other field |
| StatusActions.ToggleTwice | src/components/status.jsx:336-340 | toggling twice restores the original status (an example that follows from the definitions) |
| StatusActions.Interact | src/components/status.jsx:335-354 | writes the optimistic copy, makes the undo or do request, then saves the server's status or restores the rendered object |
| StatusActions.BoostStatus | src/components/status.jsx:315-356 | off-instance or signed out: alert, no change; a new boost asks the confirm and a "no" changes nothing; an unboost never asks; otherwise the shared protocol runs, and the result is whether the request succeeded; on success the server's status is saved and one threading job for it is queued, on failure the rendered status is put back and the schedule is unchanged; thread numbers never change |
| StatusActions.FavouriteStatus | src/components/status.jsx:358-381 | the same protocol on `favourited`/`favouritesCount`, without a confirm: the saved response with its queued threading job, or the restored status with the schedule unchanged; thread numbers never change |
| StatusActions.BookmarkStatus | src/components/status.jsx:383-405 | the same protocol on `bookmarked`, without a counter: the saved response with its queued threading job, or the restored status with the schedule unchanged; thread numbers never change |
| StatusActions.FailedInteractionRestores | src/components/status.jsx:350-354 | after a failed request the post's key holds exactly the rendered object, and every other key is as before |
| StatusActions.DeleteStatus | src/components/status.jsx:651-665 | nothing without confirmation; a successful delete marks the cached entry deleted and says "Deleted"; a failed request or an uncached post says "Unable to delete" and leaves the cache |
| StatusActions.FormatDuration | src/components/status.jsx:1677-1690 | gives nothing exactly for 0 seconds |
| StatusActions.DurationFields | src/components/status.jsx:1679-1681 | hours, minutes and seconds add back up to the time, with minutes and seconds under 60 |
| StatusActions.ClockRoundTrip | src/components/status.jsx:1683-1689 | the clock text has two fields without hours and three with, every later field has two digits, and it parses back to the same seconds |
| StatusActions.FormatDurationRoundTrip | src/components/status.jsx:1677-1690 | `m:ss` under an hour, `h:mm:ss` from an hour on, zero-padded fields, and the text reads back as the same number of seconds |
| StatusActions.Clock | src/components/status.jsx:1683-1689 | defines the clock text: `m:ss` without hours, `h:mm:ss` with them |
| StatusActions.FindAccount | src/components/status.jsx:1505 | finds the first account with the id, or reports that none has it |
| StatusActions.MergeOne | src/components/status.jsx:1505-1513 | defines one merge step: a new account is appended with the type, a known one gets the type appended |
| StatusActions.MergeAll | src/components/status.jsx:1504-1514 | defines the merge of a whole page, account by account in order |
| StatusActions.MergeOneEffect | src/components/status.jsx:1505-1513 | merging one account keeps the ids unique, appends the type to that account and changes no other account's types |
| StatusActions.MergeAllUnique | src/components/status.jsx:1503-1528 | merging a page keeps one entry per account |
| StatusActions.MergeAllTypesOf | src/components/status.jsx:1504-1514 | after a page, an account's types gain the page's type once per occurrence of the account in the page |
| StatusActions.MergeAllTypes | src/components/status.jsx:1503-1528 | merging a page keeps accounts unique and adds the page's type to each account once per occurrence |
| StatusActions.ReactionTypesFromEmpty | src/components/status.jsx:1502-1528 | from an empty list, every account lists its boosts first and then its favourites, once per occurrence |
| StatusActions.ReactionsList.MergePage | src/components/status.jsx:1504-1514 | the loop over a page produces the merge specification of that page |
| StatusActions.ReactionsList.FetchAccounts | src/components/status.jsx:1481-1540 | a first load resets both iterators; pages are merged boosts then favourites; a rejected page sets the error state after merging what came before it; "show more" holds exactly when some account came and an iterator is not done |
| Shortcuts.Swap | src/components/shortcuts-settings.jsx:244-249 | the two slots are exchanged, every other slot and the length unchanged |
| Shortcuts.SwapIsPermutation | src/components/shortcuts-settings.jsx:244-265 | a move only reorders the shortcuts |
| Shortcuts.SwapTwice | src/components/shortcuts-settings.jsx:244-265 | moving a shortcut and moving it back restores the list (an example that follows from the definitions) |
| Shortcuts.MoveUpDownAgree | src/components/shortcuts-settings.jsx:243-266 | moving row i + 1 up and row i down give the same list (an example that follows from the definitions) |
| Shortcuts.Remove | src/components/shortcuts-settings.jsx:275 | the list loses position i, earlier shortcuts stay and later ones shift down by one |
| Shortcuts.RemoveLosesOnlyThat | src/components/shortcuts-settings.jsx:275 | removal loses exactly the removed shortcut |
| Shortcuts.ShortcutsStore.FormDisabled | src/components/shortcuts-settings.jsx:292 | the add form is disabled exactly when 9 or more shortcuts exist |
| Shortcuts.ShortcutsStore.MoveUp | src/components/shortcuts-settings.jsx:242-251 | for i > 0 the list is swapped at i - 1 and i; for the first row it is unchanged |
| Shortcuts.ShortcutsStore.MoveDown | src/components/shortcuts-settings.jsx:258-267 | for a row before the last the list is swapped at i and i + 1; for the last row it is unchanged |
| Shortcuts.ShortcutsStore.RemoveAt | src/components/shortcuts-settings.jsx:274-276 | the list becomes `Remove` at i |
| Shortcuts.ShortcutsStore.Submit | src/components/shortcuts-settings.jsx:292-320 | a disabled form or one without a type adds nothing; otherwise the form's shortcut is appended |
| Shortcuts.SubmittedBound | src/components/shortcuts-settings.jsx:292-320 | through the form alone, a list within the limit stays within it, and no shortcut is dropped |
| Shortcuts.ShortcutPath | src/components/shortcuts-settings.jsx:82-145 | a route exists exactly for the kinds with meta, and it starts with `/` |
| Shortcuts.ShortcutTitle | src/components/shortcuts-settings.jsx:82-145 | a title exists exactly for the kinds with meta; list and account titles name the shortcut's own id |
| Shortcuts.PathFieldReadsBack | src/components/shortcuts-settings.jsx:103-142 | for list, account, hashtag and search shortcuts, two of one kind share a route exactly when they share its field |
| Hashtags.ParseTags | src/pages/hashtag.jsx:31-32 | the parsed list is non-empty, sorted, and holds exactly the pieces of the trimmed parameter |
| Hashtags.ParsedTags | src/pages/hashtag.jsx:31-33 | no tag holds white space or `+`, and the primary tag is the least |
| Hashtags.TagsRoundTrip | src/pages/hashtag.jsx:207-210 | a sorted list of safe tags joined with `+` (or a space) parses back to itself |
| Hashtags.Route | src/pages/hashtag.jsx:207-210 | defines the route of a tag list: the tags joined with `+` under `/t/`, prefixed by the instance when there is one |
| Hashtags.ReachLimit | src/pages/hashtag.jsx:100 | defines when the add field is disabled: 5 or more tags |
| Hashtags.MatchesTagPattern | src/pages/hashtag.jsx:227 | defines the anchored pattern `[^#][^\s#]+[^#]`: at least three characters, no `#` anywhere, no white space inside |
| Hashtags.PatternTag | src/pages/hashtag.jsx:227 | a value the input pattern accepts trims to a non-empty tag without white space or `#` |
| Hashtags.AddedTags | src/pages/hashtag.jsx:195-213 | a tag is added exactly when the field is enabled, the pattern matches and no tag equals it up to case; the result is sorted and is the old tags plus the trimmed input |
| Hashtags.AddedTagsRoundTrip | src/pages/hashtag.jsx:205-210 | an added tag without `+` gives one more tag, and the route navigated to parses back to the new list |
| Hashtags.AddedTagsCaseDistinct | src/pages/hashtag.jsx:199-205 | adding keeps the tags distinct up to case |
| Hashtags.RemovedTags | src/pages/hashtag.jsx:237-245 | removal is possible exactly with more than one tag; the result is sorted and is the old tags minus that one |
| Hashtags.RemovedTagsKeepOrder | src/pages/hashtag.jsx:239-240 | on a sorted list the re-sort changes nothing: the other tags keep their order |
| Hashtags.RemovedTagsCaseDistinct | src/pages/hashtag.jsx:239-240 | removal keeps the tags distinct up to case |
| Hashtags.Duplicates | src/pages/hashtag.jsx:266-278 | defines a duplicate: a hashtag shortcut whose tags split, sort and join to the same text, with no instance or the same one |
| Hashtags.WithHashtagShortcut | src/pages/hashtag.jsx:279-283 | defines the shortcut list after "Add to Shortcuts": the new shortcut is appended unless a duplicate exists |
| Hashtags.WithHashtagShortcutIdempotent | src/pages/hashtag.jsx:259-284 | adding the page's shortcut twice adds it at most once |
| Hashtags.DuplicateIgnoresOrder | src/pages/hashtag.jsx:266-278 | the duplicate check treats the same tags in any order as the same shortcut |
| Hashtags.AddHashtagShortcut | src/pages/hashtag.jsx:257-285 | disabled when signed out; reports an existing duplicate; otherwise appends the shortcut, without checking the limit |
| Hashtags.GoToInstance | src/pages/hashtag.jsx:289-302 | navigates exactly when the answer contains a dot; alerts exactly for a non-empty answer without one |
| Hashtags.NavigatedInstance | src/pages/hashtag.jsx:298-300 | the instance navigated to is the lower-cased, trimmed answer; it keeps its dot and is already normalised |
| Hashtags.HashtagPage.constructor | src/pages/hashtag.jsx:29-33 | the tags are the parsed route parameter and the primary tag is the first of them |
| Hashtags.HashtagPage.AddTag | src/pages/hashtag.jsx:195-213 | the tag list becomes `AddedTags` and the route of the new list is navigated to, or nothing changes |
| Hashtags.HashtagPage.RemoveTag | src/pages/hashtag.jsx:238-245 | the tag list becomes `RemovedTags` and the route of the new list is navigated to, or nothing changes |
| Hashtags.HashtagPage.FetchHashtags | src/pages/hashtag.jsx:45-64 | the iterator for the primary tag with the other tags as `any` is reopened on a first load or when missing; a first non-empty page sets the latest id; every post is saved; the page is returned with the iterator's `done` |
| AccountStatuses.PinAll | src/pages/account-statuses.jsx:27-29 | every pinned post is flagged `_pinned`, nothing else changes |
| AccountStatuses.Posts | src/pages/account-statuses.jsx:47-50 | defines the page's posts as results, one entry each, in order |
| AccountStatuses.PinnedPart | src/pages/account-statuses.jsx:26-40 | defines the pinned results: nothing, the one flagged post, or one group of all flagged posts with their ids |
| AccountStatuses.AccountTimeline.FlagPinned | src/pages/account-statuses.jsx:27-29 | the loop flags every pinned post |
| AccountStatuses.PinnedPartShows | src/pages/account-statuses.jsx:26-40 | the pinned part shows exactly the flagged pinned posts, in at most one entry |
| AccountStatuses.FirstLoadShows | src/pages/account-statuses.jsx:19-54 | the results show the flagged pinned posts once each, in order, then the page's posts; pinning keeps every id |
| AccountStatuses.PinnedGroupFirst | src/pages/account-statuses.jsx:30-36 | with several pinned posts, one group comes first with their ids and items in order, followed by the page's posts |
| AccountStatuses.AccountTimeline.FetchAccountStatuses | src/pages/account-statuses.jsx:18-55 | pinned posts only on a first load; the iterator is reopened on a first load or when missing; the result is the pinned part then the page, with `done` passed through; a failed request fails the load |
| Polls.PollVotesCount | src/components/poll.jsx:51 | the voter count when it is present and non-zero, otherwise the vote count |
| Polls.RoundPrecision | src/components/poll.jsx:52-60 | 0 up to 1000, 1 up to 10000, 2 up to 100000, and 0 above |
| Polls.MaxVotes | src/components/poll.jsx:103 | the largest count over the options, reached by one of them |
| Polls.IsLeading | src/components/poll.jsx:100-103 | defines a leading option: a positive count equal to `Math.max` of all counts |
| Polls.LeadingIff | src/components/poll.jsx:100-103 | an option leads exactly when its count is known, positive, and not exceeded by any option |
| Polls.SomeOptionLeads | src/components/poll.jsx:100-103 | once any option has a vote, some option leads |
| Polls.Percentage | src/components/poll.jsx:94-98 | the share is 0 when the total is 0, and never negative |
| Polls.PercentageOrder | src/components/poll.jsx:94-98 | shares follow counts, and a count within the total gives at most 100 |
| Polls.PollChoices | src/components/poll.jsx:157-162 | no more choices than form entries |
| Polls.CollectChoices | src/components/poll.jsx:157-162 | the loop collects the `poll` values in order |
| Polls.ChoicesOfForm | src/components/poll.jsx:170-181 | the choices are exactly the checked options' indices, once each, in increasing order |
| Polls.VoteIffChecked | src/components/poll.jsx:157-163 | a vote is sent exactly when some option is checked |
| Polls.ShowsResults | src/components/poll.jsx:89 | defines when results replace the form: the toggle is on and every option has a count, or the poll is voted on or expired |
| Polls.ResultsAfterVoting | src/components/poll.jsx:89 | a voted or expired poll shows results whatever the toggle (an example that follows from the definitions) |
| Polls.PollView.ToggleResults | src/components/poll.jsx:85-87 | a double click flips the results toggle |
| Polls.PollView.HideResults | src/components/poll.jsx:89-148 | "Hide results" clears the toggle; the button exists only inside the results pane (results shown, which for an open poll not voted on needs the toggle on and every option counted), only for an open poll not voted on, and is disabled while a vote is loading; otherwise nothing changes |
| Polls.PollView.Submit | src/components/poll.jsx:153-167 | no choice means no vote and no state change; otherwise the choices are sent and the view loads until the vote settles |
| Polls.Plural | src/components/poll.jsx:227-228 | the word stays singular exactly for 1, otherwise it gets an `s` |
| Polls.VoteLine | src/components/poll.jsx:227-236 | the voter label appears exactly when the voter count is non-zero and differs from the vote count |
| Polls.VoterLineDiffers | src/components/poll.jsx:229 | a voter line appears exactly when the total used for percentages differs from the vote count (an example that follows from the definitions) |
| Names.RemoveShortcodes | src/components/name-text.jsx:26 | removing shortcodes never lengthens the text or adds a capital |
| Names.RemoveShortcodesPlain | src/components/name-text.jsx:26 | text without a colon is kept whole |
| Names.ShortcodeTokenRemoved | src/components/name-text.jsx:26 | a `:code:` token at the front is cut out and scanning resumes right after it |
| Names.RemoveWhitespace | src/components/name-text.jsx:27 | removing white space adds no capital; Names.RemoveWhitespaceAppend states that it is the filter of non-space characters |
| Names.RemoveWhitespaceAppend | src/components/name-text.jsx:27 | removing white space is a filter: it distributes over concatenation and keeps one character exactly when it is not white space, so every other character survives in order |
| Names.RemoveWhitespaceSpec | src/components/name-text.jsx:27 | no white space is left, and text without white space is kept whole |
| Names.KeepAlnum | src/components/name-text.jsx:28 | only ASCII letters and digits remain; text made only of them is kept whole; Names.KeepAlnumAppend states that it is the filter of ASCII letters and digits |
| Names.KeepAlnumAppend | src/components/name-text.jsx:28 | keeping letters and digits is a filter: it distributes over concatenation and keeps one character exactly when it is an ASCII letter or digit, so every letter and digit survives in order |
| Names.NormalizedHasNoCapital | src/components/name-text.jsx:23-24 | a lower-cased and trimmed name holds no capital |
| Names.ShortenedDisplayName | src/components/name-text.jsx:25-28 | the shortened display name holds only lower-case letters and digits |
| Names.LowerAlnumKept | src/components/name-text.jsx:23-28 | every normalising step keeps a lower-case alphanumeric name as it is |
| Names.ShortenedIsFixed | src/components/name-text.jsx:25-28 | shortening a shortened name changes nothing |
| Names.HideUsername | src/components/name-text.jsx:23-36 | defines when `@username` is hidden: not the short form, and the normalised username equals the normalised or the shortened display name |
| Names.Render | src/components/name-text.jsx:59-83 | defines the rendered parts: bold display name with an optional italic `@username`, or the `@username` alone, then the acct line when asked |
| Names.ShortShowsUsername | src/components/name-text.jsx:30-74 | in the short form the username is never hidden and leads as `@username` (an example that follows from the definitions) |
| Names.DisplayNameFirst | src/components/name-text.jsx:59-72 | with a display name and not short, the name comes first in bold; `@username` follows exactly when the full handle is off and the username is neither hidden nor empty |
| Names.ShortcodeSuffixHides | src/components/name-text.jsx:23-36 | a display name `name :code:` hides a username equal to `name` |
| Names.ShortenedSuffixed | src/components/name-text.jsx:25-28 | shortening `name :code:` gives back `name` |
| Text.Trim | src/pages/hashtag.jsx:31 | trimmed text is no longer, starts and ends with non-space, and text already so is kept |
| Text.TrimOffset | src/pages/hashtag.jsx:197 | trimming cuts out a slice, with only white space before and after it |
| Text.TrimBlank | src/components/status.jsx:324 | trimming leaves nothing exactly when the text is all white space |
| Text.TrimKeeps | src/pages/hashtag.jsx:299 | every non-space character survives trimming |
| Text.Lower | src/components/name-text.jsx:23 | lower-casing maps each character on its own and keeps the length |
| Text.SplitRuns | src/pages/hashtag.jsx:31 | splitting yields at least one piece, none holding a separator |
| Text.SplitJoin | src/pages/hashtag.jsx:207-210 | splitting undoes a join of non-empty pieces free of separators |
| Text.SortStrings | src/pages/hashtag.jsx:32 | sorting keeps exactly the same strings |
| Text.SortStringsSorted | src/pages/hashtag.jsx:32 | the sorted list is in the default string order |
| Text.SortStringsOfSorted | src/pages/hashtag.jsx:240 | sorting a sorted list changes nothing |
| Text.SortStringsOrderFree | src/pages/hashtag.jsx:270-276 | lists with the same strings sort to the same list |
| Text.DecimalString | src/components/status.jsx:1684 | a whole number renders as digits without a leading zero |
| Text.DecimalStringValue | src/components/status.jsx:1684 | the digits read back as the number |
| Text.Pad2 | src/components/status.jsx:1684-1688 | padding gives at least two digits, exactly two under 100, that read back as the number |

The rows marked "an example that follows from the definitions" record a promise of the source that holds by unfolding the definitions, with no induction. The proof work of the model lies in the inductions and loop invariants, chiefly `States.StatusCache.Traverse` and `Threadify`, `Home.BoostsCarousel`, `StatusActions.MergeAllTypes`, `Hashtags.AddedTagsRoundTrip` and `AccountStatuses.FirstLoadShows`.

## Left out

- Floating point:
  - `formatDuration` takes whole seconds, so `Math.round` of a fractional second is not modelled.
  - Poll percentages are exact rationals before `toFixed`; the rounding to `roundPrecision` decimals is not modelled.
- Lower-casing covers ASCII capitals only. Other scripts and the Unicode case tables are not modelled.
- Dates are integer timestamps. Parsing `createdAt` with `new Date` is not modelled.
- Strings are compared by character, with no UTF-16 surrogate pairs. The stability of the engine's `sort` is not modelled: the page sort is proved to order by time and permute, but not to keep the server's order between posts with equal times.
- In-place mutation:
  - `_pinned` and `_deleted` are written onto copies held in the model's collections. Aliasing with other holders of the same JavaScript object is not modelled.
  - The reactions list is modelled as a sequence of values rather than shared objects.
- Scheduling and concurrency:
  - `requestAnimationFrame` is an explicit queue, `scheduled`, run by `States.StatusCache.RunScheduledJob`.
  - The 500 ms backoff, the debounce of timeline loads and throttling are not modelled.
  - Interleaved async traversals share a fetch counter only within one call.
  - Overlapping optimistic actions on one post are not modelled.
- `States.StatusCache.Traverse`: the engine's call-stack limit is a `fuel` bound. Running out of fuel is an abort like the others, because `threadifyStatus` catches every error.
- `mem` memoisation of parent fetches is not modelled. The fetch oracle is a function of the id, so repeated fetches agree, as the memo guarantees.
- API client resolution (`api({instance})`) is a parameter: the instance given to an operation, and `resolve` in `RunScheduledJob`.
- Rendering:
  - emoji images, avatars, icons;
  - the hashtag page's title, `checkForUpdates`, and the tag info and follow menu;
  - the poll's refresh and expiry timer;
  - `shortenNumber`.
- Alerts and toasts are outcomes or parameters. For the failed optimistic actions, only the restoring of the cache is modelled.
- States.ResolveSaveArgs: an options property present with the value `undefined` is copied by `Object.assign` and so reads as false; the model has only present-with-a-boolean or missing (`Option`), so an explicit `undefined` is not modelled.
- Polls.PollChoices: its own contract states only a bound; what the form sends is stated by Polls.ChoicesOfForm and Polls.VoteIffChecked.
- StatusActions.ConfirmText: its own contract states only the fixed question; when the warning is added is stated by StatusActions.ConfirmWarnsIffUndescribed.
- StatusActions.FormatDuration: its own contract states only when there is no text; the format is stated by StatusActions.FormatDurationRoundTrip.
- Home.Boosts: its own contract states only that every item is a boost; that boosts and non-boosts together are the page is Home.BoostsPartition.
- Home.NonBoosts: likewise, completeness is Home.BoostsPartition.
- Text.Trim: its own contract states the ends and a fixed point; which characters remain is Text.TrimOffset, Text.TrimBlank and Text.TrimKeeps.
- Text.SplitRuns: its own contract states only that pieces hold no separator; that it inverts a join is Text.SplitJoin.
- Names.RemoveShortcodes: its own contract states a bound and case; what is removed is Names.ShortcodeTokenRemoved and Names.RemoveShortcodesPlain.
- Names.RemoveWhitespace: its own contract states only that no capital is added; that it is the filter of non-space characters is Names.RemoveWhitespaceAppend.
- Names.KeepAlnum: its own contract states which characters remain and that clean text is kept whole; that it is the filter of ASCII letters and digits is Names.KeepAlnumAppend.
- Authentication (`src/utils/auth.js`), media viewers, list editing, link handling and the build configuration are not part of this model.
