# Instagram story and post downloader: cookie interpretation, batch progress, user list

This is a Dafny model of the sequential logic in a small desktop downloader.
The application keeps a list of Instagram usernames and a pasted browser
cookie string. For the chosen users it downloads stories and/or posts through
an external scraping library, showing one progress bar and a log panel. It
covers three parts:

- **Starting a download** (`start_download_thread`). The request is refused,
  in this order, when no user is chosen, when neither phase is ticked, when
  the stored cookie text is blank, and when none of three readings of the
  text yields a credential mapping. The readings are tried in a fixed order:
  a `cookies = {...}` code snippet, then JSON, then a `key=value; key2=value2`
  list. Only a request that passes every check clears the cancel flag and
  resets the bar to 0.
- **The download itself** (`run_downloads` and `download_media`). The users
  are processed in order, and user `i` of `n` owns the share
  `[100·i/n, 100·(i+1)/n]` of the bar. For each user, `download_media` reads
  the cancel flag before any work and again before each enabled phase. It
  runs stories before posts and catches a failure in either phase. After the
  k-th of T phases it reports `⌊k·100/T⌋`, and its `finally` returns to the
  original directory and reports 100.
- **The user list** (`add_user`, `remove_selected_users`,
  `get_selected_users`, `update_user_listbox`, `quick_download`). The
  listing is the keys of `user_vars`: the distinct stored names in sorted
  order, each with its checkbox variable.

Effects on the outside world are recorded as event sequences, in the order
they happen:

- `Downloader.Event` records one user's directory changes, progress reports,
  log messages and library calls.
- `Journal.Effect` records the application's log lines, progress values,
  directory changes and library calls.

The pure specification functions are `Downloader.Media` and `Batch.Run`. The
imperative code is written as methods proved against them:

- `Downloader.DownloadMedia` and `Downloader.TryBlock` for `download_media`;
- the `Gui.App` class for the window's mutable state.

The lemmas state the promised properties about the specification functions.

Two external inputs are modelled as functions:

- The cancel flag, which another thread may set at any time, is `Flags`: the
  value each successive read of the flag sees.
- The scraping library is `Collaborator`: for each (user, credentials, phase),
  whether the call returns normally or raises.

A cancelled run does not end at 100: gui.py:556-560 sets the bar to 100 only
when the flag is clear at the end. `Batch.RunProgress` states this, and
`Batch.CancelAfterFirst` shows a two-user run, cancelled before the second
user, that ends at 50.

Modules:

- `Wrappers`: Option.
- `Text`: Python's `strip`, `split`, `in` and first-index on strings.
- `Names`: Python's string order and the sorted listing.
- `Roster`: `list.remove` and removing several names.
- `Cookies`: the three readings and the strategy chain.
- `Window`: the per-user share of the bar.
- `Downloader`: `download_media`.
- `Journal`: the application-level effects and their views.
- `Batch`: `run_downloads` as a function of its inputs.
- `Gui`: the validation cascade and the window class.

## Model

| member | source | states |
|---|---|---|
| Text.TrimStart | gui.py:408 | `lstrip()`: drops the leading whitespace; its meaning is proved in `TrimStartMeaning` |
| Text.TrimEnd | gui.py:408 | `rstrip()`: drops the trailing whitespace; its meaning is proved in `TrimEndMeaning` |
| Text.Strip | gui.py:408 | `str.strip()`, both trims in turn; its meaning is proved in `StripMeaning` |
| Text.Contains | gui.py:498 | Python's substring test `pat in text`: some suffix of the text starts with the pattern |
| Text.StripMeaning | gui.py:408 | `strip()` gives the empty string exactly for all-whitespace input; otherwise the result starts and ends with non-whitespace |
| Text.TrimStartMeaning | gui.py:492 | leading-whitespace removal leaves a suffix of the input; everything removed is whitespace and what remains starts with non-whitespace |
| Text.TrimEndMeaning | gui.py:492 | trailing-whitespace removal leaves a prefix of the input; everything removed is whitespace and what remains ends with non-whitespace |
| Text.StripTrimmed | gui.py:516 | text with no whitespace at either end is unchanged by `strip()` |
| Text.Split | gui.py:514 | `split(';')` yields at least one piece, and no piece contains the separator |
| Text.JoinSplit | gui.py:514 | joining the pieces of a split with the separator gives back the original text |
| Text.SplitJoin | gui.py:514 | splitting joined separator-free pieces gives back those pieces |
| Text.SplitCons | gui.py:514 | a separator-free piece followed by the separator splits off as the first piece |
| Text.SplitAtom | gui.py:514 | a separator-free text splits into itself alone |
| Text.IndexOf | gui.py:516 | the position that `split('=', 1)` cuts at holds `=`, and no `=` occurs before it |
| Text.IndexOfAt | gui.py:516 | a position holding `=` with no earlier `=` is the cut position |
| Names.Below | gui.py:389 | Python's `<` on strings, the order `sorted` uses: code point by code point, a proper prefix first |
| Names.BelowIrreflexive | gui.py:389 | no name sorts before itself |
| Names.BelowTransitive | gui.py:389 | the string order used by `sorted` is transitive |
| Names.BelowTotal | gui.py:389 | any two different names are ordered one way or the other |
| Names.Insert | gui.py:389 | inserting a name into a strictly ascending listing keeps it strictly ascending and adds exactly that name |
| Names.Listing | gui.py:383-405 | the keys of `user_vars` are strictly ascending and are exactly the stored names |
| Names.SortedUnique | gui.py:389-403 | two strictly ascending sequences with the same names are equal, so the listing is determined by the stored names |
| Names.ElemsEmpty | gui.py:389 | a listing is empty exactly when it has no names |
| Names.Only | gui.py:442-443 | keeping the ticked names of a listing gives exactly those names, still ascending |
| Roster.RemoveFirst | gui.py:423 | `list.remove(x)` takes exactly one occurrence of `x` out of the list |
| Roster.RemoveEach | gui.py:421-424 | removing each name of a selection once takes exactly those occurrences out, and the list shrinks by the selection's length |
| Roster.Without | gui.py:421-424 | filtering a set of names out leaves exactly the other names |
| Roster.RemoveFirstIsFilter | gui.py:423 | on a list without repetitions, `remove(x)` is the same as filtering `x` out |
| Roster.RemoveEachIsFilter | gui.py:419-424 | on a list without repetitions, removing each ticked name once leaves the unticked names in their original order |
| Roster.WithoutNoDup | gui.py:419-424 | filtering keeps a list free of repetitions |
| Roster.WithoutKeeps | gui.py:419-424 | filtering out names the list does not hold changes nothing |
| Roster.WithoutTwice | gui.py:419-424 | filtering two sets in turn equals filtering their union |
| Roster.SortedNoDup | gui.py:389 | a strictly ascending listing has no repetitions |
| Roster.DistinctFits | gui.py:421-424 | distinct names that all occur in the list can each be removed once |
| Roster.OnlySnoc | gui.py:443 | the ticked names grow at the end as the listing is walked |
| Roster.OnlyNoDup | gui.py:443 | the ticked names of a repetition-free listing have no repetitions |
| Cookies.Segments | gui.py:514 | the segments of the `;` split that `strip()` does not empty, in order |
| Cookies.Key | gui.py:516 | the stripped text before the first `=` of a segment |
| Cookies.Value | gui.py:516 | the stripped text after the first `=` of a segment, which may itself hold `=` |
| Cookies.Collect | gui.py:516 | the dictionary comprehension over the segments, a later segment overriding an earlier one; see `CollectKeys` and `CollectLastWins` |
| Cookies.NonBlank | gui.py:514 | the kept segments are exactly the segments that `strip()` does not empty, in their original order |
| Cookies.Names | gui.py:516 | the segments carry one name each |
| Cookies.Semicolon | gui.py:512-520 | the `key=value;` reading yields a mapping exactly when every non-blank segment contains `=` |
| Cookies.SemicolonMeaning | gui.py:514-516 | the reading succeeds iff every kept segment has `=`, and its keys are then exactly the stripped names before the first `=` |
| Cookies.CollectLastWins | gui.py:516 | when a name repeats, the value of its last segment is kept; the value is everything after the first `=`, stripped |
| Cookies.CollectKeys | gui.py:516 | the mapping's keys are exactly the names the segments carry |
| Cookies.NoPartialMapping | gui.py:515-520 | one non-blank segment without `=` makes the whole reading fail, with no partial mapping |
| Cookies.WordsRejected | gui.py:514-518 | non-blank text with neither `;` nor `=` is rejected |
| Cookies.LoneSemicolon | gui.py:514-516 | `;` leaves no segment and yields the empty mapping, not an error |
| Cookies.TwoPairs | gui.py:514-516 | `a=1; b=2;` yields `{a: 1, b: 2}` |
| Cookies.TwoPairsItems | gui.py:514 | the segments of `a=1; b=2;` are `a=1` and ` b=2` |
| Cookies.SegmentsTwo | gui.py:514 | two non-blank segments, each closed by `;`, are read as those two segments in order |
| Cookies.CollectTwo | gui.py:516 | two segments give the mapping of their two name/value pairs, the later overriding |
| Cookies.RenderRoundTrip | gui.py:514-516 | writing pairs as `k=v;k2=v2` and reading the text back gives the mapping those pairs denote |
| Cookies.CollectPieces | gui.py:516 | the comprehension over written pairs gives the mapping of those pairs |
| Cookies.PieceParts | gui.py:516 | a written `k=v` segment splits back into `k` and `v` |
| Cookies.NonBlankKeeps | gui.py:514 | when no segment is blank, the blank filter keeps every segment |
| Cookies.Interpret | gui.py:497-524 | the snippet reading wins when the marker is present and it succeeds; otherwise the JSON reading wins when it succeeds; otherwise the result is the `key=value;` reading; nothing only when all three fail |
| Cookies.SnippetNeedsMarker | gui.py:498-504 | without the text `cookies = {` the snippet parser is never consulted |
| Cookies.JsonOnlyWhenUnset | gui.py:506-510 | once the snippet parser yields a mapping, the JSON parser is not consulted |
| Cookies.SnippetExample | gui.py:498-502 | a `cookies = {...}` snippet gives the snippet parser's mapping |
| Cookies.NotValidAtAll | gui.py:512-524 | `not valid at all` ends in the parse error unless the JSON parser accepts it |
| Cookies.NotValidSemicolon | gui.py:514-518 | the `key=value;` reading rejects `not valid at all` |
| Cookies.NotValidNoMarker | gui.py:498 | `not valid at all` does not carry the snippet marker |
| Window.Start | gui.py:546 | the start of user `i`'s share, `100·i/n` |
| Window.End | gui.py:547 | the end of user `i`'s share, `100·(i+1)/n` |
| Window.ShareBounds | gui.py:546-547 | user `i`'s share lies within [0, 100] and is non-empty; the first starts at 0, the last ends at 100, and each ends where the next begins |
| Window.Total | gui.py:549-552 | step 0 maps to the start of the share, step 100 to its end, and steps in [0, 100] stay inside the share |
| Window.TotalMonotone | gui.py:551 | a larger step never maps to a smaller total |
| Downloader.TotalSteps | downloader.py:32 | the step count is the number of enabled phases |
| Downloader.PhaseRun | downloader.py:40-50 | the events of one phase past its checkpoint; see `PhaseViews` |
| Downloader.Attempt | downloader.py:24-67 | the events and flag reads of the `try` block; see `AttemptViews`, `AttemptCheckpoints` and `AttemptCancelNote` |
| Downloader.Media | downloader.py:4-71 | the events and flag reads of `download_media`; see `MediaReports`, `MediaCheckpoints`, `MediaIsolation`, `MediaProgress` and `MediaCancelNote` |
| Downloader.DownloadMedia | downloader.py:4-71 | the events are those of `Media`: enter the download directory, the `try` block, then return to the original directory and report 100 |
| Downloader.TryBlock | downloader.py:24-67 | the counter-based `try` block with early returns produces exactly the events and flag reads of `Attempt` |
| Downloader.DownloadPhase | downloader.py:40-50 | one phase past its checkpoint is announced, called once and logged as success or failure; it then reports `done·100/total` |
| Downloader.StepValues | downloader.py:32-67 | one step value per completed phase |
| Downloader.StepValuesAt | downloader.py:49-50 | the k-th completed phase reports `⌊k·100/T⌋` |
| Downloader.AttemptViews | downloader.py:24-67 | the `try` block calls the enabled phases in order up to the first checkpoint that sees the flag; it reports 0 and then one `⌊k·100/T⌋` per completed phase, with no directory change |
| Downloader.PhaseViews | downloader.py:40-50 | one phase makes exactly one library call and one report |
| Downloader.FinallyViews | downloader.py:21-22 | a `try` block between the directory changes and the final report keeps its calls; its reports gain a final 100, and the directories are the download path then the original one |
| Downloader.MediaReports | downloader.py:26-71 | reports are 0, then `⌊k·100/T⌋` per completed phase, then 100; the calls are a prefix of the enabled phases; the directories are the download path, then the original directory |
| Downloader.MediaViews | downloader.py:21-71 | `download_media` has the calls and flag reads of its `try` block, its reports plus a final 100, and its directories between the two changes |
| Downloader.ReportsShape | downloader.py:26-71 | 0, the step values, then 100 stay in [0, 100] and never decrease |
| Downloader.MediaProgress | downloader.py:26-71 | one user's reports start at 0, end at 100, stay in [0, 100] and never decrease, on every path |
| Downloader.AttemptCheckpoints | downloader.py:28-56 | the calls of the `try` block are a prefix of the enabled phases, one per clear phase checkpoint; the flag is read once before the work and once before each enabled phase; every read but the last saw it clear; a skipped phase means the last read saw it set, and a set last read means some enabled phase was skipped |
| Downloader.MediaCheckpoints | downloader.py:28-56 | the calls are a prefix of the enabled phases, one per clear phase checkpoint, so once a checkpoint sees the flag no later phase is called; the flag is read once before the work and once before each enabled phase; every read but the last saw it clear; a skipped phase means the last read saw it set, and a set last read means some enabled phase was skipped |
| Downloader.AttemptIsolation | downloader.py:40-67 | the library's success or failure changes only the `try` block's log messages; its reports, calls, directories and flag reads are the same |
| Downloader.MediaIsolation | downloader.py:47-50 | the library's success or failure changes only the log messages; the reports, the calls, the directories and the flag reads are the same |
| Downloader.PhaseRunQuiet | downloader.py:40-50 | a phase that runs logs no cancellation |
| Downloader.AttemptCancelNote | downloader.py:28-56 | a cancellation message appears iff the last flag read saw it set; it is then the last event of the `try` block and the only such message |
| Downloader.MediaCancelNote | downloader.py:28-71 | over `download_media`, a cancellation message appears iff the last read saw the flag; only the return to the original directory and the final 100 follow it |
| Downloader.CancelNotedAt | downloader.py:29 | a cancellation is noted exactly when some event is a cancellation message |
| Downloader.BothPhasesTrace | downloader.py:32-71 | both phases, no cancellation: the reports are 0, 50, 100, 100 |
| Downloader.OnePhaseTrace | downloader.py:32-71 | one phase, no cancellation: the reports are 0, 100, 100 |
| Downloader.NoPhaseTrace | downloader.py:32-71 | no phase: no division happens, the reports are 0, 100, no library call is made and the flag is read once |
| Journal.ProgressIsLast | gui.py:466-467 | the bar shows the last value given to it, or its earlier value if none was given |
| Journal.JournalAppend | gui.py:449-454 | the log lines, progress values, calls and announcements of two stretches of effects are those of each in turn |
| Batch.Loop | gui.py:539-554 | the effects of the loop from user `i` on, and the next flag read; see `LoopProgress`, `LoopPrefix`, `LoopCalls` and `LoopQuiet` |
| Batch.Visit | gui.py:544-554 | one user announced and downloaded, then the rest of the loop |
| Batch.Finish | gui.py:556-560 | the lines and value after the loop, chosen by the last flag read; see `FinishValues` |
| Batch.Run | gui.py:534-560 | everything `run_downloads` does; see `RunProgress`, `RunOrder`, `RunFull`, `RunIsolation` and `RunQuiet` |
| Batch.LiftViews | gui.py:549-554 | through the callback, a user's reports become its share of the bar and its calls become calls for that user |
| Batch.UserWindow | gui.py:546-554 | user `i`'s bar values start at the start of its share, end at its end, stay inside it and never decrease |
| Batch.LoopProgress | gui.py:539-554 | from user `i` on, the bar never goes back and stays between the start of `i`'s share and 100 |
| Batch.LoopBounds | gui.py:539-554 | over the loop, the bar never goes back and stays within [0, 100] |
| Batch.FinishValues | gui.py:556-560 | after the loop, a clear flag logs completion and sets 100; a set flag logs the cancelled finish and sets nothing |
| Batch.FinishProgress | gui.py:556-560 | the end of the run keeps the bar in [0, 100] and non-decreasing, and leaves it at 100 exactly when the flag was clear |
| Batch.RunProgress | gui.py:534-560 | over a run the bar never goes back and stays in [0, 100]; it ends at 100 when the final read finds the flag clear, and otherwise at the loop's last value |
| Batch.LoopStop | gui.py:540-542 | a checkpoint that sees the flag logs the cancellation and starts no user |
| Batch.LoopPrefix | gui.py:539-554 | the users announced are the next ones in order, and a loop that stops short logs the cancellation |
| Batch.LoopEntries | gui.py:539-554 | the loop never logs completion or the cancelled finish |
| Batch.LoopCalls | gui.py:539-554 | every library call is for an announced user and an enabled phase |
| Batch.RunOrder | gui.py:538-560 | the users reached are a prefix of those chosen; stopping short is logged; calls are for reached users and enabled phases; exactly one of completion or cancelled finish is logged, according to the final read |
| Batch.LoopFull | gui.py:539-554 | with the flag never set, every user is announced in order and every enabled phase of each is called |
| Batch.RunFull | gui.py:534-560 | an uninterrupted run reaches every user in order and calls every enabled phase of each; it logs completion last and leaves the bar at 100 |
| Batch.LoopIsolation | gui.py:539-554 | the library's failures leave the loop's progress values, calls, announcements and flag reads unchanged |
| Batch.RunIsolation | gui.py:534-560 | a failure never ends the batch: progress values, calls and users reached do not depend on the library's success |
| Batch.LiftSeen | gui.py:549-554 | a user's lifted events contain a cancellation line iff its download logged one |
| Batch.MediaAfter | downloader.py:28-71 | when a user's download saw the flag, only the return to the original directory and the end of the user's share follow |
| Batch.LoopQuiet | gui.py:539-554 | with a flag that stays set once set, no user is started and no call is made after the first cancellation line |
| Batch.RunQuiet | gui.py:538-560 | for a flag that stays set once set, cancellation stops the work: after any line saying a checkpoint saw the flag, no library call is made and no user is started |
| Batch.FinishQuiet | gui.py:556-560 | the end of the run starts no user and calls nothing |
| Batch.TwoUsersTrace | gui.py:538-560 | two users, both phases, no cancellation: the bar shows 0, 25, 50, 50, 50, 75, 100, 100, 100, so 50 after the first user and 100 at the end |
| Batch.BothPhasesShare | gui.py:546-554 | one of two users with both phases maps 0, 50, 100, 100 into its half of the bar |
| Batch.FirstThenStop | gui.py:539-542 | with the flag set before the second user's checkpoint, the first user runs in full and the loop stops |
| Batch.CancelAfterFirst | gui.py:538-560 | cancelled before the second user: only the first user is announced and called, the run ends with the cancelled finish, and the bar is left at 50 |
| Gui.Launch | gui.py:476-532 | the decision of the validation cascade; see `LaunchStarts` and `LaunchOrder` |
| Gui.LaunchStarts | gui.py:476-532 | a download starts iff there are users, at least one phase, non-blank stored text and a mapping from the strategy chain; it uses those users, that path and that mapping |
| Gui.LaunchOrder | gui.py:482-495 | the checks run in order: no users, then no phase, then blank text; a request refused by the first two does not depend on the stored text |
| Gui.ReadCookies | gui.py:497-524 | the reassigned `cookies` variable ends as the strategy chain's result |
| Gui.RemoveTicked | gui.py:420-424 | walking the listing removes each ticked name once, in screen order; the count is the number of ticked names and the list shrinks by it |
| Gui.RemovalOutcome | gui.py:419-429 | the ticked names can each be removed once, one per ticked box; on a list without repetitions, removing them leaves exactly the unticked names |
| Gui.TickedStep | gui.py:422-424 | a ticked box adds its name to the names removed so far |
| Gui.SkippedStep | gui.py:422 | an unticked box adds nothing |
| Gui.DistinctSize | gui.py:446 | a list without repetitions has as many entries as distinct names |
| Gui.App.constructor | gui.py:34-381 | the window opens on the loaded names, path and cookie text; it lists them sorted with nothing ticked, the flag clear and the bar at 0, and the log holds the two start-up lines |
| Gui.App.ListingMatches | gui.py:383-405 | the keys of `user_vars` are always the sorted, de-duplicated stored list |
| Gui.App.SelectedUsers | gui.py:442-443 | the selected users are exactly the ticked names, in ascending order |
| Gui.App.StartButtonCount | gui.py:445-447 | the start button shows the number of ticked boxes |
| Gui.App.Emit | gui.py:449-454 | log lines are appended to the panel and the bar takes the last value given; nothing else changes |
| Gui.App.UpdateUserListbox | gui.py:383-405 | the checkboxes are rebuilt from the stored list, none ticked |
| Gui.App.SaveSettings | gui.py:437-439 | the stored cookie text becomes the box's text stripped (empty exactly when that text is all whitespace, and unchanged by a second strip), the stored path becomes the path field, and "Settings saved." is logged; the names, ticks and flag stay |
| Gui.App.SetChecked | gui.py:390-403 | ticking or unticking a box changes only that name's tick; the stored list, settings, flag and log stay |
| Gui.App.AddUser | gui.py:407-417 | a non-empty, not yet stored stripped name is appended at the end and the listing rebuilt; otherwise the list is unchanged and the empty-name or duplicate message is logged; a list without repetitions stays so |
| Gui.App.RemoveSelectedUsers | gui.py:419-429 | the count is the number of ticked boxes; the list loses exactly the ticked names once each (on a repetition-free list, the unticked names in order); nothing selected changes nothing and logs a warning |
| Gui.App.StartDownloadThread | gui.py:476-532 | the outcome is the validation cascade on the given or ticked users; only a start clears the flag and resets the bar to 0; an empty selection only logs a warning; other refusals change nothing |
| Gui.App.QuickDownload | gui.py:469-474 | an empty stripped name only logs an error; otherwise the cascade runs for that one name: a start (with at least one phase) clears the flag and resets the bar to 0, and a refusal changes nothing; the list and settings stay |
| Gui.App.RunDownloads | gui.py:534-563 | the log lines and bar values of the download thread are exactly those of `Batch.Run` |
| Gui.App.RunLoop | gui.py:538-554 | the `for` loop's effects are those of `Batch.Loop`, and it returns the next flag read |
| Gui.App.StopUser | gui.py:540-542 | a checkpoint that sees the flag logs the cancellation and ends the loop |
| Gui.App.VisitUser | gui.py:544-554 | a user whose checkpoint was clear is announced and downloaded, then the loop goes on |
| Gui.App.DownloadUser | gui.py:544-554 | the announcement line, then `download_media`'s events through the callbacks |
| Gui.App.LiftedMedia | gui.py:549-554 | `download_media`'s log lines and reports reach the log panel and the bar mapped into the user's share |

## Left out

- Widgets, layout, theming, scrolling, message boxes and button enabling (gui.py:10-382, 431-460, 535-536, 562-563) are presentation. Refusals with a dialog are modelled as results that change nothing.
- Reading and writing the configuration file (gui.py:157-170) is file I/O. The window starts from already-loaded names, cookie text and path. `save_settings` (gui.py:437-439), which replaces the stored cookie text and path that a start reads, is `Gui.App.SaveSettings`; the file it writes is not modelled. `browse_path` only sets the path field, which is `SaveSettings`'s argument, and `clear_logs` only clears the widget.
- The regular-expression extraction with `ast.literal_eval` (gui.py:498-504) and `json.loads` (gui.py:506-510) are library parsers. They are modelled as functions from the text to an optional mapping. A JSON value that is not an object is whatever that function returns.
- An exception other than `ValueError` or `SyntaxError` from `ast.literal_eval` (gui.py:502-504), such as the `TypeError` of `cookies = {[1]: 2}`, escapes `start_download_thread`: no JSON attempt, no dialog, no change of state. The snippet function can only answer a mapping or nothing, so the model does not capture this abort.
- The scraping library calls (downloader.py:42-45, 59-62) do network and file work. Each is modelled as succeeding or raising per user and phase. Partial downloads and the exception text are not modelled.
- `os.makedirs` (downloader.py:18-19) is not modelled. An exception from `os.makedirs` or `os.chdir` (downloader.py:18-22) comes before the `try`, so it escapes `download_media` and ends the `run_downloads` thread without the finish lines or the final 100 (gui.py:554-560); the model does not capture this abort. `os.chdir` is recorded as an event naming the directory; the real working directory is not tracked.
- The worker thread and `threading.Event` (gui.py:36, 462-464, 530-532) are left out. `cancel_download` (gui.py:462-464) sets the flag from another thread. The model instead gives the value each read of the flag sees, so cancellation at any moment is covered, but the setting method is not a member.
- Gui.App.StartDownloadThread: does not model the thread start; `RunDownloads` is a separate method that the caller runs with the started request.
- A name stored twice (a hand-edited configuration file) gets two checkboxes in `update_user_listbox` (gui.py:389-403), but `user_vars` keeps only the last one's variable, so ticking the first selects nothing. The model's `listing` is the keys of `user_vars`, one per distinct name; the extra, inert box is not modelled.
- Progress values are exact reals, not floats. The step value `int((k/T)*100)` is integer division `k·100/T`. These agree for the only step counts that occur, T = 1 and T = 2.
- Log messages are recorded by kind and by the names and numbers they mention. Their wording is not modelled.
- Strings are sequences of characters. `str.isspace()` is modelled by the full set of characters for which Python's `isspace` holds. The string order compares code points.
