# MyStudent dashboard logic in Dafny

MyStudent is a browser dashboard for students. It tracks tasks, awards XP and levels, records grades, and shows a global leaderboard. All of this sits on a realtime document store. Almost all of `main.js` is DOM and store glue. This project pulls out the small amount of decision logic in those handlers and states it as pure functions over immutable values:

- `Progression`: XP to level (500 XP per level, counted from 1), the progress bar, the XP still needed for the next level, and the level-5 gate of the secret area link.
- `Tasks`: a session record `{uid, xp, tasks}` standing for the user's id, the profile's `xp` field and the user's task collection. It models `addTask`, `completeTask`/`subirXP` and the sidebar task counter. The outcomes of the remote writes are input flags: the push of a new task, the delete of a completed one, and the XP increment sent after that delete. The push and the increment are neither awaited nor caught. So a new task can be lost, and a completion can delete the task and still lose its award. A counter `nextKey` stands for the store's push ids, so every new task gets a fresh key. `Run` applies a sequence of task actions, and `RunXp` proves that XP changes only through completions whose delete and increment both succeeded, by exactly their awards.
- `Ranking`: the client-side re-sort of the fetched profiles, highest XP first. The sort is stable, as JavaScript's `Array.prototype.sort` is. Positions are labelled with gold, silver and bronze medals, then `#n`.
- `Grades`: the class average over the stored grades, with an empty state when there are none. Also the manual weighted-average calculator, which skips every row whose grade or weight does not parse and warns when the counted weights sum to a positive total other than 100.
- `Theme`: the dark-mode toggle and the stored `"theme"` entry it keeps in step.
- `Auth`: the registration form check, the outcome of `register`, and the initial profile it writes.
- `Text`, `Users` and `Wrappers`: helpers. `Users` holds the user id type shared by tasks and registration. `Text` holds ECMAScript `trim`, its whitespace set, and the decimal rendering of numbers. `Wrappers` holds `Option`, `Result` and `Outcome`.

Grades and weights are Dafny `real`s: exact arithmetic standing in for JavaScript numbers. A field that `parseFloat` rejects is `None`. The progress-bar width is exact as well. JavaScript computes it in floating point, so 7 XP gives `1.4000000000000001` there and exactly `1.4` here.

The leaderboard gives index 0, 1 and 2 the gold, silver and bronze medals. From index 3 on, a row reads `#n`, where `n` is the 1-based position, so the first such label is `#4`. The initial profile stores `rango: "Novato"` and `nivel: 1`.

`completeTask` requests the award whenever the remote delete reports success. The model keeps that: completing a key that is no longer in the collection, with a successful delete, still requests the award, and XP grows by it when the increment is accepted.

## Model

| member | source | states |
|---|---|---|
| Progression.Level | main.js:416 | the level is at least 1 and is the 500-XP band the total falls into: `500*(level-1) <= xp < 500*level` |
| Progression.XpToNext | main.js:429 | the XP still missing lies in 1..500, and adding it reaches exactly the first XP of the next level |
| Progression.ProgressPercent | main.js:417 | the bar width lies in [0, 100) and equals the part of the band already earned, `(500 - XpToNext) / 5` |
| Progression.Statistics | main.js:414-431 | the statistics view shows the total XP, the level of that XP, the XP still missing, the bar width for that XP (below 100), and a "next level" that is the level plus one and is reached exactly after the missing XP |
| Progression.SecretLinkShown | main.js:438-444 | the secret link is shown iff it already was or the XP is at least 2000, and the check never hides it |
| Progression.XpToNextIsLeastLevelUp | main.js:429 | fewer points than `XpToNext` keep the level, and exactly `XpToNext` points raise it by one |
| Progression.BandSplit | main.js:417-429 | XP to next level plus `xp % 500` is 500 |
| Progression.LevelMonotone | main.js:416 | the level never decreases as XP grows |
| Progression.LevelExamples | main.js:416-429 | 0 and 499 XP are level 1, 500 is level 2, 1999 is level 4, 2000 is level 5, and the XP-to-next values at 0, 499 and 500 |
| Progression.SecretThreshold | main.js:439-441 | level >= 5 iff xp >= 2000 |
| Text.Trim | main.js:215 | the trimmed text is a contiguous piece of the input with only ECMAScript whitespace before and after it, and neither of its ends is whitespace |
| Text.WindowOfSuffix | main.js:215 | cutting trailing whitespace from what is left after the leading whitespace leaves a piece of the input with whitespace on both sides |
| Text.IsBlank | main.js:215 | the blank test `!text.trim()` holds iff every character is ECMAScript whitespace |
| Text.TrimEmptyIffAllWhitespace | main.js:215 | text is empty after `trim` iff every character is whitespace |
| Text.NatToString | main.js:671 | the rendering of a number (in the `#n` label here, and in the task badge at main.js:701) is a non-empty run of decimal digits with no leading zero |
| Text.NatToStringRoundTrip | main.js:671 | reading the decimal rendering of a number back gives the number |
| Text.NatToStringInjective | main.js:671 | two different numbers never render the same |
| Tasks.Award | main.js:272 | the completion award `30 + pri*20 + eff*10` is at least 30 |
| Tasks.AwardMonotone | main.js:272 | a higher priority or effort never earns less |
| Tasks.NewTask | main.js:219-226 | the pushed task keeps the typed text, subject, priority and effort and the time given; its due date is the typed one when that is non-empty and "Hoy" when it is empty |
| Tasks.Push | main.js:219-226 | an accepted push stores the task under the next key and adds no other key; other tasks, uid and XP are unchanged; with fresh keys the key was unused, the collection grows by one and keys stay fresh |
| Tasks.AddTask | main.js:212-228 | nothing changes without a signed-in user, with blank text, or when the store rejects the push; otherwise exactly one task is added under a fresh key, no other task changes, XP is untouched, and keys stay fresh |
| Tasks.RaiseXp | main.js:287-292 | XP grows by the points when signed in, and nothing changes otherwise |
| Tasks.CompleteTask | main.js:271-292 | a failed delete changes nothing; a successful one while signed in removes exactly that key, and adds exactly the award when the increment is accepted; a rejected increment leaves XP unchanged; no other task changes; XP changes iff the delete and the increment both succeeded while signed in, and never decreases |
| Tasks.TaskCounter | main.js:696-705 | the badge shows the task count in decimal with no leading zero, and is visible iff the count is positive |
| Tasks.BadgeHiddenIffZero | main.js:700-702 | the badge is hidden exactly when its text is "0" |
| Tasks.Run | main.js:212-292 | any sequence of adds and completions keeps keys fresh and the uid unchanged |
| Tasks.RunXp | main.js:271-292 | after any sequence of task actions, XP is the start value plus the awards of the completions whose delete and increment both succeeded, when signed in |
| Tasks.EarnedAtMostRequested | main.js:273-291 | the XP earned never exceeds the awards asked for after successful deletes, and equals them when no increment was rejected |
| Tasks.RunXpAtMostRequested | main.js:271-292 | a run gains at most the awards of its successful deletes, and exactly those when every increment was accepted |
| Tasks.RunXpNeverDecreases | main.js:287-291 | XP never decreases over any sequence of task actions |
| Tasks.CompleteExample | main.js:271-291 | priority 2 and effort 3 award 100 XP; a failed delete leaves the session unchanged; a rejected increment after a successful delete removes the task and keeps the XP |
| Ranking.InsertPermutes | main.js:665 | inserting adds exactly that user: the result is a permutation of the list plus the user |
| Ranking.InsertKeepsOrder | main.js:665 | inserting into a list sorted highest-XP-first keeps it sorted |
| Ranking.SortByXp | main.js:664-665 | the sorted list is a permutation of the fetched users, ordered by non-increasing XP |
| Ranking.InsertStable | main.js:665 | an inserted user goes ahead of every user with the same XP |
| Ranking.PassOver | main.js:665 | moving past a user with more XP keeps the inserted user ahead of those it ties with |
| Ranking.SortStable | main.js:665 | users with equal XP keep their fetched order |
| Ranking.Label | main.js:671 | index 0, 1 and 2 get the gold, silver and bronze medals; from index 3 on the label is "#" followed by the 1-based position in decimal, with no leading zero |
| Ranking.LabelInjective | main.js:671 | no two positions share a label |
| Ranking.RankingRows | main.js:660-686 | one row per fetched user; row i carries the label of position i; rows are in non-increasing XP order; the users shown are a permutation of those fetched, in exactly the order of the stable sort |
| Ranking.RankingRowsStable | main.js:660-686 | users with equal XP are shown on the board in their fetched order |
| Ranking.SortExample | main.js:664-665 | users with 10, 50 and 30 XP are ordered 50, 30, 10 |
| Ranking.RankingExample | main.js:660-671 | users with 10, 50 and 30 XP are listed 50, 30, 10 with gold, silver and bronze |
| Grades.ClassAverage | main.js:541-573 | there is no average iff there are no grades; otherwise the average times the count is the sum |
| Grades.ClassAverageBetween | main.js:572-573 | the class average lies between any lower and upper bound of the grades |
| Grades.ClassAverageExamples | main.js:541-573 | no grades give no average; 4 and 6 average 5; a single 7 averages 7 |
| Grades.ManualAverage | main.js:589-621 | the loop's weighted sum and total weight are those of the rows whose grade and weight both parse; the warning fires iff the total weight is not 100 and positive |
| Grades.CountedAppend | main.js:597-606 | which rows count is decided row by row, so it distributes over concatenation |
| Grades.IgnoredRow | main.js:601-605 | a row whose grade or weight does not parse has no effect on the sum or the total weight |
| Grades.WeightedAverageBetween | main.js:603-604 | with non-negative weights summing to 100, the weighted average lies between the lowest and highest counted grade |
| Grades.ManualExampleEven | main.js:597-619 | 8 and 6 at 50% each give 7, with no warning |
| Grades.ManualExampleUnparsed | main.js:597-619 | with the second grade unparsable, 8 at 50% gives 4, and the warning fires |
| Theme.ThemeName | main.js:455-461 | the stored name is "dark" or "light", and "dark" exactly for dark mode |
| Theme.ApplySavedTheme | main.js:475-490 | on load, dark mode and the switch are on iff the stored theme is "dark"; storage is only read |
| Theme.ToggleDarkMode | main.js:451-466 | the toggle flips the mode and leaves body, switches and storage agreeing |
| Theme.ToggleSurvivesReload | main.js:451-490 | reloading after a toggle restores exactly the toggled state |
| Theme.ToggleTwice | main.js:451-461 | toggling twice restores the mode, and the whole state when it was consistent |
| Auth.InitialProfile | main.js:69-75 | a new profile has 0 XP, a stored level equal to the derived level of 0 XP, rank "Novato", and the given names |
| Auth.Register | main.js:55-80 | the form is rejected with "Faltan datos importantes" iff e-mail, password or first name is empty; registration completes iff the form is complete and both remote steps succeed, writing the initial profile; a failed profile write leaves an orphaned account and is reported as "Error al registrar: " followed by the store's message; a provider error is reported the same way with its message |
| Auth.IncompleteFormSendsNothing | main.js:61-63 | an incomplete form gets the same rejection whatever the provider and store would have answered |

## Left out

- Firebase authentication and database calls, the `onAuthStateChanged` wiring (main.js:108-159) and the live `.on('value')` subscriptions (main.js:237, 356, 375, 534, 651, 697) are external services and event plumbing. Remote outcomes are inputs instead: `pushOk` for a new task, `deleteOk` and `incrementOk` for a completion, `account` and `profileWrite` for registration.
- The duplicate-listener issue of repeated subscriptions is about event lifecycle, which a sequential model does not represent.
- DOM rendering, HTML templates, avatar URLs, `updateUI` and the profile menu (main.js:170-201, 501-525) are presentation only.
- `login` (main.js:36-47) rejects an empty e-mail or password and otherwise only calls the identity provider. It is outside the modelled core.
- `logout` (main.js:88-96) signs out and redirects without any check or store write. It is outside the modelled core.
- `addGrade` (main.js:303-331) rejects an empty exam name or an unparsable grade, then a missing uid, and pushes the grade. It is outside the modelled core.
- `saveNote` (main.js:338-347) rejects an empty title or body and pushes the note. `sendMsg` (main.js:396-403) rejects a message that is blank after `trim` and pushes it. `cargarApuntes` and `cargarChat` only re-render. All are outside the modelled core.
- The server-side `limitToLast(10)` and `limitToLast(30)` queries are store semantics. Only the client-side sort and labels are modelled.
- `toFixed` rounding and the `>= 5` colour and message choices (main.js:555, 573-579, 611-615) depend on floating-point formatting. The model keeps the exact average.
- `localStorage` is an abstract `stored` field of the theme state.
- Tasks.AddTask: `parseInt` of the priority and effort fields is taken to give a natural number. NaN and negative values are not modelled.
- Tasks.AddTask: clearing the input field after a push is DOM work and is not modelled.
- Tasks.RaiseXp: the model tracks the profile's stored XP. The page's local copy `userData.xp` is refreshed only at the next sign-in, and that is not modelled.
- Progression.Level: XP is a natural number. The `userData.xp || 0` fallback for a missing field is left to the caller.
- Ranking.SortByXp: every user is assumed to carry a numeric `xp`. A missing `xp` makes the comparator return NaN, and that case is not modelled.
- Grades.ManualAverage: the sum and warning are stated whether or not the result element is on the page. Rows are grade/weight pairs, so a mismatch between the two input lists is not modelled.
- Auth.Register: a created account always has a uid; the `user && user.uid` test is taken to hold.
