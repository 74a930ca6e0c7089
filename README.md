# Cookie Stand game state, modelled in Dafny

Cookie Stand is a multiplayer strategy game. Players vote on options for a small cookie business.
At the end of each round the winning option, the voting analysis and the generated content
update the company's strategy, its profile and the next scenario. This project models the two
places where the game's logic lives:

- **`src/logic/state.js`**: the in-memory game state. It covers the round ledger (options and
  their votes), the bounded ticker and history logs, the user registry, the resolution step
  `updateStrategy`, and the scheduler flags with the strategy countdown. The state is the class
  `State.GameState`. Its fields are the module's variables and its methods are the module's
  operations. Each method is tied to pure functions in `Ledger`, `Logs`, `Registry`,
  `Resolution` and `Timing`, and the lemmas there state what the operations promise.
- **`src/logic/ai.js`**: the post-processing applied to content-generator replies, in module
  `Ai`. It covers the alignment score, the strategy/commentary split, the sanitiser, the
  field-by-field repair with the catch-all fallback of `processRound`, and the
  "User Patterns / General Patterns" parser.

Every reply of the content generator is an input, and so is the clock (`now`, in
milliseconds). `JSON.parse` is a function parameter applied to the sanitised text. Strings
stand for JavaScript values, and `""` stands for every falsy text (`null`, `undefined`, `""`).
`Text` gives `trim`, `split`, `join`, `startsWith`, `\s` and `\d` their ECMAScript meaning.
`Config` holds the three constants of `src/config.js`: 20 ticker entries, 50 history records
and a 60000 ms strategy duration.

Behaviour the model reproduces as the code has it:

- A vote is never replaced. The removal pass compares the raw user id against stored objects,
  so it removes nothing, and a repeat vote appends another entry.
- The winner is always the first option. The comparator subtracts arrays, which gives 0 or
  NaN, and NaN counts as 0, so the stable sort keeps the original order.
- Renaming a user never changes the ticker. The ticker is compared against the name after it
  has already been overwritten.
- `getState` returns the full option list to every caller.
- `startRound` counts the month before its content step. The option generator it calls is not
  exported, so in the code as written the content step always fails. The model keeps both
  outcomes of that step.

Where the code's own comments and names promise more than the code does, the model follows
the code:

- The comment at `src/logic/state.js:210` says a user's earlier votes are removed before a new
  one is cast. The removal pass looks for the raw user id, but stored votes are objects, so a
  user can vote any number of times.
- The comparator at `src/logic/state.js:562` reads as a sort by vote count. It subtracts arrays,
  so the sort keeps the original order and the first option always wins.

## Model

| member | source | states |
|---|---|---|
| Text.Trim | src/logic/ai.js:58 | `trim` drops exactly the leading white space and the trailing white space: the result is the slice of the input that starts after the leading white space, everything after it is white space, and it has no white space at either end |
| Text.TrimKeepsTrimmed | src/logic/ai.js:58-62 | trimming a trimmed string changes nothing, so `trim` is idempotent |
| Text.Split | src/logic/ai.js:59 | `split(sep)` returns at least one piece, no piece holds the separator, and joining the pieces with it gives the input back; the cuts are the leftmost non-overlapping occurrences, since no piece but the last, followed by all of the separator but its last character, holds it |
| Text.FirstOccurrenceIsLeftmost | src/logic/ai.js:255 | the text before the first occurrence of a separator, followed by all of the separator but its last character, holds no occurrence of it, so no earlier overlapping occurrence exists |
| Text.Join | src/logic/ai.js:62 | `join(sep)` of a non-empty list starts with its first element |
| Text.StartsWithConcat | src/logic/state.js:453 | `startsWith(prefix)` holds exactly when the string is the prefix followed by some rest |
| Text.NatToString | src/logic/state.js:203 | the decimal text of a number is all digits, with no leading zero, and has one to three digits below 1000 |
| Text.DigitsValueOfNatToString | src/logic/ai.js:43 | reading back the decimal text of `n` gives `n` |
| Ai.ScoreAlignment | src/logic/ai.js:41-48 | the score is null exactly when the reply has no digit, otherwise it lies in 0..999 (not clamped); the explanation is the trimmed reply |
| Ai.FirstDigitFrom | src/logic/ai.js:42 | the position of the first digit at or after `i`, with no digit between `i` and it; None exactly when no digit follows `i` |
| Ai.DigitRun | src/logic/ai.js:42 | `\d{1,3}` takes one to three digits from the start, greedily: fewer than three only when the text ends or a non-digit follows |
| Ai.ScoreReadsWrittenNumber | src/logic/ai.js:41-43 | a number up to 999, after digit-free text and not followed by a digit, is read back exactly |
| Ai.ScoreReadsFirstThreeDigits | src/logic/ai.js:41-43 | after digit-free text, a run of three or more digits is read as its first three digits |
| Ai.ScoreReadsDigitRun | src/logic/ai.js:41-43 | after digit-free text, any run of one to three digits with no digit after it, leading zeros included, is read as its decimal value |
| Ai.RunOfDigits | src/logic/ai.js:42 | `\d{1,3}` takes exactly a run of one to three digits that no digit follows |
| Ai.SplitStrategy | src/logic/ai.js:58-63 | the new strategy and the commentary hold no line break and are both trimmed |
| Ai.SplitStrategyLines | src/logic/ai.js:58-63 | for any reply with a line break, the strategy is the trimmed first line and the commentary is the remaining lines joined by spaces, then trimmed |
| Ai.OneLineReplyHasNoCommentary | src/logic/ai.js:58-63 | a one-line reply is all strategy, and the commentary is "" |
| Ai.StripFences | src/logic/ai.js:125 | removing code fences introduces no character, and text without a backtick is left as it is |
| Ai.FencedJsonUnwrapped | src/logic/ai.js:125 | a body without backticks wrapped in "```json" and "```" fences comes back unwrapped |
| Ai.DropControls | src/logic/ai.js:127 | a character is in the result exactly when it is in the input and is not a C0 or C1 control character; text without one is left as it is |
| Ai.DropControlsAppend | src/logic/ai.js:127 | the global replace works character by character: dropping controls from a concatenation concatenates the results |
| Ai.DropControlsOne | src/logic/ai.js:127 | one character is dropped exactly when it is a control character and kept otherwise |
| Ai.DropByteOrderMark | src/logic/ai.js:129 | a leading byte-order mark is dropped and the rest kept; text not starting with one is left as it is |
| Ai.NoBreakSpacesToSpaces | src/logic/ai.js:131 | the length stays; each no-break space becomes a plain space and every other character stays in place |
| Ai.DropTrailingCommas | src/logic/ai.js:133 | only commas are dropped: every other character is kept, none is introduced, and text without a comma is left as it is; which commas go is stated by Ai.DropTrailingCommasAtComma |
| Ai.TrailingCommaDropped | src/logic/ai.js:133 | a comma before white space and a closing bracket is dropped and everything else is kept |
| Ai.DropTrailingCommasAtComma | src/logic/ai.js:133 | at any comma, the text on each side is cleaned on its own, and that comma is dropped exactly when only white space stands between it and a closing bracket |
| Ai.ClosesThroughComma | src/logic/ai.js:133 | whether text reaches a closing bracket through white space alone does not depend on what follows a comma in it |
| Ai.Sanitize | src/logic/ai.js:120-134 | the sanitised text has no control character, no no-break space, and no white space at either end |
| Ai.Or | src/logic/ai.js:152-163 | `v \|\| fallback` is `v` when truthy, else the fallback |
| Ai.Repair | src/logic/ai.js:152-173 | a missing strategy or profile falls back to the current one; a missing scenario falls back to the current one or "Waiting for first scenario..."; a non-array `options` becomes the single placeholder option; an array, even an empty one, passes through |
| Ai.Attempt | src/logic/ai.js:76-187 | a failed call passes its message on; a reply without a message fails with "Invalid response from OpenAI API"; the attempt succeeds exactly when the sanitised reply parses and the profile call succeeds |
| Ai.Fallback | src/logic/ai.js:188-203 | the catch-all keeps the current strategy and profile, the scenario or "Waiting for first scenario...", and offers one "Option 1" without id, score 0 and explanation "Error: " + message |
| Ai.ProcessRound | src/logic/ai.js:114-203 | any failure (no message, unparseable content, failing profile call) gives the fallback; otherwise the repaired fields, with the generated profile when it is non-empty; the scenario is never empty, and a current strategy or profile is never lost |
| Ai.ParsedReply | src/logic/ai.js:140 | a parsed round exists exactly when the call answered and `JSON.parse` accepts the trimmed, sanitised content, and it is what that parse returns |
| Ai.MatchUserLine | src/logic/ai.js:260-268 | a match means the line has no line terminator and is "- " + user + ": " + pattern + " (" + frequency + ")" with three non-empty parts, and the result is those parts trimmed |
| Ai.LastOpenFrom | src/logic/ai.js:260 | the greedy `(.+)` backs off to the last " (" at or before the bound, and no " (" lies between it and the bound; none when there is no " (" |
| Ai.MatchTail | src/logic/ai.js:260 | a matched tail is pattern + " (" + frequency + ")" with both parts non-empty |
| Ai.LazyMatchShape | src/logic/ai.js:260 | whatever user end the lazy `(.+?)` settles on, the line is "- " + user + ": " + pattern + " (" + frequency + ")" and the result is those parts trimmed |
| Ai.UserLineRoundTrip | src/logic/ai.js:260-266 | a line "- user: pattern (frequency)" is read back as those three trimmed parts, when the user has no ":", the frequency no "(", and no part has a line terminator |
| Ai.UserLineMatches | src/logic/ai.js:260 | any line "- user: pattern (frequency)" with three non-empty parts and no line terminator matches |
| Ai.TailMatches | src/logic/ai.js:260 | any tail "pattern (frequency)" with both parts non-empty matches the greedy part of the pattern |
| Ai.LazyReaches | src/logic/ai.js:260 | the lazy user group finds a match whenever a ": " at or after the scan's start is followed by a matching tail |
| Ai.TailRoundTrip | src/logic/ai.js:260 | the greedy `(.+) \((.+)\)$` tail reads back the pattern and a frequency without "(" |
| Ai.UserPatterns | src/logic/ai.js:258-269 | non-matching lines are dropped, so there are never more patterns than lines |
| Ai.MatchLines | src/logic/ai.js:259-268 | the `map` over the section's lines yields one result per line, each that line's match or null |
| Ai.Present | src/logic/ai.js:269 | `filter(Boolean)` keeps no more values than it is given |
| Ai.PresentMembers | src/logic/ai.js:269 | a value survives the filter exactly when some element holds it |
| Ai.UserPatternsMembers | src/logic/ai.js:258-269 | a pattern is read exactly when some line matches to it |
| Ai.GeneralPatterns | src/logic/ai.js:271-274 | no more patterns than lines, and every pattern is trimmed and non-empty |
| Ai.GeneralPatternsMembers | src/logic/ai.js:271-274 | a pattern is read exactly when it is non-empty and some line, without its "- " and trimmed, reads as it |
| Ai.DashedLineReadBack | src/logic/ai.js:272-273 | a line "- p" with `p` trimmed and non-empty reads as `p` |
| Ai.DropDash | src/logic/ai.js:273 | a leading "- " is removed and nothing else; a line without one is kept |
| Ai.PatternOf | src/logic/ai.js:273 | a general-pattern line reads as a trimmed string no longer than the line, and at least two characters shorter when the line starts with "- " |
| Ai.DashedLinesReadBack | src/logic/ai.js:271-274 | lines written as "- p" for trimmed non-empty patterns are read back as exactly those patterns, in order |
| Ai.ReadSections | src/logic/ai.js:250-276 | the loop over sections keeps general patterns non-empty and trimmed |
| Ai.LatestSectionWins | src/logic/ai.js:255-276 | each list comes from the last section under its header; a later section replaces an earlier one, and a list with no section stays empty |
| Ai.ReadSection | src/logic/ai.js:257-274 | a section under "User Patterns:" replaces the user list with its lines read, one under "General Patterns:" the general list; the other list stays, and any other section changes nothing |
| Ai.AnalyzeVotingPatterns | src/logic/ai.js:247-285 | a failed call gives exactly the error analysis; general patterns are non-empty and trimmed; there are no more user patterns than characters of the reply |
| Ai.UserPatternsBounded | src/logic/ai.js:255-269 | the user patterns never outnumber the characters of the text they are read from |
| Ai.NoHeaderYieldsNothing | src/logic/ai.js:255-276 | a one-section reply under neither header gives both lists empty |
| Ai.InsufficientDataYieldsNothing | src/logic/ai.js:250-279 | the reply "Insufficient data for vote analysis." gives both lists empty |
| Ledger.GeneratedIdsDistinct | src/logic/state.js:203 | ids generated in one pass differ by position |
| Ledger.Fresh | src/logic/state.js:200-207 | one option per input, in order, with every votes list empty; the input's own id wins over the generated one because it is spread after it |
| Ledger.FreshIdsDistinct | src/logic/state.js:202-206 | options made from records without ids have pairwise distinct ids |
| Ledger.AsCandidates | src/logic/state.js:394 | the current options handed back carry their own ids and texts |
| Ledger.FreshFromCurrentClearsVotes | src/logic/state.js:392-405 | re-installing the current options keeps every id, text and score and only clears the votes |
| Ledger.IndexOf | src/logic/state.js:212 | `indexOf` finds the first occurrence, or reports that there is none |
| Ledger.RemoveFirst | src/logic/state.js:212-213 | `indexOf` and `splice` remove exactly one bare vote of the user, or nothing when there is none |
| Ledger.ClearBare | src/logic/state.js:211-214 | the removal pass applies the splice to every option and changes nothing else |
| Ledger.ClearBareRemovesNothing | src/logic/state.js:211-214 | when every vote is an object, the removal pass removes nothing |
| Ledger.FindOption | src/logic/state.js:216 | `find` gives the first option with the id, or none |
| Ledger.CastOn | src/logic/state.js:216-226 | when the vote lands, the first option with the id gets the `{userId, displayName}` vote appended and every other option stays; otherwise nothing changes |
| Ledger.VoteOutcome | src/logic/state.js:209-226 | the number of options stays; when every stored vote is an object, the removal pass is a no-op and the vote is just the push |
| Ledger.VoteKeepsOptions | src/logic/state.js:209-226 | a vote changes no option's id or text and neither adds nor removes an option |
| Ledger.VoteKeepsAllCast | src/logic/state.js:209-226 | a vote stores only object votes |
| Ledger.VoteForUnknownOption | src/logic/state.js:216-219 | a vote for an id no option has changes no option |
| Ledger.VoteForKnownOption | src/logic/state.js:219-226 | a vote for an existing id appends exactly one `{userId, displayName}` to the first such option and touches no other option |
| Ledger.RepeatVoteAppendsAgain | src/logic/state.js:209-226 | a second vote by the same user for the same option appends again: the user's count goes up by one with each vote |
| Ledger.Normalise | src/logic/state.js:263 | a bare vote reads as `{userId: v, displayName: 'Anonymous'}`; an object vote reads as itself |
| Ledger.GetVotes | src/logic/state.js:259-266 | one view per option in order, with id, text and score kept and every vote normalised |
| Ledger.ViewOf | src/logic/state.js:260-265 | one option's view keeps its id, text and score, and each vote keeps its user, with "Anonymous" for a bare vote and the cast name otherwise |
| Ledger.ArrayToNumber | src/logic/state.js:562 | an empty vote array converts to 0; a non-empty one converts to NaN |
| Ledger.Minus | src/logic/state.js:562 | a difference is NaN exactly when an operand is NaN |
| Ledger.ComparatorNeverOrders | src/logic/state.js:562 | the comparator always reads as 0 |
| Ledger.CompareByVotes | src/logic/state.js:562 | `b.votes - a.votes` is NaN exactly when either view has a vote, and 0 otherwise |
| Ledger.Insert | src/logic/state.js:562 | one step of the stable sort puts the element in and keeps the rest: the result is a permutation of the input plus the element |
| Ledger.SortBy | src/logic/state.js:562 | the stable sort under any comparator returns a permutation of its input |
| Ledger.SortByVotes | src/logic/state.js:562 | `votes.sort(...)` returns a permutation of the views |
| Ledger.SortKeepsOrder | src/logic/state.js:562 | the sort leaves the views in their original order, whatever the counts |
| Ledger.Winner | src/logic/state.js:561-564 | there is no winner exactly when there are no views; a winner is one of the views |
| Ledger.WinnerIsFirstOption | src/logic/state.js:561-564 | the winner is the first option; there is none exactly when there are no options |
| Ledger.RenameVotes | src/logic/state.js:464-472 | all of the user's votes, bare or object, become object votes under the new name; other votes and the order stay |
| Ledger.Renamed | src/logic/state.js:464-471 | the user's vote, bare or object, becomes an object vote under the new name; any other vote is unchanged |
| Ledger.RenameAll | src/logic/state.js:463-473 | the rename pass changes only the votes of each option |
| Ledger.RenameAllKeepsVotes | src/logic/state.js:463-473 | renaming keeps every vote an object and every user's vote counts, and gives the user's votes the new name |
| Ledger.RenameKeepsCounts | src/logic/state.js:464-472 | renaming changes no vote's user |
| Registry.NormaliseName | src/logic/state.js:453-455 | an empty name, or one starting with "user_", becomes "Anonymous"; other names are kept |
| Registry.NormaliseNameIdempotent | src/logic/state.js:453-455 | normalising twice is normalising once |
| Registry.FindUser | src/logic/state.js:457 | `find` gives the first user with the id, or none |
| Registry.DisplayName | src/logic/state.js:217-221 | `user?.name \|\| "Anonymous"`: the registered name when it is non-empty; "Anonymous" for an unknown user and for a user whose name is empty |
| Registry.Upsert | src/logic/state.js:457-485 | a known user is renamed in place; a user is appended only when the id is absent; every other user stays |
| Registry.UpsertKeepsIdsUnique | src/logic/state.js:457-485 | registering keeps user ids unique |
| Registry.RegisteredNameIsDisplayed | src/logic/state.js:453-485 | after registering, the user's display name is the normalised name |
| Logs.Newest | src/logic/state.js:428 | `slice(-n)` for positive `n` is the suffix of `min(n, length)` elements |
| Logs.Append | src/logic/state.js:231-238 | the new entry goes last; the oldest goes only when the cap is exceeded; a log within the cap stays within it |
| Logs.AppendAllKeepsNewest | src/logic/state.js:231-238 | after any run of appends, the ticker holds exactly the newest 20 entries, in order |
| Logs.Reverse | src/logic/state.js:445 | `reverse` puts element `i` at the mirrored position |
| Logs.NewestFirst | src/logic/state.js:444-446 | `getTickerLog` returns `min(10, n)` entries, newest first |
| Logs.Activities | src/logic/state.js:311-317 | an activity is listed exactly when some ticker entry of that kind carries its user and option; no more activities than entries |
| Logs.ActivitiesOfAppended | src/logic/state.js:311-317 | filtering distributes over appending an entry |
| Logs.ActivitiesPartition | src/logic/state.js:311-317 | every ticker entry is either a vote or a wildcard |
| Logs.Relabel | src/logic/state.js:476-481 | entries by one name are attributed to another, and nothing else changes |
| Logs.RelabelToSameName | src/logic/state.js:476-481 | relabelling to the name compared against changes nothing |
| Logs.Record | src/logic/state.js:414-429 | the new record is last; the history has `min(length + 1, 50)` records and is the newest suffix of the old history plus the record |
| Timing.RemainingMillis | src/logic/state.js:78-79 | the remaining time is at most the duration once the clock has reached the start, and 0 exactly when the duration has elapsed |
| Timing.Countdown | src/logic/state.js:74-81 | 0 when stopped; otherwise the remaining milliseconds rounded up to seconds: at most 60, and 0 exactly when the duration has elapsed |
| Timing.CountdownNeverRises | src/logic/state.js:74-81 | as the clock advances, the countdown never goes up |
| Resolution.Field | src/logic/state.js:377-390 | a text field is truthy exactly when it is non-empty |
| Resolution.RecordOf | src/logic/state.js:413-424 | the history record carries the time, scenario, selection, commentary, strategy, profile and analysis given to it; its votes and wildcards are exactly the ticker's entries of each kind and together account for every entry |
| Resolution.Resolve | src/logic/state.js:359-441 | the analysis is stored first; if the step throws, nothing else changes; otherwise each missing field keeps the current value, non-array options fall back to the current ones, the options are vote-free copies, one record is appended with the strategy and the selection the caller passed (none for `null`, as `src/routes.js:116` passes), and the timer restarts |
| Resolution.ResolveKeepsBounds | src/logic/state.js:401-429 | the history stays within 50 and grows by one, up to the cap; the new options hold no votes |
| Resolution.NonArrayOptionsKeepCurrent | src/logic/state.js:392-405 | non-array options are replaced by the current options, with ids, texts and scores kept and votes cleared |
| Resolution.ProcessedRoundKeepsState | src/logic/state.js:363-400 | fed with `processRound`'s result, the scenario is never empty and a current strategy or profile is never lost |
| Resolution.FailedContentKeepsStrategy | src/logic/state.js:363-405 | when `processRound` falls back, the strategy and profile stay and the round offers a single fresh "Option 1" with score 0 and no votes |
| State.OrInitializing | src/logic/state.js:272-275 | `value \|\| "Initializing..."` is the value when it is non-empty and "Initializing..." otherwise |
| State.Scored | src/logic/state.js:535-541 | a scored option keeps the draft's text, carries no id, and takes `scoreAlignment`'s score and its explanation, the trimmed reply |
| State.ScoredAll | src/logic/state.js:534-543 | every draft is scored, in order |
| State.RemoveBareVotes | src/logic/state.js:211-214 | the `forEach` removal pass computes `Ledger.ClearBare` |
| State.RenameVotesOf | src/logic/state.js:463-473 | the `forEach` rename pass computes `Ledger.RenameAll` |
| State.GameState.constructor | src/logic/state.js:13-23 | the state starts with no history, no ticker, no analysis, month 0, the scheduler stopped and no timer pending |
| State.GameState.ResetRound | src/logic/state.js:200-207 | the scenario is set and the options become vote-free copies of the input; nothing else changes |
| State.GameState.Vote | src/logic/state.js:209-240 | the options become `Ledger.VoteOutcome`; one ticker entry with the display name and option text is appended exactly when the vote lands; everything else stays |
| State.GameState.LogWildcard | src/logic/state.js:242-257 | one wildcard entry is appended under the display name; the options and everything else stay |
| State.GameState.GetVotes | src/logic/state.js:259-266 | one view per option, in order, with id, text, score and vote count kept |
| State.GameState.GetTickerLog | src/logic/state.js:444-446 | the ten newest ticker entries at most, newest first |
| State.GameState.TimeRemaining | src/logic/state.js:74-81 | 0 when the scheduler is stopped; while running, 0 exactly when the strategy duration has elapsed; never more than 60 once the clock has reached the start |
| State.GameState.IsSchedulerRunning | src/logic/state.js:614-616 | the scheduler flag as stored |
| State.GameState.View | src/logic/state.js:268-307 | strategy, profile and scenario are the stored values or "Initializing..." when empty; before start-up the fixed placeholders; afterwards the full options, users and history for every caller, the countdown, and the caller's name when known |
| State.GameState.ViewSameForEveryone | src/logic/state.js:286-299 | two callers see the same state apart from their own name, so no options are hidden |
| State.GameState.UpdateStrategy | src/logic/state.js:309-442 | the new board is `Resolution.Resolve` of the old one, with the analysis parsed from its reply and the selection possibly absent; the ticker, users and scheduler stay |
| State.GameState.RegisterUser | src/logic/state.js:448-495 | the registry is upserted with the normalised name; a known user's votes are renamed; the ticker never changes; returns true |
| State.GameState.BeginScheduler | src/logic/state.js:498-504 | stopped: no change; running: timer restarted and the first round armed after 3000 ms |
| State.GameState.StartScheduler | src/logic/state.js:597-602 | no change when already running; otherwise running, timer restarted, first round armed after 3000 ms |
| State.GameState.StopScheduler | src/logic/state.js:604-612 | both flags false, no pending timer, timer restarted |
| State.GameState.StartRound | src/logic/state.js:507-556 | stopped or busy: no change; otherwise the month advances by exactly one; a failed content step clears the busy flag and arms a retry after 5000 ms, keeping any scenario that arrived; a successful one resets the round and arms resolution after 60000 ms |
| State.GameState.ResolveRound | src/logic/state.js:559-595 | with no options or a failed strategy call the board is unchanged; otherwise it is resolved with the first option as winner and `processRound`'s result; the round ends and, while running, the next one is armed after 1000 ms; the month never changes |

## Left out

- The content-generator network calls in `src/logic/ai.js` are left out. Their replies are inputs, and `src/logic/vote.js`, a duplicate scoring wrapper, is not part of this model.
- The prompt texts (`src/logic/prompts.js`) are left out: they only interpolate strings.
- Loading and saving `data/users.json` is left out. The constructor takes the loaded users as a parameter.
- Console logging and ISO timestamps are left out. Times are the `now` parameter in milliseconds.
- Module start-up (`initialize`) is left out. The constructor takes the state start-up leaves behind: strategy, profile, scenario, vote-free options and the initialised flag.
- The random vote branch of `updateStrategy` is left out: `enableRandomVotes` is `false` in `src/config.js`, and the branch uses `Math.random`.
- Timers are one pending-timer field. Neither the firing of a timer nor `clearTimeout` is modelled.
- Each method runs to completion in one step, so interleaving at an `await` is not modelled.
- `resolveRound` does not await `updateStrategy`. The model applies it in full before the `finally` block runs, and says nothing about resolutions that overlap.
- The double re-arm of the timer in the no-winner branch of `resolveRound` (an early `return` followed by `finally`) collapses into the same final state.
- `src/routes.js`, `src/logic/scheduler.js`, `public/main.js` and `src/app.js` are not part of this model.
- Ledger.Fresh: `Date.now()` is read once per pass, not once per element. A pass that spans a clock tick would give later options a different time prefix in their ids.
- Ai.ProcessRound: the parsed reply is assumed to be an object whose text fields are strings. `JSON.parse` results that are `null`, primitives or structured strategy payloads are not modelled.
- Resolution.Resolve: the path where `updateStrategy` throws is kept, but `processRound` as modelled never throws, so that path is reached only through a caller that supplies no content.
- State.GameState.StartRound: the "round already in progress" guard can only fire between the start and the resolution of a round. Starting a round is atomic in the model.
- Logs.Newest: `slice(-0)` returns the whole array, but the model requires a positive count. The source slices with 50 (state.js:428) and 10 (state.js:445). The model also uses Newest with 20, to state what the push-and-shift ticker at state.js:231-238 holds.
- Text.Trim: strings are sequences of Unicode scalar values, not UTF-16 code units. Surrogate pairs are not modelled.
