# Word-list flashcard trainer: a verified model of its state logic

The application lets a user define named word lists and practise one list
at a time. Words are shown one after another, in order or at random, each
for a fixed number of seconds. This project models the two pieces of state
the `App` component keeps, and proves what they promise.

- **The word-list store** (`wordLists`). Creating a list splits the text
  on line feeds, trims every line and drops the empty ones. Creation is
  refused when the name or the text is blank. A new list gets the untrimmed
  name, a colour from the fixed palette of eight, an id and a creation time,
  and is appended. Deleting keeps every list whose id differs.
- **The practice session** (`practiceSession`, optional). Starting creates a
  playing session, at index 0 or at a drawn index. Stopping discards it.
  Toggling pauses or resumes it. Once a second, while it plays, the timer
  counts down. At one second or less it moves to the next word and resets
  the timer; that word is the following one cyclically, or a drawn one. If
  the list has vanished, the session ends. The word on display is resolved
  against the live list each time.

Modules, in dependency order:

- `Wrappers`: `Option` and `Result`.
- `Sequences`: `map` and `filter` on sequences.
- `Text`: JavaScript's `trim`, `split('\n')` and the word parsing.
- `RandomDraw`: `Math.floor(Math.random() * n)`.
- `ListStore`: `WordList`, `find`, creation and deletion.
- `Practice`: `PracticeSession` and its transitions.
- `AppState`: class `App`. It holds the two state slots, and its handlers delegate to the transition functions.
- `Examples`: worked examples of creation and of a sequential session.

Modelling choices:

- `Math.random()` is a caller-supplied `roll` with `0 <= roll < 1`. `Date.now()` is a caller-supplied id, and `new Date()` a caller-supplied time.
- `App` keeps a ghost set of every id handed out. Creation requires a new id not in it, as successive timestamps would be.
- The display duration is bounded by the slider range, 3 to 30 seconds. It is a requirement of `App.StartPractice` and part of the session invariant.
- The sequential next index is `(i + 1) % |words|`, so `|words|` sequential advances bring the index back to where it started, from any starting index (`Practice.FullCycle`).
- The `NoWords` refusal of `createWordList` (lines 129-132) is dead code. A text that is not blank always has a line that trims to a word. `Text.ParseWordsEmptyIff` proves this, and `ListStore.NewList` states it.

## Model

| member | source | states |
|---|---|---|
| `Text.Leading` | src/App.tsx:126 | counts the leading whitespace `trim()` removes: that many first characters are whitespace, and the next one, if any, is not |
| `Text.Trailing` | src/App.tsx:126 | counts the trailing whitespace `trim()` removes: that many last characters are whitespace, and the one before them, if any, is not |
| `Text.Trim` | src/App.tsx:119 | `trim()` yields the piece of the input after its leading whitespace; everything around that piece is whitespace; neither end of the result is whitespace; the result is empty exactly when the input is all whitespace |
| `Text.TrimOfTrimmed` | src/App.tsx:126 | trimming a trimmed word changes nothing, so trimming is idempotent |
| `Text.SplitLines` | src/App.tsx:125 | `split('\n')` yields at least one piece; no piece contains a line feed; joining the pieces with line feeds gives back the text |
| `Text.SplitJoin` | src/App.tsx:125 | splitting line-free pieces joined by line feeds gives back exactly those pieces, so split and join are inverse |
| `Text.ParseWords` | src/App.tsx:124-127 | every parsed word is non-empty, has no leading or trailing whitespace and no line feed; the words are a subsequence, in order, of the trimmed lines |
| `Text.ParseWordsOfLines` | src/App.tsx:124-127 | the words of a text made of given lines are exactly those lines, trimmed, with the empty ones dropped, in their original order |
| `Text.ParseWordsEmptyIff` | src/App.tsx:119-132 | parsing yields no word exactly when the trimmed text is empty |
| `Sequences.Map` | src/App.tsx:126 | `map` keeps the length and applies the function at every position |
| `Sequences.Filter` | src/App.tsx:127 | `filter` keeps only elements that satisfy the test, keeps every element that does, and the result is an ordered subsequence of the input |
| `Sequences.FilterCount` | src/App.tsx:127 | `filter` keeps each element that satisfies the test exactly as many times as it occurs in the input, and no other element; with the subsequence clause of `Filter` this fixes the result |
| `RandomDraw.Pick` | src/App.tsx:97 | `Math.floor(Math.random() * n)` is an index below `n` when `n > 0`, and 0 when `n` is 0 |
| `RandomDraw.PickCovers` | src/App.tsx:159 | every index below `n` is drawn by some roll |
| `ListStore.Find` | src/App.tsx:156 | `find` by id yields nothing exactly when no list has that id; otherwise it yields the first list with that id |
| `ListStore.FindUnique` | src/App.tsx:184 | when ids are unique, lookup yields the one list with that id |
| `ListStore.PickColor` | src/App.tsx:138 | a new list's colour is one of the eight palette colours |
| `ListStore.NewList` | src/App.tsx:118-140 | creation is refused, always with the blank-field error, exactly when the trimmed name or the trimmed text is empty; otherwise the list is well formed and holds the given id, the untrimmed name, the parsed words and the given time |
| `ListStore.Delete` | src/App.tsx:151 | no list with the id remains; every other list stays, in its original relative order; deleting an absent id changes nothing |
| `ListStore.DeleteCount` | src/App.tsx:151 | deletion keeps every list whose id differs exactly as many times as it occurs, and no list with the deleted id |
| `ListStore.DeletePresent` | src/App.tsx:151 | with unique ids, deleting a present id removes exactly that one list |
| `ListStore.DeleteKeepsUnique` | src/App.tsx:151 | deletion keeps ids unique |
| `ListStore.DeleteKeepsWellFormed` | src/App.tsx:151 | deletion keeps every list well formed |
| `ListStore.AppendKeepsUnique` | src/App.tsx:135-142 | appending a list with a fresh id keeps ids unique |
| `ListStore.FindAfterDelete` | src/App.tsx:151 | after a deletion, the deleted id resolves to nothing and every other id resolves as before, whether or not ids are unique |
| `ListStore.FindAfterAppend` | src/App.tsx:142 | appending a list does not change what an existing id resolves to |
| `Practice.Start` | src/App.tsx:155-171 | an unknown id leaves the session unchanged; otherwise the new session is playing, at index 0 (sequential) or at an index inside the list (random), with timer = duration, 0 completed and the list's word count |
| `Practice.StartKeepsOk` | src/App.tsx:159-170 | a started session satisfies the session invariant: the timer lies in `[1, duration]` and the index is inside the live list |
| `Practice.Toggle` | src/App.tsx:177-180 | toggling flips `isPlaying` and changes no other field; it is a no-op without a session |
| `Practice.ToggleTwice` | src/App.tsx:179 | toggling twice restores the session |
| `Practice.ToggleKeepsOk` | src/App.tsx:179 | toggling keeps the session invariant |
| `Practice.Tick` | src/App.tsx:88-112 | above one second, the tick decrements the timer by exactly 1 and changes nothing else; otherwise a vanished list ends the session; an existing list gets the next index (`(i+1) % n` sequentially, any index below `n` at random), the timer reset to the duration and one more word completed |
| `Practice.TickKeepsOk` | src/App.tsx:91-111 | each tick keeps the timer in `[1, duration]` and the index inside the live list |
| `Practice.TimerStep` | src/App.tsx:84-88 | no timer runs for a paused or absent session, so the state is left as it is; a playing session takes exactly one tick |
| `Practice.TimerStepKeepsOk` | src/App.tsx:84-112 | one second of the timer keeps the session invariant |
| `Practice.RunTimer` | src/App.tsx:84-116 | any run of the timer keeps a surviving session's list, mode, duration, word count and play state, and never decreases its completed count |
| `Practice.PausedIsFrozen` | src/App.tsx:85 | while paused, any number of seconds leaves index, timer and completed count unchanged |
| `Practice.SequentialAdvance` | src/App.tsx:91-111 | sequentially, a playing session with `t` seconds left shows the next word cyclically after exactly `t` seconds, with a full timer and one more word completed |
| `Practice.SequentialCycles` | src/App.tsx:96-105 | sequentially, `k` full durations advance the index by `k` positions modulo the list length and complete `k` words |
| `Practice.FullCycle` | src/App.tsx:98 | sequentially, as many advances as the list has words bring the index back to its start |
| `Practice.CurrentWord` | src/App.tsx:182-186 | with a session whose list exists and whose index is in range, the result is that list's word at the index; a non-empty result is always such a word |
| `Practice.CurrentWordShown` | src/App.tsx:182-186 | for a consistent session whose list exists, the word shown is `words[currentWordIndex]`, never empty and trimmed |
| `Practice.DeleteKeepsOk` | src/App.tsx:151 | deleting any list keeps the session invariant, whether or not ids are unique |
| `Practice.AppendKeepsOk` | src/App.tsx:142 | appending a list whose id is not the session's keeps the session invariant |
| `AppState.App.constructor` | src/App.tsx:59-62 | the component starts with no list and no session, in a valid state |
| `AppState.App.CreateWordList` | src/App.tsx:118-147 | on success the new list is appended at the end; on refusal nothing changes; the session is untouched; validity is kept |
| `AppState.App.DeleteWordList` | src/App.tsx:149-153 | the lists become the filtered lists; the session is untouched; validity is kept |
| `AppState.App.StartPractice` | src/App.tsx:155-171 | the session becomes the started session; the lists are untouched; validity is kept |
| `AppState.App.StopPractice` | src/App.tsx:173-175 | the session is discarded; the lists are untouched |
| `AppState.App.TogglePractice` | src/App.tsx:177-180 | the session is toggled; the lists are untouched; validity is kept |
| `AppState.App.TimerTick` | src/App.tsx:84-116 | one second of the timer applies the tick to a playing session only; validity is kept |
| `AppState.App.GetCurrentWord` | src/App.tsx:182-186 | returns the word on display; while the session's list exists it is that list's word at the index, never empty |
| `Examples.ParseExample` | src/App.tsx:124-127 | `"chat\n\nchien \n"` parses to `["chat", "chien"]` |
| `Examples.CreateExample` | src/App.tsx:118-142 | creating "Animaux" from that text succeeds with the words `["chat", "chien"]` |
| `Examples.SessionExample` | src/App.tsx:88-112 | three words, sequential, 3 s each: after 3, 6 and 9 seconds the index is 1, 2 and 0, and 1, 2 and 3 words are completed |

## Left out

- Rendering and UI-only state are not modelled: dialogs, `isCreating`, the form fields and `WordListCard` (lines 193-478). Only the slider range 3..30 (lines 452-453) is kept.
- `getCurrentList` (lines 188-191) is not modelled. It serves rendering only.
- Loading from and saving to `localStorage` (lines 67-81) is not modelled, nor the JSON handling of `createdAt`. This is browser storage I/O, and the store starts empty.
- The `setInterval`/`clearInterval` scheduling and the effect re-registration (lines 84-87, 113-116) are not modelled. The model applies the tick updater once per second while a session plays. It assumes a pause or stop clears the timer before the next firing.
- `Math.random()`, `Date.now()` and `new Date()` are parameters. Floating-point rounding of `Math.random() * n` is not modelled; the product is an exact real.
- Toast notifications are fire-and-forget side effects and are not modelled (lines 120, 130, 146, 152). This includes the lookup of the deleted list's name, which only feeds a toast (line 150).
- The progress percentage (line 197) is floating-point display arithmetic and is not modelled.
- `toUpperCase` and `toLocaleDateString` are display formatting and are not modelled.
- Strings are sequences of Unicode scalar values, not UTF-16 code units.
- `AppState.App.CreateWordList` requires an id never handed out before. `Date.now()` gives no such guarantee: two creations within one millisecond would share an id.
- `AppState.App.StartPractice` requires a duration in 3..30. The default duration of 10 in `startPractice` is not modelled, because the only caller always passes the slider value.
- `Practice.Tick` requires every stored list to have a word. For an empty list the code computes `(i + 1) % 0`, which is NaN. Creation never makes such a list; only a stored blob could, and storage is not modelled.
