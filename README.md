# Quiz session engine, modelled in Dafny

This project models the session state machine inside the `Quiz` React
component of the menu quiz game (`src/components/Quiz.js`). A pool of
questions loaded for a stage becomes a play order. The play order is the
identity array of pool indices, shuffled in place by Fisher–Yates and cut to
`min(10, pool length)` rounds. The player then answers one question per round:

- A correct answer scores a point and arms the auto-advance timer.
- A wrong answer loses the session.
- Passing the last round finishes it.

From the finished screen the player can go to stage 2, which reloads the pool,
or start a new game.

Files:

- `order.dfy` (module `Order`) covers order construction (`buildOrder`, lines 20–28).
  - `Shuffle` and `ShuffleDown` are the shuffle as functions.
  - `ShuffleIndices` is the in-place loop on an array.
  - `PlayOrder` is the truncated order.
  - The lemmas prove that the shuffle gives exactly the permutations of `0..n-1`.
- `session.dfy` (module `Session`) covers the rest.
  - The class `QuizSession` has one field per piece of component state.
  - Each handler is a method.
  - `Valid()` is the invariant that every handler keeps.
  - `AcceptPool` is the rule deciding which load results become the pool.
- `scenarios.dfy` (module `Scenarios`) holds whole sessions driven through the handlers. They are proved from the handlers' contracts alone.

How the source's environment is represented:

- The swap partner `Math.floor(Math.random() * (i + 1))` becomes an input, `draws[i]`, with `0 <= draws[i] <= i` (`ValidDraws`). Every property is proved for every such choice.
- The ref `advanceTimerRef.current` becomes the boolean field `timerPending`. The ref holds at most one handle, and each place that overwrites it clears it first.
- The timer firing is a call to `HandleNext`, allowed only while `timerPending` holds.
- The `fetch` and JSON parse become a `LoadResult` value: `Threw`, `NotAnArray` or `AnArray(items)`.
- A completed load is a call to `LoadCompleted`. The host makes that call after mount and after each change of `roundNumber`.

Two behaviours of the handlers worth noting:

- **Restart changes the stage.** `handleRestart` sets `roundNumber` to 1 (line 137); it does not keep the stage. So a new game started from stage 2 goes back to stage 1. Because `roundNumber` changed, the effect keyed on it then reloads the stage-1 pool.
- **Restart keeps the old pool until that reload.** `HandleRestart` models lines 131–139 as written: it rebuilds the session on the questions still loaded. The reload that follows is a later `LoadCompleted`.

## Model

| member | source | states |
|---|---|---|
| `Order.TotalRounds` | src/components/Quiz.js:95 | the number of rounds is the smaller of TARGET_ROUNDS (10) and the pool length: at most both, equal to one of them |
| `Order.Identity` | src/components/Quiz.js:23 | `Array.from` builds the identity array: length n, entry k equal to k |
| `Order.Swap` | src/components/Quiz.js:26 | the destructuring swap exchanges positions i and j and leaves every other position as it was |
| `Order.SwapPermutes` | src/components/Quiz.js:26 | the swap keeps the multiset of entries |
| `Order.ShuffleDown` | src/components/Quiz.js:24-27 | the descending loop as a recursive function: the steps for positions i down to 1, each swapping position k with its partner `draws[k]`; its properties are the lemmas below |
| `Order.ShuffleDownPermutes` | src/components/Quiz.js:24-27 | the descending swap loop keeps the array's length and its multiset of entries, for every choice of partners |
| `Order.ShuffleDownKeepsDistinct` | src/components/Quiz.js:24-27 | the swap loop never creates a duplicate entry |
| `Order.Shuffle` | src/components/Quiz.js:23-27 | the identity array after the loop is a permutation of 0..n-1: length n, same multiset, distinct, every entry below n |
| `Order.ShuffleDownReaches` | src/components/Quiz.js:24-27 | the steps for positions i..1 can produce any rearrangement of the first i + 1 entries, by some choice of partners in range |
| `Order.EveryPermutationIsReachable` | src/components/Quiz.js:23-27 | conversely, every permutation of 0..n-1 is the result of the shuffle for some choice of partners, so the shuffles are exactly the permutations |
| `Order.PrefixOfPermutation` | src/components/Quiz.js:28 | the slice of a permutation to k entries has k distinct entries below n, a sub-multiset of 0..n-1 |
| `Order.PlayOrder` | src/components/Quiz.js:21-28 | the play order has exactly min(10, n) entries, all distinct indices into the pool, each taken from 0..n-1 at most once |
| `Order.ShuffleIndices` | src/components/Quiz.js:23-27 | the in-place loop over the array built by `Array.from` computes the shuffle of the identity array, a permutation of 0..n-1 |
| `Session.AcceptPool` | src/components/Quiz.js:53-60 | a load result becomes the pool only when it is a non-empty array; every other result (thrown, not an array, empty array) gives the empty pool |
| `Session.QuizSession.Total` | src/components/Quiz.js:95 | the number of rounds of the current session, `TotalRounds` of the pool length |
| `Session.QuizSession.IsFinished` | src/components/Quiz.js:96 | the session is finished once the round has reached the total; with no questions it is finished at once |
| `Session.QuizSession.Valid` | src/components/Quiz.js:5-16 | the invariant every handler keeps: stage 1 or 2; the order holds one distinct pool index per round; the shown question is the current round's; the score counts the rounds passed plus a correct answer on display; a loss or a pending timer only over a revealed answer of an unfinished round, a timer never over a loss |
| `Session.QuizSession.CurrentQuestion` | src/components/Quiz.js:94 | the question on screen in an unfinished session is the pool entry the play order names for the current round |
| `Session.QuizSession.constructor` | src/components/Quiz.js:5-16 | the initial state: empty pool and order, round 0, no selection, stage 1, no timer; it satisfies the invariant |
| `Session.QuizSession.BuildOrder` | src/components/Quiz.js:20-36 | the order becomes the play order of the pool; round, score, selection, reveal and loss are reset; the current question is the order's first entry, or 0 when the order is empty; pool, stage and timer are untouched |
| `Session.QuizSession.LoadCompleted` | src/components/Quiz.js:53-63 | the accepted pool is stored and a session is built on it; a rejected load gives a session with no rounds that is finished at once with score 0 |
| `Session.QuizSession.HandleSelect` | src/components/Quiz.js:98-113 | no change once the answer is revealed. A correct pick records it, adds exactly 1 to the score and leaves exactly one timer pending. A wrong pick records it, sets the loss flag, keeps the score and arms no timer. Round, order, pool and stage never change |
| `Session.QuizSession.HandleNext` | src/components/Quiz.js:115-129 | clears the timer and adds exactly 1 to the round. Below the total it shows `order[round]` with the selection and reveal cleared; otherwise the round equals the total and the session is finished. Score, order, pool and stage are kept |
| `Session.QuizSession.HandleRestart` | src/components/Quiz.js:131-139 | clears the timer, sets the stage to 1 and rebuilds a fresh session on the same pool |
| `Session.QuizSession.HandleNextRound` | src/components/Quiz.js:141-147 | called only from the finished screen of stage 1 (lines 148-165); clears the timer and sets the stage to 2; no other field changes until the next load |
| `Session.QuizSession.Dispose` | src/components/Quiz.js:74-81 | unmount clears the pending timer and changes nothing else |
| `Session.QuizSession.ScoreBounded` | src/components/Quiz.js:98-129 | in every reachable state the score is at most round + 1 and at most the number of rounds |
| `Session.QuizSession.FinishedIsPerfect` | src/components/Quiz.js:96-129 | a finished session was not lost, has no timer pending and scored one point per round |
| `Session.QuizSession.LostIsTerminal` | src/components/Quiz.js:99-112 | after a wrong pick the answer stays revealed and no timer is pending, so neither selection nor auto-advance can change the session; only a rebuild can |
| `Scenarios.PlayToEnd` | src/components/Quiz.js:98-129 | picking the correct option in every round, with each auto-advance firing, ends with a finished session, no timer pending, the same pool and the same stage |
| `Scenarios.PlayPerfectly` | src/components/Quiz.js:98-129 | answering every question correctly, with each auto-advance firing, finishes the session unlost with score equal to min(10, pool length) |
| `Scenarios.ThreeQuestionsAllCorrect` | src/components/Quiz.js:95-129 | a pool of 3 gives 3 rounds, and 3 correct answers finish with 3 out of 3 |
| `Scenarios.CorrectThenWrong` | src/components/Quiz.js:98-129 | a pool of 12 gives 10 rounds; a correct pick, then a wrong pick that is a real option index (0 or 1, when every question has two options), leaves the session lost, unfinished, with score 1 |
| `Scenarios.SelectTwice` | src/components/Quiz.js:98-108 | a second pick while the correct answer is shown does not score again: score 1, one timer pending, not lost |
| `Scenarios.EmptyPool` | src/components/Quiz.js:53-63 | a failed or non-array or empty load gives total 0, finished at once with score 0 |
| `Scenarios.NextStageWithFailedLoad` | src/components/Quiz.js:141-147 | stage 1 is won with score equal to its total; going to the next stage and a failed stage-2 load then give stage 2 with round 0, score 0, total 0, finished |
| `Scenarios.RestartFromStageTwo` | src/components/Quiz.js:131-139 | after stage 1 is won and stage 2 loaded, a new game, whatever the stage-2 state, gives stage 1, round 0, score 0, not lost, no timer |

## Left out

- Rendering is not modelled: the JSX, the CSS class names and the `disabled` flags on the option buttons (lines 83–92, 149–241). The handlers' `requires` carry what the rendering guarantees. `HandleSelect` is only reachable while the session is not finished, because only then are options shown and `question` defined. `HandleNextRound` is only reachable from the finished screen of stage 1, the only screen with that button.
- The `fetch` call, its two URLs, `res.json()` and the `try/catch` (lines 43–58) are I/O. They are reduced to the `LoadResult` input.
- The elements of a loaded array are taken to be question records. The source does not check their shape, and the model does not cover malformed elements.
- `isLoading`, `isMounted` and the two `useEffect` lifecycles (lines 38–81) are React plumbing. The host's calls to the constructor, `LoadCompleted` and `Dispose` stand for them.
- `LoadCompleted` requires that no timer is pending. Loads start only on mount or after a stage change, and both clear the timer. The loading screen takes no input.
- A load still running when the stage changes again is not modelled, and neither is its cancellation through `isMounted`.
- The 650 ms delay and real timer semantics (lines 17, 106–108) are not modelled. Scheduling sets `timerPending`, and firing is a call to `HandleNext`.
- React's batched, asynchronous `setState` and stale closures are not modelled. Each handler is a sequence of immediate field updates. This matches the source, because no handler reads a field after updating it.
- `Math.random` (line 25) is replaced by the `draws` input. The model proves which orders can arise: exactly the permutations, and each play order is a prefix of one. It does not prove with what probability each arises. Uniformity would need a probabilistic model.
- The progress bar's width (line 189) is floating point and is left out. The `round + 1 / total` label (line 192) is display only and is left out too.
- The `error` state (lines 14, 136, 231) is only ever set to `null`, so it has no behaviour to model.
- `Array.isArray(pool) ? pool.length : 0` (line 21) is not modelled as a branch. Both callers pass an array, and the model's pool is always a sequence.
- `if (!pool) pool = []` (line 60) is not modelled as a branch: `pool` is never falsy there.
- Counters are unbounded naturals. They never exceed 10 in the source, so JavaScript's number range plays no part.
