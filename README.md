# Xplora science-snack mini-games, modelled in Dafny

This project models the four browser mini-games of the Xplora Ciencia
website (`js/main.js`) as verified Dafny state machines:

- **Placebo sorter** (`placebo.dfy`, module `Placebo`): eight statements are
  shown in shuffled order. Each sits in the unsorted pool or in the "placebos
  can" or "placebos can't" bucket. A click cycles a statement
  unsorted → can → can't → unsorted. A drop puts it straight into a bucket.
  The check button marks the placed statements right or wrong, counts the
  right ones against all eight and picks one of three message tiers.
- **Tetanus quiz** (`quiz.dfy`, module `TetanusQuiz`): six true/false claims
  are shown one at a time. An answer is judged against the claim's truth,
  raises the score when right and moves the cursor on by one. Answers after
  the last claim are ignored. The final percentage is 100 only for a full score.
- **p-value demo** (`pvalue.dfy`, module `PValue`): a grid of 20 simulated
  null-effect experiments. A run takes one p-value per cell and flags the
  cells below 0.05 as false positives. Running totals count runs and false
  positives until the reset button zeroes them.
- **Umami sandbox** (`umami.dfy`, module `Umami`): the player toggles up to
  five of twelve foods onto a plate. The plate's umami is the sum of the
  foods' scores, times 1.8 and rounded when a glutamate food meets an
  inosinate or guanylate food (the synergy). The fill bar is the total
  capped at 100.

`scoring.dfy` (module `Scoring`) holds the rounded percentage that the
placebo check and the quiz summary both display.

Each game is a class whose fields are the closure variables the page's
handlers update in place (`selectedFoods`, `currentIndex`/`score`,
`totalRuns`/`totalFalsePositives`). The placebo sorter keeps an explicit
zone per statement where the page reads the DOM parent of the element.
Each class keeps a ghost `Valid()` invariant. The quiz and the p-value demo
also keep a ghost history (the answers given, the runs since the reset),
and their invariants tie the counters to that history. The page's
accumulating loops (the pass over the selection in `updatePlate`, the two
bucket passes of the placebo check, the cell loop of `runExperiment`) are
`while` loops with invariants, proved against recursive specification
functions; the clearing loop of `resetGrid` is a `while` loop over the cell
array. The loops that only lay out or clear the placebo statements are
whole-sequence updates. Lemmas relate the specification functions to each
other and to the catalogs.

Inputs that the page takes from randomness are parameters here:

- the shuffled presentation order of a catalog is a constructor argument,
  required to be a permutation of the catalog (equal multisets);
- the twenty p-values of a run are an argument of `RunExperiment`.

Behaviour worth noting in the code:

- The placebo reset lays the statements out again in the same order. The
  shuffle runs once per game set-up, not on reset.
- The quiz has no reset button. `renderCards` runs once when the game is set up.
- A comment in the placebo check says unsorted statements "count as wrong".
  The code counts them neither right nor wrong; its count of placed
  statements is never used. They still lower the percentage, because the
  denominator is the whole catalog.

Rounding is computed exactly in integers. `Math.round(s * 1.8)` is
`(18 s + 5) / 10`: nine fifths of a whole number never ends in exactly one
half, so there is no tie. `Math.round((c / t) * 100)` is modelled as
`(200 c + t) / (2 t)`, the exact nearest integer with halves rounded up. For
the two totals the games use, six and eight, this agrees with the page's
floating-point result for every count; `QuizPercents` and `PlaceboPercents`
list the values. The contracts of `Amplified` and `RoundedPercent` state that
these quotients are the nearest integers.

## Model

| member | source | states |
|---|---|---|
| Scoring.RoundedPercent | js/main.js:473 | the displayed percentage is the integer nearest to 100·correct/total with halves rounded up; it is at most 100 when correct ≤ total, exactly 100 when all are correct, and below 100 otherwise (for totals under 200) |
| Scoring.QuizPercents | js/main.js:562 | the quiz summary shows 0, 17, 33, 50, 67, 83 and 100 percent for scores 0 to 6 out of six |
| Scoring.PlaceboPercents | js/main.js:473 | the placebo check shows 0, 13, 25, 38, 50, 63, 75, 88 and 100 percent for 0 to 8 right out of eight |
| Umami.IndexOf | js/main.js:702 | the result is -1 exactly when the food is not selected; otherwise it is the first position holding the food |
| Umami.Toggled | js/main.js:701-708 | a toggle keeps the selection at ≤ 5 distinct catalog indices; a selected food is removed (the set loses exactly that food); a new food is appended when fewer than 5 are chosen; with 5 chosen the selection is unchanged |
| Umami.PlainSum | js/main.js:717-724 | the plain sum of the selected foods' scores is at most 30 per food |
| Umami.Synergy | js/main.js:725-737 | synergy (a glutamate food with an inosinate or guanylate food) always takes at least two foods |
| Umami.Amplified | js/main.js:738 | the synergy total is the integer nearest to sum × 1.8 (never a tie) and never below the plain sum |
| Umami.Total | js/main.js:735-740 | the shown total is the plain sum × 1.8 rounded to the nearest integer with synergy and the plain sum without; it is never below the plain sum and at most 270 for a plate of five |
| Umami.Fill | js/main.js:742-743 | the fill percentage is the total, capped at 100 |
| Umami.ColorOf | js/main.js:747-753 | the value is magenta exactly above 60 and muted exactly at 30 or below, yellow in between |
| Umami.HintOf | js/main.js:755-773 | a guidance line shows exactly when the plate holds a food; it announces the synergy exactly when the synergy is reached; the "add a nucleotide" hint appears exactly with a glutamate food and no synergy, the "add a glutamate food" hint exactly when a non-empty plate has no glutamate food |
| Umami.UmamiGame.constructor | js/main.js:674 | a new game starts with an empty selection |
| Umami.UmamiGame.ToggleFood | js/main.js:701-708 | the new selection is `Toggled` of the old one, and the selection invariant (≤ 5, distinct, in the catalog) is kept |
| Umami.UmamiGame.UpdatePlate | js/main.js:713-774 | one pass over the selection yields the plain sum and the three kind flags; the shown total is the sum, or the amplified sum when glutamate meets inosinate or guanylate; the synergy flag, the capped fill, the value colour (>60, >30, else) and the guidance line follow from them |
| Umami.UmamiGame.Reset | js/main.js:776-780 | the reset button empties the selection |
| Umami.ToggleTwice | js/main.js:701-708 | toggling one food twice, when the first toggle is not refused by the cap, gives back the same set of foods and the same total; a food that was added and removed leaves the very same list |
| Umami.ParmesanSardine | js/main.js:661-663 | Parmesan with Sardine has synergy and shows 77 |
| Umami.SugarSalt | js/main.js:669-670 | Sugar with Salt has no synergy and shows 2 |
| Umami.EmptyPlate | js/main.js:776-780 | after a reset the plate shows 0, no synergy, an empty bar and no guidance |
| TetanusQuiz.MatchesAtMostAnswers | js/main.js:546-548 | the score never exceeds the number of answers given |
| TetanusQuiz.FullScoreIffAllRight | js/main.js:546-548 | the score equals the number of answers exactly when every answer matches its claim's truth |
| TetanusQuiz.ClosingOf | js/main.js:564 | the closing line is the "perfect" one exactly at 100% |
| TetanusQuiz.FinalPerfectIffFullScore | js/main.js:562-564 | over the six-claim catalog, the closing "perfect" line appears exactly for a score of 6 |
| TetanusQuiz.Quiz.constructor | js/main.js:519-521 | the game starts on the shuffled claims with cursor and score at 0 |
| TetanusQuiz.Quiz.RenderCards | js/main.js:523-539 | rendering the cards sets the cursor and the score to 0 and clears the answer history |
| TetanusQuiz.Quiz.Answer | js/main.js:541-556 | after the last claim an answer is ignored and nothing changes; otherwise the score rises by one exactly when the answer matches the truth, the cursor moves on by one, the shown "score/attempts" is returned, and 0 ≤ score ≤ cursor ≤ N holds |
| TetanusQuiz.Quiz.FinalPercent | js/main.js:562 | the final percentage is at most 100, and 100 exactly when every claim was answered right |
| Placebo.NextZone | js/main.js:412-421 | a click always moves the statement, and only a statement in the "can't" bucket goes back to the pool |
| Placebo.ClickCycle | js/main.js:412-421 | three clicks bring a statement back to its zone, and one or two clicks always move it |
| Placebo.Matched | js/main.js:450-468 | a bucket's count of statements that belong there is at most the number of statements |
| Placebo.CorrectAndUnsortedBound | js/main.js:446-471 | a statement adds to at most one of the "can" count, the "can't" count and the pool, so the three together never exceed the catalog |
| Placebo.CorrectCount | js/main.js:446-471 | the check's count of correct placements over both buckets; unsorted statements count toward neither bucket, so the count plus the unsorted count never exceeds the catalog |
| Placebo.TierOf | js/main.js:475 | the message is "perfect" exactly at 100% and "keep learning" exactly below 50% |
| Placebo.FullCountIffAllRight | js/main.js:450-468 | all statements count as correct exactly when each sits in the bucket its truth names |
| Placebo.TierBands | js/main.js:473-476 | over the eight-statement catalog the message is "perfect" exactly for 8 right, "good" for 4 to 7, "keep learning" below 4 |
| Placebo.AllRightIsPerfect | js/main.js:446-476 | a sort with every statement in its own bucket scores 100% with the "perfect" message |
| Placebo.PlaceboGame.constructor | js/main.js:385-426 | the game starts on the shuffled statements, all unsorted and unmarked |
| Placebo.PlaceboGame.RenderItems | js/main.js:387-426 | every statement goes back to the unsorted pool, unmarked, with the check button shown |
| Placebo.PlaceboGame.Click | js/main.js:413-422 | a click moves exactly the clicked statement one zone along the cycle |
| Placebo.PlaceboGame.Drop | js/main.js:435-443 | a drop puts the statement with that index into the target bucket, leaves everything unchanged for an index naming no statement, and changes nothing when it is already there |
| Placebo.PlaceboGame.MarkBucket | js/main.js:450-468 | one pass over a bucket marks its statements right or wrong and counts the right ones; the other statements keep their marks |
| Placebo.PlaceboGame.Check | js/main.js:446-481 | the correct count is the statements in "can" that belong there plus those in "can't" that belong there, out of the whole catalog; the percentage is rounded and picks the tier; placed statements are marked right or wrong and unsorted ones stay unmarked |
| Placebo.PlaceboGame.Reset | js/main.js:483-488 | the reset button clears the marks and puts every statement back in the pool |
| PValue.Resolved | js/main.js:611-619 | a cell shows its own p-value and is flagged as significant exactly when the value is below 0.05 |
| PValue.CountFlagged | js/main.js:606-623 | a run's count of draws below 0.05 is at most the number of draws |
| PValue.FlaggedAppend | js/main.js:623-627 | the count of flagged draws splits over a concatenation of draws |
| PValue.TotalIsFlatCount | js/main.js:626-627 | the running false-positive total is the number of flagged draws among all draws since the reset |
| PValue.TotalAtMostGrid | js/main.js:626-627 | the running total is at most 20 false positives per run |
| PValue.PValueDemo.constructor | js/main.js:587-588 | the demo starts with idle cells and both totals at 0 |
| PValue.PValueDemo.ResetGrid | js/main.js:590-602 | every cell is idle again and both totals are 0 |
| PValue.PValueDemo.RunExperiment | js/main.js:604-627 | each cell shows its own draw; the run's false-positive count is the number of its own 20 draws below 0.05, in [0, 20]; the run total rises by 1 and the false-positive total by that count |

## Left out

- The language toggle and every bilingual string: the model keeps the English
  catalog texts. Messages are enums (`Tier`, `Closing`, `Hint`, `ValueColor`).
  `typeLabel` is display text only.
- Re-initialising the games on a language change (`reinitGames`) is not modelled.
- Page chrome, the statistics counter animation with `formatNumber`, and the
  particle-field hero canvas. These are DOM, CSS and floating-point animation
  with nothing to state.
- `Math.random`: the shuffles (an unspecified, non-uniform comparator sort)
  and the p-value draws are inputs. The model states no distribution, so the
  roughly 5% false-positive rate is not modelled.
- `setTimeout` pacing of the quiz and the p-value grid. The outcome is computed
  before the timers fire, and the model applies the cell updates at once.
  Overlapping runs therefore read as sequential runs.
- Drag-and-drop event plumbing and the CSS classes for hidden, selected and
  drag-over states. The order of statements inside a bucket (DOM order) is not
  kept, because counting does not depend on it.
- Umami.Fill: the page computes `Math.min((total / 100) * 100, 100)` in floating
  point, which can differ from the whole-number total in the last bits. The
  model uses the exact value.
- Umami.UmamiGame.ToggleFood: the page re-renders the plate after a toggle that
  is not refused. The model leaves rendering to `UpdatePlate`, a function of the
  selection alone, so a refused toggle (selection unchanged) shows the same plate.
- Scoring.RoundedPercent: the page divides and multiplies in floating point, and for
  some totals the product falls just below one half (23 out of 40 gives
  57.49999999999999, shown as 57, where the exact value 57.5 rounds to 58). The model
  uses the exact value; it agrees with the page for the totals six and eight that
  the games use.
- Placebo.PlaceboGame.Check requires that no result is showing. The page hides
  the check button until reset, so a second check cannot happen.
