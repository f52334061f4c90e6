# Foliage L-system core, modelled in Dafny

Foliage draws plants with an L-system. A grammar has an axiom and a list of
rewriting rules, each rule having an input character, an output string and a
probability. The axiom is rewritten a fixed number of times. A turtle then
walks the resulting command string and emits points and arrows into a
three.js scene. This project models the logic underneath:

- `search.dfy` (module `SortedSearch`): the sorted-array helpers of
  `search.ts`.
  - `binarySearch` and `keyedBinarySearch` return a hit or an encoded
    insertion point `-p - 1`.
  - `insert` and `insertUnique` splice into an array in place.
  - `findAll` and `keyedFindAll` collect the run of equivalent elements
    around a hit, and return the hit twice.
  - `defaultComparator` on strings.
- `probe.dfy` (module `SearchProbe`): the probe `(n + m) >> 1` with
  JavaScript's 32-bit conversion, for the finding below.
- `rule.dfy` (module `Rules`): the weighted choice `selectRule` and the
  rewriting pass `applyRules` of `rule.ts`. A rule is looked up with
  `keyedFindAll`, so the lookup depends on the rules being sorted by input.
- `random.dfy` (module `Random`): the seeded generator `PseudoRandom` of
  `random.ts`, a djb2-style hash of the seed and a 21/3/4 xorshift step on
  a 32-bit state.
- `state.dfy` (module `TurtleState`): the `StateCollection` of `state.ts`.
  It is a non-empty array whose first entry is the current turtle state and
  whose later entries are saved copies, with `save`, `restore` and `clone`.
- `grammar.dfy` (module `Grammars`): the `Grammar` record and the default
  grammar data. Its rules are sorted `F < X < Z`, and every probability is 0.
- `renderer.dfy` (module `Scene`): the L-system part of `createScene`.
  - The expansion `s += applyRules(s)`, four times.
  - The command loop over `F + - [ ]`, with its own stack of saved turtles.
  - Its output is a list of emitted events: a point with a colour, or an
    arrow.

Operations that change state in place are written imperatively:

- `List.items` is the array that `insert` and `insertUnique` splice.
  `StateCollection.states` is the array that `save` and `restore` push to and
  pop from. `PseudoRandom.state` is the generator's state, which `next`
  updates.
- Each source loop is a `while` or `for` loop with invariants. This covers
  the search loops, the two scans of `findAll`, the loop of `selectRule`, the
  loop of `applyRules`, the loop of `hash`, the expansion loop and the
  command loop.
- Each loop method is proved equal to a function that specifies it, and the
  properties are then lemmas about those functions. The methods of
  `state.ts` (`clone`, `save`, `restore`) and `next` have no loop, so their
  `ensures` state the new array or state directly.

`Math.random()` has no place in a verified model, so the randomness is passed
in. `selectRule` takes its draw `u` as a parameter and reports whether it
used it. `applyRules` and `createScene` read draws from a stream
`random: nat -> real` and return how many they consumed. Vector arithmetic
is floating point, so the renderer's vectors are a type parameter. They are
changed through a record of functions (`Geometry`): add, scale, normalize,
and the random cone direction.

Some behaviour of the code that a reader might not expect, and that the
model keeps:

- `createScene` never changes the radius. It starts at 0.1, `[` saves it
  and `]` restores it, so it always stays 0.1 (`Scene.RadiusKept`,
  `Scene.SceneInvariants`).
- The `ArrowHelper` that `F` adds is given a direction, an origin and a
  length but no colour, so `Event.Arrow` has no colour.
- `applyRules` finds the rules for a character with `keyedFindAll`. That
  lookup is only correct on rules sorted by input, and it returns the hit
  rule twice, which doubles its weight in the choice (`Rules.HitCountedTwice`).
- `restore` pops the last entry and overwrites slot 0 with it; the entries
  between are left as they were (`TurtleState.StateCollection.Restore`).
- The renderer draws its cone directions with `Math.random` and does not
  use `PseudoRandom`. It does not use `state.ts` either: its stack of saved
  turtles is a local array that starts empty. So `]` on an empty stack only
  emits a green point at the current position (`Scene.PopNothing`).

## Model

| member | source | states |
|---|---|---|
| SortedSearch.DefaultComparator | src/renderer/src/search.ts:8-10 | On strings, the verdict is -1 exactly when `a` sorts before `b` lexicographically, 0 exactly when they are equal, and 1 exactly when `b` sorts before `a`. |
| SortedSearch.DefaultIsComparator | src/renderer/src/search.ts:8-10 | `defaultComparator` on strings is antisymmetric and transitive, i.e. a valid comparator for the searches. |
| SortedSearch.Below | src/renderer/src/search.ts:9 | Definition of `a < b` on strings, character by character, a proper prefix being below. Its properties are `BelowTrichotomy` and `BelowTransitive`; the difference from code-unit order is under Left out. |
| SortedSearch.BelowTrichotomy | src/renderer/src/search.ts:9 | Of `a < b`, `a == b` and `b < a` on strings, exactly one holds. |
| SortedSearch.BelowTransitive | src/renderer/src/search.ts:9 | The string order `<` is transitive. |
| SortedSearch.BinarySearchResult | src/renderer/src/search.ts:137-139 | The encoding maps every non-negative value to a negative one and every negative value to a non-negative one. |
| SortedSearch.BinarySearchResultInvolution | src/renderer/src/search.ts:137-139 | `binarySearchResult` is its own inverse. |
| SortedSearch.Midpoint | src/renderer/src/search.ts:21 | The probe lies in the current window `[m, n]`, so it always indexes the array. |
| SortedSearch.Search | src/renderer/src/search.ts:12-33 | What `binarySearch` returns over the whole array, `m = 0` and `n = length - 1`: a hit `r` is an index whose element is equivalent to the target, and a miss encodes an insertion point between 0 and the length. |
| SortedSearch.SearchIn | src/renderer/src/search.ts:17-32 | The search over the window `[m, n]` either hits an index in the window whose element is equivalent to the target, or returns an encoded point in `[m, n + 1]`. The element just before that point is below the target, and the element at it is above. It terminates because the window shrinks. |
| SortedSearch.BinarySearch | src/renderer/src/search.ts:12-33 | The `while` loop returns what the function `Search` returns. The loop keeps the probe in bounds, and the window shrinks each round. |
| SortedSearch.KeyedBinarySearch | src/renderer/src/search.ts:35-56 | It returns the unkeyed search over the projected keys `array[i][key]`. |
| SortedSearch.SearchMiss | src/renderer/src/search.ts:17-32 | On a sorted array with a valid comparator, a negative result decodes to `p` with `0 <= p <= length`. Every element before `p` is less than the target, and every element from `p` on is greater. |
| SortedSearch.SearchFound | src/renderer/src/search.ts:20-29 | On a sorted array, the result is a hit exactly when some element is equivalent to the target. A hit `k` satisfies `comparator(element, array[k]) == 0` (from `SearchIn`). |
| SortedSearch.RunStart | src/renderer/src/search.ts:97-100 | Where the leftward scan stops: an index between 0 and the hit. |
| SortedSearch.RunStartMaximal | src/renderer/src/search.ts:97-100 | Every element from the scan's stop up to the hit is equivalent, and the element just before the stop is not. |
| SortedSearch.Around | src/renderer/src/search.ts:85-108 | Definition of what `findAll` returns: `[]` when the search misses; after a hit `k`, the run from its left end up to `k` followed by the run from `k` to its right end, so `array[k]` appears twice. Its properties are `FindAllEmpty`, `FindAllHit` and `EquivalentsOfRun`. |
| SortedSearch.RunEnd | src/renderer/src/search.ts:102-105 | Where the rightward scan stops: an index between the hit and the length. |
| SortedSearch.RunEndMaximal | src/renderer/src/search.ts:102-105 | Every element from the hit up to the stop is equivalent, and the element at the stop is not. |
| SortedSearch.EquivalentsOfRun | src/renderer/src/search.ts:85-108 | When exactly the elements in `[lo, hi)` are equivalent, the reference "all equivalents in order" is the slice `array[lo..hi]`. |
| SortedSearch.BeforeRunLess | src/renderer/src/search.ts:97-100 | On a sorted array, everything before the run around a hit is less than the target. |
| SortedSearch.AfterRunGreater | src/renderer/src/search.ts:102-105 | On a sorted array, everything after the run around a hit is greater than the target. |
| SortedSearch.RunIsAllEquivalents | src/renderer/src/search.ts:94-105 | On a sorted array, the run that the two scans find around a hit holds exactly the elements equivalent to the target. |
| SortedSearch.EquivalentsUpTo | src/renderer/src/search.ts:97-100 | The leftward half of the result is the list of equivalents among `array[..k+1]`. |
| SortedSearch.EquivalentsFrom | src/renderer/src/search.ts:102-105 | The rightward half of the result is the list of equivalents among `array[k..]`. |
| SortedSearch.FindAllEmpty | src/renderer/src/search.ts:86-90 | On a sorted array, `findAll` returns `[]` exactly when no element is equivalent to the target. |
| SortedSearch.FindAllHit | src/renderer/src/search.ts:85-108 | On a sorted array, after a hit `k` the result is `array[L..k+1] + array[k..R]`. `[L, R)` holds exactly the equivalent elements. The result is therefore all equivalents up to the hit followed by all equivalents from the hit on, so the hit appears twice. |
| SortedSearch.FindAll | src/renderer/src/search.ts:85-108 | The two `while` loops (`unshift` leftwards, `push` rightwards) return exactly the function `Around`: `[]` on a miss, otherwise the two runs. |
| SortedSearch.KeyedFindAll | src/renderer/src/search.ts:110-135 | The keyed loops return `Around` over the projected keys, the hit included twice. |
| SortedSearch.KeyedFindAllProjects | src/renderer/src/search.ts:110-135 | Projecting what `keyedFindAll` returns gives what `findAll` returns on the projected array, so both behave alike, duplicate included. |
| SortedSearch.List.constructor | src/renderer/src/search.ts:58-62 | The array starts with the given items. |
| SortedSearch.SpliceIn | src/renderer/src/search.ts:67 | `array.splice(i, 0, x)`: one element longer, `x` at index `i`, the elements before `i` unchanged, and those from `i` on moved one place right. |
| SortedSearch.Inserted | src/renderer/src/search.ts:58-68 | Definition of the array `insert` leaves: `x` spliced in at `InsertionPoint`. Its properties are `InsertAddsOne` and `InsertKeepsOrder`. |
| SortedSearch.InsertionPoint | src/renderer/src/search.ts:63-66 | The hit or the decoded insertion point lies in `[0, length]`. |
| SortedSearch.InsertAddsOne | src/renderer/src/search.ts:58-68 | `insert` grows the array by exactly one. The new element sits at the insertion point, and removing it gives back the old array in order. The multiset gains exactly one `element`. |
| SortedSearch.SpliceKeepsOrder | src/renderer/src/search.ts:67 | Splicing `x` in between elements at most `x` and elements at least `x` keeps the array sorted. |
| SortedSearch.InsertKeepsOrder | src/renderer/src/search.ts:58-68 | On a sorted array with a valid comparator, `insert` keeps the array sorted. |
| SortedSearch.Insert | src/renderer/src/search.ts:58-68 | The in-place splice leaves the array equal to `Inserted(old array, element)`. |
| SortedSearch.InsertUnique | src/renderer/src/search.ts:70-83 | It returns true and inserts at the decoded point exactly when the search misses. Otherwise it returns false and leaves the array unchanged. By `SearchFound`, "misses" means "no equivalent element" on a sorted array. |
| SearchProbe.ToInt32 | src/renderer/src/search.ts:21 | JavaScript's 32-bit conversion before `>>`: the result lies in `[-2^31, 2^31)` and is congruent to its argument modulo 2^32. |
| SearchProbe.Midpoint32 | src/renderer/src/search.ts:21 | Definition of the probe as written: `ToInt32(m + n)` halved rounding down. Its properties are `Midpoint32Agrees` and `Midpoint32Wraps`. |
| SearchProbe.Midpoint32Agrees | src/renderer/src/search.ts:21 | While `n + m < 2^31`, the source's probe `(n + m) >> 1` equals the exact midpoint. |
| SearchProbe.Midpoint32Wraps | src/renderer/src/search.ts:21 | For `m = 0` and `n = 2^31`, the source's probe is `-2^30` while the exact midpoint is `2^30`. |
| Rules.Total | src/renderer/src/rule.ts:12-15 | Definition of `totalProbability`: the probabilities summed from the left, starting at 0. Its properties are `TotalConcat` and `TotalOfWeightless`. |
| Rules.SumToAgree | src/renderer/src/rule.ts:12-15 | Two lists that agree on their first `n` rules have the same running sum there. |
| Rules.TotalConcat | src/renderer/src/rule.ts:12-15 | The total probability of a concatenation is the sum of the totals. |
| Rules.TotalOfWeightless | src/renderer/src/rule.ts:12-15 | Rules whose probabilities are all 0 have total 0. |
| Rules.Scan | src/renderer/src/rule.ts:19-25 | The scan stops at a position between its start and the length. |
| Rules.ScanStopsAtFirstAbove | src/renderer/src/rule.ts:19-25 | Started with the running sum so far, the scan stops at the first position whose running sum strictly exceeds `rand`. It stops inside the list whenever `rand` lies below the total. |
| Rules.SelectionIndex | src/renderer/src/rule.ts:11-29 | The chosen index always lies within the list. |
| Rules.Selection | src/renderer/src/rule.ts:11-29 | Definition of the rule `selectRule` returns for a scaled draw: the rule at `SelectionIndex`. Its properties are `SelectionWithin`, `SelectionFallsBack` and `SelectionIsFirstAbove`. |
| Rules.SelectionWithin | src/renderer/src/rule.ts:11-29 | On a non-empty list, `selectRule` returns one of its rules. |
| Rules.ScaledDrawBelowTotal | src/renderer/src/rule.ts:18 | A draw `u` in `[0, 1)` scaled by a positive total lies in `[0, total)`. |
| Rules.SelectionFallsBack | src/renderer/src/rule.ts:17-28 | When the probabilities sum to at most 0, `selectRule` returns `rules[0]`. |
| Rules.SelectionIsFirstAbove | src/renderer/src/rule.ts:18-24 | With a positive total and a scaled draw in `[0, total)`, the chosen rule is the first whose running sum strictly exceeds the draw. |
| Rules.SelectRule | src/renderer/src/rule.ts:11-29 | The reduce and the `for` loop return `Selection(rules, u * total)`. A random number is drawn exactly when the total is positive. |
| Rules.Matching | src/renderer/src/rule.ts:36 | Definition of `keyedFindAll(['input', char], rules)`: `Around` on the rules keyed by their input, with the one-character string as target. Its properties are `MatchingWithin`, `AbsentIffNoKey`, `MatchingStartsLeftmost` and `HitCountedTwice`. |
| Rules.Outcome | src/renderer/src/rule.ts:37-43 | Definition of the loop body's result for one character: the character itself and no draw when nothing matched, otherwise the output of `Selection` on the draw scaled by the total, with one draw exactly when the total is positive. |
| Rules.Piece | src/renderer/src/rule.ts:35-43 | Definition of one character's rewriting: `Outcome` on its matching rules with the next unused draw. |
| Rules.Pass | src/renderer/src/rule.ts:32-46 | Definition of a left-to-right loop that appends each character's rewriting to `output` and moves the draw index past the draws it used. Its properties are `PassSnoc`, `PassConcat` and `PassesAgree`. |
| Rules.Rewrite | src/renderer/src/rule.ts:31-47 | Definition of `applyRules`: a `Pass` whose step is `Piece`. `ApplyRules` is proved to return it, and `NoInputsUnchanged` and `WeightlessRewrite` are about it. |
| Rules.OutcomeOfSelection | src/renderer/src/rule.ts:37-43 | A character with found rules becomes the chosen rule's output, with one draw if that choice drew. |
| Rules.PassSnoc | src/renderer/src/rule.ts:34-44 | One more character extends the pass by that character's piece, with draws continuing from where the pass stopped. |
| Rules.ThenAssociates | src/renderer/src/rule.ts:38-43 | Appending outputs (and adding draw counts) is associative. |
| Rules.PassConcat | src/renderer/src/rule.ts:31-47 | A pass over `a + b` is the pass over `a` followed by the pass over `b`, whose draws start where those of `a` stopped. `Rewrite` is such a pass, so the output of `applyRules` is the left-to-right concatenation of one piece per character. |
| Rules.PassesAgree | src/renderer/src/rule.ts:34-44 | Two steps that both agree with the per-character rewriting make the same pass. |
| Rules.PassIsRewrite | src/renderer/src/rule.ts:31-47 | A pass by any step that agrees with the per-character rewriting is `Rewrite`, the function that specifies `applyRules`. |
| Rules.RewriteChar | src/renderer/src/rule.ts:35-43 | One character: the `keyedFindAll` lookup, then either the character itself (nothing found) or the output of `selectRule` on what was found. |
| Rules.ApplyRules | src/renderer/src/rule.ts:31-47 | The loop's output and its number of draws are exactly `Rewrite(input, rules, random, first)`. |
| Rules.RewriteEach | src/renderer/src/rule.ts:34-44 | The `for` loop appends one piece per character, as the pass specifies. |
| Rules.UnmatchedFindsNothing | src/renderer/src/rule.ts:36-37 | A character that is no rule's input finds no rule. |
| Rules.UnmatchedCopied | src/renderer/src/rule.ts:36-40 | Such a character is copied unchanged, and no draw is made for it. |
| Rules.NoInputsUnchanged | src/renderer/src/rule.ts:31-47 | An input that contains no rule's input comes back unchanged, without a draw. |
| Rules.FirstWith | src/renderer/src/rule.ts:28 | Reference position: the leftmost rule with input `s`, or the length when there is none. |
| Rules.FirstWithAt | src/renderer/src/rule.ts:28 | A rule with input `s` that no earlier rule shares is the leftmost one. |
| Rules.KeyMatches | src/renderer/src/rule.ts:36 | The comparator finds a rule's key equivalent to `t` exactly when the rule's input is `t`. |
| Rules.SortedIsOrdered | src/renderer/src/rule.ts:36 | Rules sorted by input with the string comparator meet the search's precondition. |
| Rules.MatchingWithin | src/renderer/src/rule.ts:36 | Every rule found is one of the rules. |
| Rules.AbsentIffNoKey | src/renderer/src/rule.ts:36-37 | No rule's key is equivalent to `[c]` exactly when no rule has input `[c]`. |
| Rules.RunHeadsAround | src/renderer/src/search.ts:122-133 | On a sorted array after a hit, the result starts with the element at the start of the run, which is the leftmost equivalent. |
| Rules.HitStartsLeftmost | src/renderer/src/rule.ts:36-42 | On sorted rules, when the search hits, the first rule found is the leftmost rule with that input. |
| Rules.MatchingStartsLeftmost | src/renderer/src/rule.ts:36-42 | On sorted rules, nothing is found for `c` exactly when no rule has input `[c]`. Otherwise the first rule found is the leftmost rule with input `[c]`. |
| Rules.WeightlessPiece | src/renderer/src/rule.ts:28-42 | On sorted rules whose probabilities are all 0, a character becomes the output of the leftmost rule with its input (or itself, when there is none), without a draw. |
| Rules.WeightlessRewrite | src/renderer/src/rule.ts:31-47 | On such rules, `applyRules` equals the deterministic reference replacement `Replaced`, and draws nothing. |
| Rules.HitCountedTwice | src/renderer/src/rule.ts:36-42 | On sorted rules, the weight of what `keyedFindAll` finds is the weight of all rules with input `[c]` plus the probability of the hit rule once more. |
| Rules.DoubledTotal | src/renderer/src/search.ts:125-133 | A run whose element at `k` is repeated weighs that element's probability once more. |
| Random.CodeUnits | src/renderer/src/random.ts:17-20 | Definition of the code units `charCodeAt` reads: the `UnitsOf` of each character, in order. |
| Random.Mix | src/renderer/src/random.ts:20 | Definition of one round of `hash`: `(hash * 33) ^ charCode` on 32 bits. |
| Random.Djb | src/renderer/src/random.ts:15-24 | Definition of `hash`: 5381, then `Mix` with each unit from the last to the first. `PseudoRandom.Hash` is proved to return it. |
| Random.HashOfA | src/renderer/src/random.ts:15-24 | `hash('a')` is 177604, that is `(5381 * 33) ^ 97`. |
| Random.DefaultUnits | src/renderer/src/random.ts:17-20 | The seven code units `charCodeAt` reads from `'default'`. |
| Random.HashOfDefault | src/renderer/src/random.ts:11-24 | `hash('default')`, the state of a generator built without a seed, is 2072405198. |
| Random.XorLeft | src/renderer/src/random.ts:27 | Definition of `state ^= state << k` on 32 bits. |
| Random.XorRight | src/renderer/src/random.ts:28 | Definition of `state ^= state >>> k` on 32 bits, shifting in zeros. |
| Random.Xorshift | src/renderer/src/random.ts:27-29 | Definition of the state change of `next`: a left step by 21, a right step by 3, a left step by 4. |
| Random.Iterate | src/renderer/src/random.ts:26-30 | Definition of the state after `n` calls of `next`: `n` xorshift steps. |
| Random.UnitsOf | src/renderer/src/random.ts:20 | A character is one UTF-16 code unit below U+10000 and two above it, as `charCodeAt` sees it. |
| Random.LeftStepKeepsNonzero | src/renderer/src/random.ts:27-29 | `x ^ (x << k)` with `0 < k < 32` keeps a nonzero state nonzero. |
| Random.RightStepKeepsNonzero | src/renderer/src/random.ts:28 | So does `x ^ (x >>> k)`. |
| Random.ZeroIsFixed | src/renderer/src/random.ts:27-29 | A state of 0 is a fixed point of `next`. |
| Random.NonzeroStaysNonzero | src/renderer/src/random.ts:27-29 | A nonzero state never steps to 0. |
| Random.EmptyHash | src/renderer/src/random.ts:15-24 | `hash('')` is 5381. |
| Random.Outputs | src/renderer/src/random.ts:26-30 | The first `n` raw values of a seeded generator number exactly `n`. |
| Random.FirstDefaultOutput | src/renderer/src/random.ts:11-30 | The first raw value (`state >>> 0`, before the division) of `new PseudoRandom()` is 518270247. |
| Random.OutputsAre | src/renderer/src/random.ts:11-30 | The `i`-th value is the state after `i + 1` xorshift steps from the seed's hash. |
| Random.Generate | src/renderer/src/random.ts:11-30 | `new PseudoRandom(seed)` followed by `n` calls of `next()` returns exactly `Outputs(seed, n)`, so the generator's values depend on the seed alone. |
| Random.SameHashSameOutputs | src/renderer/src/random.ts:11-30 | Two generators whose seeds hash alike produce the same values. Two generators built from the same seed are a special case. |
| Random.ZeroStaysZero | src/renderer/src/random.ts:27-29 | A generator started at 0 stays at 0. |
| Random.NonzeroNeverZero | src/renderer/src/random.ts:27-29 | A generator started anywhere else never reaches 0. |
| Random.PseudoRandom.constructor | src/renderer/src/random.ts:11-13 | The state is the hash of the seed, and the seed defaults to `'default'`. |
| Random.PseudoRandom.Hash | src/renderer/src/random.ts:15-24 | The `while` loop, counting `i` down from the length, returns `Djb` of the seed's code units: starting from 5381, each unit from the last to the first is folded in as `(hash * 33) ^ unit` on 32 bits. |
| Random.PseudoRandom.Next | src/renderer/src/random.ts:26-30 | The state takes one xorshift step (`<< 21`, `>>> 3`, `<< 4`, in that order), and the unsigned new state is returned. |
| TurtleState.Vector3.constructor | src/renderer/src/state.ts:11-12 | A vector with the given coordinates. |
| TurtleState.Vector3.Clone | src/renderer/src/state.ts:49-50 | A fresh vector with the same coordinates. |
| TurtleState.Clone | src/renderer/src/state.ts:47-55 | `clone` copies all five fields into fresh, distinct position and direction objects with the same values. |
| TurtleState.MoveClone | src/renderer/src/state.ts:47-55 | Mutating a clone's position leaves the original state's vectors untouched. |
| TurtleState.StateCollection.constructor | src/renderer/src/state.ts:8 | A collection holds at least its one current state. |
| TurtleState.StateCollection.CurrentState | src/renderer/src/state.ts:18-20 | `currentState` is `states[0]`. |
| TurtleState.StateCollection.Save | src/renderer/src/state.ts:27-30 | `save` grows the collection by one and leaves the existing entries unchanged. The new last entry is made of fresh vectors and is value-equal to `states[0]`. |
| TurtleState.StateCollection.Restore | src/renderer/src/state.ts:32-45 | On length at most 1, it returns null and changes nothing. Otherwise it removes the last entry, stores it at index 0 and returns it, keeping entries `1..len-2`, so the length drops by one. The collection never becomes empty. |
| TurtleState.StateCollection.SaveThenRestore | src/renderer/src/state.ts:27-45 | `save` then `restore` gives back the original length and the saved entries. It leaves a current state value-equal to the old one, and returns it. |
| Grammars.BranchRulesSorted | src/renderer/src/grammar.ts:13-29 | The default rules are sorted by input, `F < X < Z`. |
| Grammars.BranchRulesWeightless | src/renderer/src/grammar.ts:13-29 | Every default rule has probability 0. |
| Grammars.RewriteOfZ | src/renderer/src/grammar.ts:24-28 | With these rules, `Z` is rewritten to `[+F-X-F][++ZX]` without a draw. |
| Scene.Expanded | src/renderer/src/renderer.ts:136-139 | Definition of the command string after `n` rounds of `renderedCommands += applyRules(renderedCommands, rules)`, with the draws taken, the first round taking draws from 0. `Expand` is proved to return it. |
| Scene.Expand | src/renderer/src/renderer.ts:136-139 | The expansion loop yields `Expanded`, the function that specifies `n` rounds: each round appends `applyRules` of the string so far. |
| Scene.NoIterationIsAxiom | src/renderer/src/renderer.ts:136 | With 0 iterations, the command string is the axiom. |
| Scene.ExpansionGrows | src/renderer/src/renderer.ts:137-139 | Every earlier command string is a prefix of every later one. |
| Scene.ReplacingRounds | src/renderer/src/renderer.ts:137-139 | Rounds of a pass that replaces as `Replaced` does, and draws nothing, grow as the deterministic `Grown` says. |
| Scene.WeightlessExpansion | src/renderer/src/renderer.ts:136-139 | With rules sorted by input and all probabilities 0, the expansion neither depends on nor consumes the random stream. |
| Scene.SceneExpansionFixed | src/renderer/src/renderer.ts:25-46 | The renderer's own grammar expands the same way whatever `Math.random` returns. |
| Scene.Initial | src/renderer/src/renderer.ts:128-134 | Definition of the loop's starting values: position at the origin, direction `(0, 1, 0)` normalized, length 0.5, radius 0.1, angle 0, an empty stack and an empty scene. |
| Scene.Turn | src/renderer/src/renderer.ts:175-188 | Definition of `+` and `-`: the angle changes by the given 20 or -20 degrees, the direction becomes the normalized cone direction at the new angle, and one draw is used. |
| Scene.Command | src/renderer/src/renderer.ts:144-211 | Definition of one pass of the `switch`: `F` adds two red points and an arrow and moves forward with the length scaled by 0.9; `+` and `-` turn; `[` pushes the turtle; `]` pops it or, on an empty stack, only adds a green point. Any other character changes nothing. |
| Scene.Run | src/renderer/src/renderer.ts:141-212 | Definition of the command loop: `Command` applied to each character in turn from the left. `Interpret` is proved to return it. |
| Scene.RunSnoc | src/renderer/src/renderer.ts:141-143 | One more command extends the run by that command's effect. |
| Scene.Interpret | src/renderer/src/renderer.ts:141-212 | The command loop's cursor variables, stack, emitted events and draw count are exactly the function `Run` over the commands. |
| Scene.CreateScene | src/renderer/src/renderer.ts:124-212 | The scene is the command loop's events over the four-fold expansion of axiom `Z`. It starts from the initial values (origin, normalized up, length 0.5, radius 0.1, angle 0, empty stack), with `Math.random` continuing where the expansion left it. |
| Scene.Forward | src/renderer/src/renderer.ts:145-174 | `F` emits two red points (at the old and new positions) and one arrow, then moves to the destination and scales the length by 0.9. The direction becomes the normalized scaled direction, since `computeDestination` and the arrow update it in place. Angle, radius, stack and draws are unchanged. |
| Scene.Turns | src/renderer/src/renderer.ts:175-188 | `+` and `-` change the angle by exactly +20 or -20 and set a new normalized cone direction from one draw. Nothing else changes. |
| Scene.Push | src/renderer/src/renderer.ts:189-197 | `[` pushes exactly one record of the five current values and changes nothing else. |
| Scene.PopNothing | src/renderer/src/renderer.ts:198-202 | `]` with an empty stack keeps every value and emits one green marker at the current position. |
| Scene.Pop | src/renderer/src/renderer.ts:198-210 | `]` otherwise pops the last record, restores all five values from it, and emits one green marker at the restored position. |
| Scene.Inert | src/renderer/src/renderer.ts:144-211 | Any other character changes nothing and emits nothing, since the switch has no default. |
| Scene.PushThenPop | src/renderer/src/renderer.ts:189-210 | `[` followed by `]` gives back the sketch as it was, apart from the one marker. |
| Scene.StackDepth | src/renderer/src/renderer.ts:189-210 | The stack depth is the number of `[`, minus the number of `]` that found a record. |
| Scene.DepthWithoutPops | src/renderer/src/renderer.ts:189-197 | Without `]`, the depth grows by the number of `[`. |
| Scene.EventCount | src/renderer/src/renderer.ts:145-210 | The scene gains three events per `F` and one per `]`, and nothing is ever removed from it. |
| Scene.DrawCount | src/renderer/src/renderer.ts:175-188 | Exactly one `Math.random` draw is made per `+` and per `-`. |
| Scene.AnglesOnGrid | src/renderer/src/renderer.ts:132-207 | The current angle and every saved angle stay multiples of 20. |
| Scene.RadiusKept | src/renderer/src/renderer.ts:131-206 | The current radius and every saved radius keep their starting value. |
| Scene.InertRun | src/renderer/src/renderer.ts:144-211 | A string without turtle commands changes nothing and draws nothing. |
| Scene.SceneInvariants | src/renderer/src/renderer.ts:128-212 | From the scene's initial values, the radius stays 0.1, the angles stay on the 20-degree grid, and the stack depth is `Depth(commands, 0)`. |

## Left out

- Floating point: all numbers are exact `real`s. `lengthFactor *= 0.9` is
  exact multiplication, and probabilities and running sums are summed
  exactly, so nothing depends on rounding.
- Random.PseudoRandom.Next: is modelled up to the raw unsigned 32-bit
  state. The division by `0xffffffff` and the `[0, 1)` claim of its comment
  are not modelled, because this is floating point. A state of
  `0xffffffff` would make the quotient exactly 1.
- `nextInt` and `nextFloat` are not modelled: they are floating-point
  expressions over `next()`.
- `Math.random` is a parameter everywhere. `selectRule` takes the draw `u`,
  and `applyRules` and the renderer read a stream `random: nat -> real`.
  That the JavaScript runtime's values lie in `[0, 1)` is an assumption
  (`Rules.ScaledDrawBelowTotal` states what follows from it).
- Geometry: `computeDestination` and `randomDirectionVector` become the
  `add`, `scale`, `normalize` and `cone` functions of `Geometry`. The sine
  and cosine of the cone are not modelled. `cone` takes the angle in degrees
  (the source converts it with `Math.PI * angle / 180`) together with the
  one `Math.random` value it draws.
- three.js: the scene, camera, renderer, ground plane, orbit controls and
  animation loop are not modelled. Nor is `createSegment` (commented out at
  the call site). `drawDebugPoint` and `ArrowHelper` become `Event` values.
- Scene.Interpret: uses vectors as values. In the source, `computeDestination`
  normalizes and scales `currentDirection` in place, and `ArrowHelper`
  normalizes it again. The model does the same updates by reassignment,
  because no other reference to that object is ever read afterwards.
- The angle is an integer number of degrees. The source only ever adds
  `+20` and `-20` to `0`, so nothing is lost.
- Strings are sequences of Unicode characters. `defaultComparator` on the
  rule inputs compares characters rather than UTF-16 code units, and the
  two orders differ only above U+FFFF. `hash` does work on UTF-16 code units
  (`Random.CodeUnits`). The loops of `applyRules` (rule.ts:34-35) and of the
  command string (renderer.ts:141-142) index code units, while the model
  steps through characters. So a rule whose input is a character above
  U+FFFF fires in the model, but never in the source, which only ever sees
  the two halves of its surrogate pair.
- `restore`'s `!lifoState` branch (state.ts:38-40) is unreachable after the
  length check: `pop` on an array of two or more entries always returns an
  entry, and states are objects. It has no counterpart in the model.
- The length of a `StateCollection` never dropping below 1 is stated as the
  invariant `Valid()`, which every method keeps. Because its contracts use
  `old` and `modifies`, it is not proved as a separate lemma over arbitrary
  sequences of calls.
- `applyRules("") == ""` holds by the definition of `Rewrite` (a pass over
  no characters), so it has no lemma of its own.
- The concatenation property is stated as `Rules.PassConcat`, for a pass
  with any step. `Rewrite` is that pass with `Step(rules, random)`. It is
  not restated as a separate lemma about `Rewrite` itself.
- Xorshift's injectivity (the step is a bijection on 32 bits) is not
  proved. Only the zero and nonzero orbits are stated.
- The comparator parameter of `binarySearch`, `keyedBinarySearch`,
  `keyedFindAll`, `insert` and `insertUnique` defaults to
  `defaultComparator` (search.ts:15, 38, 61, 73, 113); `findAll` requires
  it. The model always passes it explicitly, and defines `DefaultComparator` only on strings,
  the one key type the rule lookup compares.
- SortedSearch.Midpoint: is the exact midpoint. It agrees with the source's
  `(n + m) >> 1` only while `n + m < 2^31` (see Findings).
- src/renderer/src/main.ts is not part of this model. It is a DOM bootstrap
  that imports a renderer export which does not exist.
- The `Grammar` and `Rule` records are modelled as data. `grammar.ts` has
  no logic.

## Findings

| source | as written | input that shows it | evidently intended | confidence | as-written member | corrected member |
|---|---|---|---|---|---|---|
| src/renderer/src/search.ts:21 | The probe is `(n + m) >> 1` (also at line 44, in `keyedBinarySearch`). `>>` converts `n + m` to a signed 32-bit integer, so once `n + m >= 2^31` the probe leaves `[m, n]`, becoming negative for `2^31 <= n + m < 2^32`. | An array of `2^31 + 1` elements and any element: the first probe is `m = 0`, `n = 2^31`, giving `-2^30` instead of `2^30`. | The midpoint of `m` and `n`, written `m + ((n - m) >> 1)` or `(n + m) >>> 1`, which stays inside `[m, n]`. | not executed | SearchProbe.Midpoint32Wraps | SortedSearch.Midpoint |
