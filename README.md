# Guess Food: the guess-reveal engine in Dafny

Guess Food is a browser game. It fetches a random recipe and the player guesses its
ingredients by typing. Depending on the difficulty, some ingredients start out revealed.
This project models the game's core in Dafny and proves properties of the model:

- **The round engine** of the `Play` component.
  - `guess`: one reveal flag per ingredient.
  - `value`: the input buffer.
  - `end`: the end-of-round flag.
  - `wrongGuess`: the flag that is up while a miss is shown.
  - The operations are initial seeding, `checkIngredient`, Give Up, the timer that clears a
    miss, and New Recipe.
- **The display rule** `shouldShow`.
- **`transformJSON`**, which turns the recipe service's JSON answer into a recipe.

Layout:

- `types.dfy`: `Types`, the entities of `src/types.ts` plus `Option` for null/undefined.
- `consts.dfy`: `Consts`, the difficulty thresholds of `src/consts.ts`.
- `text.dfy`: `Text`, the two string built-ins the matcher uses. `toLowerCase` is ASCII-only;
  `includes` is substring containment.
- `meals.dfy`: `Meals`, `transformJSON`.
- `engine.dfy`: `Engine`. The round's transitions are pure functions over `RoundState`
  (`Submit`, `Surrender`, `ClearMiss`, `Initial`); the lemmas are stated about these functions.
  The class `Play` holds the component's state cells. `Play.CheckIngredient`, `Play.GiveUp` and
  `Play.ClearWrongGuess` are proved to move `State()` exactly as `Submit`, `Surrender` and
  `ClearMiss` do. `Play.NewRecipe` states its new fields directly. `Play.FindHidden` only reads
  the state. `findIndex` and `every` are loops
  (`Play.FindHidden`, `Every`).

The random numbers drawn by `Math.random()` are parameters (`draws`). The JSON answer is a
parameter. A fetched recipe is a parameter of `Play.NewRecipe`.

Two behaviours of the code are easy to miss:

- A successful guess does not clear `wrongGuess`; the code never touches it on that path.
- A round with no ingredients, or one whose seeding revealed everything, is not ended. The
  end check only runs after a successful match (`Engine.CompleteStartNotEnded`).
- The round invariant `Play.Valid` therefore states only one direction: the round is ended
  only if every ingredient is revealed or the player gave up.

## Model

| member | source | states |
|---|---|---|
| Consts.Threshold | src/consts.ts:4-14 | every difficulty's reveal threshold lies in [0, 1), and only Hard's is 0 |
| Text.LowerChar | src/app.tsx:77 | the result is never an upper-case ASCII letter; an upper-case letter maps to its lower-case form, anything else is kept |
| Text.Lower | src/app.tsx:77 | lower-casing keeps the length, maps each character by `LowerChar`, and leaves no upper-case ASCII letter |
| Text.LowerIdempotent | src/app.tsx:77 | lower-casing twice equals lower-casing once |
| Text.IncludesIffOccurs | src/app.tsx:77 | `includes(hay, needle)` holds exactly when `needle` occurs in `hay` at some position |
| Meals.FirstIndex | src/app.tsx:170-191 | the first position of `x` in `s`: `s[k] == x` and `x` does not occur before `k` |
| Meals.UniqueInOrder | src/app.tsx:170-191 | spreading a `Set` built from `s` gives exactly the elements of `s`, each once |
| Meals.KeepNonEmpty | src/app.tsx:195 | the filter keeps exactly the strings that are present and non-empty |
| Meals.IngredientsSnoc | src/app.tsx:170-195 | one more field adds nothing if it repeats an earlier one; otherwise it appends its value when that value is kept |
| Meals.IngredientsSpec | src/app.tsx:170-195 | the ingredients are pairwise distinct; they are exactly the non-empty strings among the fields; they come in order of first occurrence |
| Meals.TransformJsonSpec | src/app.tsx:168-198 | fails exactly when there is no first meal; otherwise copies title, category and image, and the ingredients are distinct and are exactly the non-empty values of strIngredient1..20 |
| Meals.OnlyTwentyFieldsRead | src/app.tsx:170-191 | ingredient fields past the twentieth do not affect the result |
| Engine.FindIndexFrom | src/app.tsx:76-78 | the result is the lowest hidden index whose lower-cased name contains the lower-cased text, or -1 exactly when no index matches |
| Engine.InitialSpec | src/app.tsx:48-57 | the initial `guess` has one entry per ingredient (none without a recipe), entry `i` is true iff draw `i` is below the threshold; buffer empty, flags clear |
| Engine.HardStartsHidden | src/app.tsx:50-54 | on Hard, for draws in [0, 1), every ingredient starts hidden |
| Engine.EasierRevealsMore | src/app.tsx:50-54 | for the same draws, a level with a higher threshold reveals every index a lower one reveals |
| Engine.SeedNests | src/app.tsx:50-54 | for the same draws, every index Hard reveals is revealed on Medium, and every index Medium reveals is revealed on Easy |
| Engine.CompleteStartNotEnded | src/app.tsx:50-57 | a round whose seeding revealed everything (or that has no ingredients) starts not ended |
| Engine.SubmitEmpty | src/app.tsx:72-75 | empty input clears the buffer and changes nothing else |
| Engine.SubmitRevealsFirstMatch | src/app.tsx:76-88 | a non-empty input reveals exactly the lowest hidden matching index; buffer cleared; miss flag untouched; ended iff it was ended or everything is now revealed |
| Engine.SubmitMiss | src/app.tsx:89-97 | a non-empty input with no hidden match, even if it matches revealed ones, raises the miss flag and keeps the text; nothing else changes |
| Engine.SubmitHitOrMiss | src/app.tsx:79-97 | some hidden ingredient matches iff the guess changes `guess` and clears the buffer; if `guess` is unchanged it was a miss |
| Engine.SubmitMonotone | src/app.tsx:80-87 | the length of `guess` is kept; no entry goes from true to false; an ended round stays ended; at most one entry changes |
| Engine.SubmitWhenAllRevealed | src/app.tsx:76-79 | once everything is revealed, every non-empty guess is a miss |
| Engine.MissThenTimer | src/app.tsx:89-96 | after a miss and the timer step, `guess` and `end` are as before, the miss flag is clear, the text stays |
| Engine.SurrenderShowsAll | src/app.tsx:142-143 | giving up keeps `guess` and sets `end`; afterwards every index is shown; before the end exactly the revealed indices are shown |
| Engine.SubmitIgnoresCase | src/app.tsx:77 | a guess and its lower-cased form have the same effect on `guess` and `end` |
| Engine.ScenarioStart | src/app.tsx:48-54 | the Flour/Sugar/Egg round on Hard starts all hidden |
| Engine.ScenarioEgg | src/app.tsx:71-88 | "egg" reveals Egg only and the round goes on |
| Engine.ScenarioFlour | src/app.tsx:71-88 | "FLOUR" reveals Flour |
| Engine.ScenarioSugar | src/app.tsx:71-88 | "sugar" reveals the last ingredient and ends the round |
| Engine.ScenarioMiss | src/app.tsx:89-97 | "zzz" is a miss that keeps the text; the timer step then clears the flag |
| Engine.StaleReseedEndsEarly | src/app.tsx:60-69 | New Recipe as written can seed one entry for a two-ingredient recipe; "egg" then sets `end`, so the round ends while Milk was never guessed |
| Engine.Play.constructor | src/app.tsx:48-57 | the component starts in `Initial(recipe, mode, draws)` with the recipe's ingredients, aligned |
| Engine.Play.FindHidden | src/app.tsx:76-78 | the loop returns the first hidden matching index, or -1 exactly when there is none |
| Engine.Play.CheckIngredient | src/app.tsx:71-98 | the new state is `Submit` of the old one; alignment and the end invariant are kept |
| Engine.Play.GiveUp | src/app.tsx:108 | sets `end` and nothing else; the invariant is kept |
| Engine.Play.ClearWrongGuess | src/app.tsx:91-95 | clears the miss flag and nothing else |
| Engine.Play.NewRecipe | src/app.tsx:60-69 | reseeds from the recipe now displayed (the fetched one, or the old one if the fetch failed); empties the buffer, clears `end`, keeps the miss flag; `guess` stays aligned |
| Engine.Every | src/app.tsx:83 | the result is true iff every entry is true |

## Left out

- Rendering, JSX, CSS classes, the `Home` screen and the screen/mode switching of `App`. This is presentation only.
- `fetch`, `res.json()` and the `try`/`catch` of `fetchNewRecipe` are network I/O. Their result is a parameter: the JSON answer for `Meals.TransformJson`, an `Option<Recipe>` for `Play.NewRecipe`. `TransformJson` returning None stands for the TypeError thrown when there is no first meal.
- `Math.random()` is randomness. Its numbers are the `draws` parameters, taken as exact reals; the IEEE-754 rounding of the comparisons is not modelled.
- The 1000 ms delay of `setTimeout` and the `focus()`/`select()` calls are timing and DOM effects. Only the state effect is modelled, as the explicit step `Play.ClearWrongGuess`. A stale timer firing late is not modelled.
- `toLowerCase` is modelled on ASCII letters only; full Unicode case mapping is not.
- `disabled={end || wrongGuess}` is a UI guard. `Play.CheckIngredient` accepts any state, as `checkIngredient` itself does.
- JSON values are modelled as strings or absent. `null` and `undefined` are the same `None`; the filter drops both anyway. Non-string field values are not modelled.
- The functional update `setGuess((prev) => ...)` is taken to see the same `guess` the scan used. The runtime delivers events one at a time.
- Engine.Play.NewRecipe: models the corrected New Recipe, seeded from the recipe that is displayed. The as-written version is `Engine.StaleReseed`. JavaScript's sparse-array behaviour when `guess` is shorter than the ingredients is only exhibited on one input (`Engine.StaleReseedEndsEarly`), not modelled in general. `Engine.Candidate` never matches an index past the end of `guess`, where JavaScript would; on that input the match is at index 0, so this does not affect it.

## Findings

| source | as written | input that shows it | evidently intended | confidence | as-written member | corrected member |
|---|---|---|---|---|---|---|
| src/app.tsx:60-69 | after `await fetchNewRecipe()`, `guess` is reseeded from `recipe`, the prop captured when the button was rendered, so it has the old recipe's length | old recipe [Flour], fetched recipe [Egg, Milk], Hard: `guess` becomes [false]; typing "egg" reveals index 0, `every` passes and the round ends while Milk was never guessed | seed one entry per ingredient of the recipe now displayed | high (not executed) | Engine.StaleReseed, Engine.StaleReseedEndsEarly | Engine.Play.NewRecipe |
