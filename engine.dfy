/** The guess-reveal engine of the play screen (the `Play` component of src/app.tsx). */
module Engine {
  import opened Types
  import opened Consts
  import opened Text

  /** The four pieces of per-round state: which ingredients are revealed (`guess`, index-aligned
      with the recipe's ingredients), the input buffer, the end-of-round flag and the flag that is
      set while a miss is being shown. */
  datatype RoundState = RoundState(guess: seq<bool>, value: string, end: bool, wrongGuess: bool)

  predicate AllTrue(g: seq<bool>)
  {
    forall i :: 0 <= i < |g| ==> g[i]
  }

  /** `recipe?.ingredients?.length || 0` */
  function IngredientCount(recipe: Option<Recipe>): nat
  {
    if recipe.Some? then |recipe.value.ingredients| else 0
  }

  /** The ingredients shown on the play screen; a missing recipe shows none. */
  function IngredientsOf(recipe: Option<Recipe>): (ings: seq<string>)
    ensures |ings| == IngredientCount(recipe)
  {
    if recipe.Some? then recipe.value.ingredients else []
  }

  /** `new Array(n).fill(false).map(() => Math.random() < random)`, with the random numbers
      given as `draws`. */
  function Seed(draws: seq<real>, threshold: real): seq<bool>
  {
    seq(|draws|, i requires 0 <= i < |draws| => draws[i] < threshold)
  }

  /** The state a round starts in for the given recipe, difficulty and random draws. */
  function Initial(recipe: Option<Recipe>, mode: Mode, draws: seq<real>): RoundState
    requires |draws| == IngredientCount(recipe)
  {
    RoundState(Seed(draws, Threshold(mode)), "", false, false)
  }

  /** The random draws are what Math.random() can return. */
  predicate UnitDraws(draws: seq<real>)
  {
    forall i :: 0 <= i < |draws| ==> 0.0 <= draws[i] < 1.0
  }

  /** Ingredient `i` is a match for `text`: it is still hidden and its lower-cased name contains
      the lower-cased text. An index past the end of `guess` is never a match here, whereas
      JavaScript reads `!guess[i]` there as `!undefined`, i.e. true; the two agree whenever
      `guess` is as long as the ingredients, which `Play.Valid` keeps. */
  predicate Candidate(ings: seq<string>, guess: seq<bool>, text: string, i: nat)
  {
    i < |ings| && i < |guess| && !guess[i] && Includes(Lower(ings[i]), Lower(text))
  }

  /** `findIndex` of the matcher, scanning from index `k`: the first candidate at or after `k`,
      or -1 when there is none. */
  function FindIndexFrom(ings: seq<string>, guess: seq<bool>, text: string, k: nat): (r: int)
    requires k <= |ings|
    ensures -1 <= r < |ings|
    ensures r == -1 <==> forall j :: k <= j < |ings| ==> !Candidate(ings, guess, text, j)
    ensures r != -1 ==> k <= r && Candidate(ings, guess, text, r) &&
                        forall j :: k <= j < r ==> !Candidate(ings, guess, text, j)
    decreases |ings| - k
  {
    if k == |ings| then -1
    else if Candidate(ings, guess, text, k) then k
    else FindIndexFrom(ings, guess, text, k + 1)
  }

  function FindIndex(ings: seq<string>, guess: seq<bool>, text: string): int
  {
    FindIndexFrom(ings, guess, text, 0)
  }

  /** checkIngredient: the effect of the player's input `text` on the round. */
  function Submit(ings: seq<string>, s: RoundState, text: string): RoundState
    requires |s.guess| == |ings|
  {
    if text == "" then s.(value := "")
    else
      var k := FindIndex(ings, s.guess, text);
      if k != -1 then
        var g := s.guess[k := true];
        s.(guess := g, value := "", end := s.end || AllTrue(g))
      else
        s.(wrongGuess := true, value := text)
  }

  /** The Give Up button. */
  function Surrender(s: RoundState): RoundState
  {
    s.(end := true)
  }

  /** The state effect of the timer a miss schedules. */
  function ClearMiss(s: RoundState): RoundState
  {
    s.(wrongGuess := false)
  }

  /** `shouldShow`: ingredient `i` is displayed with its name rather than as a placeholder.
      An index past the end of `guess` reads as undefined, which is falsy. */
  predicate ShouldShow(s: RoundState, i: nat)
  {
    (i < |s.guess| && s.guess[i]) || s.end
  }

  // ---------------------------------------------------------------------------------------
  // Properties of seeding

  /** The round starts with one entry per ingredient, none for a missing recipe, an empty
      buffer and both flags clear; entry `i` is revealed exactly when its draw is below the
      difficulty's threshold. */
  lemma InitialSpec(recipe: Option<Recipe>, mode: Mode, draws: seq<real>)
    requires |draws| == IngredientCount(recipe)
    ensures var s := Initial(recipe, mode, draws);
            |s.guess| == |IngredientsOf(recipe)| && (recipe.None? ==> s.guess == []) &&
            s.value == "" && !s.end && !s.wrongGuess &&
            forall i :: 0 <= i < |s.guess| ==> (s.guess[i] <==> draws[i] < Threshold(mode))
  {
  }

  /** On Hard every ingredient starts hidden, whatever Math.random() returns. */
  lemma HardStartsHidden(recipe: Option<Recipe>, draws: seq<real>)
    requires |draws| == IngredientCount(recipe) && UnitDraws(draws)
    ensures forall i :: 0 <= i < |Initial(recipe, Hard, draws).guess| ==> !Initial(recipe, Hard, draws).guess[i]
  {
  }

  /** For the same draws, an easier level reveals at least what a harder one reveals. */
  lemma EasierRevealsMore(draws: seq<real>, harder: Mode, easier: Mode)
    requires Threshold(harder) <= Threshold(easier)
    ensures forall i :: 0 <= i < |draws| ==> Seed(draws, Threshold(harder))[i] ==> Seed(draws, Threshold(easier))[i]
  {
  }

  /** For the same draws, the indices Hard reveals are among those Medium reveals, and
      Medium's are among Easy's. */
  lemma SeedNests(draws: seq<real>)
    ensures forall i :: 0 <= i < |draws| ==> Seed(draws, Threshold(Hard))[i] ==> Seed(draws, Threshold(Medium))[i]
    ensures forall i :: 0 <= i < |draws| ==> Seed(draws, Threshold(Medium))[i] ==> Seed(draws, Threshold(Easy))[i]
  {
    ThresholdsOrdered();
    EasierRevealsMore(draws, Hard, Medium);
    EasierRevealsMore(draws, Medium, Easy);
  }

  /** A round can start with nothing left to guess - no recipe, or every draw below the
      threshold - and still not be ended: the end check only runs after a successful match. */
  lemma CompleteStartNotEnded(recipe: Option<Recipe>, mode: Mode, draws: seq<real>)
    requires |draws| == IngredientCount(recipe)
    requires forall i :: 0 <= i < |draws| ==> draws[i] < Threshold(mode)
    ensures AllTrue(Initial(recipe, mode, draws).guess) && !Initial(recipe, mode, draws).end
  {
  }

  // ---------------------------------------------------------------------------------------
  // Properties of checkIngredient

  /** Empty input only clears the buffer. */
  lemma SubmitEmpty(ings: seq<string>, s: RoundState)
    requires |s.guess| == |ings|
    ensures var r := Submit(ings, s, "");
            r.value == "" && r.guess == s.guess && r.end == s.end && r.wrongGuess == s.wrongGuess
  {
  }

  /** A non-empty input that matches a hidden ingredient reveals exactly the lowest such index
      and nothing else, clears the buffer, leaves the miss flag alone, and ends the round when
      (or if already) every ingredient is revealed. */
  lemma SubmitRevealsFirstMatch(ings: seq<string>, s: RoundState, text: string, k: nat)
    requires |s.guess| == |ings|
    requires text != "" && Candidate(ings, s.guess, text, k)
    requires forall j :: 0 <= j < k ==> !Candidate(ings, s.guess, text, j)
    ensures var r := Submit(ings, s, text);
            r.guess == s.guess[k := true] && !s.guess[k] &&
            r.value == "" && r.wrongGuess == s.wrongGuess &&
            (r.end <==> s.end || AllTrue(r.guess))
  {
  }

  /** A non-empty input with no hidden match - including one that only matches ingredients
      already revealed - is a miss: nothing is revealed, the flag is raised, the text stays. */
  lemma SubmitMiss(ings: seq<string>, s: RoundState, text: string)
    requires |s.guess| == |ings|
    requires text != "" && forall j :: 0 <= j < |ings| ==> !Candidate(ings, s.guess, text, j)
    ensures Submit(ings, s, text) == s.(wrongGuess := true, value := text)
  {
  }

  /** The only two outcomes of a non-empty guess: a hit or a miss, decided by whether some
      hidden ingredient matches. */
  lemma SubmitHitOrMiss(ings: seq<string>, s: RoundState, text: string)
    requires |s.guess| == |ings| && text != ""
    ensures var r := Submit(ings, s, text);
            (exists k :: 0 <= k < |ings| && Candidate(ings, s.guess, text, k)) <==>
            (r.value == "" && r.guess != s.guess)
    ensures var r := Submit(ings, s, text);
            r.guess == s.guess ==> r.wrongGuess && r.value == text && r.end == s.end
  {
  }

  /** Reveal is monotone and keeps the length; an ended round stays ended; at most one entry
      changes. */
  lemma SubmitMonotone(ings: seq<string>, s: RoundState, text: string)
    requires |s.guess| == |ings|
    ensures var r := Submit(ings, s, text);
            |r.guess| == |s.guess| &&
            (forall i :: 0 <= i < |s.guess| && s.guess[i] ==> r.guess[i]) &&
            (s.end ==> r.end) &&
            (forall i, j :: 0 <= i < j < |s.guess| && r.guess[i] != s.guess[i] ==> r.guess[j] == s.guess[j])
  {
  }

  /** Once every ingredient is revealed, every non-empty guess is a miss: the reveal state and
      the end flag are frozen. */
  lemma SubmitWhenAllRevealed(ings: seq<string>, s: RoundState, text: string)
    requires |s.guess| == |ings| && AllTrue(s.guess) && text != ""
    ensures Submit(ings, s, text) == s.(wrongGuess := true, value := text)
  {
  }

  /** A miss followed by the timer step leaves the reveal state and end flag as they were and
      the miss flag clear. */
  lemma MissThenTimer(ings: seq<string>, s: RoundState, text: string)
    requires |s.guess| == |ings|
    requires text != "" && forall j :: 0 <= j < |ings| ==> !Candidate(ings, s.guess, text, j)
    ensures var r := ClearMiss(Submit(ings, s, text));
            r.guess == s.guess && r.end == s.end && !r.wrongGuess && r.value == text
  {
  }

  /** Giving up ends the round, keeps every reveal entry, and after it every ingredient is
      displayed; before the end only revealed ingredients are. */
  lemma SurrenderShowsAll(s: RoundState)
    ensures Surrender(s).guess == s.guess && Surrender(s).end
    ensures forall i: nat :: ShouldShow(Surrender(s), i)
    ensures !s.end ==> forall i: nat :: i < |s.guess| ==> (ShouldShow(s, i) <==> s.guess[i])
  {
  }

  /** Matching ignores the letter case of the guess. */
  lemma SubmitIgnoresCase(ings: seq<string>, s: RoundState, text: string)
    requires |s.guess| == |ings| && text != ""
    ensures Submit(ings, s, Lower(text)).guess == Submit(ings, s, text).guess
    ensures Submit(ings, s, Lower(text)).end == Submit(ings, s, text).end
  {
    LowerIdempotent(text);
    assert forall j :: Candidate(ings, s.guess, Lower(text), j) == Candidate(ings, s.guess, text, j);
    FindIndexAgrees(ings, s.guess, Lower(text), text, 0);
  }

  /** Two texts that match the same ingredients are found at the same index. */
  lemma FindIndexAgrees(ings: seq<string>, guess: seq<bool>, a: string, b: string, k: nat)
    requires k <= |ings|
    requires forall j :: Candidate(ings, guess, a, j) == Candidate(ings, guess, b, j)
    ensures FindIndexFrom(ings, guess, a, k) == FindIndexFrom(ings, guess, b, k)
  {
  }

  /** A three-ingredient example recipe: Flour, Sugar and Egg. */
  const Pantry: seq<string> := ["Flour", "Sugar", "Egg"]

  lemma PantryLowered()
    ensures Lower(Pantry[0]) == "flour" && Lower(Pantry[1]) == "sugar" && Lower(Pantry[2]) == "egg"
    ensures Lower("egg") == "egg" && Lower("FLOUR") == "flour" && Lower("sugar") == "sugar" && Lower("zzz") == "zzz"
  {
  }

  /** On Hard the example recipe starts with every ingredient hidden, whatever the draws. */
  lemma ScenarioStart(draws: seq<real>)
    requires |draws| == 3 && UnitDraws(draws)
    ensures Initial(Some(Recipe("", "", Pantry, "")), Hard, draws) == RoundState([false, false, false], "", false, false)
  {
    var g := Initial(Some(Recipe("", "", Pantry, "")), Hard, draws).guess;
    assert !g[0] && !g[1] && !g[2];
  }

  /** "egg" reveals Egg alone and the round goes on. */
  lemma ScenarioEgg()
    ensures Submit(Pantry, RoundState([false, false, false], "", false, false), "egg")
         == RoundState([false, false, true], "", false, false)
  {
    var s := RoundState([false, false, false], "", false, false);
    PantryLowered();
    NoOccurrence("flour", "egg");
    NoOccurrence("sugar", "egg");
    assert Includes("egg", "egg");
    SubmitRevealsFirstMatch(Pantry, s, "egg", 2);
    assert !s.guess[2 := true][0];
  }

  /** "FLOUR" matches Flour in spite of the case. */
  lemma ScenarioFlour()
    ensures Submit(Pantry, RoundState([false, false, true], "", false, false), "FLOUR")
         == RoundState([true, false, true], "", false, false)
  {
    var s := RoundState([false, false, true], "", false, false);
    PantryLowered();
    assert Includes("flour", "flour");
    SubmitRevealsFirstMatch(Pantry, s, "FLOUR", 0);
    assert !s.guess[0 := true][1];
  }

  /** "sugar" reveals the last hidden ingredient and ends the round. */
  lemma ScenarioSugar()
    ensures Submit(Pantry, RoundState([true, false, true], "", false, false), "sugar")
         == RoundState([true, true, true], "", true, false)
  {
  }

  /** "zzz" matches nothing: a miss that keeps the text until the timer clears the flag. */
  lemma ScenarioMiss()
    ensures Submit(Pantry, RoundState([false, false, false], "", false, false), "zzz")
         == RoundState([false, false, false], "zzz", false, true)
    ensures ClearMiss(RoundState([false, false, false], "zzz", false, true))
         == RoundState([false, false, false], "zzz", false, false)
  {
    PantryLowered();
    NoOccurrence("flour", "zzz");
    NoOccurrence("sugar", "zzz");
    NoOccurrence("egg", "zzz");
    SubmitMiss(Pantry, RoundState([false, false, false], "", false, false), "zzz");
  }

  /** A needle whose first character does not appear in the haystack does not occur in it. */
  lemma {:induction false} NoOccurrence(hay: string, needle: string)
    requires needle != [] && needle[0] !in hay
    ensures !Includes(hay, needle)
    decreases |hay|
  {
    if |needle| <= |hay| {
      assert hay[..|needle|][0] == hay[0];
      NoOccurrence(hay[1..], needle);
    }
  }

  // ---------------------------------------------------------------------------------------
  // New Recipe as written

  /** getNewRecipe as written: after awaiting the fetch it seeds `guess` from `captured`, the
      recipe its closure saw when the button was rendered, not from the recipe just fetched.
      `draws` supplies one random number per seeded index. */
  function StaleReseed(captured: Option<Recipe>, mode: Mode, draws: seq<real>): seq<bool>
    requires |draws| >= IngredientCount(captured)
  {
    Seed(draws[..IngredientCount(captured)], Threshold(mode))
  }

  /** With a one-ingredient recipe captured and a two-ingredient recipe fetched, the new round's
      `guess` has one entry for two ingredients. Guessing "egg" then reveals index 0 and, in the
      same update, passes the all-revealed check and sets `end`: the round ends while Milk never
      had an entry and was never guessed. `post` is the state checkIngredient leaves. */
  lemma StaleReseedEndsEarly()
    ensures var g := StaleReseed(Some(Recipe("", "", ["Flour"], "")), Hard, [0.0, 0.0]);
            var ings := ["Egg", "Milk"];
            var k := FindIndex(ings, g, "egg");
            |g| == 1 && |g| != |ings| && k == 0 &&
            var post := RoundState(g[k := true], "", false || AllTrue(g[k := true]), false);
            post.end && |post.guess| < |ings|
  {
  }

  // ---------------------------------------------------------------------------------------
  // The component state

  /** The round as the Play component holds it: the ingredients it displays and the four
      state cells. `gaveUp` records whether the Give Up button was pressed this round. */
  class Play {
    const mode: Mode
    var ingredients: seq<string>
    var guess: seq<bool>
    var value: string
    var end: bool
    var wrongGuess: bool
    ghost var gaveUp: bool

    /** `guess` stays index-aligned with the ingredients, and the round only ends because
        every ingredient was revealed or the player gave up. */
    ghost predicate Valid()
      reads this
    {
      |guess| == |ingredients| && (end ==> gaveUp || AllTrue(guess))
    }

    ghost function State(): RoundState
      reads this
    {
      RoundState(guess, value, end, wrongGuess)
    }

    /** Mounting the component with the recipe fetched so far and the random draws for its
        initial state. */
    constructor (recipe: Option<Recipe>, mode: Mode, draws: seq<real>)
      requires |draws| == IngredientCount(recipe)
      ensures Valid() && this.mode == mode && !gaveUp
      ensures ingredients == IngredientsOf(recipe)
      ensures State() == Initial(recipe, mode, draws)
    {
      this.mode := mode;
      ingredients := IngredientsOf(recipe);
      guess := Seed(draws, Threshold(mode));
      value := "";
      end := false;
      wrongGuess := false;
      gaveUp := false;
    }

    /** `recipe?.ingredients?.findIndex(...)`: the first hidden ingredient whose lower-cased
        name contains the lower-cased text, or -1. */
    method FindHidden(text: string) returns (found: int)
      requires Valid()
      ensures found == FindIndex(ingredients, guess, text)
      ensures -1 <= found < |ingredients|
      ensures found != -1 ==> Candidate(ingredients, guess, text, found) &&
                              forall j :: 0 <= j < found ==> !Candidate(ingredients, guess, text, j)
      ensures found == -1 <==> forall j :: 0 <= j < |ingredients| ==> !Candidate(ingredients, guess, text, j)
    {
      var i := 0;
      while i < |ingredients|
        invariant 0 <= i <= |ingredients|
        invariant FindIndexFrom(ingredients, guess, text, i) == FindIndex(ingredients, guess, text)
      {
        if !guess[i] && Includes(Lower(ingredients[i]), Lower(text)) {
          return i;
        }
        i := i + 1;
      }
      return -1;
    }

    /** checkIngredient */
    method CheckIngredient(text: string)
      requires Valid()
      modifies this
      ensures Valid()
      ensures State() == Submit(old(ingredients), old(State()), text)
      ensures ingredients == old(ingredients) && gaveUp == old(gaveUp)
    {
      if text == "" {
        value := "";
        return;
      }
      var foundIndex := FindHidden(text);
      if foundIndex != -1 && !guess[foundIndex] {
        var newGuess := guess[foundIndex := true];
        var every := Every(newGuess);
        if every {
          end := true;
        }
        guess := newGuess;
        value := "";
      } else {
        wrongGuess := true;
        value := text;
      }
    }

    /** The Give Up button. */
    method GiveUp()
      requires Valid()
      modifies this
      ensures Valid() && gaveUp
      ensures State() == Surrender(old(State()))
      ensures ingredients == old(ingredients)
    {
      end := true;
      gaveUp := true;
    }

    /** The state effect of the timer callback scheduled by a miss. */
    method ClearWrongGuess()
      requires Valid()
      modifies this
      ensures Valid()
      ensures State() == ClearMiss(old(State()))
      ensures ingredients == old(ingredients) && gaveUp == old(gaveUp)
    {
      wrongGuess := false;
    }

    /** The New Recipe button once the fetch has settled, seeding the new round from the
        recipe now displayed: `fetched` is the recipe the fetch delivered, None when it
        failed and the previous recipe stays. The miss flag is not touched. */
    method NewRecipe(fetched: Option<Recipe>, draws: seq<real>)
      requires Valid()
      requires |draws| == if fetched.Some? then |fetched.value.ingredients| else |ingredients|
      modifies this
      ensures Valid() && !gaveUp
      ensures ingredients == if fetched.Some? then fetched.value.ingredients else old(ingredients)
      ensures guess == Seed(draws, Threshold(mode)) && value == "" && !end && wrongGuess == old(wrongGuess)
    {
      if fetched.Some? {
        ingredients := fetched.value.ingredients;
      }
      guess := Seed(draws, Threshold(mode));
      value := "";
      end := false;
      gaveUp := false;
    }
  }

  /** `newGuess.every((g) => g)` */
  method Every(g: seq<bool>) returns (all: bool)
    ensures all <==> AllTrue(g)
  {
    var i := 0;
    while i < |g|
      invariant 0 <= i <= |g|
      invariant forall j :: 0 <= j < i ==> g[j]
    {
      if !g[i] {
        return false;
      }
      i := i + 1;
    }
    return true;
  }
}
