/** The adapter from the recipe service's JSON answer to a Recipe (transformJSON in src/app.tsx). */
module Meals {
  import opened Types

  /** One element of the answer's `meals` array. Entry `k - 1` of `ingredientFields` holds the
      field `strIngredient<k>`; None stands for a field that is null or absent. */
  datatype Meal = Meal(strMeal: string, strCategory: string, strMealThumb: string,
                       ingredientFields: seq<Option<string>>)

  /** The decoded JSON body: its `meals` member may be missing or null. */
  datatype Response = Response(meals: Option<seq<Meal>>)

  /** transformJSON reads the fields strIngredient1 to strIngredient20, no more. */
  const IngredientSlots: nat := 20

  /** The value of `meal.strIngredient<k>`. */
  function Field(meal: Meal, k: nat): Option<string>
  {
    if 1 <= k <= |meal.ingredientFields| then meal.ingredientFields[k - 1] else None
  }

  /** The array literal handed to `new Set(...)`: the twenty ingredient fields in order. */
  function IngredientFields(meal: Meal): seq<Option<string>>
  {
    seq(IngredientSlots, i requires 0 <= i < IngredientSlots => Field(meal, i + 1))
  }

  predicate Distinct<T(==)>(s: seq<T>)
  {
    forall i, j :: 0 <= i < j < |s| ==> s[i] != s[j]
  }

  /** The position of the first occurrence of `x` in `s`. */
  function FirstIndex<T(==)>(s: seq<T>, x: T): (k: nat)
    requires x in s
    ensures k < |s| && s[k] == x && x !in s[..k]
  {
    if s[0] == x then 0
    else
      var k := FirstIndex(s[1..], x);
      assert s[..k + 1] == [s[0]] + s[1..][..k];
      k + 1
  }

  /** `[...new Set(s)]`: the elements of `s` without repetitions, in insertion order. */
  function UniqueInOrder<T(==,!new)>(s: seq<T>): (r: seq<T>)
    ensures forall x :: x in r <==> x in s
    ensures Distinct(r)
  {
    if s == [] then []
    else
      var d := UniqueInOrder(s[..|s| - 1]);
      var x := s[|s| - 1];
      assert s == s[..|s| - 1] + [x];
      if x in d then d else d + [x]
  }

  /** The filter `s?.length !== 0 && !!s` keeps exactly the non-empty strings. */
  predicate Kept(o: Option<string>)
  {
    o.Some? && o.value != ""
  }

  /** `.filter((s) => s?.length !== 0 && !!s)`, which also drops null and undefined. */
  function KeepNonEmpty(s: seq<Option<string>>): (r: seq<string>)
    ensures forall x :: x in r <==> Some(x) in s && x != ""
  {
    if s == [] then []
    else
      var x := s[|s| - 1];
      assert s == s[..|s| - 1] + [x];
      KeepNonEmpty(s[..|s| - 1]) + (if Kept(x) then [x.value] else [])
  }

  /** The `ingredients` member of transformJSON's result, for the given field values. */
  function Ingredients(fields: seq<Option<string>>): seq<string>
  {
    KeepNonEmpty(UniqueInOrder(fields))
  }

  /** transformJSON. None is the TypeError thrown when `json?.meals?.[0]` is undefined and the
      field access on it fails; the caller swallows it and keeps its previous recipe. */
  function TransformJson(json: Option<Response>): Option<Recipe>
  {
    if json.None? || json.value.meals.None? || json.value.meals.value == [] then None
    else
      var meal := json.value.meals.value[0];
      Some(Recipe(meal.strMeal, meal.strCategory, Ingredients(IngredientFields(meal)), meal.strMealThumb))
  }

  /** Appending one field either changes nothing (a repeat) or appends its value when it is kept. */
  lemma IngredientsSnoc(fields: seq<Option<string>>, x: Option<string>)
    ensures Ingredients(fields + [x]) ==
            if x in fields then Ingredients(fields)
            else Ingredients(fields) + (if Kept(x) then [x.value] else [])
  {
  }

  lemma {:induction false} FirstIndexOfPrefix<T>(s: seq<T>, t: seq<T>, x: T)
    requires x in s
    ensures x in s + t && FirstIndex(s + t, x) == FirstIndex(s, x)
  {
    if s[0] != x {
      assert (s + t)[1..] == s[1..] + t;
      FirstIndexOfPrefix(s[1..], t, x);
    }
  }

  lemma FirstIndexOfNew<T>(s: seq<T>, x: T)
    requires x !in s
    ensures FirstIndex(s + [x], x) == |s|
  {
  }

  /** The recipe's ingredients are distinct, non-empty, drawn from the fields, include every
      non-empty field, and come in the order of their first occurrence among the fields. */
  lemma {:induction false} IngredientsSpec(fields: seq<Option<string>>)
    ensures Distinct(Ingredients(fields))
    ensures forall x :: x in Ingredients(fields) <==> Some(x) in fields && x != ""
    ensures forall i, j :: 0 <= i < j < |Ingredients(fields)| ==>
              FirstIndex(fields, Some(Ingredients(fields)[i])) < FirstIndex(fields, Some(Ingredients(fields)[j]))
    decreases |fields|
  {
    if fields != [] {
      var f, x := fields[..|fields| - 1], fields[|fields| - 1];
      assert fields == f + [x];
      IngredientsSpec(f);
      IngredientsSnoc(f, x);
      var r, r' := Ingredients(f), Ingredients(fields);
      forall i, j | 0 <= i < j < |r'|
        ensures FirstIndex(fields, Some(r'[i])) < FirstIndex(fields, Some(r'[j]))
      {
        assert Some(r'[i]) in f by { assert r'[i] in r; }
        FirstIndexOfPrefix(f, [x], Some(r'[i]));
        if j < |r| {
          assert Some(r'[j]) in f by { assert r'[j] in r; }
          FirstIndexOfPrefix(f, [x], Some(r'[j]));
        } else {
          assert x !in f && x == Some(r'[j]);
          FirstIndexOfNew(f, x);
        }
      }
      assert forall y :: y in r' <==> Some(y) in fields && y != "";
      if x !in f && Kept(x) {
        forall i | 0 <= i < |r| ensures r[i] != x.value {
          assert r[i] in r;
        }
      }
    }
  }

  /** transformJSON fails exactly when the answer has no first meal; otherwise it copies the
      title, category and image and normalises the twenty ingredient fields. */
  lemma TransformJsonSpec(json: Option<Response>)
    ensures TransformJson(json).None? <==>
            json.None? || json.value.meals.None? || json.value.meals.value == []
    ensures TransformJson(json).Some? ==>
              var meal := json.value.meals.value[0];
              var r := TransformJson(json).value;
              r.title == meal.strMeal && r.category == meal.strCategory && r.image == meal.strMealThumb &&
              Distinct(r.ingredients) &&
              (forall x :: x in r.ingredients <==>
                 x != "" && exists k :: 1 <= k <= IngredientSlots && Field(meal, k) == Some(x))
  {
    if TransformJson(json).Some? {
      var meal := json.value.meals.value[0];
      var fields := IngredientFields(meal);
      IngredientsSpec(fields);
      forall x ensures Some(x) in fields <==> exists k :: 1 <= k <= IngredientSlots && Field(meal, k) == Some(x) {
        if Some(x) in fields {
          var i :| 0 <= i < |fields| && fields[i] == Some(x);
          assert Field(meal, i + 1) == Some(x);
        }
        if k :| 1 <= k <= IngredientSlots && Field(meal, k) == Some(x) {
          assert fields[k - 1] == Some(x);
        }
      }
    }
  }

  /** Fields beyond strIngredient20 are never read. */
  lemma OnlyTwentyFieldsRead(meal: Meal, extra: seq<Option<string>>)
    requires |meal.ingredientFields| >= IngredientSlots
    ensures IngredientFields(meal.(ingredientFields := meal.ingredientFields + extra)) == IngredientFields(meal)
  {
  }
}
