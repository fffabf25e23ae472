/** The value types shared by the game: the enumerations and the recipe record of src/types.ts,
    and an Option for JavaScript's null/undefined. */
module Types {

  /** A value that may be absent: `null` or `undefined` in the source. */
  datatype Option<+T> = None | Some(value: T)

  /** The three difficulty levels (MODES). */
  datatype Mode = Easy | Medium | Hard

  /** A normalised recipe as the play screen receives it. */
  datatype Recipe = Recipe(title: string, category: string, ingredients: seq<string>, image: string)
}
