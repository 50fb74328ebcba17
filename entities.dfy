/** The records exchanged with the recipe service. */
module Entities {

  /** The identity returned by the authentication endpoints. */
  datatype User = User(username: string)

  /** The credentials an authentication form submits. */
  datatype Credentials = Credentials(username: string, password: string)

  /** The value held by a form input: a number (a duration taken over from a
      stored recipe) or the text the user typed. */
  datatype InputValue = Num(n: int) | Str(s: string)

  /** A recipe as the service returns it; `id` is assigned by the service. */
  datatype Recipe = Recipe(
    id: int,
    title: string,
    cuisine: string,
    duration: int,
    description: string,
    ingredients: seq<string>,
    instructions: seq<string>,
    author: string)

  /** The data a recipe form hands to its save callback. */
  datatype RecipeInput = RecipeInput(
    title: string,
    cuisine: string,
    duration: InputValue,
    description: string,
    ingredients: seq<string>,
    instructions: seq<string>)
}
