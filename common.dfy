/** Shared vocabulary: identifiers, optional values and the replies a controller sends. */
module Common {

  /** Document identifiers (MongoDB ObjectIds), compared by value as the controllers do with toString(). */
  type UserId = nat
  type RecipeId = nat
  type PlanId = nat
  type ItemId = nat

  datatype Option<T> = None | Some(value: T)

  /** What a controller answers: a success status with a value, or an error status with its message. */
  datatype Reply<T> = Ok(status: int, value: T) | Err(status: int, message: string)
}
