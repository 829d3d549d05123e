/** The "literal value or function of the previous value" argument that a
    state setter accepts (src/utils/updater.ts). */
module Updater {

  /** `DataUpdater<T> | FunctionUpdater<T>`: the TypeScript union tells
      the two apart with `typeof updater === "function"`; here the
      constructor does. */
  datatype Updater<!T> = DataUpdater(data: T) | FunctionUpdater(update: T -> T)

  /** `isFunctionUpdater`. */
  predicate IsFunctionUpdater<T>(updater: Updater<T>) {
    updater.FunctionUpdater?
  }

  /** `updatedValueFromUpdater`: the value a setter call produces. */
  function UpdatedValueFromUpdater<T>(currentState: T, updater: Updater<T>): T {
    if IsFunctionUpdater(updater) then updater.update(currentState) else updater.data
  }

  /** A function updater is applied to the current state, and
      `isFunctionUpdater` holds exactly for function updaters. */
  lemma FunctionUpdaterAppliesToCurrent<T>(currentState: T, updater: Updater<T>)
    requires updater.FunctionUpdater?
    ensures IsFunctionUpdater(updater)
    ensures UpdatedValueFromUpdater(currentState, updater) == updater.update(currentState)
  {
  }

  /** A data updater yields its own value whatever the current state is. */
  lemma DataUpdaterIgnoresCurrent<T>(s1: T, s2: T, updater: Updater<T>)
    requires updater.DataUpdater?
    ensures !IsFunctionUpdater(updater)
    ensures UpdatedValueFromUpdater(s1, updater) == updater.data
    ensures UpdatedValueFromUpdater(s1, updater) == UpdatedValueFromUpdater(s2, updater)
  {
  }

  /** Applying the same data updater twice gives what applying it once gives. */
  lemma DataUpdaterIdempotent<T>(currentState: T, updater: Updater<T>)
    requires !IsFunctionUpdater(updater)
    ensures UpdatedValueFromUpdater(UpdatedValueFromUpdater(currentState, updater), updater)
         == UpdatedValueFromUpdater(currentState, updater)
  {
  }
}
