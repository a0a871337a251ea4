/** The outcome of a lookup by athlete name: a value, or the key that was missing. */
module Outcome {

  /** `KeyError(key)` stands for the dictionary lookup that raises on a missing key. */
  datatype Lookup<T> = Ok(value: T) | KeyError(key: string)

  /** `key` is the first name of `names` that `present` does not contain. */
  predicate FirstMissing<V>(names: seq<string>, present: map<string, V>, key: string)
  {
    exists i :: 0 <= i < |names| && names[i] == key && key !in present
      && forall j :: 0 <= j < i ==> names[j] in present
  }
}
