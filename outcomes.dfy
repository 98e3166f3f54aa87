/** The two ways a call in the dashboard can end that the model distinguishes:
    it returns a value, or it throws one of the errors below. */
module Outcomes {

  datatype Option<T> = None | Some(value: T)

  /** The JavaScript errors the modelled code can raise: a TypeError when it
      reads `.rentPSF` or `.sf` of `components[index]` and the array has no
      element at `index`, and a RangeError when `Array.from` is asked for a
      length of 2^32 or more. */
  datatype JsError = ComponentMissing(index: nat) | InvalidArrayLength

  datatype Result<T> = Returned(value: T) | Threw(error: JsError)
}
