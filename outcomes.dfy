/** Result shapes shared by the model.

    - Option: a Python value that may be None.
    - Lookup: the answer of a schema walk, which can find a value, find nothing
      (the walk returns None) or fail (a dictionary KeyError inside the walk).
    - Step: the outcome of one emitter operation: the next value, a raised
      Python exception, or a loop that never ends.
 */
module Outcomes {

  datatype Option<T> = None | Some(value: T)

  datatype Lookup<T> = Hit(value: T) | Miss | Fault

  datatype Step<T> = Next(value: T) | Raised | Hangs
}
