/** An optional value: `None` stands for JavaScript's `undefined` (or a value that is
    not a number) wherever the action can leave a field without a value. */
module Wrappers {

  datatype Option<+T> = None | Some(value: T)

}
