/** An optional value; `None` stands for JavaScript's `null`, `undefined` or `NaN`,
    whichever the modelled code produces at that point. */
module Wrappers {

  datatype Option<+T> = None | Some(value: T)
}
