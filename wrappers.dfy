/** The optional values of the drum script: a colour slot that is still `None`,
    a centre that was never clicked, a hit that found no free channel. */
module Wrappers {

  datatype Option<+T> = None | Some(value: T)
}
