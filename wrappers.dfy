/** An optional value: `None` stands for a JavaScript property that is absent
    (undefined) or for a lookup that found nothing. */
module Wrappers {
  datatype Option<+T> = None | Some(value: T)
}
