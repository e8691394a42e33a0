/** Optional values: a DOM query that found nothing, a JavaScript `undefined`. */
module Wrappers {

  datatype Option<+T> = None | Some(value: T)

}
