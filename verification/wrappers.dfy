/** Optional values and two-way outcomes shared by the client and the server model. */
module Wrappers {

  /** A value that may be absent: `null`/`undefined` in the client, `None` on the server. */
  datatype Option<+T> = None | Some(value: T)

  /** JavaScript truthiness of a nullable number id: present and not 0. */
  predicate TruthyId(id: Option<int>) {
    id.Some? && id.value != 0
  }

  /** Either a value or an error. */
  datatype Result<+R, +E> = Ok(value: R) | Err(error: E)
}
