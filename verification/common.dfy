/** Small value types shared by the stores, the controllers and the worker. */
module Common {

  datatype Option<+T> = None | Some(value: T)

  /** The outcome of one call into an external store (the document store or
      the cache): either the store answered, or it could not be reached and
      the call threw. */
  datatype StoreResult<+T> = Done(value: T) | Unreachable

  /** JavaScript truthiness of a request or job field that is either absent
      (`undefined`) or a string: absent and the empty string are falsy. */
  predicate Truthy(field: Option<string>)
  {
    field.Some? && field.value != ""
  }
}
