/** What a route handler sends back: a status code with either a body value or an error message. */
module Http {
  datatype Reply<T> = Ok(status: nat, value: T) | Fail(status: nat, message: string)
}
