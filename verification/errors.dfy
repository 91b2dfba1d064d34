/** The error kinds a call can report to its callback. */
module Errors {
  import Json

  datatype ApiError =
    /** A private call on a client without a key or a secret. */
    | MissingCredentials
    /** A paged call whose `pageIndex` is not at least 1. */
    | InvalidPageIndex(pageIndex: real)
    /** A paged call whose `pageSize` is not between 1 and 50. */
    | InvalidPageSize(pageSize: real)
    /** The transport reported an error (connection, timeout, ...). */
    | TransportFailure(cause: string)
    /** The body, after BOM stripping, is not valid JSON. */
    | Unparseable(body: string)
    /** The exchange answered with a truthy `Message` field. */
    | ExchangeError(message: Json.Value)
}
