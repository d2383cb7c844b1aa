/** What the hosted database answers. Every request of the application is an
    insert, update, select or delete whose answer is supplied to the model as
    one of these values. */
module Remote {
  import opened Wrappers

  /** The answer to an insert, update or delete: no error, an error object
      with its machine-readable code and message, or an exception thrown by
      the client (which the pages catch). */
  datatype Outcome = Ok | Err(code: string, message: string) | Threw

  /** The answer to a select: `data` (possibly `null`), an error, or an
      exception. */
  datatype Fetch<T> = Rows(data: Option<seq<T>>) | FetchErr(message: string) | FetchThrew

  /** The database's code for a request refused by a row-level security policy. */
  const PermissionDenied := "42501"

  /** The database's code for a delete refused because other rows refer to the row. */
  const StillReferenced := "23503"
}
