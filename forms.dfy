/** What the pages that post to the API share: the status of a form's
    last request and what a request came back with. */
module Forms {
  import opened Wrappers

  /** `"idle" | "loading" | "success" | "error"`; `NoRequest` is "idle". */
  datatype Status = NoRequest | Loading | Success | Failure

  /** The answer to a request: accepted (with its HTTP status), or refused
      or failed, with the server's optional `error` text. */
  datatype Outcome = Accepted(status: int) | Rejected(error: Option<string>)

  const NotAuthenticated: string := "Not authenticated. Please log in."
}
