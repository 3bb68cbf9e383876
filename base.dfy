/** Shared vocabulary of the client library: optional values, results, the
    error kinds it raises, and the shape of an HTTP fetch. */
module Base {

  datatype Option<T> = None | Some(value: T) {
    function GetOr(default: T): T {
      match this
      case Some(v) => v
      case None => default
    }
  }

  /** What the library raises. Every failure this model covers is one
      QSimBenchError (or an IndexError from the name tokenizer); the kinds
      here tell those raise sites apart. */
  datatype Error =
    | InvalidShots           // shots not a positive integer
    | InvalidStrategy        // strategy not "sequential" / "random"
    | NoVersions             // empty version list
    | InvalidRequest         // empty algorithm or backend, or size <= 0
    | InvalidKind            // circuit kind not "circuit" / "mirror"
    | UnknownVersion         // version absent from the version list
    | NoRecords              // no record after fetching every version
    | NoCounts               // exact trim with an aggregate total <= 0
    | HttpStatus(code: int)  // an HTTP error response
    | Connection             // the host could not be reached
    | NoSizeToken            // catalog name without an all-digit token
    | NoBackendToken         // catalog name with nothing after the size
    | NoMetadata             // no catalog file matches the prefix
    | BadDatasetUrl          // dataset URL without http:// or https://
    | BadCacheTimeout        // negative cache timeout
    | Diverges               // the sampling loop would never reach its target
    | OracleInvalid          // a random-draw oracle that does not fit the run

  datatype Result<T> = Ok(value: T) | Err(error: Error)

  /** The outcome of one GET: a body, an HTTP error status (what
      raise_for_status rejects), or no connection at all. */
  datatype Fetch<T> = Got(body: T) | Failed(status: int) | Unreachable
}
