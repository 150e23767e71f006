/** Success/failure values replacing the scraper's exceptions, `parser.error` and `sys.exit`. */
module Results {

  datatype Option<T> = None | Some(value: T) {
    function GetOr(default: T): T {
      match this
      case Some(v) => v
      case None => default
    }
  }

  /** Every way a run of the scraper can stop early. */
  datatype Error =
    | InvalidUrl                    // the URL does not reference a district page ("ps32")
    | EmptyOutputName               // the output file name is blank
    | Transport(url: string)        // fetching a page failed (timeout, HTTP status, network)
    | ValueMissing(header: string)  // a summary cell with this `headers` id is absent
    | NotAnInteger(text: string)    // `int()` rejected this text
    | NoVotes                       // no party-result row was found on a municipality page
    | NoMunicipalities              // the district page lists no municipality

  datatype Result<T> = Ok(value: T) | Err(error: Error)
}
