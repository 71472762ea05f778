/** Option and Result values shared by the configuration modules. */
module Results {

  datatype Option<+T> = None | Some(value: T) {
    /** The carried value, or `default` when there is none. */
    function GetOr(default: T): T {
      match this
      case Some(v) => v
      case None => default
    }
  }

  /** The ways configuring the output can fail; each aborts setup. */
  datatype ConfigError =
    | NoServers                     // no <server> block at all
    | MissingHost(index: nat)       // the server block at `index` has no host
    | InvalidDuration(text: string) // the top-level keepalive is not a duration

  datatype Result<+T> = Ok(value: T) | Err(error: ConfigError)
}
