/**
 * The exceptions the core raises or lets through, as values.
 * `Offline` and `CommunicationFailure` are the integration's own
 * (custom_components/clivet/exceptions.py); `UpdateFailed` and
 * `HomeAssistantError` are Home Assistant's; the rest are Python built-ins
 * that the code can raise.
 */
module Errors {

  datatype Failure =
    | Offline               // OfflineException: not connected and connect() returned False
    | CommunicationFailure  // CommunicationException: an I/O or protocol failure
    | UpdateFailed          // a refresh cycle that hit a CommunicationException
    | HomeAssistantError    // a failure surfaced to the user by an entity action
    | IndexError            // a register list shorter than the code indexes
    | KeyError              // a configuration key the code reads is missing
    | ValueError            // no Modbus client matches the configuration
    | AssertionError        // a Python `assert` that failed
    | ZeroDivisionError     // a value divided by a zero scale

  /** How an operation that returns nothing ends: normally, or by raising. */
  datatype Status = Ok | Raised(error: Failure)
}
