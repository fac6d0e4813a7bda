/** Log records of a transaction, as decoded from JSON. */
module Logs {
  import Attributes
  import opened Options

  datatype LogEvent = LogEvent(kind: string, attributes: Option<Attributes.Attrs>)

  /** `msgIndex` is a natural number; `message` is the log's error message. */
  datatype LogFormat = LogFormat(msgIndex: nat, success: bool, message: string, events: seq<LogEvent>)

  /** The zero value. */
  const NO_LOG := LogFormat(0, false, "", [])
}
