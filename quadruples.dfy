/** The temporal quadruple record shared by the pipeline stages: who, which
    admission, when (a day number), the temporal event type, the event and its value. */
module Quadruples {

  datatype Quadruple = Quadruple(
    subjectId: int,
    hadmId: int,
    timestamp: int,
    eventType: string,
    event: string,
    value: string)

  /** An integrated row: a quadruple together with its `time_window`. */
  datatype Windowed = Windowed(quad: Quadruple, timeWindow: nat)
}
