/** Values shared by every part of the delivery core. */
module Common {

  datatype Option<+T> = None | Some(value: T) {
    function GetOr(default: T): T {
      if Some? then value else default
    }
  }

  /** Which source produced an event. */
  datatype Transport = Webhook | SSE | WS | Polling

  /** What dispatching one event came to. */
  datatype Outcome = Handled | Skipped | Duplicate | Errored

  /** How one call of the dispatcher ended: with an outcome, or with an exception that left it. */
  datatype FeedReply = Completed(outcome: Outcome) | Raised

  function Max(a: int, b: int): int {
    if a >= b then a else b
  }
}
