/**
 Handlers and middleware as functions.

 A handler gets an event and its data, and may read and change the rest of the world `W`, which
 is passed along explicitly. A middleware also gets the next handler; it may call it any number of
 times, with any arguments, or not at all.
 */
module Handlers {
  import opened Common
  import opened Events

  /** `Control` stands for the exceptions that are not `Exception`s, such as a cancellation. */
  datatype Exc = SkipHandler | HandlerError(eventType: string, seqNo: int) | Failure(code: int) | Control(code: int)

  datatype Reply<+R> = Returned(value: R) | Threw(exc: Exc)

  datatype DispatchResult = DispatchResult(outcome: Outcome, event: ClientEvent, error: Option<Exc>)

  type Handler<!W, +R> = (ClientEvent, Data, W) -> (Reply<R>, W)

  type Middleware<!W, !R> = (Handler<W, R>, ClientEvent, Data, W) -> (Reply<R>, W)
}
