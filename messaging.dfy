/**
 * The "exactly one handler" rule the saga applies to every query it sends:
 * the query bus answers with the handled stamps of the envelope, and only a
 * single stamp yields a result.
 */
module Messaging {
  import opened Wrappers

  /** What one handler left on the envelope: its result and its name. */
  datatype HandledStamp<T> = HandledStamp(result: T, handlerName: string)

  /** The two LogicExceptions `handle` throws. */
  datatype RoutingError =
    | HandledZeroTimes
    | HandledMultipleTimes(count: nat, handlers: seq<string>)

  /** The names of the handlers that answered, in stamp order. */
  function HandlerNames<T>(stamps: seq<HandledStamp<T>>): (names: seq<string>)
    ensures |names| == |stamps|
    ensures forall i :: 0 <= i < |stamps| ==> names[i] == stamps[i].handlerName
  {
    if stamps == [] then [] else [stamps[0].handlerName] + HandlerNames(stamps[1..])
  }

  /** The result of the only handler, or the routing error. */
  function Handle<T>(stamps: seq<HandledStamp<T>>): (r: Result<T, RoutingError>)
    ensures r.Ok? <==> |stamps| == 1
    ensures r.Ok? ==> r.value == stamps[0].result
    ensures r == Err(HandledZeroTimes) <==> |stamps| == 0
    ensures |stamps| > 1 ==> r == Err(HandledMultipleTimes(|stamps|, HandlerNames(stamps)))
  {
    if |stamps| == 0 then Err(HandledZeroTimes)
    else if |stamps| > 1 then Err(HandledMultipleTimes(|stamps|, HandlerNames(stamps)))
    else Ok(stamps[0].result)
  }
}
