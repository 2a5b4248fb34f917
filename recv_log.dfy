/** recv/log.go: the counters the event receiver keeps while a load test runs. */
module RecvLog {
  import opened GoStrings
  import opened Http

  const DefaultEventIDHeader := "X-Convoy-Event-ID"
  const DefaultEventDeliveryIDHeader := "X-Convoy-EventDelivery-ID"

  /** The event a request is a delivery of, "" when the header is absent. */
  function EventID(h: Header): string
  {
    HeaderGet(h, DefaultEventIDHeader)
  }

  /** The delivery a request is, "" when the header is absent. */
  function DeliveryID(h: Header): string
  {
    HeaderGet(h, DefaultEventDeliveryIDHeader)
  }

  /** `MI`: delivery ID to the number of times it was received. */
  type DeliveryCounts = map<string, Int64>

  /** The number of receipts of `deliveryID` for `eventID`, zero when none. */
  function Count(deliveries: map<string, DeliveryCounts>, eventID: string, deliveryID: string): Int64
  {
    if eventID in deliveries && deliveryID in deliveries[eventID] then deliveries[eventID][deliveryID] else 0
  }

  /** The delivery counts of `eventID` after one more receipt of `deliveryID`: a
      missing inner map starts empty and a missing count at zero (`int` wraps at
      64 bits). */
  function Bumped(deliveries: map<string, DeliveryCounts>, eventID: string, deliveryID: string)
    : (inner: DeliveryCounts)
    ensures deliveryID in inner
    ensures inner[deliveryID] == WrapInt64(Count(deliveries, eventID, deliveryID) as int + 1)
    ensures forall d :: d != deliveryID ==>
              (d in inner <==> eventID in deliveries && d in deliveries[eventID])
    ensures forall d :: d != deliveryID && d in inner ==> inner[d] == deliveries[eventID][d]
  {
    var v := if eventID in deliveries then deliveries[eventID] else map[];
    v[deliveryID := WrapInt64((if deliveryID in v then v[deliveryID] as int else 0) + 1)]
  }

  /** `Log`. The mutex and the atomic adds are not modelled: each method runs as
      one step. */
  class Log {
    var authFailures: Int64
    var signatureFailures: Int64
    var errorRate: string
    var successRate: string
    var eventsReceived: Int64
    var eventRecvTime: map<string, string>
    var eventsDeliveries: map<string, DeliveryCounts>

    /** `NewLog`: every counter zero, both maps empty, both rates "". */
    constructor ()
      ensures authFailures == 0 && signatureFailures == 0 && eventsReceived == 0
      ensures errorRate == "" && successRate == ""
      ensures eventRecvTime == map[] && eventsDeliveries == map[]
    {
      eventsReceived := 0;
      authFailures := 0;
      signatureFailures := 0;
      eventRecvTime := map[];
      eventsDeliveries := map[];
      errorRate := "";
      successRate := "";
    }

    /** `CaptureHeaders`, with `now` already formatted as RFC 3339 in UTC. The
        event and delivery IDs are the two Convoy headers, "" when absent. */
    method CaptureHeaders(h: Header, formattedNow: string)
      modifies this
      ensures eventsReceived == WrapInt64(old(eventsReceived) + 1)
      ensures eventRecvTime == old(eventRecvTime)[EventID(h) := formattedNow]
      ensures eventsDeliveries ==
                old(eventsDeliveries)[EventID(h) := Bumped(old(eventsDeliveries), EventID(h), DeliveryID(h))]
      ensures authFailures == old(authFailures) && signatureFailures == old(signatureFailures)
      ensures errorRate == old(errorRate) && successRate == old(successRate)
    {
      eventsReceived := WrapInt64(eventsReceived + 1);
      var eventID := EventID(h);
      var deliveryID := DeliveryID(h);
      eventRecvTime := eventRecvTime[eventID := formattedNow];
      eventsDeliveries := eventsDeliveries[eventID := Bumped(eventsDeliveries, eventID, deliveryID)];
    }

    /** `AddAuthFailure`. */
    method AddAuthFailure()
      modifies this
      ensures authFailures == WrapInt64(old(authFailures) + 1)
      ensures signatureFailures == old(signatureFailures) && eventsReceived == old(eventsReceived)
      ensures eventRecvTime == old(eventRecvTime) && eventsDeliveries == old(eventsDeliveries)
      ensures errorRate == old(errorRate) && successRate == old(successRate)
    {
      authFailures := WrapInt64(authFailures + 1);
    }

    /** `AddSignatureFailure`. */
    method AddSignatureFailure()
      modifies this
      ensures signatureFailures == WrapInt64(old(signatureFailures) + 1)
      ensures authFailures == old(authFailures) && eventsReceived == old(eventsReceived)
      ensures eventRecvTime == old(eventRecvTime) && eventsDeliveries == old(eventsDeliveries)
      ensures errorRate == old(errorRate) && successRate == old(successRate)
    {
      signatureFailures := WrapInt64(signatureFailures + 1);
    }
  }

  /** A receipt below the top of the `int` range adds exactly one to its count and
      leaves every other event's and delivery's count alone. */
  lemma BumpedCounts(deliveries: map<string, DeliveryCounts>, eventID: string, deliveryID: string)
    requires eventID in deliveries && deliveryID in deliveries[eventID] ==>
               deliveries[eventID][deliveryID] < MaxInt64
    ensures var after := deliveries[eventID := Bumped(deliveries, eventID, deliveryID)];
      && Count(after, eventID, deliveryID) == Count(deliveries, eventID, deliveryID) + 1
      && (forall e, d :: (e, d) != (eventID, deliveryID) ==> Count(after, e, d) == Count(deliveries, e, d))
  {
  }
}
