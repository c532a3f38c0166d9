/** The event-type dispatch of `process_event` and `run`.

    `process_event` reads the event's `eventType` (taking `"Unknown"` when it
    is missing) and calls exactly one of three handlers for `"BlobCreated"`,
    `"BlobDeleted"` and `"BlobUpdated"`, and no handler for anything else.
    The handlers are recorded rather than run: a log of handler calls, as the
    reader's unit test records them, is what the model observes.
 */
module EventDispatch {

  import opened Optional
  import opened Sequences
  import opened Feed

  /** The three handlers of the reader. */
  datatype Handler = Created | Deleted | Updated

  /** One recorded handler call: which handler, on which event. */
  datatype HandlerCall = HandlerCall(handler: Handler, event: Event)

  /** `event.get("eventType", "Unknown")`: the event's own type when it has
      one; a missing type reads as `"Unknown"`, indistinguishable from an
      event that says `"Unknown"` itself. */
  function EventTypeOf(e: Event): (t: string)
    ensures e.eventType.Some? ==> t == e.eventType.value
    ensures t == "Unknown" <==> e.eventType.None? || e.eventType == Some("Unknown")
  {
    match e.eventType
    case Some(t) => t
    case None => "Unknown"
  }

  /** The event type each handler is called for. */
  function HandledType(h: Handler): string
  {
    match h
    case Created => "BlobCreated"
    case Deleted => "BlobDeleted"
    case Updated => "BlobUpdated"
  }

  /** The handler `process_event` calls for an event, if any. The event's type
      is one of the three handled types exactly when a handler is chosen, and
      the chosen handler is the one for that type. */
  function Classify(e: Event): (r: Option<Handler>)
    ensures r.Some? <==> EventTypeOf(e) == "BlobCreated" || EventTypeOf(e) == "BlobDeleted" || EventTypeOf(e) == "BlobUpdated"
    ensures r.Some? ==> HandledType(r.value) == EventTypeOf(e)
  {
    var t := EventTypeOf(e);
    if t == "BlobCreated" then Some(Created)
    else if t == "BlobDeleted" then Some(Deleted)
    else if t == "BlobUpdated" then Some(Updated)
    else None
  }

  /** The handler calls one `process_event` makes. */
  function Dispatch(e: Event): (calls: seq<HandlerCall>)
    ensures |calls| <= 1
    ensures |calls| == 1 <==> Classify(e).Some?
  {
    match Classify(e)
    case Some(h) => [HandlerCall(h, e)]
    case None => []
  }

  /** The handler calls `process_event` makes for each event in turn: never
      more calls than events. */
  function DispatchAll(events: seq<Event>): (calls: seq<HandlerCall>)
    ensures |calls| <= |events|
  {
    FlatMapAtMostOne(Dispatch, events);
    FlatMap(Dispatch, events)
  }

  /** An event's type selects a handler exactly when it is that handler's
      type: the dispatch table is the inverse of HandledType. */
  lemma ClassifyInvertsHandledType(e: Event, h: Handler)
    ensures Classify(e) == Some(h) <==> EventTypeOf(e) == HandledType(h)
  {
  }

  /** An event without an `eventType` is treated as `"Unknown"`, and no
      handler is called for it. */
  lemma MissingTypeUnhandled(e: Event)
    requires e.eventType.None?
    ensures Dispatch(e) == []
  {
  }

  /** A call is one that `process_event` makes for `e` exactly when it is for
      `e` and for the handler `e`'s type selects. */
  lemma DispatchCalls(e: Event, c: HandlerCall)
    ensures c in Dispatch(e) <==> c.event == e && Classify(e) == Some(c.handler)
  {
  }

  /** A call is recorded exactly when its event is one of the events and the
      event's type selects that call's handler. */
  lemma DispatchAllMembers(events: seq<Event>)
    ensures forall c :: c in DispatchAll(events) <==> c.event in events && Classify(c.event) == Some(c.handler)
  {
    forall c ensures c in DispatchAll(events) <==> c.event in events && Classify(c.event) == Some(c.handler) {
      FlatMapMembers(Dispatch, events, c);
      DispatchCalls(c.event, c);
      if c.event in events && Classify(c.event) == Some(c.handler) {
        assert c in Dispatch(c.event);
      }
    }
  }

  /** When every event has a handled type, each event gets exactly one call,
      in the order of the events. */
  lemma DispatchAllOnePerEvent(events: seq<Event>)
    requires forall i :: 0 <= i < |events| ==> Classify(events[i]).Some?
    ensures |DispatchAll(events)| == |events|
    ensures forall i :: 0 <= i < |events| ==>
      DispatchAll(events)[i] == HandlerCall(Classify(events[i]).value, events[i])
  {
    FlatMapOneEach(Dispatch, events);
  }

  /** The events of the reader's unit test for `process_event`: one of each
      handled type and one `"Unknown"`, which yields no call. */
  lemma FourEventTypes(created: Event, deleted: Event, updated: Event, unknown: Event)
    requires created.eventType == Some("BlobCreated")
    requires deleted.eventType == Some("BlobDeleted")
    requires updated.eventType == Some("BlobUpdated")
    requires unknown.eventType == Some("Unknown")
    ensures DispatchAll([created, deleted, updated, unknown])
         == [HandlerCall(Created, created), HandlerCall(Deleted, deleted), HandlerCall(Updated, updated)]
  {
    var events := [created, deleted, updated, unknown];
    assert events[..3] == [created, deleted, updated];
    DispatchAllOnePerEvent(events[..3]);
    assert DispatchAll(events) == DispatchAll(events[..3]) + Dispatch(unknown);
  }
}
