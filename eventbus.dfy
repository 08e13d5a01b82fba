/** The event bus of the event-driven example: handlers subscribed per event
    type, and a publish that hands the stamped event to each of them in
    turn. A handler is known by a name; what it does is outside the model,
    and whether it throws is a parameter of `Publish`. */
module EventBus {
  import opened Wrappers
  import opened Json

  datatype Handler = Handler(name: string)

  /** An event as published: `kind` is the event's `type`. */
  datatype Draft = Draft(kind: string, payload: Object, source: string, flowId: string)

  /** An event as handlers receive it, with its timestamp. */
  datatype Event = Event(kind: string, payload: Object, source: string, timestamp: int, flowId: string)

  /** One handler call made by `publish`, and whether the handler threw. */
  datatype Delivery = Delivery(handler: Handler, event: Event, failed: bool)

  /** `{...event, timestamp}`. */
  function Stamp(d: Draft, now: int): (e: Event)
    ensures e.kind == d.kind && e.payload == d.payload && e.source == d.source && e.flowId == d.flowId
    ensures e.timestamp == now
  {
    Event(d.kind, d.payload, d.source, now, d.flowId)
  }

  /** `handlers.get(type) || []`. */
  function HandlersOf(handlers: map<string, seq<Handler>>, kind: string): seq<Handler> {
    if kind in handlers then handlers[kind] else []
  }

  /** The table after `subscribe(kind, h)`: `h` goes last in its type's
      list and every other list is as it was. */
  function Subscribed(handlers: map<string, seq<Handler>>, kind: string, h: Handler): (r: map<string, seq<Handler>>)
    ensures kind in r
    ensures forall k :: HandlersOf(r, k) == HandlersOf(handlers, k) + (if k == kind then [h] else [])
  {
    handlers[kind := HandlersOf(handlers, kind) + [h]]
  }

  /** The calls of the `for ... of` loop in `publish`, one after the other;
      a handler that throws is caught and the loop goes on. */
  function Deliveries(hs: seq<Handler>, e: Event, fails: Handler -> bool): (r: seq<Delivery>)
    ensures |r| == |hs|
    ensures forall i :: 0 <= i < |r| ==> r[i].handler == hs[i] && r[i].event == e && r[i].failed == fails(hs[i])
    decreases |hs|
  {
    if hs == [] then []
    else Deliveries(hs[..|hs| - 1], e, fails) + [Delivery(hs[|hs| - 1], e, fails(hs[|hs| - 1]))]
  }

  /** Subscribing the same handler twice makes `publish` call it twice. */
  lemma SubscribeTwice(handlers: map<string, seq<Handler>>, kind: string, h: Handler, e: Event, fails: Handler -> bool)
    ensures var hs := HandlersOf(Subscribed(Subscribed(handlers, kind, h), kind, h), kind);
            var ds := Deliveries(hs, e, fails);
            |ds| == |HandlersOf(handlers, kind)| + 2 && ds[|ds| - 2].handler == h && ds[|ds| - 1].handler == h
  {
  }

  /** `createEventFromAction`: the type is `concept.action`, the payload
      holds the input and the output, and the source is the concept. */
  function CreateEventFromAction(concept: string, action: string, input: Value, output: Value, flowId: string,
                                 now: int): (e: Event)
    ensures e.kind == concept + "." + action && e.source == concept && e.flowId == flowId && e.timestamp == now
    ensures Json.Get(e.payload, "input") == Some(input) && Json.Get(e.payload, "output") == Some(output)
    ensures Keys(e.payload) == ["input", "output"]
  {
    Event(concept + "." + action, [Field("input", input), Field("output", output)], concept, now, flowId)
  }

  /** The type of an event made from an action splits back into the concept
      and the action when neither holds a dot. */
  lemma EventKindSplits(concept: string, action: string, input: Value, output: Value, flowId: string, now: int)
    requires '.' !in concept && '.' !in action
    ensures Split(CreateEventFromAction(concept, action, input, output, flowId, now).kind, '.') == [concept, action]
  {
    SplitPrefix(concept, action, '.');
    SplitNoSep(action, '.');
  }

  class Bus {
    var handlers: map<string, seq<Handler>>

    constructor()
      ensures handlers == map[]
    {
      handlers := map[];
    }

    method Subscribe(kind: string, h: Handler)
      modifies this
      ensures handlers == Subscribed(old(handlers), kind, h)
    {
      var list := if kind in handlers then handlers[kind] else [];
      handlers := handlers[kind := list + [h]];
    }

    /** `publish`: the handlers of the event's type are called in
        subscription order with the stamped event; the subscriptions are
        left as they are. */
    method Publish(d: Draft, now: int, fails: Handler -> bool) returns (calls: seq<Delivery>)
      ensures calls == Deliveries(HandlersOf(handlers, d.kind), Stamp(d, now), fails)
      ensures d.kind !in handlers ==> calls == []
    {
      var e := Event(d.kind, d.payload, d.source, now, d.flowId);
      var hs := if d.kind in handlers then handlers[d.kind] else [];
      calls := [];
      for i := 0 to |hs|
        invariant calls == Deliveries(hs[..i], e, fails)
      {
        var failed := fails(hs[i]);
        calls := calls + [Delivery(hs[i], e, failed)];
        assert hs[..i + 1][..i] == hs[..i];
      }
      assert hs[..|hs|] == hs;
    }
  }
}
