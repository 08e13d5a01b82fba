/** The analytics concept of the event-driven example: a list of tracked
    records per event name and a counter per event name. The clock is a
    parameter. */
module Analytics {
  import opened Wrappers
  import opened Json

  datatype Action = Track | GetMetrics | GetEvents | Reset

  function Name(a: Action): string {
    match a
    case Track => "track"
    case GetMetrics => "getMetrics"
    case GetEvents => "getEvents"
    case Reset => "reset"
  }

  /** The `switch` of `execute`. */
  function Dispatch(action: string): (r: Result<Action>)
    ensures r.Ok? ==> Name(r.value) == action
    ensures r.Err? ==> r.error == "Unknown action: " + action && forall a :: Name(a) != action
  {
    if action == "track" then Ok(Track)
    else if action == "getMetrics" then Ok(GetMetrics)
    else if action == "getEvents" then Ok(GetEvents)
    else if action == "reset" then Ok(Reset)
    else Err("Unknown action: " + action)
  }

  /** `xs.slice(start)` for an integer `start`: a negative start counts
      from the end. */
  function Slice<T>(xs: seq<T>, start: int): (r: seq<T>)
    ensures |r| <= |xs| && r == xs[|xs| - |r|..]
  {
    if start < 0 then (if |xs| + start < 0 then xs else xs[|xs| + start..])
    else if start <= |xs| then xs[start..] else []
  }

  /** `events.slice(-limit)`: the last `limit` entries for a positive
      limit, all of them for 0 (`-0` is `0`), and all but the first `-limit`
      for a negative one. */
  lemma SliceLast<T>(xs: seq<T>, limit: int)
    ensures limit > 0 ==> Slice(xs, -limit) == if limit >= |xs| then xs else xs[|xs| - limit..]
    ensures limit == 0 ==> Slice(xs, -limit) == xs
    ensures limit < 0 ==> Slice(xs, -limit) == if -limit <= |xs| then xs[-limit..] else []
  {
  }

  /** Each counter is the length of its event's list, and there is a
      counter exactly for each event tracked. */
  ghost predicate Counted(events: map<string, seq<Object>>, metrics: Object) {
    UniqueKeys(metrics)
    && (forall e :: e in events <==> e in Keys(metrics))
    && (forall e :: e in events ==> Json.Get(metrics, e) == Some(Int(|events[e]|)))
  }

  /** The counter read `metrics.get(event) || 0`. */
  function Count(metrics: Object, event: string): int {
    match Json.Get(metrics, event)
    case Some(Int(n)) => n
    case _ => 0
  }

  /** The lists after `event` is tracked with record `rec`. */
  function Tracked(events: map<string, seq<Object>>, event: string, rec: Object): map<string, seq<Object>> {
    events[event := (if event in events then events[event] else []) + [rec]]
  }

  /** The counters after `event` is counted once more. */
  function Bumped(metrics: Object, event: string): Object {
    Put(metrics, event, Int(Count(metrics, event) + 1))
  }

  /** One `track` keeps every counter equal to its list's length. */
  lemma TrackCounted(events: map<string, seq<Object>>, metrics: Object, event: string, rec: Object)
    requires Counted(events, metrics)
    ensures Counted(Tracked(events, event, rec), Bumped(metrics, event))
  {
    PutUnique(metrics, event, Int(Count(metrics, event) + 1));
    TrackedKeys(events, metrics, event, rec);
    TrackedCounts(events, metrics, event, rec);
  }

  lemma TrackedKeys(events: map<string, seq<Object>>, metrics: Object, event: string, rec: Object)
    requires forall e :: e in events <==> e in Keys(metrics)
    ensures forall e :: e in Tracked(events, event, rec) <==> e in Keys(Bumped(metrics, event))
  {
    PutKeys(metrics, event, Int(Count(metrics, event) + 1));
  }

  lemma TrackedCounts(events: map<string, seq<Object>>, metrics: Object, event: string, rec: Object)
    requires Counted(events, metrics)
    ensures forall e :: e in Tracked(events, event, rec)
              ==> Json.Get(Bumped(metrics, event), e) == Some(Int(|Tracked(events, event, rec)[e]|))
  {
    var ev' := Tracked(events, event, rec);
    var c := Int(Count(metrics, event) + 1);
    forall e | e in ev'
      ensures Json.Get(Bumped(metrics, event), e) == Some(Int(|ev'[e]|))
    {
      PutGet(metrics, event, c, e);
      if e == event && event !in events {
        assert Json.Get(metrics, event).None?;
      }
    }
  }

  class AnalyticsStore {
    var events: map<string, seq<Object>>
    /** The counters, as the object `getMetrics` returns: one property per
        event name, in the order the names were first tracked. */
    var metrics: Object

    /** Between resets, each counter is the length of its event's list. */
    ghost predicate Valid()
      reads this
    {
      Counted(events, metrics)
    }

    constructor()
      ensures events == map[] && metrics == [] && Valid()
    {
      events := map[];
      metrics := [];
    }

    /** `track`: the data spread into a record with its timestamp and id. */
    method Track(event: string, data: Object, now: int) returns (eventId: string)
      requires Valid()
      modifies this
      ensures Valid()
      ensures eventId == "event_" + IntToString(now)
      ensures events == Tracked(old(events), event, Put(Put(data, "timestamp", Int(now)), "id", Str(eventId)))
      ensures metrics == Bumped(old(metrics), event)
    {
      eventId := "event_" + IntToString(now);
      var rec := Put(Put(data, "timestamp", Int(now)), "id", Str(eventId));
      TrackCounted(events, metrics, event, rec);
      events := Tracked(events, event, rec);
      metrics := Bumped(metrics, event);
    }

    method GetMetrics() returns (m: Object)
      requires Valid()
      ensures m == metrics
      ensures forall e :: Json.Get(m, e).Some? <==> e in events
      ensures forall e :: e in events ==> Json.Get(m, e) == Some(Int(|events[e]|))
    {
      m := metrics;
    }

    /** `getEvents`: `limit` is 10 when absent. */
    method GetEvents(event: string, limit: Option<int>) returns (r: seq<Object>)
      ensures var all := if event in events then events[event] else [];
              r == Slice(all, -(if limit.None? then 10 else limit.value))
      ensures event !in events ==> r == []
    {
      var all := if event in events then events[event] else [];
      var n := if limit.None? then 10 else limit.value;
      r := Slice(all, -n);
    }

    method Reset()
      modifies this
      ensures events == map[] && metrics == [] && Valid()
    {
      events := map[];
      metrics := [];
    }
  }
}
