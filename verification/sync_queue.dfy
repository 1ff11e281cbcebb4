/** The queue of sync events and the two engine callbacks on it (src/Adapter.cc). */
module SyncQueue {
  import opened Common

  /** An element of the queue: a null event, which asks the engine to shut down, or the event that
      was the `serial`-th to be accepted. */
  datatype Event = Null | Event(serial: nat)

  /** Non-null events come first, null markers last. */
  predicate Shape(q: seq<Event>) {
    forall i, j :: 0 <= i < j < |q| && q[i] == Null ==> q[j] == Null
  }

  /** `in_shutdown` looks at the last element only. */
  predicate InShutdown(q: seq<Event>) {
    q != [] && q[|q| - 1] == Null
  }

  /** The non-null events, front to back. */
  function Serials(q: seq<Event>): seq<nat> {
    if q == [] then []
    else if q[0] == Null then Serials(q[1..])
    else [q[0].serial] + Serials(q[1..])
  }

  predicate Decreasing(s: seq<nat>) {
    forall i, j :: 0 <= i < j < |s| ==> s[i] > s[j]
  }

  /** Of a queue of that shape the last element tells whether any marker is pending. */
  lemma LastTellsAll(q: seq<Event>)
    requires Shape(q)
    ensures InShutdown(q) <==> Null in q
  {
  }

  lemma {:induction false} SerialsMember(q: seq<Event>, n: nat)
    ensures n in Serials(q) <==> Event(n) in q
  {
    if q != [] { SerialsMember(q[1..], n); }
  }

  /** A marker at the front of a queue of that shape: nothing but markers is left. */
  lemma {:induction false} FrontMarkerIsAlone(q: seq<Event>)
    requires Shape(q) && q != [] && q[0] == Null
    ensures Serials(q) == []
  {
    if |q| > 1 {
      assert q[1] == Null;
      FrontMarkerIsAlone(q[1..]);
    }
  }

  lemma {:induction false} SerialsOfMarkers(q: seq<Event>)
    ensures Serials(q + [Null]) == Serials(q)
  {
    if q != [] {
      assert (q + [Null])[1..] == q[1..] + [Null];
      SerialsOfMarkers(q[1..]);
    }
  }

  /** The queue as the library uses it: a deque whose operations are atomic. */
  class EventQueue {
    var q: seq<Event>
    // the events the deleter was run on, oldest first
    var freed: seq<nat>

    constructor ()
      ensures q == [] && freed == []
    {
      q := [];
      freed := [];
    }

    method Clear()
      modifies this
      ensures q == [] && freed == old(freed) + Serials(old(q))
    {
      freed := freed + Serials(q);
      q := [];
    }

    method PushBack(ev: Event)
      modifies this`q
      ensures q == old(q) + [ev]
    {
      q := q + [ev];
    }

    method PushFront(ev: Event)
      modifies this`q
      ensures q == [ev] + old(q)
    {
      q := [ev] + q;
    }

    /** A shutdown request discards what is pending; anything else goes to the front. With nobody
        else at the queue, the shape is kept and a request is visible at once. */
    method EnqueueSyncEvent(ev: Event)
      modifies this
      ensures ev == Null ==> q == [Null] && freed == old(freed) + Serials(old(q))
      ensures ev != Null ==> q == [ev] + old(q) && freed == old(freed)
      ensures old(Shape(q)) ==> Shape(q)
      ensures ev == Null ==> InShutdown(q)
    {
      if ev == Null {
        Clear();
        PushBack(ev);
      } else {
        PushFront(ev);
      }
    }

    /** The front of the queue, or none when the wait times out on an empty queue. */
    method DequeueNextSyncEvent() returns (ev: Option<Event>)
      modifies this`q
      ensures ev == None <==> old(q) == []
      ensures ev.Some? ==> old(q) == [ev.value] + q
      ensures old(Shape(q)) ==> Shape(q) && (ev == Some(Null) ==> Serials(q) == [])
    {
      if q == [] {
        return None;
      }
      ev := Some(q[0]);
      if Shape(q) && q[0] == Null { FrontMarkerIsAlone(q); }
      q := q[1..];
    }

    method InShutdownNow() returns (r: bool)
      ensures r == InShutdown(q)
    {
      if q == [] {
        return false;
      }
      var ev := q[|q| - 1];
      r := ev == Null;
    }
  }
}
