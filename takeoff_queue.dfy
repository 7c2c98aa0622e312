/** The first-in, first-out queue of aircraft waiting to take off. */
module TakeoffQueues {
  import opened Outcomes
  import opened Entities
  import opened AircraftQueues

  /** `s` without its first element equal to `x`: what LinkedList.remove(Object) leaves. */
  function RemoveFirst(s: seq<Aircraft>, x: Aircraft): (r: seq<Aircraft>)
    ensures x !in s ==> r == s
    ensures x in s ==> |r| == |s| - 1 && multiset(r) == multiset(s) - multiset{x}
  {
    if s == [] then []
    else
      assert s == [s[0]] + s[1..];
      if s[0] == x then s[1..] else [s[0]] + RemoveFirst(s[1..], x)
  }

  /**
   * LinkedList.remove(Object) takes away the first element equal to `x`: the one at the first
   * position holding `x`, with everything before and after it kept in order.
   */
  lemma {:induction false} RemoveFirstAtFirstOccurrence(s: seq<Aircraft>, x: Aircraft) returns (i: nat)
    requires x in s
    ensures i < |s| && s[i] == x && x !in s[..i]
    ensures RemoveFirst(s, x) == s[..i] + s[i + 1..]
  {
    if s[0] == x {
      i := 0;
    } else {
      var t := s[1..];
      InTail(s, x);
      var j := RemoveFirstAtFirstOccurrence(t, x);
      i := j + 1;
      RemoveFirstPastHead(s, x);
      ShiftPast(s, j);
      NotInFront(s[0], t[..j], x);
    }
  }

  /** `x` is not in a sequence whose head differs from it and whose rest does not hold it. */
  lemma NotInFront(a: Aircraft, b: seq<Aircraft>, x: Aircraft)
    requires a != x && x !in b
    ensures x !in [a] + b
  {
  }

  /** An element of `s` other than its head is in its tail. */
  lemma InTail(s: seq<Aircraft>, x: Aircraft)
    requires x in s && s[0] != x
    ensures x in s[1..]
  {
    var k :| 0 <= k < |s| && s[k] == x;
    assert s[1..][k - 1] == x;
  }

  /** Past a head that differs from `x`, RemoveFirst keeps the head and works on the tail. */
  lemma RemoveFirstPastHead(s: seq<Aircraft>, x: Aircraft)
    requires s != [] && s[0] != x
    ensures RemoveFirst(s, x) == [s[0]] + RemoveFirst(s[1..], x)
  {
  }

  /** The parts of `s` around position j + 1 are its head with the parts of its tail around j. */
  lemma ShiftPast(s: seq<Aircraft>, j: nat)
    requires j + 1 < |s|
    ensures s[..j + 1] == [s[0]] + s[1..][..j]
    ensures s[j + 2..] == s[1..][j + 1..]
  {
  }

  class TakeoffQueue {
    /** The aircraft in the order they were added, the oldest first. */
    var takeoffQueue: seq<Aircraft>

    /** A new queue is empty. */
    constructor()
      ensures takeoffQueue == [] && PeekAircraft() == None
    {
      takeoffQueue := [];
    }

    /** Adds the aircraft at the back; an aircraft already queued is added again. */
    method AddAircraft(aircraft: Aircraft)
      modifies this
      ensures takeoffQueue == old(takeoffQueue) + [aircraft]
    {
      takeoffQueue := takeoffQueue + [aircraft];
    }

    /** The aircraft at the front, the one added longest ago; None (null) when the queue is empty. */
    function PeekAircraft(): (r: Option<Aircraft>)
      reads this
      ensures r == None <==> |takeoffQueue| == 0
      ensures r.Some? ==> r.value == takeoffQueue[0] && r.value in takeoffQueue
    {
      if |takeoffQueue| == 0 then None else Some(takeoffQueue[0])
    }

    /** Removes and returns the front aircraft; on an empty queue returns None and changes nothing. */
    method RemoveAircraft() returns (r: Option<Aircraft>)
      modifies this
      ensures r == old(PeekAircraft())
      ensures old(takeoffQueue) == [] ==> takeoffQueue == []
      ensures old(takeoffQueue) != [] ==> takeoffQueue == old(takeoffQueue[1..])
    {
      r := PeekAircraft();
      if r.Some? {
        takeoffQueue := RemoveFirst(takeoffQueue, r.value);
      }
    }

    /**
     * The queued aircraft in the order they will leave: copies them into a second queue and
     * drains that one, leaving this queue as it was.
     */
    method GetAircraftInOrder() returns (aircraftInOrder: seq<Aircraft>)
      ensures aircraftInOrder == takeoffQueue
    {
      aircraftInOrder := [];
      var copy := new TakeoffQueue();
      var i := 0;
      while i < |takeoffQueue|
        invariant 0 <= i <= |takeoffQueue|
        invariant copy.takeoffQueue == takeoffQueue[..i]
      {
        copy.AddAircraft(takeoffQueue[i]);
        assert takeoffQueue[..i + 1] == takeoffQueue[..i] + [takeoffQueue[i]];
        i := i + 1;
      }
      assert takeoffQueue[..i] == takeoffQueue;
      i := 0;
      while i < |takeoffQueue|
        invariant 0 <= i <= |takeoffQueue|
        invariant copy.takeoffQueue == takeoffQueue[i..]
        invariant aircraftInOrder == takeoffQueue[..i]
      {
        var next := copy.RemoveAircraft();
        assert takeoffQueue[..i + 1] == takeoffQueue[..i] + [takeoffQueue[i]];
        aircraftInOrder := aircraftInOrder + [next.value];
        i := i + 1;
      }
      assert takeoffQueue[..i] == takeoffQueue;
    }

    /** Whether an aircraft equal to the given one is queued. */
    function ContainsAircraft(aircraft: Aircraft): (b: bool)
      reads this
      ensures b <==> exists k :: 0 <= k < |takeoffQueue| && takeoffQueue[k] == aircraft
    {
      aircraft in takeoffQueue
    }

    /** TakeoffQueue.toString, from AircraftQueue. */
    method ToString() returns (s: string)
      ensures s == QueueDisplay(TakeoffQueueName, Some(takeoffQueue))
    {
      var inOrder := GetAircraftInOrder();
      s := QueueToString(TakeoffQueueName, Some(inOrder));
    }

    /** TakeoffQueue.encode, from AircraftQueue; never null, so it never fails. */
    method Encode() returns (s: string)
      ensures s == QueueEncoding(TakeoffQueueName, takeoffQueue)
    {
      var inOrder := GetAircraftInOrder();
      var r := QueueEncode(TakeoffQueueName, Some(inOrder));
      s := r.value;
    }
  }

  /**
   * Adding a1..ak to a new queue and removing k times gives back a1..ak in that order; one
   * more removal then finds the queue empty.
   */
  method FirstInFirstOut(arrivals: seq<Aircraft>) returns (departures: seq<Aircraft>, afterwards: Option<Aircraft>)
    ensures departures == arrivals
    ensures afterwards == None
  {
    var queue := new TakeoffQueue();
    var i := 0;
    while i < |arrivals|
      invariant 0 <= i <= |arrivals|
      invariant queue.takeoffQueue == arrivals[..i]
    {
      queue.AddAircraft(arrivals[i]);
      assert arrivals[..i + 1] == arrivals[..i] + [arrivals[i]];
      i := i + 1;
    }
    assert arrivals[..i] == arrivals;
    departures := [];
    i := 0;
    while i < |arrivals|
      invariant 0 <= i <= |arrivals|
      invariant queue.takeoffQueue == arrivals[i..]
      invariant departures == arrivals[..i]
    {
      var next := queue.RemoveAircraft();
      assert arrivals[..i + 1] == arrivals[..i] + [arrivals[i]];
      departures := departures + [next.value];
      i := i + 1;
    }
    assert arrivals[..i] == arrivals;
    afterwards := queue.RemoveAircraft();
  }
}
