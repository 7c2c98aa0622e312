/**
 * The entities the save-file decoder builds, as plain records: aircraft, gates and terminals.
 * The aircraft, ground and tower classes themselves are outside this model; the records keep
 * exactly what the decoder hands to their constructors.
 */
module Entities {
  import opened Outcomes
  import opened Tasks

  /** The part of an AircraftCharacteristics constant the decoder reads. */
  datatype Characteristics = Characteristics(passengerCapacity: int)

  /** A PassengerAircraft carries passengers; a FreightAircraft carries freight. */
  datatype Load = Passengers(count: int) | Freight(amount: int)

  /**
   * An aircraft as the decoder builds it: callsign, the name of its characteristics constant,
   * the tasks of its fresh task list (current task first), the fuel field as written, the
   * emergency flag and the load.
   */
  datatype Aircraft = Aircraft(
    callsign: string,
    model: string,
    characteristics: Characteristics,
    tasks: seq<Task>,
    fuel: string,
    emergency: bool,
    load: Load)

  datatype Gate = Gate(number: int, occupant: Option<Aircraft>)

  datatype TerminalKind = AirplaneTerminal | HelicopterTerminal

  datatype Terminal = Terminal(kind: TerminalKind, number: int, emergency: bool, gates: seq<Gate>)

  /**
   * What the decoder takes from code outside this model: the AircraftCharacteristics constants
   * by name, whether a fuel field parses as a double the aircraft constructor accepts for the
   * given characteristics, and Terminal.MAX_NUM_GATES.
   */
  datatype Externals = Externals(
    characteristics: map<string, Characteristics>,
    fuelAccepted: (string, Characteristics) -> bool,
    maxNumGates: int)

  // ---------------------------------------------------------------------------------------
  // Looking callsigns up in the list of loaded aircraft

  /** Every aircraft of the roster with callsign `c`, in roster order. */
  function RosterMatches(roster: seq<Aircraft>, c: string): (r: seq<Aircraft>)
    ensures forall a :: a in r ==> a in roster && a.callsign == c
    ensures r == [] <==> forall k :: 0 <= k < |roster| ==> roster[k].callsign != c
  {
    if roster == [] then []
    else (if roster[0].callsign == c then [roster[0]] else []) + RosterMatches(roster[1..], c)
  }

  /** The roster holds an aircraft with callsign `c`. */
  predicate Known(roster: seq<Aircraft>, c: string) {
    exists k :: 0 <= k < |roster| && roster[k].callsign == c
  }

  /** Index of the first aircraft of the roster with callsign `c`, or |roster| when there is none. */
  function FirstIndex(roster: seq<Aircraft>, c: string): (i: nat)
    ensures i <= |roster|
    ensures i < |roster| ==> roster[i].callsign == c
    ensures forall k :: 0 <= k < i ==> roster[k].callsign != c
    ensures i == |roster| <==> !Known(roster, c)
  {
    if roster == [] then 0
    else if roster[0].callsign == c then 0
    else 1 + FirstIndex(roster[1..], c)
  }

  /** The first aircraft of the roster with callsign `c`, if any. */
  function FirstMatch(roster: seq<Aircraft>, c: string): (r: Option<Aircraft>)
    ensures r.Some? <==> Known(roster, c)
    ensures r.Some? ==> r.value in roster && r.value.callsign == c
  {
    var i := FirstIndex(roster, c);
    if i < |roster| then Some(roster[i]) else None
  }

  /** No two aircraft of the roster share a callsign. */
  predicate UniqueCallsigns(roster: seq<Aircraft>) {
    forall j, k :: 0 <= j < k < |roster| ==> roster[j].callsign != roster[k].callsign
  }

  /** With unique callsigns, the only match of an aircraft's callsign is that aircraft. */
  lemma {:induction false} UniqueMatch(roster: seq<Aircraft>, a: Aircraft)
    requires UniqueCallsigns(roster) && a in roster
    ensures RosterMatches(roster, a.callsign) == [a]
  {
    if roster[0] == a {
      assert forall k :: 0 <= k < |roster[1..]| ==> roster[1..][k].callsign != a.callsign by {
        forall k | 0 <= k < |roster[1..]| ensures roster[1..][k].callsign != a.callsign {
          assert roster[1..][k] == roster[k + 1];
        }
      }
      assert RosterMatches(roster[1..], a.callsign) == [];
    } else {
      assert a in roster[1..];
      var i :| 0 <= i < |roster| && roster[i] == a;
      assert roster[0].callsign != a.callsign by {
        assert i > 0;
      }
      UniqueMatch(roster[1..], a);
    }
  }

  /** The aircraft matching each callsign of `cs`, one callsign after the other. */
  function MatchAll(roster: seq<Aircraft>, cs: seq<string>): (r: seq<Aircraft>)
    ensures forall a :: a in r ==> a in roster
  {
    if cs == [] then [] else MatchAll(roster, cs[..|cs| - 1]) + RosterMatches(roster, cs[|cs| - 1])
  }

  /** Matching one more callsign appends its matches. */
  lemma MatchAllStep(roster: seq<Aircraft>, cs: seq<string>, i: nat)
    requires i < |cs|
    ensures MatchAll(roster, cs[..i + 1]) == MatchAll(roster, cs[..i]) + RosterMatches(roster, cs[i])
  {
    assert cs[..i + 1][..i] == cs[..i];
  }

  /** Index of the first callsign of `cs` that the roster does not know, or |cs| when it knows them all. */
  function FirstUnknown(roster: seq<Aircraft>, cs: seq<string>): (i: nat)
    ensures i <= |cs|
    ensures forall k :: 0 <= k < i ==> Known(roster, cs[k])
    ensures i < |cs| ==> !Known(roster, cs[i])
  {
    if cs == [] then 0
    else if !Known(roster, cs[0]) then 0
    else 1 + FirstUnknown(roster, cs[1..])
  }

  function Callsigns(q: seq<Aircraft>): (r: seq<string>)
    ensures |r| == |q| && forall k :: 0 <= k < |q| ==> r[k] == q[k].callsign
  {
    seq(|q|, k requires 0 <= k < |q| => q[k].callsign)
  }

  /** With unique callsigns, matching the callsigns of roster members gives those members back. */
  lemma {:induction false} MatchAllOfCallsigns(roster: seq<Aircraft>, q: seq<Aircraft>)
    requires UniqueCallsigns(roster)
    requires forall a :: a in q ==> a in roster
    ensures MatchAll(roster, Callsigns(q)) == q
  {
    if q != [] {
      var p := q[..|q| - 1];
      assert Callsigns(q)[..|q| - 1] == Callsigns(p);
      MatchAllOfCallsigns(roster, p);
      UniqueMatch(roster, q[|q| - 1]);
    }
  }

  /** Every callsign of roster members is known. */
  lemma {:induction false} CallsignsKnown(roster: seq<Aircraft>, q: seq<Aircraft>)
    requires forall a :: a in q ==> a in roster
    ensures FirstUnknown(roster, Callsigns(q)) == |q|
  {
    if q != [] {
      var cs := Callsigns(q);
      assert cs[1..] == Callsigns(q[1..]);
      assert q[0] in roster;
      var i :| 0 <= i < |roster| && roster[i] == q[0];
      assert Known(roster, cs[0]);
      CallsignsKnown(roster, q[1..]);
    }
  }

  /** Matching over a roster in two parts matches over each part in turn. */
  lemma {:induction false} RosterMatchesAppend(a: seq<Aircraft>, b: seq<Aircraft>, c: string)
    ensures RosterMatches(a + b, c) == RosterMatches(a, c) + RosterMatches(b, c)
  {
    if a != [] {
      TailOfAppend(a, b);
      RosterMatchesAppend(a[1..], b, c);
      var head := if a[0].callsign == c then [a[0]] else [];
      RosterMatchesCons(a + b, c);
      RosterMatchesCons(a, c);
      ConcatAssoc(head, RosterMatches(a[1..], c), RosterMatches(b, c));
    } else {
      assert a + b == b;
    }
  }

  /** Matching over a non-empty roster: its first aircraft, if it matches, then the matches of the rest. */
  lemma RosterMatchesCons(roster: seq<Aircraft>, c: string)
    requires roster != []
    ensures RosterMatches(roster, c)
            == (if roster[0].callsign == c then [roster[0]] else []) + RosterMatches(roster[1..], c)
  {
  }

  /** Concatenation of aircraft sequences regroups freely. */
  lemma ConcatAssoc(x: seq<Aircraft>, y: seq<Aircraft>, z: seq<Aircraft>)
    ensures x + (y + z) == (x + y) + z
  {
  }

  /** The head and the tail of a concatenation with a non-empty front. */
  lemma TailOfAppend(a: seq<Aircraft>, b: seq<Aircraft>)
    requires a != []
    ensures (a + b)[0] == a[0] && (a + b)[1..] == a[1..] + b
  {
  }

  /** Each roster aircraft a scan visits adds itself to the matches when its callsign is `c`. */
  lemma RosterMatchesStep(roster: seq<Aircraft>, j: nat, c: string)
    requires j < |roster|
    ensures RosterMatches(roster[..j + 1], c)
            == RosterMatches(roster[..j], c) + (if roster[j].callsign == c then [roster[j]] else [])
  {
    assert roster[..j + 1] == roster[..j] + [roster[j]];
    RosterMatchesAppend(roster[..j], [roster[j]], c);
  }

  /** One more known callsign extends a known prefix. */
  lemma KnownPrefixStep(roster: seq<Aircraft>, cs: seq<string>, i: nat)
    requires i < |cs| && Known(roster, cs[i])
    requires forall k :: 0 <= k < i ==> Known(roster, cs[k])
    ensures forall k :: 0 <= k < i + 1 ==> Known(roster, cs[k])
  {
  }

  /** FirstUnknown is the first position of an unknown callsign: all before it are known. */
  lemma {:induction false} FirstUnknownAt(roster: seq<Aircraft>, cs: seq<string>, i: nat)
    requires i <= |cs|
    requires forall k :: 0 <= k < i ==> Known(roster, cs[k])
    requires i < |cs| ==> !Known(roster, cs[i])
    ensures FirstUnknown(roster, cs) == i
  {
    if i > 0 {
      assert Known(roster, cs[0]);
      forall k | 0 <= k < i - 1 ensures Known(roster, cs[1..][k]) {
        assert cs[1..][k] == cs[k + 1];
      }
      FirstUnknownAt(roster, cs[1..], i - 1);
    }
  }

  /**
   * With unique callsigns, matching a list of known callsigns finds one aircraft per callsign,
   * in the listed order.
   */
  lemma {:induction false} MatchAllKnown(roster: seq<Aircraft>, cs: seq<string>)
    requires UniqueCallsigns(roster)
    requires forall k :: 0 <= k < |cs| ==> Known(roster, cs[k])
    ensures Callsigns(MatchAll(roster, cs)) == cs
  {
    if cs != [] {
      var p := cs[..|cs| - 1];
      MatchAllKnown(roster, p);
      var c := cs[|cs| - 1];
      assert Known(roster, c);
      var k :| 0 <= k < |roster| && roster[k].callsign == c;
      UniqueMatch(roster, roster[k]);
      var m := MatchAll(roster, cs);
      assert m == MatchAll(roster, p) + [roster[k]];
      CallsignsSnoc(MatchAll(roster, p), roster[k]);
      InitAndLast(cs);
    }
  }

  /** A non-empty sequence is its front followed by its last element. */
  lemma InitAndLast(s: seq<string>)
    requires s != []
    ensures s == s[..|s| - 1] + [s[|s| - 1]]
  {
  }

  /** The callsigns of a queue with one more aircraft end with that aircraft's callsign. */
  lemma CallsignsSnoc(q: seq<Aircraft>, a: Aircraft)
    ensures Callsigns(q + [a]) == Callsigns(q) + [a.callsign]
  {
  }
}
