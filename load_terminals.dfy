/**
 * loadTerminalsWithGates and its readers: readTerminal for a terminal header and the gate
 * lines after it, readGate for one gate line.
 */
module TerminalLoader {
  import opened Outcomes
  import opened JavaText
  import opened Entities

  // ---------------------------------------------------------------------------------------
  // readGate

  /** The text of a gate line that marks the gate as unoccupied. */
  const EmptyGate: string := "empty"

  /**
   * The aircraft readGate parks for a callsign: every roster aircraft with the callsign is
   * parked in turn, so none leaves the gate empty, one occupies it, and a second one finds the
   * gate occupied (NoSpaceException, so Malformed).
   */
  function Parked(space: string, roster: seq<Aircraft>): (r: Outcome<Option<Aircraft>>)
    ensures r.Ok? || r.Malformed?
    ensures r.Ok? && r.value.Some? ==> r.value.value in roster && r.value.value.callsign == space
  {
    var matches := RosterMatches(roster, space);
    if |matches| == 0 then Ok(None)
    else if |matches| == 1 then Ok(Some(matches[0]))
    else Malformed
  }

  /**
   * readGate: two ':'-fields, an int gate number of at least 1, and "empty" or a callsign
   * whose roster aircraft are parked at the new gate.
   */
  function GateOf(line: string, roster: seq<Aircraft>): (r: Outcome<Gate>)
    ensures r.Ok? || r.Malformed?
    ensures r.Ok? ==> r.value.number >= 1
    ensures r.Ok? && r.value.occupant.Some? ==> r.value.occupant.value in roster
  {
    GateFields(Split(line, ':'), roster)
  }

  /** readGate on the ':'-fields of its line. */
  function GateFields(gateParts: seq<string>, roster: seq<Aircraft>): (r: Outcome<Gate>)
    ensures r.Ok? || r.Malformed?
    ensures r.Ok? ==> r.value.number >= 1
    ensures r.Ok? && r.value.occupant.Some? ==> r.value.occupant.value in roster
  {
    if |gateParts| != 2 then Malformed
    else match ParseInt(gateParts[0])
      case None => Malformed
      case Some(gateNumber) =>
        if gateNumber < 1 then Malformed
        else if gateParts[1] == EmptyGate then Ok(Gate(gateNumber, None))
        else
          var occupant :- Parked(gateParts[1], roster);
          Ok(Gate(gateNumber, occupant))
  }

  /** readGate's loop over the roster, parking each aircraft with the callsign. */
  method ParkMatching(space: string, roster: seq<Aircraft>) returns (r: Outcome<Option<Aircraft>>)
    ensures r == Parked(space, roster)
  {
    var occupant: Option<Aircraft> := None;
    var j := 0;
    while j < |roster|
      invariant 0 <= j <= |roster|
      invariant |RosterMatches(roster[..j], space)| <= 1
      invariant occupant == if |RosterMatches(roster[..j], space)| == 0 then None
                            else Some(RosterMatches(roster[..j], space)[0])
    {
      RosterMatchesStep(roster, j, space);
      if roster[j].callsign == space {
        if occupant.Some? {
          MatchesOnlyGrow(roster, j + 1, space);
          assert |RosterMatches(roster, space)| >= 2;
          return Malformed;
        }
        occupant := Some(roster[j]);
      }
      j := j + 1;
    }
    assert roster[..j] == roster;
    assert occupant == if |RosterMatches(roster, space)| == 0 then None else Some(RosterMatches(roster, space)[0]);
    return Ok(occupant);
  }

  /** readGate. */
  method ReadGate(line: string, roster: seq<Aircraft>) returns (r: Outcome<Gate>)
    ensures r == GateOf(line, roster)
  {
    var gateParts := Split(line, ':');
    if |gateParts| != 2 {
      return Malformed;
    }
    var number := ParseInt(gateParts[0]);
    if number.None? {
      return Malformed;
    }
    var gateNumber := number.value;
    if gateNumber < 1 {
      return Malformed;
    }
    if gateParts[1] == EmptyGate {
      return Ok(Gate(gateNumber, None));
    }
    var occupant := ParkMatching(gateParts[1], roster);
    if !occupant.Ok? {
      return occupant.PropagateFailure();
    }
    return Ok(Gate(gateNumber, occupant.value));
  }

  /** A longer prefix of the roster has at least the matches of a shorter one. */
  lemma MatchesOnlyGrow(roster: seq<Aircraft>, i: nat, c: string)
    requires i <= |roster|
    ensures |RosterMatches(roster[..i], c)| <= |RosterMatches(roster, c)|
  {
    assert roster == roster[..i] + roster[i..];
    RosterMatchesAppend(roster[..i], roster[i..], c);
  }

  /** A gate line "<number>:empty" reads as an unoccupied gate, whatever callsigns the roster holds. */
  lemma GateOfEmpty(n: string, roster: seq<Aircraft>)
    requires ':' !in n && ParseInt(n).Some? && ParseInt(n).value >= 1
    ensures GateOf(n + ":" + EmptyGate, roster) == Ok(Gate(ParseInt(n).value, None))
  {
    assert [n, EmptyGate][..1] == [n];
    assert Join([n, EmptyGate], [':']) == n + ":" + EmptyGate;
    SplitOfJoin([n, EmptyGate], ':');
  }

  /** A gate line with a callsign no roster aircraft has reads as an unoccupied gate. */
  lemma GateOfUnknownCallsign(line: string, roster: seq<Aircraft>)
    requires var p := Split(line, ':'); |p| == 2 && ParseInt(p[0]).Some? && ParseInt(p[0]).value >= 1
    requires !Known(roster, Split(line, ':')[1])
    ensures GateOf(line, roster) == Ok(Gate(ParseInt(Split(line, ':')[0]).value, None))
  {
  }

  /** With unique callsigns, a gate line naming a roster aircraft reads as a gate occupied by it. */
  lemma GateOfKnownCallsign(line: string, roster: seq<Aircraft>, a: Aircraft)
    requires var p := Split(line, ':'); |p| == 2 && ParseInt(p[0]).Some? && ParseInt(p[0]).value >= 1
    requires UniqueCallsigns(roster) && a in roster && a.callsign == Split(line, ':')[1] && a.callsign != EmptyGate
    ensures GateOf(line, roster) == Ok(Gate(ParseInt(Split(line, ':')[0]).value, Some(a)))
  {
    UniqueMatch(roster, a);
  }

  /** A gate line is rejected when it is not two ':'-fields or its number is not an int of at least 1. */
  lemma GateOfRejects(line: string, roster: seq<Aircraft>)
    requires var p := Split(line, ':'); |p| != 2 || ParseInt(p[0]).None? || ParseInt(p[0]).value < 1
    ensures GateOf(line, roster) == Malformed
  {
  }

  // ---------------------------------------------------------------------------------------
  // readTerminal

  /** What a terminal header line gives: the type, the number, the emergency flag and the gate count. */
  datatype TerminalHeader = TerminalHeader(kind: TerminalKind, number: int, emergency: bool, gateCount: nat)

  /** The terminal type a header names, if it is one of the two. */
  function KindOf(name: string): (r: Option<TerminalKind>)
    ensures r == Some(AirplaneTerminal) <==> name == "AirplaneTerminal"
    ensures r == Some(HelicopterTerminal) <==> name == "HelicopterTerminal"
    ensures r.None? <==> name != "AirplaneTerminal" && name != "HelicopterTerminal"
  {
    if name == "AirplaneTerminal" then Some(AirplaneTerminal)
    else if name == "HelicopterTerminal" then Some(HelicopterTerminal)
    else None
  }

  /**
   * readTerminal's checks of the header: four ':'-fields, an int gate count and terminal
   * number, the number at least 1, the gate count in [0, MAX_NUM_GATES], and a known type.
   * The emergency field is read with parseBoolean and never fails.
   */
  function HeaderOf(line: string, maxNumGates: int): (r: Outcome<TerminalHeader>)
    ensures r.Ok? || r.Malformed?
  {
    HeaderFields(Split(line, ':'), maxNumGates)
  }

  /** readTerminal's header checks on the ':'-fields of its line. */
  function HeaderFields(terminalParts: seq<string>, maxNumGates: int): (r: Outcome<TerminalHeader>)
    ensures r.Ok? || r.Malformed?
    ensures var p := terminalParts;
      r.Ok? <==>
        && |p| == 4 && ParseInt(p[3]).Some? && ParseInt(p[1]).Some?
        && ParseInt(p[1]).value >= 1 && 0 <= ParseInt(p[3]).value <= maxNumGates
        && KindOf(p[0]).Some?
    ensures var p := terminalParts;
      r.Ok? ==> r.value == TerminalHeader(KindOf(p[0]).value, ParseInt(p[1]).value, ParseBoolean(p[2]), ParseInt(p[3]).value)
  {
    if |terminalParts| != 4 then Malformed
    else match ParseInt(terminalParts[3])
      case None => Malformed
      case Some(numGates) =>
        match ParseInt(terminalParts[1])
        case None => Malformed
        case Some(terminalNumber) =>
          if terminalNumber < 1 then Malformed
          else if numGates < 0 || numGates > maxNumGates then Malformed
          else match KindOf(terminalParts[0])
            case None => Malformed
            case Some(kind) => Ok(TerminalHeader(kind, terminalNumber, ParseBoolean(terminalParts[2]), numGates))
  }

  /** Every gate occupant is a roster aircraft. */
  predicate OccupantsKnown(gates: seq<Gate>, roster: seq<Aircraft>) {
    forall j :: 0 <= j < |gates| && gates[j].occupant.Some? ==> gates[j].occupant.value in roster
  }

  /**
   * The first `count` gate lines of `lines`, the stream after a terminal header. The end of
   * the stream where a gate line is expected is an IOException; a gate line that readGate
   * rejects is Malformed.
   */
  function GateLines(lines: seq<string>, count: nat, roster: seq<Aircraft>): (r: Outcome<seq<Gate>>)
    ensures !r.Crash?
    ensures r.Ok? ==> |r.value| == count <= |lines| && OccupantsKnown(r.value, roster)
    decreases count
  {
    if count == 0 then Ok([])
    else if lines == [] then IOError
    else
      var gate :- GateOf(lines[0], roster);
      Prepend([gate], GateLines(lines[1..], count - 1, roster))
  }

  /**
   * readTerminal: the header at `pos`, then its gate lines; gives the terminal and the
   * position after its last gate line. The terminal is declared in emergency when the header
   * says so, once its gates are added.
   */
  function TerminalAt(lines: seq<string>, pos: nat, roster: seq<Aircraft>, maxNumGates: int)
    : (r: Outcome<(Terminal, nat)>)
    requires pos < |lines|
    ensures !r.Crash?
    ensures r.Ok? ==> pos < r.value.1 <= |lines| && OccupantsKnown(r.value.0.gates, roster)
  {
    var header :- HeaderOf(lines[pos], maxNumGates);
    TerminalAfterHeader(lines, pos, roster, header)
  }

  /** The gate lines after a header that reads, and the terminal they make with it. */
  function TerminalAfterHeader(lines: seq<string>, pos: nat, roster: seq<Aircraft>, header: TerminalHeader)
    : (r: Outcome<(Terminal, nat)>)
    requires pos < |lines|
    ensures !r.Crash?
    ensures r.Ok? ==> r.value.1 == pos + 1 + header.gateCount <= |lines| && OccupantsKnown(r.value.0.gates, roster)
    ensures r.Ok? <==> GateLines(lines[pos + 1..], header.gateCount, roster).Ok?
    ensures var gates := GateLines(lines[pos + 1..], header.gateCount, roster);
            gates.Ok? ==> r == Ok((Terminal(header.kind, header.number, header.emergency, gates.value), pos + 1 + header.gateCount))
  {
    var gates :- GateLines(lines[pos + 1..], header.gateCount, roster);
    Ok((Terminal(header.kind, header.number, header.emergency, gates), pos + 1 + header.gateCount))
  }

  /** A header that reads leaves the rest of readTerminal to its gate lines. */
  lemma TerminalAfterHeaderIsAt(lines: seq<string>, pos: nat, roster: seq<Aircraft>, maxNumGates: int)
    requires pos < |lines| && HeaderOf(lines[pos], maxNumGates).Ok?
    ensures TerminalAt(lines, pos, roster, maxNumGates)
            == TerminalAfterHeader(lines, pos, roster, HeaderOf(lines[pos], maxNumGates).value)
  {
  }

  /** readTerminal's loop over the gate lines, reading from the front of `lines`. */
  method ReadGates(lines: seq<string>, numGates: nat, roster: seq<Aircraft>) returns (r: Outcome<seq<Gate>>)
    ensures r == GateLines(lines, numGates, roster)
  {
    var gatesOfTerminal: seq<Gate> := [];
    PrependLaws(gatesOfTerminal, [], GateLines(lines, numGates, roster));
    for i := 0 to numGates
      invariant i <= |lines|
      invariant GateLines(lines, numGates, roster)
                == Prepend(gatesOfTerminal, GateLines(lines[i..], numGates - i, roster))
    {
      if i == |lines| {
        return IOError;
      }
      var line := lines[i];
      assert lines[i..][0] == line;
      assert lines[i..][1..] == lines[i + 1..];
      var gate := ReadGate(line, roster);
      if !gate.Ok? {
        return gate.PropagateFailure();
      }
      PrependLaws(gatesOfTerminal, [gate.value], GateLines(lines[i + 1..], numGates - i - 1, roster));
      gatesOfTerminal := gatesOfTerminal + [gate.value];
    }
    assert gatesOfTerminal + [] == gatesOfTerminal;
    return Ok(gatesOfTerminal);
  }

  /** readTerminal: the header, then the rest in GatesAfterHeader. */
  method ReadTerminal(lines: seq<string>, pos: nat, roster: seq<Aircraft>, maxNumGates: int)
    returns (r: Outcome<(Terminal, nat)>)
    requires pos < |lines|
    ensures r == TerminalAt(lines, pos, roster, maxNumGates)
  {
    var header := HeaderOf(lines[pos], maxNumGates);
    if !header.Ok? {
      assert TerminalAt(lines, pos, roster, maxNumGates) == header.PropagateFailure();
      return header.PropagateFailure();
    }
    TerminalAfterHeaderIsAt(lines, pos, roster, maxNumGates);
    r := GatesAfterHeader(lines, pos, roster, header.value);
  }

  /** readTerminal after its header: the gate lines, then the emergency declaration. */
  method GatesAfterHeader(lines: seq<string>, pos: nat, roster: seq<Aircraft>, h: TerminalHeader)
    returns (r: Outcome<(Terminal, nat)>)
    requires pos < |lines|
    ensures r == TerminalAfterHeader(lines, pos, roster, h)
  {
    var gates := ReadGates(lines[pos + 1..], h.gateCount, roster);
    if !gates.Ok? {
      return gates.PropagateFailure();
    }
    var terminalRead := Terminal(h.kind, h.number, false, gates.value);
    if h.emergency {
      terminalRead := terminalRead.(emergency := true);
    }
    ghost var expected := TerminalAfterHeader(lines, pos, roster, h);
    assert expected == Ok((Terminal(h.kind, h.number, h.emergency, gates.value), pos + 1 + h.gateCount));
    assert terminalRead == Terminal(h.kind, h.number, h.emergency, gates.value);
    return Ok((terminalRead, pos + 1 + h.gateCount));
  }

  /**
   * The end of the stream where a gate line is expected is IOError, not Malformed: when every
   * line that is there reads as a gate, asking for more gates than there are lines fails with
   * IOError.
   */
  lemma {:induction false} GateLinesEndOfStream(lines: seq<string>, count: nat, roster: seq<Aircraft>)
    requires |lines| < count
    requires forall k :: 0 <= k < |lines| ==> GateOf(lines[k], roster).Ok?
    ensures GateLines(lines, count, roster) == IOError
    decreases count
  {
    if lines != [] {
      assert GateOf(lines[0], roster).Ok?;
      assert forall k :: 0 <= k < |lines[1..]| ==> lines[1..][k] == lines[k + 1];
      GateLinesEndOfStream(lines[1..], count - 1, roster);
    }
  }

  /** Each gate GateLines gives is the reading of its own line, in the order of the lines. */
  lemma {:induction false} GateLinesReadEach(lines: seq<string>, count: nat, roster: seq<Aircraft>, gates: seq<Gate>, k: nat)
    requires GateLines(lines, count, roster) == Ok(gates)
    requires k < count
    ensures k < |lines| && k < |gates| && GateOf(lines[k], roster) == Ok(gates[k])
    decreases k
  {
    var first, rest := GateLinesStep(lines, count, roster, gates);
    if k > 0 {
      ShiftedIndex(lines, [first], rest, gates, k);
      GateLinesReadEach(lines[1..], count - 1, roster, rest, k - 1);
    }
  }

  /** A list of gates that reads is the gate of the first line, then the gates of the rest. */
  lemma GateLinesStep(lines: seq<string>, count: nat, roster: seq<Aircraft>, gates: seq<Gate>)
    returns (first: Gate, rest: seq<Gate>)
    requires GateLines(lines, count, roster) == Ok(gates) && count > 0
    ensures lines != [] && GateOf(lines[0], roster) == Ok(first)
    ensures GateLines(lines[1..], count - 1, roster) == Ok(rest) && gates == [first] + rest
  {
    first := GateOf(lines[0], roster).value;
    rest := GateLines(lines[1..], count - 1, roster).value;
  }

  /** Position k of a sequence is position k - 1 of its tail, and of what follows a one-element front. */
  lemma ShiftedIndex<T>(s: seq<string>, front: seq<T>, back: seq<T>, whole: seq<T>, k: nat)
    requires |front| == 1 && whole == front + back && 0 < k < |s| && k < |whole|
    ensures s[1..][k - 1] == s[k] && whole[k] == back[k - 1]
  {
  }

  /** GateLines fails with IOError only when the stream ends before the last gate line. */
  lemma {:induction false} GateLinesIOError(lines: seq<string>, count: nat, roster: seq<Aircraft>)
    requires GateLines(lines, count, roster).IOError?
    ensures |lines| < count
    decreases count
  {
    if lines != [] {
      GateLinesIOError(lines[1..], count - 1, roster);
    }
  }

  // ---------------------------------------------------------------------------------------
  // loadTerminalsWithGates

  /** Every terminal from `pos` to the end of the stream, each followed by its gate lines. */
  function TerminalsFrom(lines: seq<string>, pos: nat, roster: seq<Aircraft>, maxNumGates: int)
    : (r: Outcome<seq<Terminal>>)
    requires pos <= |lines|
    ensures !r.Crash?
    ensures r.Ok? ==> forall i :: 0 <= i < |r.value| ==> OccupantsKnown(r.value[i].gates, roster)
    decreases |lines| - pos
  {
    if pos == |lines| then Ok([])
    else
      var read :- TerminalAt(lines, pos, roster, maxNumGates);
      Prepend([read.0], TerminalsFrom(lines, read.1, roster, maxNumGates))
  }

  /**
   * loadTerminalsWithGates: the first line is the count (a missing line fails parseInt). A
   * count above 0 reads terminals to the end of the stream, and their number must equal the
   * count; a count of 0 reads nothing more; a negative count is Malformed.
   */
  function TerminalStream(lines: seq<string>, roster: seq<Aircraft>, maxNumGates: int): (r: Outcome<seq<Terminal>>)
    ensures !r.Crash?
    ensures r.Ok? ==> |lines| > 0 && ParseInt(lines[0]) == Some(|r.value|)
    ensures r.Ok? ==> forall i :: 0 <= i < |r.value| ==> OccupantsKnown(r.value[i].gates, roster)
  {
    if |lines| == 0 then Malformed
    else match ParseInt(lines[0])
      case None => Malformed
      case Some(numTerminals) =>
        if numTerminals > 0 then
          var terminalsLoaded :- TerminalsFrom(lines, 1, roster, maxNumGates);
          if |terminalsLoaded| != numTerminals then Malformed else Ok(terminalsLoaded)
        else if numTerminals != 0 then Malformed
        else Ok([])
  }

  /** loadTerminalsWithGates's loop: reads terminals to the end of the stream. */
  method ReadTerminals(lines: seq<string>, pos: nat, roster: seq<Aircraft>, maxNumGates: int)
    returns (r: Outcome<seq<Terminal>>)
    requires pos <= |lines|
    ensures r == TerminalsFrom(lines, pos, roster, maxNumGates)
  {
    var terminalsLoaded: seq<Terminal> := [];
    var at := pos;
    PrependLaws(terminalsLoaded, [], TerminalsFrom(lines, pos, roster, maxNumGates));
    while at < |lines|
      invariant pos <= at <= |lines|
      invariant TerminalsFrom(lines, pos, roster, maxNumGates)
                == Prepend(terminalsLoaded, TerminalsFrom(lines, at, roster, maxNumGates))
      decreases |lines| - at
    {
      var read := ReadTerminal(lines, at, roster, maxNumGates);
      if !read.Ok? {
        return read.PropagateFailure();
      }
      PrependLaws(terminalsLoaded, [read.value.0], TerminalsFrom(lines, read.value.1, roster, maxNumGates));
      terminalsLoaded := terminalsLoaded + [read.value.0];
      at := read.value.1;
    }
    assert terminalsLoaded + [] == terminalsLoaded;
    return Ok(terminalsLoaded);
  }

  /** loadTerminalsWithGates. */
  method LoadTerminalsWithGates(lines: seq<string>, roster: seq<Aircraft>, maxNumGates: int)
    returns (r: Outcome<seq<Terminal>>)
    ensures r == TerminalStream(lines, roster, maxNumGates)
  {
    if |lines| == 0 {
      return Malformed;
    }
    var count := ParseInt(lines[0]);
    if count.None? {
      return Malformed;
    }
    var numTerminals := count.value;
    var terminalsLoaded: seq<Terminal> := [];
    if numTerminals > 0 {
      var read := ReadTerminals(lines, 1, roster, maxNumGates);
      if !read.Ok? {
        return read.PropagateFailure();
      }
      terminalsLoaded := read.value;
    }
    if |terminalsLoaded| != numTerminals {
      return Malformed;
    }
    return Ok(terminalsLoaded);
  }

  /** A count of 0 loads no terminals, whatever follows; a negative count always fails. */
  lemma TerminalStreamOfNoTerminals(lines: seq<string>, roster: seq<Aircraft>, maxNumGates: int)
    requires |lines| > 0 && ParseInt(lines[0]).Some? && ParseInt(lines[0]).value <= 0
    ensures ParseInt(lines[0]).value == 0 ==> TerminalStream(lines, roster, maxNumGates) == Ok([])
    ensures ParseInt(lines[0]).value < 0 ==> TerminalStream(lines, roster, maxNumGates) == Malformed
  {
  }

  /** An IOError from loadTerminalsWithGates comes from a terminal whose gate lines run past the end of the stream. */
  lemma {:induction false} TerminalsFromIOError(lines: seq<string>, pos: nat, roster: seq<Aircraft>, maxNumGates: int)
    requires pos <= |lines| && TerminalsFrom(lines, pos, roster, maxNumGates).IOError?
    ensures exists at :: pos <= at < |lines| && HeaderOf(lines[at], maxNumGates).Ok?
              && |lines| - at - 1 < HeaderOf(lines[at], maxNumGates).value.gateCount
    decreases |lines| - pos
  {
    var header := HeaderOf(lines[pos], maxNumGates);
    if header.Ok? && GateLines(lines[pos + 1..], header.value.gateCount, roster).IOError? {
      GateLinesIOError(lines[pos + 1..], header.value.gateCount, roster);
    } else {
      var read := TerminalAt(lines, pos, roster, maxNumGates);
      TerminalsFromIOError(lines, read.value.1, roster, maxNumGates);
    }
  }
}
