/**
 * loadQueues and its two readers: readQueue for the takeoff and landing queue blocks and
 * readLoadingAircraft for the loading map, all reading one shared stream of lines. A position
 * in `lines` stands for the reader's place in the stream.
 */
module QueueLoader {
  import opened Outcomes
  import opened JavaText
  import opened Entities
  import opened AircraftQueues
  import opened TakeoffQueues

  // ---------------------------------------------------------------------------------------
  // readQueue

  /**
   * What readQueue does to the stream and the queue: the position after its lines (or the
   * failure), and the aircraft it handed to the queue's addAircraft, in order, up to the failure.
   */
  datatype QueueRead = QueueRead(next: Outcome<nat>, added: seq<Aircraft>)

  /** The aircraft count a queue header gives: it splits on ':' into the queue's class name and an int. */
  function QueueHeader(line: string, name: string): (r: Option<int>)
    ensures r.Some? <==>
      |Split(line, ':')| == 2 && Split(line, ':')[0] == name && ParseInt(Split(line, ':')[1]).Some?
    ensures r.Some? ==> r == ParseInt(Split(line, ':')[1])
  {
    var queueParts := Split(line, ':');
    if |queueParts| != 2 || queueParts[0] != name then None else ParseInt(queueParts[1])
  }

  /**
   * The callsign line of a queue whose header gave `numAircraft` > 0: it must split on ','
   * into exactly that many callsigns. For each callsign in turn every roster aircraft with it
   * is added; the line is accepted only if the roster knows every callsign, and the aircraft
   * added before the first unknown one stay added.
   */
  function ListedAircraft(line: string, numAircraft: int, roster: seq<Aircraft>): (r: (bool, seq<Aircraft>))
    ensures forall a :: a in r.1 ==> a in roster
    ensures r.0 ==>
      && |Split(line, ',')| == numAircraft
      && (forall k :: 0 <= k < numAircraft ==> Known(roster, Split(line, ',')[k]))
      && r.1 == MatchAll(roster, Split(line, ','))
    ensures (exists k :: 0 <= k < |Split(line, ',')| && !Known(roster, Split(line, ',')[k])) ==> !r.0
  {
    var aircraftsInQueue := Split(line, ',');
    if |aircraftsInQueue| == 0 || numAircraft != |aircraftsInQueue| then (false, [])
    else
      var known := FirstUnknown(roster, aircraftsInQueue);
      assert known == |aircraftsInQueue| ==> aircraftsInQueue[..known] == aircraftsInQueue;
      (known == |aircraftsInQueue|, MatchAll(roster, aircraftsInQueue[..known]))
  }

  /**
   * readQueue. A header that is not the queue's is Malformed. A count of at most 0 reads no
   * second line; otherwise the callsign line must exist and be accepted. A missing line is
   * Malformed, since readLine's null fails on split.
   */
  function QueueBlock(lines: seq<string>, pos: nat, roster: seq<Aircraft>, name: string): (r: QueueRead)
    requires pos <= |lines|
    ensures r.next.Ok? || r.next.Malformed?
    ensures r.next.Ok? ==> pos < r.next.value <= |lines| && r.next.value <= pos + 2
    ensures forall a :: a in r.added ==> a in roster
  {
    if pos == |lines| then QueueRead(Malformed, [])
    else match QueueHeader(lines[pos], name)
      case None => QueueRead(Malformed, [])
      case Some(numAircraft) =>
        if numAircraft <= 0 then QueueRead(Ok(pos + 1), [])
        else if pos + 1 == |lines| then QueueRead(Malformed, [])
        else
          var listed := ListedAircraft(lines[pos + 1], numAircraft, roster);
          QueueRead(if listed.0 then Ok(pos + 2) else Malformed, listed.1)
  }

  /** readQueue's scan of the roster for one callsign: every aircraft with that callsign is added. */
  method AddMatches(roster: seq<Aircraft>, aircraftRead: string) returns (matches: seq<Aircraft>, aircraftFound: bool)
    ensures matches == RosterMatches(roster, aircraftRead)
    ensures aircraftFound <==> Known(roster, aircraftRead)
  {
    matches := [];
    aircraftFound := false;
    var j := 0;
    while j < |roster|
      invariant 0 <= j <= |roster|
      invariant matches == RosterMatches(roster[..j], aircraftRead)
      invariant aircraftFound <==> matches != []
    {
      RosterMatchesStep(roster, j, aircraftRead);
      if roster[j].callsign == aircraftRead {
        aircraftFound := true;
        matches := matches + [roster[j]];
      }
      j := j + 1;
    }
    assert roster[..j] == roster;
  }

  /**
   * readQueue's loop over the listed callsigns: adds the matches of each callsign in turn and
   * stops at the first callsign the roster does not know.
   */
  method AddListed(aircraftsInQueue: seq<string>, roster: seq<Aircraft>) returns (ok: bool, added: seq<Aircraft>)
    ensures ok <==> FirstUnknown(roster, aircraftsInQueue) == |aircraftsInQueue|
    ensures added == MatchAll(roster, aircraftsInQueue[..FirstUnknown(roster, aircraftsInQueue)])
  {
    added := [];
    var i := 0;
    while i < |aircraftsInQueue|
      invariant 0 <= i <= |aircraftsInQueue|
      invariant forall k :: 0 <= k < i ==> Known(roster, aircraftsInQueue[k])
      invariant added == MatchAll(roster, aircraftsInQueue[..i])
    {
      var aircraftRead := aircraftsInQueue[i];
      var matches, aircraftFound := AddMatches(roster, aircraftRead);
      if !aircraftFound {
        FirstUnknownAt(roster, aircraftsInQueue, i);
        return false, added;
      }
      MatchAllStep(roster, aircraftsInQueue, i);
      KnownPrefixStep(roster, aircraftsInQueue, i);
      added := added + matches;
      i := i + 1;
    }
    FirstUnknownAt(roster, aircraftsInQueue, i);
    return true, added;
  }

  /** readQueue's handling of the callsign line. */
  method ReadListedAircraft(line: string, numAircraft: int, roster: seq<Aircraft>) returns (ok: bool, added: seq<Aircraft>)
    ensures (ok, added) == ListedAircraft(line, numAircraft, roster)
  {
    added := [];
    var aircraftsInQueue := Split(line, ',');
    if |aircraftsInQueue| == 0 {
      return false, added;
    }
    var numAircraftRead := |aircraftsInQueue|;
    if numAircraft != numAircraftRead {
      return false, added;
    }
    ok, added := AddListed(aircraftsInQueue, roster);
  }

  /** readQueue. */
  method ReadQueue(lines: seq<string>, pos: nat, roster: seq<Aircraft>, name: string)
    returns (next: Outcome<nat>, added: seq<Aircraft>)
    requires pos <= |lines|
    ensures QueueRead(next, added) == QueueBlock(lines, pos, roster, name)
  {
    added := [];
    if pos == |lines| {
      return Malformed, added;
    }
    var queueParts := Split(lines[pos], ':');
    if |queueParts| != 2 {
      return Malformed, added;
    }
    if queueParts[0] != name {
      return Malformed, added;
    }
    var count := ParseInt(queueParts[1]);
    if count.None? {
      return Malformed, added;
    }
    var numAircraft := count.value;
    if numAircraft <= 0 {
      return Ok(pos + 1), added;
    }
    if pos + 1 == |lines| {
      return Malformed, added;
    }
    var ok;
    ok, added := ReadListedAircraft(lines[pos + 1], numAircraft, roster);
    if !ok {
      return Malformed, added;
    }
    return Ok(pos + 2), added;
  }

  /** A header count of at most 0 reads no callsign line and adds nothing. */
  lemma QueueBlockOfNoAircraft(lines: seq<string>, pos: nat, roster: seq<Aircraft>, name: string)
    requires pos < |lines|
    requires QueueHeader(lines[pos], name).Some? && QueueHeader(lines[pos], name).value <= 0
    ensures QueueBlock(lines, pos, roster, name) == QueueRead(Ok(pos + 1), [])
  {
  }

  /**
   * An accepted block has a two-field header naming the queue. With a count above 0 it lists
   * exactly `count` callsigns on the next line, all known, and adds the aircraft that match
   * them; with unique callsigns the added aircraft carry the listed callsigns in the listed order.
   */
  lemma QueueBlockSuccess(lines: seq<string>, pos: nat, roster: seq<Aircraft>, name: string)
    requires pos <= |lines| && QueueBlock(lines, pos, roster, name).next.Ok?
    ensures pos < |lines| && QueueHeader(lines[pos], name).Some?
    ensures var count, r := QueueHeader(lines[pos], name).value, QueueBlock(lines, pos, roster, name);
      && (count <= 0 ==> r == QueueRead(Ok(pos + 1), []))
      && (count > 0 ==>
            && pos + 1 < |lines|
            && r.next == Ok(pos + 2)
            && var cs := Split(lines[pos + 1], ',');
            && |cs| == count
            && (forall k :: 0 <= k < |cs| ==> Known(roster, cs[k]))
            && r.added == MatchAll(roster, cs)
            && (UniqueCallsigns(roster) ==> Callsigns(r.added) == cs))
  {
    var count := QueueHeader(lines[pos], name).value;
    if count > 0 && UniqueCallsigns(roster) {
      MatchAllKnown(roster, Split(lines[pos + 1], ','));
    }
  }

  /** A listed callsign that no aircraft of the roster has makes the block Malformed. */
  lemma QueueBlockUnknownCallsign(lines: seq<string>, pos: nat, roster: seq<Aircraft>, name: string, k: nat)
    requires pos + 1 < |lines|
    requires QueueHeader(lines[pos], name).Some? && QueueHeader(lines[pos], name).value > 0
    requires k < |Split(lines[pos + 1], ',')| && !Known(roster, Split(lines[pos + 1], ',')[k])
    ensures QueueBlock(lines, pos, roster, name).next == Malformed
  {
  }

  /** The header AircraftQueue.encode writes gives the queue's size as the count. */
  lemma QueueHeaderOfEncoding(name: string, n: nat)
    requires ':' !in name && n <= INT_MAX
    ensures QueueHeader(name + ":" + NatToString(n), name) == Some(n)
  {
    var digits := NatToString(n);
    NatToStringHasNo(n, ':');
    assert [name, digits][..1] == [name];
    assert Join([name, digits], [':']) == name + ":" + digits;
    SplitOfJoin([name, digits], ':');
    ParseIntegralOfIntToString(n, INT_MIN, INT_MAX);
  }

  /** Aircraft of the roster whose callsigns can be written and read back as a callsign line. */
  predicate Listable(q: seq<Aircraft>, roster: seq<Aircraft>) {
    forall a :: a in q ==> a in roster && a.callsign != "" && ',' !in a.callsign && '\n' !in a.callsign
  }

  /** The callsign line AircraftQueue.encode writes for a non-empty queue adds exactly the queued aircraft. */
  lemma ListedAircraftOfEncoding(q: seq<Aircraft>, roster: seq<Aircraft>)
    requires |q| > 0 && UniqueCallsigns(roster) && Listable(q, roster)
    ensures CallsignText(Some(q), ",") != ""
    ensures ListedAircraft(CallsignText(Some(q), ","), |q|, roster) == (true, q)
  {
    var cs := Callsigns(q);
    assert q[|q| - 1] in q;
    assert forall k :: 0 <= k < |cs| ==> ',' !in cs[k] by {
      forall k | 0 <= k < |cs| ensures ',' !in cs[k] {
        assert q[k] in q;
      }
    }
    SplitOfJoin(cs, ',');
    JoinNonEmpty(cs, ",");
    CallsignsKnown(roster, q);
    MatchAllOfCallsigns(roster, q);
    ListedAircraftOfKnown(CallsignText(Some(q), ","), |q|, roster);
  }

  /** A callsign line of the expected length whose callsigns are all known is accepted with its matches. */
  lemma ListedAircraftOfKnown(line: string, numAircraft: int, roster: seq<Aircraft>)
    requires numAircraft > 0 && |Split(line, ',')| == numAircraft
    requires FirstUnknown(roster, Split(line, ',')) == numAircraft
    ensures ListedAircraft(line, numAircraft, roster) == (true, MatchAll(roster, Split(line, ',')))
  {
  }

  /** A join whose last field is not empty is not empty. */
  lemma JoinNonEmpty(fs: seq<string>, sep: string)
    requires |fs| >= 1 && fs[|fs| - 1] != ""
    ensures Join(fs, sep) != ""
  {
  }

  /**
   * readQueue undoes AircraftQueue.encode: for a queue of roster aircraft with unique,
   * non-empty callsigns free of ',' and line breaks, reading the lines of its encoding (and
   * whatever follows them) adds exactly the queued aircraft, in order, and stops right after
   * those lines.
   */
  lemma QueueRoundTrip(name: string, q: seq<Aircraft>, roster: seq<Aircraft>, rest: seq<string>)
    requires ':' !in name && '\n' !in name && |q| <= INT_MAX
    requires UniqueCallsigns(roster) && Listable(q, roster)
    ensures var read := ReaderLines(QueueEncoding(name, q));
            QueueBlock(read + rest, 0, roster, name) == QueueRead(Ok(|read|), q)
  {
    var header := name + ":" + NatToString(|q|);
    var text := CallsignText(Some(q), ",");
    assert QueueEncoding(name, q) == header + LineSeparator + text;
    QueueHeaderOfEncoding(name, |q|);
    NatToStringHasNo(|q|, '\n');
    NoCharInJoin(Callsigns(q), ",", '\n');
    ReaderLinesOfTwo(header, text);
    var read := ReaderLines(QueueEncoding(name, q));
    var lines := read + rest;
    assert lines[0] == header;
    if |q| > 0 {
      ListedAircraftOfEncoding(q, roster);
      assert lines[1] == text;
    }
  }

  /** The takeoff queue's name holds neither a ':' nor a line break. */
  lemma TakeoffQueueNameIsPlain()
    ensures ':' !in TakeoffQueueName && '\n' !in TakeoffQueueName
  {
  }

  /** What TakeoffQueue.encode writes, readQueue reads back as the queued aircraft in the same order. */
  method TakeoffQueueRoundTrip(queue: TakeoffQueue, roster: seq<Aircraft>, rest: seq<string>)
    returns (next: Outcome<nat>, added: seq<Aircraft>)
    requires |queue.takeoffQueue| <= INT_MAX
    requires UniqueCallsigns(roster) && Listable(queue.takeoffQueue, roster)
    ensures next.Ok? && added == queue.takeoffQueue
  {
    var encoded := queue.Encode();
    TakeoffQueueNameIsPlain();
    QueueRoundTrip(TakeoffQueueName, queue.takeoffQueue, roster, rest);
    next, added := ReadQueue(ReaderLines(encoded) + rest, 0, roster, TakeoffQueueName);
  }

  // ---------------------------------------------------------------------------------------
  // readLoadingAircraft

  /** One entry of the loading map: the aircraft and the ticks it has left. */
  datatype LoadingEntry = LoadingEntry(aircraft: Aircraft, ticks: int)

  /**
   * One entry line `<callsign>:<ticks>`. More than two ':'-fields is Malformed and fewer makes
   * loadingMap[1] throw (Crash); the ticks must be an int of at least 1 and the callsign that
   * of a roster aircraft, and the first roster aircraft with the callsign is the one loading.
   */
  function EntryOf(line: string, roster: seq<Aircraft>): (r: Outcome<LoadingEntry>)
    ensures !r.IOError?
    ensures r.Ok? ==> r.value.aircraft in roster && r.value.ticks >= 1
  {
    var loadingMap := Split(line, ':');
    if |loadingMap| > 2 then Malformed
    else if |loadingMap| < 2 then Crash
    else match ParseInt(loadingMap[1])
      case None => Malformed
      case Some(ticksRemaining) =>
        if ticksRemaining < 1 then Malformed
        else match FirstMatch(roster, loadingMap[0])
          case None => Malformed
          case Some(a) => Ok(LoadingEntry(a, ticksRemaining))
  }

  /**
   * readLoadingAircraft's loop over the entry lines, from `pos` to the end of the stream: each
   * entry puts its aircraft into the map with its ticks, and the first entry that fails ends it.
   */
  function LoadingEntries(lines: seq<string>, pos: nat, roster: seq<Aircraft>, m: map<Aircraft, int>)
    : (r: Outcome<map<Aircraft, int>>)
    requires pos <= |lines|
    ensures !r.IOError?
    decreases |lines| - pos
  {
    if pos == |lines| then Ok(m)
    else
      var entry :- EntryOf(lines[pos], roster);
      LoadingEntries(lines, pos + 1, roster, m[entry.aircraft := entry.ticks])
  }

  /**
   * Reading entries keeps every aircraft already in the map and adds only roster aircraft,
   * each with at least 1 tick; an aircraft already in the map keeps its ticks unless an entry
   * names it again.
   */
  lemma {:induction false} LoadingEntriesKeys(lines: seq<string>, pos: nat, roster: seq<Aircraft>, m: map<Aircraft, int>)
    requires pos <= |lines|
    ensures var r := LoadingEntries(lines, pos, roster, m);
      r.Ok? ==> m.Keys <= r.value.Keys && forall a :: a in r.value ==> (a in m && r.value[a] == m[a]) || (a in roster && r.value[a] >= 1)
    decreases |lines| - pos
  {
    if pos < |lines| && LoadingEntries(lines, pos, roster, m).Ok? {
      var entry := LoadingEntryAccepted(lines, pos, roster, m);
      LoadingEntriesKeys(lines, pos + 1, roster, m[entry.aircraft := entry.ticks]);
    }
  }

  /** Reading from an entry line: its entry goes into the map and reading goes on, or its failure ends the read. */
  lemma LoadingEntriesStep(lines: seq<string>, pos: nat, roster: seq<Aircraft>, m: map<Aircraft, int>)
    requires pos < |lines|
    ensures var entry := EntryOf(lines[pos], roster);
            entry.Ok? ==> LoadingEntries(lines, pos, roster, m)
                          == LoadingEntries(lines, pos + 1, roster, m[entry.value.aircraft := entry.value.ticks])
    ensures var entry := EntryOf(lines[pos], roster);
            !entry.Ok? ==> LoadingEntries(lines, pos, roster, m) == entry.PropagateFailure()
  {
  }

  /** An entry line in a successful read reads as an entry, which goes into the map. */
  lemma LoadingEntryAccepted(lines: seq<string>, pos: nat, roster: seq<Aircraft>, m: map<Aircraft, int>)
    returns (entry: LoadingEntry)
    requires pos < |lines| && LoadingEntries(lines, pos, roster, m).Ok?
    ensures EntryOf(lines[pos], roster) == Ok(entry)
    ensures LoadingEntries(lines, pos, roster, m) == LoadingEntries(lines, pos + 1, roster, m[entry.aircraft := entry.ticks])
  {
    entry := EntryOf(lines[pos], roster).value;
  }

  /**
   * readLoadingAircraft. The header's name field is not checked, but a header with more than
   * two ':'-fields is Malformed and one with fewer makes loadingAircraftParts[1] throw (Crash).
   * A count above 0 reads entries to the end of the stream, and the number of entry lines must
   * equal the count; a count of 0 reads nothing more; a negative count is Malformed.
   */
  function LoadingBlock(lines: seq<string>, pos: nat, roster: seq<Aircraft>, m: map<Aircraft, int>)
    : (r: Outcome<map<Aircraft, int>>)
    requires pos <= |lines|
    ensures !r.IOError?
    ensures pos == |lines| ==> r == Malformed
    ensures r.Ok? ==> forall a :: a in r.value ==> (a in m && r.value[a] == m[a]) || (a in roster && r.value[a] >= 1)
  {
    if pos == |lines| then Malformed
    else
      var loadingAircraftParts := Split(lines[pos], ':');
      if |loadingAircraftParts| > 2 then Malformed
      else if |loadingAircraftParts| < 2 then Crash
      else match ParseInt(loadingAircraftParts[1])
        case None => Malformed
        case Some(numAircraft) =>
          if numAircraft > 0 then
            LoadingEntriesKeys(lines, pos + 1, roster, m);
            var loaded :- LoadingEntries(lines, pos + 1, roster, m);
            if numAircraft != |lines| - pos - 1 then Malformed else Ok(loaded)
          else if numAircraft != 0 then Malformed
          else Ok(m)
  }

  /** readLoadingAircraft's scan of the roster for one callsign, stopping at the first match. */
  method FindAircraft(roster: seq<Aircraft>, callsign: string) returns (found: Option<Aircraft>)
    ensures found == FirstMatch(roster, callsign)
  {
    var j := 0;
    while j < |roster|
      invariant 0 <= j <= |roster|
      invariant forall k :: 0 <= k < j ==> roster[k].callsign != callsign
    {
      if roster[j].callsign == callsign {
        return Some(roster[j]);
      }
      j := j + 1;
    }
    return None;
  }

  /** The body of readLoadingAircraft's loop: one entry line. */
  method ReadLoadingEntry(line: string, roster: seq<Aircraft>) returns (r: Outcome<LoadingEntry>)
    ensures r == EntryOf(line, roster)
  {
    var loadingMap := Split(line, ':');
    if |loadingMap| > 2 {
      return Malformed;
    }
    if |loadingMap| < 2 {
      return Crash;
    }
    var ticks := ParseInt(loadingMap[1]);
    if ticks.None? {
      return Malformed;
    }
    var ticksRemaining := ticks.value;
    if ticksRemaining < 1 {
      return Malformed;
    }
    var aircraftParked := FindAircraft(roster, loadingMap[0]);
    if aircraftParked.None? {
      return Malformed;
    }
    return Ok(LoadingEntry(aircraftParked.value, ticksRemaining));
  }

  /** readLoadingAircraft's loop: reads entries to the end of the stream, counting the lines. */
  method ReadLoadingEntries(lines: seq<string>, pos: nat, roster: seq<Aircraft>, m: map<Aircraft, int>)
    returns (r: Outcome<map<Aircraft, int>>, numAircraftRead: nat)
    requires pos <= |lines|
    ensures r == LoadingEntries(lines, pos, roster, m)
    ensures r.Ok? ==> numAircraftRead == |lines| - pos
  {
    var loadingAircraft := m;
    var at := pos;
    numAircraftRead := 0;
    while at < |lines|
      invariant pos <= at <= |lines|
      invariant numAircraftRead == at - pos
      invariant LoadingEntries(lines, pos, roster, m) == LoadingEntries(lines, at, roster, loadingAircraft)
      decreases |lines| - at
    {
      numAircraftRead := numAircraftRead + 1;
      var entry := ReadLoadingEntry(lines[at], roster);
      LoadingEntriesStep(lines, at, roster, loadingAircraft);
      if !entry.Ok? {
        return entry.PropagateFailure(), numAircraftRead;
      }
      loadingAircraft := loadingAircraft[entry.value.aircraft := entry.value.ticks];
      at := at + 1;
    }
    return Ok(loadingAircraft), numAircraftRead;
  }

  /** readLoadingAircraft: the header, the entries when the count is above 0, then the count check. */
  method ReadLoadingAircraft(lines: seq<string>, pos: nat, roster: seq<Aircraft>, m: map<Aircraft, int>)
    returns (r: Outcome<map<Aircraft, int>>)
    requires pos <= |lines|
    ensures r == LoadingBlock(lines, pos, roster, m)
  {
    if pos == |lines| {
      return Malformed;
    }
    var loadingAircraftParts := Split(lines[pos], ':');
    if |loadingAircraftParts| > 2 {
      return Malformed;
    }
    if |loadingAircraftParts| < 2 {
      return Crash;
    }
    var count := ParseInt(loadingAircraftParts[1]);
    if count.None? {
      return Malformed;
    }
    var numAircraft := count.value;
    var numAircraftRead := 0;
    var loadingAircraft := m;
    if numAircraft > 0 {
      var read;
      read, numAircraftRead := ReadLoadingEntries(lines, pos + 1, roster, m);
      if !read.Ok? {
        return read.PropagateFailure();
      }
      loadingAircraft := read.value;
    }
    if numAircraft != numAircraftRead {
      return Malformed;
    }
    return Ok(loadingAircraft);
  }

  /** A count of 0 leaves the map as it was, whatever follows; a negative count always fails. */
  lemma LoadingBlockOfNoAircraft(lines: seq<string>, pos: nat, roster: seq<Aircraft>, m: map<Aircraft, int>)
    requires pos < |lines|
    requires |Split(lines[pos], ':')| == 2 && ParseInt(Split(lines[pos], ':')[1]).Some?
    requires ParseInt(Split(lines[pos], ':')[1]).value <= 0
    ensures ParseInt(Split(lines[pos], ':')[1]).value == 0 ==> LoadingBlock(lines, pos, roster, m) == Ok(m)
    ensures ParseInt(Split(lines[pos], ':')[1]).value < 0 ==> LoadingBlock(lines, pos, roster, m) == Malformed
  {
  }

  /** A count above 0 must equal the number of entry lines up to the end of the stream. */
  lemma LoadingBlockCount(lines: seq<string>, pos: nat, roster: seq<Aircraft>, m: map<Aircraft, int>)
    requires pos < |lines| && LoadingBlock(lines, pos, roster, m).Ok?
    requires ParseInt(Split(lines[pos], ':')[1]).value > 0
    ensures ParseInt(Split(lines[pos], ':')[1]).value == |lines| - pos - 1
    ensures LoadingBlock(lines, pos, roster, m) == LoadingEntries(lines, pos + 1, roster, m)
  {
  }

  /**
   * One entry `<callsign>:<ticks>` for a callsign of the roster: accepted exactly when the
   * ticks are at least 1, and then the first aircraft with that callsign is loading for that
   * many ticks.
   */
  lemma LoadingEntryTicks(callsign: string, ticks: int, roster: seq<Aircraft>, m: map<Aircraft, int>)
    requires ':' !in callsign && INT_MIN <= ticks <= INT_MAX && Known(roster, callsign)
    ensures var entry := callsign + ":" + IntToString(ticks);
            ticks >= 1 ==> LoadingEntries([entry], 0, roster, m) == Ok(m[FirstMatch(roster, callsign).value := ticks])
    ensures var entry := callsign + ":" + IntToString(ticks);
            ticks < 1 ==> LoadingEntries([entry], 0, roster, m) == Malformed
  {
    var digits := IntToString(ticks);
    assert ':' !in digits by {
      if ticks < 0 {
        NatToStringHasNo(-ticks, ':');
      } else {
        NatToStringHasNo(ticks, ':');
      }
    }
    assert digits != "";
    assert [callsign, digits][..1] == [callsign];
    assert Join([callsign, digits], [':']) == callsign + ":" + digits;
    SplitOfJoin([callsign, digits], ':');
    ParseIntegralOfIntToString(ticks, INT_MIN, INT_MAX);
  }

  // ---------------------------------------------------------------------------------------
  // loadQueues

  /** The outcome of loadQueues and the aircraft it added to the takeoff queue. */
  datatype QueuesRead = QueuesRead(outcome: Outcome<map<Aircraft, int>>, takeoffAdded: seq<Aircraft>)

  /**
   * loadQueues: the takeoff queue block, the landing queue block, then the loading map, in that
   * order on one stream; the first failure ends the load. The landing queue's addAircraft does
   * nothing, so only the takeoff queue changes.
   */
  function QueuesStream(lines: seq<string>, roster: seq<Aircraft>, m: map<Aircraft, int>): (r: QueuesRead)
    ensures !r.outcome.IOError?
    ensures forall a :: a in r.takeoffAdded ==> a in roster
    ensures r.outcome.Ok? ==> forall a :: a in r.outcome.value ==> (a in m && r.outcome.value[a] == m[a]) || (a in roster && r.outcome.value[a] >= 1)
  {
    var takeoff := QueueBlock(lines, 0, roster, TakeoffQueueName);
    if !takeoff.next.Ok? then QueuesRead(takeoff.next.PropagateFailure(), takeoff.added)
    else
      var landing := QueueBlock(lines, takeoff.next.value, roster, LandingQueueName);
      if !landing.next.Ok? then QueuesRead(landing.next.PropagateFailure(), takeoff.added)
      else QueuesRead(LoadingBlock(lines, landing.next.value, roster, m), takeoff.added)
  }

  /** loadQueues into a takeoff queue and a loading map. */
  method LoadQueues(lines: seq<string>, roster: seq<Aircraft>, takeoffQueue: TakeoffQueue, loadingAircraft: map<Aircraft, int>)
    returns (r: Outcome<map<Aircraft, int>>)
    modifies takeoffQueue
    ensures r == QueuesStream(lines, roster, loadingAircraft).outcome
    ensures takeoffQueue.takeoffQueue == old(takeoffQueue.takeoffQueue) + QueuesStream(lines, roster, loadingAircraft).takeoffAdded
  {
    var next, added := ReadQueue(lines, 0, roster, TakeoffQueueName);
    AddAll(takeoffQueue, added);
    if !next.Ok? {
      return next.PropagateFailure();
    }
    var landingNext, landingAdded := ReadQueue(lines, next.value, roster, LandingQueueName);
    if !landingNext.Ok? {
      return landingNext.PropagateFailure();
    }
    r := ReadLoadingAircraft(lines, landingNext.value, roster, loadingAircraft);
  }

  /** The takeoff queue's addAircraft for each aircraft read, in the order read. */
  method AddAll(takeoffQueue: TakeoffQueue, added: seq<Aircraft>)
    modifies takeoffQueue
    ensures takeoffQueue.takeoffQueue == old(takeoffQueue.takeoffQueue) + added
  {
    var i := 0;
    while i < |added|
      invariant 0 <= i <= |added|
      invariant takeoffQueue.takeoffQueue == old(takeoffQueue.takeoffQueue) + added[..i]
    {
      takeoffQueue.AddAircraft(added[i]);
      assert added[..i + 1] == added[..i] + [added[i]];
      i := i + 1;
    }
    assert added[..i] == added;
  }

  /** The headers of an empty landing queue and an empty loading map. */
  lemma EmptyHeaders()
    ensures QueueHeader("LandingQueue:0", LandingQueueName) == Some(0)
    ensures QueueHeader("LoadingAircraft:0", "LoadingAircraft") == Some(0)
  {
    EmptyLandingHeader();
    EmptyLoadingHeader();
  }

  /** The header of an empty landing queue. */
  lemma EmptyLandingHeader()
    ensures QueueHeader("LandingQueue:0", LandingQueueName) == Some(0)
  {
    QueueHeaderOfEncoding(LandingQueueName, 0);
    assert LandingQueueName + ":" + NatToString(0) == "LandingQueue:0";
  }

  /** The header of an empty loading map. */
  lemma EmptyLoadingHeader()
    ensures QueueHeader("LoadingAircraft:0", "LoadingAircraft") == Some(0)
  {
    QueueHeaderOfEncoding("LoadingAircraft", 0);
    assert "LoadingAircraft" + ":" + NatToString(0) == "LoadingAircraft:0";
  }

  /** A takeoff block followed by the headers of an empty landing queue and an empty loading map. */
  lemma EmptyQueuesAfterTakeoff(lines: seq<string>, n: nat, roster: seq<Aircraft>, q: seq<Aircraft>, loadingName: string)
    requires n + 2 == |lines|
    requires QueueHeader(lines[n], LandingQueueName) == Some(0) && QueueHeader(lines[n + 1], loadingName) == Some(0)
    requires QueueBlock(lines, 0, roster, TakeoffQueueName) == QueueRead(Ok(n), q)
    ensures QueuesStream(lines, roster, map[]) == QueuesRead(Ok(map[]), q)
  {
    QueueBlockOfNoAircraft(lines, n, roster, LandingQueueName);
    LoadingBlockOfNoAircraft(lines, n + 1, roster, map[]);
  }

  /**
   * A takeoff queue written by encode, an empty landing queue and an empty loading map load
   * back as that takeoff queue and an empty map.
   */
  lemma QueuesRoundTrip(q: seq<Aircraft>, roster: seq<Aircraft>)
    requires |q| <= INT_MAX
    requires UniqueCallsigns(roster)
    requires Listable(q, roster)
    ensures var lines := ReaderLines(QueueEncoding(TakeoffQueueName, q)) + ["LandingQueue:0", "LoadingAircraft:0"];
            QueuesStream(lines, roster, map[]) == QueuesRead(Ok(map[]), q)
  {
    var read := ReaderLines(QueueEncoding(TakeoffQueueName, q));
    var rest := ["LandingQueue:0", "LoadingAircraft:0"];
    TakeoffQueueNameIsPlain();
    QueueRoundTrip(TakeoffQueueName, q, roster, rest);
    EmptyHeaders();
    var lines := read + rest;
    LastTwo(read, rest[0], rest[1]);
    EmptyQueuesAfterTakeoff(lines, |read|, roster, q, "LoadingAircraft");
  }

  /** The last two lines after a block. */
  lemma LastTwo(front: seq<string>, x: string, y: string)
    ensures var s := front + [x, y]; |s| == |front| + 2 && s[|front|] == x && s[|front| + 1] == y
  {
  }
}
