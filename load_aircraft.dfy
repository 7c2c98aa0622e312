/**
 * The first two loaders of ControlTowerInitialiser: the elapsed-tick stream and the aircraft
 * stream, with the task-list and aircraft line decoders they use.
 */
module AircraftLoader {
  import opened Outcomes
  import opened JavaText
  import opened Tasks
  import opened Entities

  // ---------------------------------------------------------------------------------------
  // loadTick

  /**
   * loadTick: the first line as a long. A missing line (readLine gives null), a line that is not
   * a long, or a negative value is Malformed.
   */
  function LoadTick(lines: seq<string>): (r: Outcome<int>)
    ensures r.Ok? || r.Malformed?
    ensures r.Ok? <==> |lines| > 0 && ParseLong(lines[0]).Some? && ParseLong(lines[0]).value >= 0
    ensures r.Ok? ==> r.value == ParseLong(lines[0]).value && 0 <= r.value <= LONG_MAX
  {
    if |lines| == 0 then Malformed
    else match ParseLong(lines[0])
      case None => Malformed
      case Some(ticks) => if ticks < 0 then Malformed else Ok(ticks)
  }

  /** The decimal form of any tick count a long holds loads back as that count, whatever follows it. */
  lemma LoadTickOfDecimal(ticks: nat, rest: seq<string>)
    requires ticks <= LONG_MAX
    ensures LoadTick([NatToString(ticks)] + rest) == Ok(ticks)
  {
    ParseIntegralOfIntToString(ticks, LONG_MIN, LONG_MAX);
  }

  /** The decimal form of a negative count is rejected. */
  lemma LoadTickOfNegative(ticks: int, rest: seq<string>)
    requires LONG_MIN <= ticks < 0
    ensures LoadTick([IntToString(ticks)] + rest) == Malformed
  {
    ParseIntegralOfIntToString(ticks, LONG_MIN, LONG_MAX);
  }

  // ---------------------------------------------------------------------------------------
  // readTaskList

  /**
   * One comma-separated task token. With an '@': more than one '@' is Malformed; no text after
   * the '@' leaves split with fewer than two fields, and taskLoad[1] throws (Crash); then the
   * load must parse as an int and the type name must be a constant, and a negative load is
   * Malformed. Without an '@' the token must be a type name, and the task has load 0.
   */
  function DecodeTask(token: string): (r: Outcome<Task>)
    ensures r.Ok? ==> CountChar(token, '@') <= 1 && r.value.loadPercent >= 0
    ensures r.Ok? && '@' !in token ==> TypeName(r.value.kind) == token && r.value.loadPercent == 0
    ensures r.Crash? ==> CountChar(token, '@') == 1 && |Split(token, '@')| < 2
    ensures r.Ok? && '@' in token ==>
      && |Split(token, '@')| >= 2
      && TypeValueOf(Split(token, '@')[0]) == Some(r.value.kind)
      && ParseInt(Split(token, '@')[1]) == Some(r.value.loadPercent)
    ensures CountChar(token, '@') == 1 && |Split(token, '@')| >= 2
            && (TypeValueOf(Split(token, '@')[0]).None? || ParseInt(Split(token, '@')[1]).None?)
            ==> r == Malformed
    ensures !r.IOError?
  {
    if '@' in token then
      if CountChar(token, '@') > 1 then Malformed
      else
        var taskLoad := Split(token, '@');
        if |taskLoad| < 2 then Crash
        else match ParseInt(taskLoad[1])
          case None => Malformed
          case Some(loadPercent) =>
            match TypeValueOf(taskLoad[0])
            case None => Malformed
            case Some(kind) => if loadPercent < 0 then Malformed else Ok(Task(kind, loadPercent))
    else
      match TypeValueOf(token)
      case None => Malformed
      case Some(kind) => Ok(Task(kind, 0))
  }

  /** The tokens decoded in order; the first token that fails decides the outcome. */
  function DecodeTokens(tokens: seq<string>): (r: Outcome<seq<Task>>)
    ensures r.Ok? ==>
      && |r.value| == |tokens|
      && forall k :: 0 <= k < |tokens| ==> DecodeTask(tokens[k]) == Ok(r.value[k])
    ensures !r.IOError?
  {
    if tokens == [] then Ok([])
    else
      var t :- DecodeTask(tokens[0]);
      Prepend([t], DecodeTokens(tokens[1..]))
  }

  /** readTaskList: the tokens must decode, and the tasks must form a valid task list. */
  function DecodeTaskList(taskListPart: string): (r: Outcome<seq<Task>>)
    ensures r.Ok? ==> ValidSequence(r.value)
    ensures r.Ok? ==> DecodeTokens(Split(taskListPart, ',')) == Ok(r.value)
    ensures !r.IOError?
  {
    var tasks :- DecodeTokens(Split(taskListPart, ','));
    if ValidSequence(tasks) then Ok(tasks) else Malformed
  }

  /** The body of readTaskList's loop for one token, with its inner loop counting the '@' characters. */
  method ReadTask(taskString: string) returns (r: Outcome<Task>)
    ensures r == DecodeTask(taskString)
  {
    if '@' !in taskString {
      var kind := TypeValueOf(taskString);
      if kind.None? {
        return Malformed;
      }
      return Ok(Task(kind.value, 0));
    }
    var symbolCounter := 0;
    var i := 0;
    while i < |taskString|
      invariant 0 <= i <= |taskString|
      invariant symbolCounter == CountChar(taskString[..i], '@')
    {
      assert taskString[..i + 1][..i] == taskString[..i];
      if taskString[i] == '@' {
        symbolCounter := symbolCounter + 1;
      }
      i := i + 1;
    }
    assert taskString[..i] == taskString;
    if symbolCounter > 1 {
      return Malformed;
    }
    var taskLoad := Split(taskString, '@');
    if |taskLoad| < 2 {
      return Crash;
    }
    var loadPercent := ParseInt(taskLoad[1]);
    if loadPercent.None? {
      return Malformed;
    }
    var kind := TypeValueOf(taskLoad[0]);
    if kind.None? {
      return Malformed;
    }
    if loadPercent.value < 0 {
      return Malformed;
    }
    return Ok(Task(kind.value, loadPercent.value));
  }

  /** readTaskList: decodes the tokens one by one, then checks the list against the transition table. */
  method ReadTaskList(taskListPart: string) returns (r: Outcome<seq<Task>>)
    ensures r == DecodeTaskList(taskListPart)
  {
    var taskList: seq<Task> := [];
    var task := Split(taskListPart, ',');
    var j := 0;
    assert task[j..] == task;
    PrependLaws(taskList, [], DecodeTokens(task));
    while j < |task|
      invariant 0 <= j <= |task|
      invariant DecodeTokens(task) == Prepend(taskList, DecodeTokens(task[j..]))
    {
      assert task[j..][0] == task[j] && task[j..][1..] == task[j + 1..];
      var next := ReadTask(task[j]);
      if !next.Ok? {
        return next.PropagateFailure();
      }
      PrependLaws(taskList, [next.value], DecodeTokens(task[j + 1..]));
      taskList := taskList + [next.value];
      j := j + 1;
    }
    assert task[j..] == [];
    assert DecodeTokens(task) == Ok(taskList) by {
      assert taskList + [] == taskList;
    }
    var valid := CheckTaskSequence(taskList);
    if !valid {
      return Malformed;
    }
    return Ok(taskList);
  }

  /** readTaskList fails exactly when a token fails or the tasks break the transition table. */
  lemma DecodeTaskListCases(taskListPart: string)
    ensures var tokens := Split(taskListPart, ',');
            DecodeTaskList(taskListPart).Ok?
            <==> DecodeTokens(tokens).Ok? && ValidSequence(DecodeTokens(tokens).value)
    ensures var tokens := Split(taskListPart, ',');
            DecodeTokens(tokens).Ok? && !ValidSequence(DecodeTokens(tokens).value)
            ==> DecodeTaskList(taskListPart) == Malformed
  {
  }

  /** Token k is the first that fails to decode, and its failure is the failure of the whole list. */
  predicate FailsFirstAt(tokens: seq<string>, k: nat) {
    && k < |tokens| && !DecodeTask(tokens[k]).Ok?
    && DecodeTokens(tokens) == DecodeTask(tokens[k]).PropagateFailure()
    && forall j :: 0 <= j < k ==> DecodeTask(tokens[j]).Ok?
  }

  /** Some token of a list that fails to decode fails itself, and every token before it decodes. */
  lemma {:induction false} DecodeTokensFailure(tokens: seq<string>)
    requires !DecodeTokens(tokens).Ok?
    ensures exists k :: FailsFirstAt(tokens, k)
  {
    if DecodeTask(tokens[0]).Ok? {
      DecodeTokensFailure(tokens[1..]);
      var k :| FailsFirstAt(tokens[1..], k);
      FailsFirstAfterDecoded(tokens, k);
    } else {
      assert FailsFirstAt(tokens, 0);
    }
  }

  /** A first failure in the tail, after a first token that decodes, is one position further on. */
  lemma FailsFirstAfterDecoded(tokens: seq<string>, k: nat)
    requires tokens != [] && DecodeTask(tokens[0]).Ok? && FailsFirstAt(tokens[1..], k)
    ensures FailsFirstAt(tokens, k + 1)
  {
    assert tokens[k + 1] == tokens[1..][k];
    DecodedPrefixAfterDecoded(tokens, k);
  }

  /** A decoding first token followed by k decoding tokens of the tail: k + 1 decoding tokens. */
  lemma DecodedPrefixAfterDecoded(tokens: seq<string>, k: nat)
    requires k < |tokens| - 1 && DecodeTask(tokens[0]).Ok?
    requires forall j :: 0 <= j < k ==> DecodeTask(tokens[1..][j]).Ok?
    ensures forall j :: 0 <= j < k + 1 ==> DecodeTask(tokens[j]).Ok?
  {
    forall j | 0 < j < k + 1 ensures DecodeTask(tokens[j]).Ok? {
      assert tokens[j] == tokens[1..][j - 1];
    }
  }

  /** A task that encode writes and readTaskList can read: LOAD with an int load of at least 0, any other type with load 0. */
  predicate Encodable(t: Task) {
    if t.kind == LOAD then 0 <= t.loadPercent <= INT_MAX else t.loadPercent == 0
  }

  lemma TypeNameHasNo(k: TaskType, c: char)
    requires c == ',' || c == '@'
    ensures c !in TypeName(k) && |TypeName(k)| >= 4
  {
  }

  /** Every encoded task reads back as itself. */
  lemma DecodeTaskOfEncoding(t: Task)
    requires Encodable(t)
    ensures DecodeTask(EncodeTask(t)) == Ok(t)
  {
    if t.kind == LOAD {
      var digits := NatToString(t.loadPercent);
      NatToStringHasNo(t.loadPercent, '@');
      var token := EncodeTask(t);
      assert token == "LOAD" + "@" + digits;
      CountCharConcat("LOAD@", digits, '@');
      assert CountChar("LOAD@", '@') == 1;
      assert Join(["LOAD", digits], "@") == token;
      SplitOfJoin(["LOAD", digits], '@');
      assert Split(token, '@') == ["LOAD", digits];
      ParseIntegralOfIntToString(t.loadPercent, INT_MIN, INT_MAX);
      assert IntToString(t.loadPercent) == digits;
      assert ParseInt(digits) == Some(t.loadPercent);
      assert TypeValueOf("LOAD") == Some(LOAD);
    } else {
      TypeNameHasNo(t.kind, '@');
      assert TypeValueOf(TypeName(t.kind)) == Some(t.kind);
    }
  }

  lemma EncodeTaskShape(t: Task)
    requires Encodable(t)
    ensures ',' !in EncodeTask(t) && EncodeTask(t) != ""
  {
    TypeNameHasNo(t.kind, ',');
    if t.kind == LOAD {
      NatToStringHasNo(t.loadPercent, ',');
    }
  }

  /** Decoding the encodings of encodable tasks gives the tasks back. */
  lemma {:induction false} DecodeTokensOfEncoding(ts: seq<Task>)
    requires forall k :: 0 <= k < |ts| ==> Encodable(ts[k])
    ensures DecodeTokens(TaskTokens(ts)) == Ok(ts)
  {
    if ts != [] {
      var tokens := TaskTokens(ts);
      DecodeTaskOfEncoding(ts[0]);
      assert tokens[1..] == TaskTokens(ts[1..]);
      DecodeTokensOfEncoding(ts[1..]);
      assert [ts[0]] + ts[1..] == ts;
    }
  }

  /**
   * readTaskList undoes encode: the encoding of a valid list of encodable tasks, read from any
   * cursor position, decodes to the tasks as seen from that position.
   */
  lemma TaskListRoundTrip(ts: seq<Task>, cursor: nat)
    requires ValidSequence(ts) && cursor < |ts|
    requires forall k :: 0 <= k < |ts| ==> Encodable(ts[k])
    ensures DecodeTaskList(EncodeTasks(Rotate(ts, cursor))) == Ok(Rotate(ts, cursor))
  {
    var view := Rotate(ts, cursor);
    forall k | 0 <= k < |view| ensures Encodable(view[k]) {
      RotateEntry(ts, cursor, k);
    }
    var tokens := TaskTokens(view);
    forall k | 0 <= k < |tokens| ensures ',' !in tokens[k] && tokens[k] != "" {
      EncodeTaskShape(view[k]);
    }
    SplitOfJoin(tokens, ',');
    DecodeTokensOfEncoding(view);
    RotationPreservesValidity(ts, cursor);
  }

  /** What TaskList.encode writes, readTaskList reads back as the list seen from its current task. */
  method EncodeThenRead(list: TaskList) returns (r: Outcome<seq<Task>>)
    requires list.Valid()
    requires forall k :: 0 <= k < |list.tasks| ==> Encodable(list.tasks[k])
    modifies list
    ensures r == Ok(Rotate(list.tasks, old(list.currentTaskIndex)))
  {
    ghost var start := list.currentTaskIndex;
    var encoded := list.Encode();
    TaskListRoundTrip(list.tasks, start);
    r := ReadTaskList(encoded);
  }

  // ---------------------------------------------------------------------------------------
  // readAircraft

  /**
   * readAircraft: six ':'-fields, a known characteristics name, a readable task list, a fuel
   * field the aircraft accepts, and an int cargo that is not negative and, for a passenger
   * aircraft, within the passenger capacity. A cargo above 0 makes a passenger aircraft with
   * that many passengers, a cargo of 0 a freight aircraft with no freight.
   */
  function ReadAircraft(line: string, ext: Externals): (r: Outcome<Aircraft>)
    ensures |Split(line, ':')| != 6 ==> r == Malformed
    ensures !r.IOError?
    ensures r.Crash? ==> DecodeTaskList(Split(line, ':')[2]).Crash?
  {
    var f := Split(line, ':');
    if |f| != 6 then Malformed
    else if f[1] !in ext.characteristics then Malformed
    else
      var characteristics := ext.characteristics[f[1]];
      var tasks :- DecodeTaskList(f[2]);
      if !ext.fuelAccepted(f[3], characteristics) then Malformed
      else match ParseInt(f[5])
        case None => Malformed
        case Some(cargo) =>
          if cargo < 0 then Malformed
          else if cargo > 0 && cargo > characteristics.passengerCapacity then Malformed
          else
            var load := if cargo > 0 then Passengers(cargo) else Freight(0);
            Ok(Aircraft(f[0], f[1], characteristics, tasks, f[3], ParseBoolean(f[4]), load))
  }

  /** What an aircraft that readAircraft accepts is built from, field by field. */
  lemma ReadAircraftFields(line: string, ext: Externals)
    requires ReadAircraft(line, ext).Ok?
    ensures var f, a := Split(line, ':'), ReadAircraft(line, ext).value;
      && |f| == 6 && f[1] in ext.characteristics
      && a.callsign == f[0] && a.model == f[1]
      && a.characteristics == ext.characteristics[f[1]]
      && DecodeTaskList(f[2]) == Ok(a.tasks)
      && a.fuel == f[3] && ext.fuelAccepted(f[3], a.characteristics)
      && a.emergency == ParseBoolean(f[4])
      && ParseInt(f[5]).Some? && ParseInt(f[5]).value >= 0
      && (ParseInt(f[5]).value > 0 ==>
            a.load == Passengers(ParseInt(f[5]).value)
            && ParseInt(f[5]).value <= a.characteristics.passengerCapacity)
      && (ParseInt(f[5]).value == 0 ==> a.load == Freight(0))
  {
  }

  /** A negative cargo, or a passenger count above the capacity, is rejected. */
  lemma ReadAircraftCargoBounds(line: string, ext: Externals)
    requires var f := Split(line, ':');
      && |f| == 6 && f[1] in ext.characteristics && ParseInt(f[5]).Some?
      && (ParseInt(f[5]).value < 0
          || (ParseInt(f[5]).value > 0 && ParseInt(f[5]).value > ext.characteristics[f[1]].passengerCapacity))
    ensures !ReadAircraft(line, ext).Ok?
  {
  }

  // ---------------------------------------------------------------------------------------
  // loadAircraft

  /** Every line decoded as an aircraft, in order; the first line that fails decides the outcome. */
  function DecodeAircraftLines(lines: seq<string>, ext: Externals): (r: Outcome<seq<Aircraft>>)
    ensures r.Ok? ==>
      && |r.value| == |lines|
      && forall k :: 0 <= k < |lines| ==> ReadAircraft(lines[k], ext) == Ok(r.value[k])
  {
    if lines == [] then Ok([])
    else
      var a :- ReadAircraft(lines[0], ext);
      Prepend([a], DecodeAircraftLines(lines[1..], ext))
  }

  /** Reading aircraft lines never fails with an IOException: every line is there to read. */
  lemma {:induction false} DecodeAircraftLinesNoIOError(lines: seq<string>, ext: Externals)
    ensures !DecodeAircraftLines(lines, ext).IOError?
  {
    if lines != [] {
      DecodeAircraftLinesNoIOError(lines[1..], ext);
    }
  }

  /**
   * loadAircraft: the first line is the count. A count above 0 reads every remaining line as an
   * aircraft and then requires the count to equal the number of lines read; a count of 0 reads
   * nothing more; a missing or unparsable count, and a negative one, is Malformed.
   */
  function AircraftStream(lines: seq<string>, ext: Externals): (r: Outcome<seq<Aircraft>>)
    ensures !r.IOError?
  {
    if |lines| == 0 then Malformed
    else match ParseInt(lines[0])
      case None => Malformed
      case Some(numAircraft) =>
        if numAircraft > 0 then
          DecodeAircraftLinesNoIOError(lines[1..], ext);
          var aircraft :- DecodeAircraftLines(lines[1..], ext);
          if numAircraft != |lines| - 1 then Malformed else Ok(aircraft)
        else if numAircraft != 0 then Malformed
        else Ok([])
  }

  /** loadAircraft's loop: reads an aircraft from every line up to the end of the stream, counting them. */
  method ReadAircraftLines(lines: seq<string>, ext: Externals) returns (r: Outcome<seq<Aircraft>>, numAircraftRead: nat)
    ensures r == DecodeAircraftLines(lines, ext)
    ensures r.Ok? ==> numAircraftRead == |lines|
  {
    var aircraft: seq<Aircraft> := [];
    numAircraftRead := 0;
    PrependLaws(aircraft, [], DecodeAircraftLines(lines, ext));
    while numAircraftRead < |lines|
      invariant numAircraftRead <= |lines|
      invariant DecodeAircraftLines(lines, ext) == Prepend(aircraft, DecodeAircraftLines(lines[numAircraftRead..], ext))
    {
      var line := lines[numAircraftRead];
      assert lines[numAircraftRead..][0] == line;
      assert lines[numAircraftRead..][1..] == lines[numAircraftRead + 1..];
      var next := ReadAircraft(line, ext);
      if !next.Ok? {
        return next.PropagateFailure(), numAircraftRead + 1;
      }
      PrependLaws(aircraft, [next.value], DecodeAircraftLines(lines[numAircraftRead + 1..], ext));
      aircraft := aircraft + [next.value];
      numAircraftRead := numAircraftRead + 1;
    }
    assert lines[numAircraftRead..] == [];
    assert aircraft + [] == aircraft;
    return Ok(aircraft), numAircraftRead;
  }

  /** loadAircraft: the count line, then the aircraft lines when the count is above 0, then the count check. */
  method LoadAircraft(lines: seq<string>, ext: Externals) returns (r: Outcome<seq<Aircraft>>)
    ensures r == AircraftStream(lines, ext)
  {
    if |lines| == 0 {
      return Malformed;
    }
    var count := ParseInt(lines[0]);
    if count.None? {
      return Malformed;
    }
    var numAircraft := count.value;
    var numAircraftRead := 0;
    var aircraft: seq<Aircraft> := [];
    if numAircraft > 0 {
      var read;
      read, numAircraftRead := ReadAircraftLines(lines[1..], ext);
      if !read.Ok? {
        return read.PropagateFailure();
      }
      aircraft := read.value;
    }
    if numAircraft != numAircraftRead {
      return Malformed;
    }
    return Ok(aircraft);
  }

  /** A count of 0 loads no aircraft, whatever follows it. */
  lemma AircraftStreamOfZero(lines: seq<string>, ext: Externals)
    requires |lines| > 0 && ParseInt(lines[0]) == Some(0)
    ensures AircraftStream(lines, ext) == Ok([])
  {
  }

  /** A negative count always fails. */
  lemma AircraftStreamOfNegative(lines: seq<string>, ext: Externals)
    requires |lines| > 0 && ParseInt(lines[0]).Some? && ParseInt(lines[0]).value < 0
    ensures AircraftStream(lines, ext) == Malformed
  {
  }

  /** A load succeeds only with a count equal to the number of aircraft lines, each of which decodes. */
  lemma AircraftStreamSuccess(lines: seq<string>, ext: Externals)
    requires AircraftStream(lines, ext).Ok?
    ensures var aircraft := AircraftStream(lines, ext).value;
            && ParseInt(lines[0]) == Some(|aircraft|)
            && (|aircraft| > 0 ==> |aircraft| == |lines| - 1)
            && forall k :: 0 <= k < |aircraft| ==> ReadAircraft(lines[k + 1], ext) == Ok(aircraft[k])
  {
  }

  /** A count above 0 that differs from the number of aircraft lines fails (if the lines themselves decode). */
  lemma AircraftStreamCountMismatch(lines: seq<string>, ext: Externals)
    requires |lines| > 0 && ParseInt(lines[0]).Some?
    requires ParseInt(lines[0]).value > 0 && ParseInt(lines[0]).value != |lines| - 1
    ensures !AircraftStream(lines, ext).Ok?
  {
  }
}
