# towersim save-file decoder, task lists and takeoff queue

This project models the part of the towersim air-traffic control simulation that restores a
control tower from its four save files. It also models the objects those files describe and
write:

- `ControlTowerInitialiser` turns the four files into a control tower:
  - the elapsed-tick file;
  - the aircraft file, whose lines each hold an aircraft and its encoded task list;
  - the queues file, which holds the takeoff queue, the landing queue and the loading map;
  - the terminals-and-gates file.
- `TaskList` is the circular list of tasks that decides an aircraft's phase. It has a fixed
  table of legal successor tasks.
- `AircraftQueue` gives every queue its human-readable form and its save-file form.
- `TakeoffQueue` is the first-in, first-out queue of departing aircraft.

Each reader is a sequence of lines, the lines `BufferedReader.readLine` would deliver. A reader
shared by several decoders is a position in that sequence. Every loader returns an
`Outcome`:

- `Ok` carries the decoded value.
- `Malformed` stands for `MalformedSaveException`.
- `IOError` stands for `IOException`. It arises only where the source raises one over the file's
  contents: a terminal whose gate lines run past the end of its file.
- `Crash` stands for a runtime exception no loader catches: `ArrayIndexOutOfBoundsException`
  from `"LOAD@"`, or from a loading-map header or entry with fewer than two `':'` fields.

The modules follow the program's structure:

- `Outcomes`: the option and outcome types.
- `JavaText`: the few Java library behaviours the decoder depends on, written out. These are
  `String.split` with a single-character separator (trailing empty fields dropped),
  `Integer.parseInt` and `Long.parseLong` with their ranges, `Boolean.parseBoolean`, decimal
  printing, and the lines of a reader.
- `Tasks`: the task types, the successor table, the validity rule and the `TaskList` class.
- `Entities`: the aircraft, gate and terminal records the decoder builds, and callsign lookup in
  the list of loaded aircraft (the roster).
- `AircraftQueues`: `toString`, `encode` and `callsignList`.
- `TakeoffQueues`: the `TakeoffQueue` class.
- `AircraftLoader`: `loadTick`, `readTaskList`, `readAircraft` and `loadAircraft`.
- `QueueLoader`: `readQueue`, `readLoadingAircraft` and `loadQueues`.
- `TerminalLoader`: `readGate`, `readTerminal` and `loadTerminalsWithGates`.
- `TowerLoader`: `createControlTower`.

Every loop the model covers is a method with a `while` or `for` loop, proved equal to a
recursive function that specifies it. The loop of `createControlTower` that adds the terminals
to the tower is not a loop here: the terminals are part of the `Tower` record. The properties are proved about those functions. They include:

- decoding undoes encoding, for task lists, queues and a saved empty tower;
- the error paths, such as a count mismatch, an unknown callsign, a negative count or a missing
  gate line;
- the first-in, first-out order of the takeoff queue;
- the task-list invariant that every task is followed by a legal successor, kept under rotation
  and under `moveToNextTask`.

Where the source's Javadoc and its code differ, the model follows the code:

- `readAircraft` builds a passenger aircraft when the cargo field is above 0, and a freight
  aircraft with no freight otherwise.
- `readGate` leaves a gate empty when its callsign matches no loaded aircraft. The method's
  documentation calls that line invalid.
- A loading-map header or entry with fewer than two `':'` fields throws an uncaught
  `ArrayIndexOutOfBoundsException` (`Crash`). The documentation calls it invalid.
- The name field of the loading-map header is never checked.
- A missing line where `readQueue` or `readLoadingAircraft` expects one fails with a
  `NullPointerException`, which they turn into `Malformed`. A missing gate line in
  `readTerminal` is an `IOException`.

## Model

| member | source | states |
|---|---|---|
| Tasks.TypeValueOf | src/towersim/control/ControlTowerInitialiser.java:241 | `TaskType.valueOf` gives the constant whose name is exactly the text, and nothing (IllegalArgumentException) for any other text |
| Tasks.SingleTaskRuleFollowsFromTable | src/towersim/tasks/TaskList.java:33-74 | in a non-empty list, the one-task rule is implied by the successor table: validity is exactly "every task, the last one with the first, has a legal successor" |
| Tasks.SingleTaskList | src/towersim/tasks/TaskList.java:33-37 | a list of one task is valid exactly when that task is AWAY or WAIT |
| Tasks.CheckTaskSequence | src/towersim/tasks/TaskList.java:27-75 | the constructor's validation loop accepts exactly the valid sequences: not empty, one task only if AWAY or WAIT, every task followed circularly by a successor from the table |
| Tasks.TaskList.FromValidated | src/towersim/tasks/TaskList.java:24-26 | a task list built from a valid sequence holds those tasks and is on its first task |
| Tasks.TaskList.Create | src/towersim/tasks/TaskList.java:24-76 | `new TaskList(tasks)` succeeds exactly when the sequence is valid; the new list holds the tasks and its current task is the first |
| Tasks.TaskList.GetCurrentTask | src/towersim/tasks/TaskList.java:84-86 | the current task is the first task of the list read circularly from the cursor |
| Tasks.TaskList.GetNextTask | src/towersim/tasks/TaskList.java:100-103 | the next task is the task after the cursor, wrapping to the first; it is always a legal successor of the current task |
| Tasks.TaskList.MoveToNextTask | src/towersim/tasks/TaskList.java:115-117 | the cursor advances by one, circularly, the list stays valid, and the new current task is the old next task |
| Tasks.TaskList.ToString | src/towersim/tasks/TaskList.java:136-142 | the text opens with "TaskList currently on ", the current task's display and " [", ends with "/<number of tasks>]", and the position shown lies between 1 and the number of tasks |
| Tasks.TaskList.Encode | src/towersim/tasks/TaskList.java:157-165 | the result is the comma-joined task encodings, starting at the current task and going once round the list; the cursor ends one task before where it started (moved size - 1 times) |
| Tasks.RotationPreservesValidity | src/towersim/tasks/TaskList.java:157-165 | a valid list read from any cursor position is itself valid, so an encoding taken at any point in the cycle is a valid task list |
| Tasks.RotateEntry | src/towersim/tasks/TaskList.java:157-163 | entry k of the list read from cursor c is entry (c + k) mod n of the list |
| Tasks.CursorAfterMoves | src/towersim/tasks/TaskList.java:115-117 | k calls of moveToNextTask from position i reach (i + k) mod n; n calls come back to i |
| Tasks.WrapIsMod | src/towersim/tasks/TaskList.java:101 | the model's single wrap-around subtraction is the source's `% tasks.size()` |
| AircraftQueues.CallsignList | src/towersim/control/AircraftQueue.java:102-127 | for a null or empty list the result is empty; otherwise it is the callsigns in queue order, joined by "," when encoding and by ", " otherwise (the trailing separator removed) |
| AircraftQueues.CallsignTextOfNothing | src/towersim/control/AircraftQueue.java:104-105 | a null list and an empty list both give the empty text |
| AircraftQueues.CallsignTextSeparators | src/towersim/control/AircraftQueue.java:108-123 | k comma-free callsigns give exactly k - 1 commas, and the text does not end in a comma when the last callsign is not empty |
| AircraftQueues.QueueToString | src/towersim/control/AircraftQueue.java:65-69 | toString gives "<class name> [<callsigns joined by ", ">]" |
| AircraftQueues.QueueDisplayOfNothing | src/towersim/control/AircraftQueue.java:59-62 | a queue with no aircraft, or a null list, shows as "<class name> []" |
| AircraftQueues.QueueDisplayShape | src/towersim/control/AircraftQueue.java:56-61 | the display opens with the class name and " [", closes with "]", and adds one comma per separator (k - 1 for k aircraft) |
| AircraftQueues.QueueEncode | src/towersim/control/AircraftQueue.java:89-95 | encode gives "<class name>:<size>", a line separator, then the ','-joined callsigns; a queue whose list is null fails with a NullPointerException (Crash) |
| AircraftQueues.QueueEncodingLines | src/towersim/control/AircraftQueue.java:89-95 | read back as lines, the encoding's first line is the header "<name>:<size>", and a non-empty callsign list is the second and last line |
| TakeoffQueues.RemoveFirst | src/towersim/control/TakeoffQueue.java:59 | `LinkedList.remove(Object)` leaves the sequence unchanged when the element is absent, and otherwise takes away exactly one occurrence of it |
| TakeoffQueues.RemoveFirstAtFirstOccurrence | src/towersim/control/TakeoffQueue.java:59 | the element taken away is the first one equal to the given aircraft: everything before that position and everything after it stay, in order |
| TakeoffQueues.TakeoffQueue.constructor | src/towersim/control/TakeoffQueue.java:23-25 | a new takeoff queue is empty and peeks at nothing |
| TakeoffQueues.TakeoffQueue.AddAircraft | src/towersim/control/TakeoffQueue.java:31-34 | the aircraft goes at the back, even when it is already queued |
| TakeoffQueues.TakeoffQueue.PeekAircraft | src/towersim/control/TakeoffQueue.java:43-46 | peek gives null exactly when the queue is empty, and otherwise the aircraft added longest ago |
| TakeoffQueues.TakeoffQueue.RemoveAircraft | src/towersim/control/TakeoffQueue.java:55-62 | remove returns what peek returned; a non-empty queue loses its front aircraft and keeps the rest in order, and an empty queue stays empty |
| TakeoffQueues.TakeoffQueue.GetAircraftInOrder | src/towersim/control/TakeoffQueue.java:72-85 | copying into a second queue and draining it lists the queued aircraft in queue order, and the queue itself is unchanged |
| TakeoffQueues.TakeoffQueue.ContainsAircraft | src/towersim/control/TakeoffQueue.java:92-95 | true exactly when an equal aircraft is at some position of the queue |
| TakeoffQueues.TakeoffQueue.ToString | src/towersim/control/AircraftQueue.java:65-69 | the inherited toString gives "TakeoffQueue [<callsigns>]" for the queue's aircraft in order |
| TakeoffQueues.TakeoffQueue.Encode | src/towersim/control/AircraftQueue.java:89-95 | the inherited encode gives the "TakeoffQueue" save-file form of the queued aircraft, and never fails because the list is never null |
| TakeoffQueues.FirstInFirstOut | src/towersim/control/TakeoffQueue.java:10-14 | aircraft added to a new queue leave it in the order they arrived, and one more removal finds the queue empty |
| Entities.FirstMatch | src/towersim/control/ControlTowerInitialiser.java:448-454 | the scan finds an aircraft exactly when the roster knows the callsign, and what it finds is a roster aircraft with that callsign |
| Entities.UniqueMatch | src/towersim/control/ControlTowerInitialiser.java:367-373 | with unique callsigns, the only aircraft that matches a roster aircraft's callsign is that aircraft |
| Entities.MatchAllOfCallsigns | src/towersim/control/ControlTowerInitialiser.java:365-377 | with unique callsigns, matching the callsigns of roster aircraft in turn gives back exactly those aircraft, in order |
| Entities.MatchAllKnown | src/towersim/control/ControlTowerInitialiser.java:365-377 | with unique callsigns, matching known callsigns finds one aircraft per callsign, in the listed order |
| Entities.RosterMatchesAppend | src/towersim/control/ControlTowerInitialiser.java:367-373 | matching over a roster in two parts gives the matches of the first part and then those of the second |
| JavaText.SplitOfJoin | src/towersim/control/ControlTowerInitialiser.java:221 | `String.split` undoes joining with the separator, when no field holds it and the last field is not empty |
| JavaText.SplitIgnoresTrailingSeparator | src/towersim/control/ControlTowerInitialiser.java:221 | `String.split` drops trailing empty fields: a separator added at the end of non-empty text changes nothing |
| JavaText.ParseIntegralOfIntToString | src/towersim/control/ControlTowerInitialiser.java:240 | parseInt and parseLong read the decimal form of any number in their range back as that number |
| JavaText.ParseBoolean | src/towersim/control/ControlTowerInitialiser.java:170 | parseBoolean is true exactly when the text is "true" ignoring ASCII case |
| JavaText.ReaderLinesOfTwo | src/towersim/control/AircraftQueue.java:92 | two lines joined by the line separator read back as those two lines, or as one line when the second is empty |
| AircraftLoader.LoadTick | src/towersim/control/ControlTowerInitialiser.java:48-67 | the tick count loads exactly when the first line exists, parses as a long and is not negative, and it is that value; otherwise the load is Malformed |
| AircraftLoader.LoadTickOfDecimal | src/towersim/control/ControlTowerInitialiser.java:55 | the decimal form of any tick count a long holds loads back as that count |
| AircraftLoader.LoadTickOfNegative | src/towersim/control/ControlTowerInitialiser.java:63-65 | a negative tick count is Malformed |
| AircraftLoader.DecodeTask | src/towersim/control/ControlTowerInitialiser.java:224-249 | an accepted token has at most one '@' and a load of at least 0; a token without '@' is exactly a type name with load 0; a token with one '@' is the task of `valueOf` of the text before it and `parseInt` of the text after it, and is Malformed when either fails; "LOAD@" with nothing after the '@' crashes |
| AircraftLoader.DecodeTokens | src/towersim/control/ControlTowerInitialiser.java:222-253 | when all tokens decode, the tasks are the decodings of the tokens, one per token and in order |
| AircraftLoader.DecodeTaskList | src/towersim/control/ControlTowerInitialiser.java:218-259 | a task list that reads is a valid task list, and its tasks are the decodings of its ','-separated tokens, one per token and in order |
| AircraftLoader.ReadTask | src/towersim/control/ControlTowerInitialiser.java:223-252 | the loop body, including its '@'-counting loop, computes the decoding of its token |
| AircraftLoader.ReadTaskList | src/towersim/control/ControlTowerInitialiser.java:218-259 | readTaskList's loop and its final constructor call compute the decoding of the whole list |
| AircraftLoader.DecodeTaskListCases | src/towersim/control/ControlTowerInitialiser.java:254-258 | a list reads exactly when every token decodes and the tasks form a valid list; decodable tokens that break the successor table are Malformed |
| AircraftLoader.DecodeTokensFailure | src/towersim/control/ControlTowerInitialiser.java:222-253 | a list that fails has a first failing token: every token before it decodes, and its failure is the failure of the list |
| AircraftLoader.DecodeTaskOfEncoding | src/towersim/control/ControlTowerInitialiser.java:238-248 | the encoding of a task with a representable load reads back as that task |
| AircraftLoader.DecodeTokensOfEncoding | src/towersim/control/ControlTowerInitialiser.java:222-253 | the encodings of such tasks decode back to the tasks, in order |
| AircraftLoader.TaskListRoundTrip | src/towersim/control/ControlTowerInitialiser.java:218-259 | readTaskList undoes TaskList.encode: the encoding of a valid list, taken at any cursor, reads back as the list seen from that cursor |
| AircraftLoader.EncodeThenRead | src/towersim/tasks/TaskList.java:157-165 | encoding a task list object and reading the text back gives its tasks starting at its current task |
| AircraftLoader.ReadAircraft | src/towersim/control/ControlTowerInitialiser.java:153-196 | a line that does not split into six ':'-fields is Malformed; the only crash comes from the task-list field; no IOException arises |
| AircraftLoader.ReadAircraftFields | src/towersim/control/ControlTowerInitialiser.java:161-194 | an accepted aircraft takes each field from its own place: the callsign, the characteristics constant, the task list that reads, the accepted fuel, the emergency flag from parseBoolean, and a cargo of at least 0; a cargo above 0 gives that many passengers within the capacity, and 0 gives a freight aircraft with no freight |
| AircraftLoader.ReadAircraftCargoBounds | src/towersim/control/ControlTowerInitialiser.java:172-183 | a negative cargo, or a passenger count above the capacity, is rejected |
| AircraftLoader.DecodeAircraftLines | src/towersim/control/ControlTowerInitialiser.java:105-108 | when every line decodes, the aircraft are the decodings of the lines, one per line and in order |
| AircraftLoader.DecodeAircraftLinesNoIOError | src/towersim/control/ControlTowerInitialiser.java:105-108 | decoding the aircraft lines never raises an IOException |
| AircraftLoader.AircraftStream | src/towersim/control/ControlTowerInitialiser.java:92-122 | loading aircraft never raises an IOException over the contents |
| AircraftLoader.ReadAircraftLines | src/towersim/control/ControlTowerInitialiser.java:104-109 | the loop reads every remaining line as an aircraft, counting them, and computes the line-by-line decoding |
| AircraftLoader.LoadAircraft | src/towersim/control/ControlTowerInitialiser.java:92-122 | loadAircraft computes exactly the aircraft stream's outcome |
| AircraftLoader.AircraftStreamOfZero | src/towersim/control/ControlTowerInitialiser.java:103-104 | a count of 0 loads no aircraft, whatever lines follow |
| AircraftLoader.AircraftStreamOfNegative | src/towersim/control/ControlTowerInitialiser.java:118-120 | a negative count always fails |
| AircraftLoader.AircraftStreamSuccess | src/towersim/control/ControlTowerInitialiser.java:103-121 | a successful load has a count equal to the number of aircraft; with a count above 0 that is the number of remaining lines, and aircraft k is the reading of line k + 1 |
| AircraftLoader.AircraftStreamCountMismatch | src/towersim/control/ControlTowerInitialiser.java:118-120 | a count above 0 that differs from the number of aircraft lines fails |
| QueueLoader.QueueHeader | src/towersim/control/ControlTowerInitialiser.java:348-355 | a queue header gives a count exactly when it splits on ':' into two fields, the first the queue's class name and the second an int, and the count is that int |
| QueueLoader.ListedAircraft | src/towersim/control/ControlTowerInitialiser.java:357-377 | an accepted callsign line has exactly the announced number of callsigns, all known, and adds their matches in order; a line with an unknown callsign is rejected; only roster aircraft are ever added |
| QueueLoader.QueueBlock | src/towersim/control/ControlTowerInitialiser.java:339-385 | readQueue fails only with Malformed, consumes one or two lines when it succeeds, and adds only roster aircraft |
| QueueLoader.AddMatches | src/towersim/control/ControlTowerInitialiser.java:366-373 | the inner roster scan adds every aircraft with the callsign, in roster order, and reports a find exactly when the roster knows it |
| QueueLoader.AddListed | src/towersim/control/ControlTowerInitialiser.java:365-377 | the outer loop succeeds exactly when every callsign is known, and adds the matches of every callsign before the first unknown one |
| QueueLoader.ReadListedAircraft | src/towersim/control/ControlTowerInitialiser.java:357-377 | the handling of the callsign line computes the accepted-line outcome and the aircraft added |
| QueueLoader.ReadQueue | src/towersim/control/ControlTowerInitialiser.java:339-385 | readQueue computes the block's outcome and the aircraft it hands to the queue |
| QueueLoader.QueueBlockOfNoAircraft | src/towersim/control/ControlTowerInitialiser.java:356 | a count of at most 0 reads no callsign line and adds nothing |
| QueueLoader.QueueBlockSuccess | src/towersim/control/ControlTowerInitialiser.java:348-377 | an accepted block has a header naming the queue; with a count above 0 it consumes the next line, which holds exactly that many known callsigns, and the aircraft added carry (with unique callsigns) the listed callsigns in order |
| QueueLoader.QueueBlockUnknownCallsign | src/towersim/control/ControlTowerInitialiser.java:374-376 | a listed callsign that no roster aircraft has makes the block Malformed |
| QueueLoader.QueueHeaderOfEncoding | src/towersim/control/AircraftQueue.java:91 | the header encode writes reads back with the queue's size as its count |
| QueueLoader.ListedAircraftOfEncoding | src/towersim/control/AircraftQueue.java:117-123 | the callsign line encode writes for a non-empty queue is accepted and adds exactly the queued aircraft |
| QueueLoader.ListedAircraftOfKnown | src/towersim/control/ControlTowerInitialiser.java:361-377 | a line with the announced number of callsigns, all known, is accepted with the matches of its callsigns |
| QueueLoader.QueueRoundTrip | src/towersim/control/ControlTowerInitialiser.java:339-385 | readQueue undoes AircraftQueue.encode: reading the encoding of a queue of roster aircraft with unique plain callsigns adds exactly those aircraft, in order, and stops right after the encoding's lines |
| QueueLoader.TakeoffQueueRoundTrip | src/towersim/control/TakeoffQueue.java:72-85 | what a takeoff queue encodes, readQueue reads back as the queued aircraft in the same order |
| QueueLoader.LoadingEntries | src/towersim/control/ControlTowerInitialiser.java:437-458 | the entry loop never raises an IOException over the contents |
| QueueLoader.EntryOf | src/towersim/control/ControlTowerInitialiser.java:440-457 | an accepted loading entry names a roster aircraft and at least 1 tick |
| QueueLoader.LoadingEntriesKeys | src/towersim/control/ControlTowerInitialiser.java:437-458 | reading entries keeps every aircraft already in the map, adds only roster aircraft with at least 1 tick, and leaves an aircraft's ticks alone unless an entry names it |
| QueueLoader.LoadingEntriesStep | src/towersim/control/ControlTowerInitialiser.java:437-458 | an entry that reads is put into the map before reading goes on; an entry that fails ends the loop with its failure |
| QueueLoader.LoadingEntryAccepted | src/towersim/control/ControlTowerInitialiser.java:440-454 | every entry line of a successful read is itself accepted, and its entry is put into the map |
| QueueLoader.LoadingBlock | src/towersim/control/ControlTowerInitialiser.java:424-468 | readLoadingAircraft never raises an IOException; a missing header line is Malformed; a successful read keeps earlier entries and adds only roster aircraft with at least 1 tick |
| QueueLoader.FindAircraft | src/towersim/control/ControlTowerInitialiser.java:448-454 | the scan stops at the first roster aircraft with the callsign |
| QueueLoader.ReadLoadingEntry | src/towersim/control/ControlTowerInitialiser.java:440-457 | the loop body computes the reading of its entry line |
| QueueLoader.ReadLoadingEntries | src/towersim/control/ControlTowerInitialiser.java:437-458 | the loop reads entries to the end of the stream, computes the resulting map, and on success has counted every remaining line |
| QueueLoader.ReadLoadingAircraft | src/towersim/control/ControlTowerInitialiser.java:424-468 | readLoadingAircraft computes the loading block's outcome |
| QueueLoader.LoadingBlockOfNoAircraft | src/towersim/control/ControlTowerInitialiser.java:435-462 | a count of 0 leaves the map as it was; a negative count always fails |
| QueueLoader.LoadingBlockCount | src/towersim/control/ControlTowerInitialiser.java:460-462 | with a count above 0, success requires the count to equal the number of entry lines to the end of the stream |
| QueueLoader.LoadingEntryTicks | src/towersim/control/ControlTowerInitialiser.java:444-454 | an entry for a known callsign is accepted exactly when its ticks are at least 1, and then the first aircraft with that callsign is loading for that many ticks |
| QueueLoader.QueuesStream | src/towersim/control/ControlTowerInitialiser.java:289-308 | loadQueues never raises an IOException, hands only roster aircraft to the takeoff queue, and keeps earlier loading entries |
| QueueLoader.LoadQueues | src/towersim/control/ControlTowerInitialiser.java:289-308 | loadQueues gives the three blocks' outcome, and the takeoff queue ends as it was followed by the aircraft read for it, even when a later block fails |
| QueueLoader.AddAll | src/towersim/control/ControlTowerInitialiser.java:371 | each aircraft read goes to the back of the takeoff queue, in the order read |
| QueueLoader.EmptyQueuesAfterTakeoff | src/towersim/control/ControlTowerInitialiser.java:298-300 | after a takeoff block that reads, the headers of an empty landing queue and an empty loading map end the load with the takeoff aircraft and an empty map |
| QueueLoader.QueuesRoundTrip | src/towersim/control/ControlTowerInitialiser.java:289-308 | an encoded takeoff queue, an empty landing queue and an empty loading map load back as that takeoff queue and an empty map |
| TerminalLoader.Parked | src/towersim/control/ControlTowerInitialiser.java:639-646 | parking fails only with Malformed, and the parked aircraft is a roster aircraft with the line's callsign |
| TerminalLoader.GateOf | src/towersim/control/ControlTowerInitialiser.java:621-651 | an accepted gate has a number of at least 1, and an occupant only from the roster; readGate fails only with Malformed |
| TerminalLoader.GateFields | src/towersim/control/ControlTowerInitialiser.java:628-646 | on the ':'-fields of a gate line, an accepted gate has a number of at least 1 and only a roster occupant; failures are Malformed |
| TerminalLoader.ParkMatching | src/towersim/control/ControlTowerInitialiser.java:641-645 | the roster loop computes what is parked at the gate |
| TerminalLoader.ReadGate | src/towersim/control/ControlTowerInitialiser.java:621-651 | readGate computes the gate line's reading |
| TerminalLoader.GateOfEmpty | src/towersim/control/ControlTowerInitialiser.java:639 | "<number>:empty" reads as an unoccupied gate with that number, whatever callsigns the roster holds, since "empty" is tested before the roster scan |
| TerminalLoader.GateOfUnknownCallsign | src/towersim/control/ControlTowerInitialiser.java:639-646 | a gate line whose callsign no roster aircraft has reads as an unoccupied gate |
| TerminalLoader.GateOfKnownCallsign | src/towersim/control/ControlTowerInitialiser.java:639-646 | with unique callsigns, a gate line naming a roster aircraft reads as a gate occupied by that aircraft |
| TerminalLoader.GateOfRejects | src/towersim/control/ControlTowerInitialiser.java:627-635 | a gate line that is not two ':'-fields, or whose number is not an int of at least 1, is Malformed |
| TerminalLoader.HeaderOf | src/towersim/control/ControlTowerInitialiser.java:560-583 | a terminal header either reads or is Malformed; it never crashes |
| TerminalLoader.KindOf | src/towersim/control/ControlTowerInitialiser.java:577-583 | the type field names an airplane terminal exactly when it is "AirplaneTerminal", a helicopter terminal exactly when it is "HelicopterTerminal", and nothing otherwise |
| TerminalLoader.HeaderFields | src/towersim/control/ControlTowerInitialiser.java:560-583 | a header reads exactly when it has four fields, an int gate count and terminal number, a number of at least 1, a gate count between 0 and MAX_NUM_GATES, and a known type; the header then carries those values and parseBoolean of the emergency field |
| TerminalLoader.GateLines | src/towersim/control/ControlTowerInitialiser.java:585-591 | the gates read are exactly as many as announced, their lines exist, and their occupants are roster aircraft |
| TerminalLoader.TerminalAt | src/towersim/control/ControlTowerInitialiser.java:551-599 | readTerminal never crashes, and on success consumes its header and gate lines and holds only roster occupants |
| TerminalLoader.TerminalAfterHeader | src/towersim/control/ControlTowerInitialiser.java:585-598 | after a header that reads, the terminal reads exactly when its gate lines do; it is the header's terminal with those gates, and reading resumes right after the last gate line |
| TerminalLoader.TerminalAfterHeaderIsAt | src/towersim/control/ControlTowerInitialiser.java:560-598 | once the header reads, readTerminal is decided by the gate lines after it |
| TerminalLoader.ReadGates | src/towersim/control/ControlTowerInitialiser.java:585-591 | the gate loop computes the gate lines' reading |
| TerminalLoader.ReadTerminal | src/towersim/control/ControlTowerInitialiser.java:551-599 | readTerminal computes the terminal and the position after it |
| TerminalLoader.GatesAfterHeader | src/towersim/control/ControlTowerInitialiser.java:585-598 | the gate loop and the emergency declaration compute the terminal after its header |
| TerminalLoader.GateLinesEndOfStream | src/towersim/control/ControlTowerInitialiser.java:586-589 | asking for more gates than there are lines, when every line there reads as a gate, is an IOException |
| TerminalLoader.GateLinesReadEach | src/towersim/control/ControlTowerInitialiser.java:585-591 | each gate read is the reading of its own line, in line order |
| TerminalLoader.GateLinesStep | src/towersim/control/ControlTowerInitialiser.java:585-591 | the gates read are the gate of the first line followed by the gates of the rest |
| TerminalLoader.GateLinesIOError | src/towersim/control/ControlTowerInitialiser.java:586-589 | the gate lines fail with an IOException only when the stream ends before the last of them |
| TerminalLoader.TerminalsFrom | src/towersim/control/ControlTowerInitialiser.java:507-509 | reading terminals to the end of the stream never crashes, and every terminal read has only roster occupants |
| TerminalLoader.TerminalStream | src/towersim/control/ControlTowerInitialiser.java:495-520 | a successful load has a first-line count equal to the number of terminals, and every gate occupant is a roster aircraft |
| TerminalLoader.ReadTerminals | src/towersim/control/ControlTowerInitialiser.java:506-510 | the loop computes the terminals read to the end of the stream |
| TerminalLoader.LoadTerminalsWithGates | src/towersim/control/ControlTowerInitialiser.java:495-520 | loadTerminalsWithGates computes the terminal stream's outcome |
| TerminalLoader.TerminalStreamOfNoTerminals | src/towersim/control/ControlTowerInitialiser.java:504-518 | a count of 0 loads no terminals, whatever follows; a negative count is Malformed |
| TerminalLoader.TerminalsFromIOError | src/towersim/control/ControlTowerInitialiser.java:586-589 | an IOException from the terminal stream comes from a header whose gate count runs past the end of the stream |
| TowerLoader.TowerOf | src/towersim/control/ControlTowerInitialiser.java:687-707 | the tick fails first, then the aircraft, each with its own failure; a tower that loads is consistent, with the loaded tick and aircraft |
| TowerLoader.TowerFrom | src/towersim/control/ControlTowerInitialiser.java:692-705 | with the tick and aircraft loaded, the terminals then the queues decide the outcome; an IOException can only come from the terminals; a tower that loads holds the loaded terminals, queue and map, and is consistent |
| TowerLoader.CreateControlTower | src/towersim/control/ControlTowerInitialiser.java:687-707 | createControlTower computes the tower's outcome from the four files |
| TowerLoader.SavedTakeoffQueueLoads | src/towersim/control/ControlTowerInitialiser.java:695-702 | a saved takeoff queue, with an empty landing queue and loading map, is rebuilt exactly by createControlTower, whatever loads from the other three files |
| TowerLoader.EmptyTowerLoads | src/towersim/control/ControlTowerInitialiser.java:687-707 | the save of a tower with no aircraft, no terminals and empty queues loads back as that tower with its tick count |

## Left out

- Reader handling is not modelled: a null reader, `close`, and an IOException raised by the
  reader itself. Each reader is the list of lines it delivers. The only IOException modelled is
  the one `readTerminal` raises when a gate line is missing.
- Lines end in `"\n"` only; `"\r\n"` and a bare `"\r"` are not split as BufferedReader would split them.
- `Double.parseDouble` and the aircraft constructors' fuel check are left to the caller. They are
  a parameter, `Externals.fuelAccepted`, and the fuel field is kept as text.
- `AircraftCharacteristics.valueOf` is a parameter, `Externals.characteristics`. `Terminal.MAX_NUM_GATES`
  is `Externals.maxNumGates`.
- `Integer.parseInt` accepts ASCII digits only; the non-ASCII Unicode digits Java also accepts are not modelled.
- The aircraft, terminal, gate and ControlTower classes are not part of this model. The records
  keep exactly what the decoder hands to their constructors. `ControlTower`'s constructor and
  `addTerminal` are represented by the `Tower` record.
- Null aircraft are not modelled. Java's LinkedList accepts `addAircraft(null)`, and then
  `peekAircraft` returns null on a non-empty queue; the decoder never adds null.
- Aircraft equality is record equality. The source's `equals` and `hashCode` for aircraft are not part of this model.
- LandingQueue is a stub whose `addAircraft` stores nothing. The model reads its block, checking
  it and consuming its lines, and drops the aircraft read.
- The loading map is a `map<Aircraft, int>`. The source's TreeMap compares keys by callsign,
  but readLoadingAircraft always puts the first roster aircraft with a callsign, so the two
  keyings agree.
- `Gate.parkAircraft` on an occupied gate is taken to throw NoSpaceException (Malformed). That
  happens only when two loaded aircraft share the gate's callsign.
- Task's own `encode`, `toString` and constructor, and `TaskType`'s other members, are outside
  this model. They appear only as the encodings and displays the task list and the decoder use.
- Tasks.TaskList.ToString: states the fixed text around the position, not the digits of the position itself.
- Counters are unbounded integers. The queue sizes and line counts the round-trip lemmas use are
  bounded by `INT_MAX`, where `parseInt` would otherwise fail.
- When loading fails partway, the objects already changed stay changed. LoadQueues states the
  takeoff queue's contents in that case, and TowerOf does not model the partly built tower, which
  the source also discards.
- AircraftLoader.AircraftStream: its own contract only rules out an IOException. What a load gives is stated by
  AircraftStreamSuccess, AircraftStreamOfZero, AircraftStreamOfNegative and AircraftStreamCountMismatch.
- TerminalLoader.HeaderOf: states only that a header fails with Malformed. Its exact conditions are in HeaderFields.
