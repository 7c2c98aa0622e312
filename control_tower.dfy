/**
 * createControlTower: the four loaders in their fixed order, each on its own save file, and
 * what they hand to the ControlTower constructor.
 */
module TowerLoader {
  import opened Outcomes
  import opened JavaText
  import opened Entities
  import opened AircraftQueues
  import opened TakeoffQueues
  import opened AircraftLoader
  import opened QueueLoader
  import opened TerminalLoader

  /** The four readers, each as the lines it delivers. */
  datatype SaveFiles = SaveFiles(
    tick: seq<string>,
    aircraft: seq<string>,
    queues: seq<string>,
    terminalsWithGates: seq<string>)

  /**
   * What the ControlTower is built from: the ticks elapsed, every aircraft, the terminals in
   * the order they are added, the takeoff queue in order and the loading map.
   */
  datatype Tower = Tower(
    ticksElapsed: int,
    aircraft: seq<Aircraft>,
    terminals: seq<Terminal>,
    takeoffQueue: seq<Aircraft>,
    loadingAircraft: map<Aircraft, int>)

  /**
   * Every aircraft the tower refers to is one of its aircraft: the queued ones, the keys of
   * the loading map and the gate occupants; every loading time is at least 1 tick and the
   * tick count is not negative.
   */
  predicate Consistent(t: Tower) {
    && t.ticksElapsed >= 0
    && (forall a :: a in t.takeoffQueue ==> a in t.aircraft)
    && (forall a :: a in t.loadingAircraft ==> a in t.aircraft && t.loadingAircraft[a] >= 1)
    && (forall i :: 0 <= i < |t.terminals| ==> OccupantsKnown(t.terminals[i].gates, t.aircraft))
  }

  /**
   * createControlTower: the tick, then the aircraft, then the terminals with gates resolved
   * against the aircraft, then the queues into a new takeoff queue and an empty map. The first
   * loader that fails ends the load with its failure; only a terminal with fewer gate lines
   * than it announces ends it with an IOException.
   */
  function TowerOf(files: SaveFiles, ext: Externals): (r: Outcome<Tower>)
    ensures !LoadTick(files.tick).Ok? ==> r == Malformed
    ensures LoadTick(files.tick).Ok? && !AircraftStream(files.aircraft, ext).Ok? ==>
      r == AircraftStream(files.aircraft, ext).PropagateFailure()
    ensures r.Ok? ==> Consistent(r.value)
    ensures r.Ok? ==>
      && LoadTick(files.tick) == Ok(r.value.ticksElapsed)
      && AircraftStream(files.aircraft, ext) == Ok(r.value.aircraft)
    ensures r.IOError? ==>
      && AircraftStream(files.aircraft, ext).Ok?
      && TerminalStream(files.terminalsWithGates, AircraftStream(files.aircraft, ext).value, ext.maxNumGates).IOError?
  {
    var ticks :- LoadTick(files.tick);
    var aircraft :- AircraftStream(files.aircraft, ext);
    TowerFrom(ticks, aircraft, files, ext)
  }

  /** The terminals and the queues, once the tick and the aircraft are loaded. */
  function TowerFrom(ticks: int, aircraft: seq<Aircraft>, files: SaveFiles, ext: Externals): (r: Outcome<Tower>)
    requires ticks >= 0
    ensures r.Ok? ==> Consistent(r.value) && r.value.ticksElapsed == ticks && r.value.aircraft == aircraft
    ensures r.IOError? ==> TerminalStream(files.terminalsWithGates, aircraft, ext.maxNumGates).IOError?
    ensures !TerminalStream(files.terminalsWithGates, aircraft, ext.maxNumGates).Ok? ==>
      r == TerminalStream(files.terminalsWithGates, aircraft, ext.maxNumGates).PropagateFailure()
    ensures r.Ok? ==>
      && TerminalStream(files.terminalsWithGates, aircraft, ext.maxNumGates) == Ok(r.value.terminals)
      && QueuesStream(files.queues, aircraft, map[]) == QueuesRead(Ok(r.value.loadingAircraft), r.value.takeoffQueue)
  {
    var terminals :- TerminalStream(files.terminalsWithGates, aircraft, ext.maxNumGates);
    var queues := QueuesStream(files.queues, aircraft, map[]);
    var loading :- queues.outcome;
    Ok(Tower(ticks, aircraft, terminals, queues.takeoffAdded, loading))
  }

  /** createControlTower. */
  method CreateControlTower(files: SaveFiles, ext: Externals) returns (r: Outcome<Tower>)
    ensures r == TowerOf(files, ext)
  {
    var controlTowerTick := LoadTick(files.tick);
    if !controlTowerTick.Ok? {
      return controlTowerTick.PropagateFailure();
    }
    var controlTowerAircrafts := LoadAircraft(files.aircraft, ext);
    if !controlTowerAircrafts.Ok? {
      return controlTowerAircrafts.PropagateFailure();
    }
    var roster := controlTowerAircrafts.value;
    assert TowerOf(files, ext) == TowerFrom(controlTowerTick.value, roster, files, ext);
    var controlTowerTerminals := LoadTerminalsWithGates(files.terminalsWithGates, roster, ext.maxNumGates);
    if !controlTowerTerminals.Ok? {
      return controlTowerTerminals.PropagateFailure();
    }
    var takeoffQueue := new TakeoffQueue();
    var loadingAircraftMap := LoadQueues(files.queues, roster, takeoffQueue, map[]);
    if !loadingAircraftMap.Ok? {
      return loadingAircraftMap.PropagateFailure();
    }
    var queued := takeoffQueue.GetAircraftInOrder();
    ghost var queues := QueuesStream(files.queues, roster, map[]);
    assert [] + queues.takeoffAdded == queues.takeoffAdded;
    assert TowerFrom(controlTowerTick.value, roster, files, ext)
      == Ok(Tower(controlTowerTick.value, roster, controlTowerTerminals.value, queues.takeoffAdded, queues.outcome.value));
    return Ok(Tower(controlTowerTick.value, roster, controlTowerTerminals.value, queued, loadingAircraftMap.value));
  }

  /**
   * Saving the takeoff queue with AircraftQueue.encode, after an empty landing queue and an
   * empty loading map, makes createControlTower rebuild that takeoff queue and an empty map,
   * whatever the other three files hold, as long as they load.
   */
  lemma SavedTakeoffQueueLoads(files: SaveFiles, ext: Externals, q: seq<Aircraft>)
    requires LoadTick(files.tick).Ok? && AircraftStream(files.aircraft, ext).Ok?
    requires var roster := AircraftStream(files.aircraft, ext).value;
      && UniqueCallsigns(roster) && Listable(q, roster) && |q| <= INT_MAX
      && TerminalStream(files.terminalsWithGates, roster, ext.maxNumGates).Ok?
    requires files.queues == ReaderLines(QueueEncoding(TakeoffQueueName, q)) + ["LandingQueue:0", "LoadingAircraft:0"]
    ensures var roster := AircraftStream(files.aircraft, ext).value;
      TowerOf(files, ext) == Ok(Tower(
        LoadTick(files.tick).value, roster,
        TerminalStream(files.terminalsWithGates, roster, ext.maxNumGates).value, q, map[]))
  {
    QueuesRoundTrip(q, AircraftStream(files.aircraft, ext).value);
  }

  /** The save of an empty tower, which has only a tick count, loads as that empty tower. */
  lemma EmptyTowerLoads(ticks: nat, ext: Externals)
    requires ticks <= LONG_MAX
    ensures var files := SaveFiles(
      [NatToString(ticks)], ["0"],
      ReaderLines(QueueEncoding(TakeoffQueueName, [])) + ["LandingQueue:0", "LoadingAircraft:0"], ["0"]);
      TowerOf(files, ext) == Ok(Tower(ticks, [], [], [], map[]))
  {
    var files := SaveFiles(
      [NatToString(ticks)], ["0"],
      ReaderLines(QueueEncoding(TakeoffQueueName, [])) + ["LandingQueue:0", "LoadingAircraft:0"], ["0"]);
    LoadTickOfDecimal(ticks, []);
    assert [NatToString(ticks)] + [] == files.tick;
    assert NatToString(0) == "0";
    ParseIntegralOfIntToString(0, INT_MIN, INT_MAX);
    AircraftStreamOfZero(files.aircraft, ext);
    TerminalStreamOfNoTerminals(files.terminalsWithGates, [], ext.maxNumGates);
    SavedTakeoffQueueLoads(files, ext, []);
  }
}
