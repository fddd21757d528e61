/** Runs in which a property fails: each drops one condition that a theorem over all runs puts on a step. */
module Hazards {
  import opened Domain
  import opened Persistence
  import opened Sessions
  import opened Loading
  import opened Selection
  import opened Lifecycle
  import opened Pointers
  import opened Safety
  import opened Starts
  import opened SweepPass
  import opened Ledger
  import opened Meters

  const OPENED: Store := Store(
    map[1 := NewTransaction(1, StartAt(LEFT).start)],
    map[LEFT := Connector(1, 0), RIGHT := FREE], map[], map["CP1" := "site"])

  function Quietly(e: Event): Step {
    Step(e, [], NO_FAULTS, None)
  }

  const WAKE := Step(Restart, [LEFT, RIGHT], NO_FAULTS, None)

  lemma FirstStart(acceptPoints: bool)
    ensures Advance(Awake(Idle(), 1, acceptPoints), Quietly(StartAt(LEFT))) == Awake(OPENED, 2, acceptPoints)
  {
    var e := Perform(Awake(Idle(), 1, acceptPoints), Quietly(StartAt(LEFT)));
    assert OPENED.connectors == Idle().connectors[LEFT := Connector(1, 0)];
    assert OPENED.transactions == Idle().transactions[1 := NewTransaction(1, StartAt(LEFT).start)];
    assert Now(e.history) == OPENED;
  }

  lemma OpenedIsSingle(acceptPoints: bool)
    ensures Single(Awake(OPENED, 2, acceptPoints))
  {
  }

  // ---------- a release whose connector cannot be written ----------

  function FailedRelease(): seq<Step> {
    [ WAKE, Quietly(StartAt(LEFT)), Quietly(Select(0, 1)), Quietly(Figure(0)), Quietly(Close(0)),
      Step(Release(0), [], NO_FAULTS.(connector := true), None) ]
  }

  const ABORTED: Transaction := SweepFigures(NewTransaction(1, StartAt(LEFT).start), None)

  const CLOSED: Store := OPENED.(transactions := map[1 := ABORTED])

  function Sweeping(s: Store, x: Sweep): World {
    Up(s, Memory(OPENED.connectors, {"CP1"}, 2, false), map[0 := x])
  }

  const LEFT_OVER: World := Up(CLOSED, Memory(OPENED.connectors[LEFT := FREE], {"CP1"}, 2, false), map[0 := Freed(ABORTED)])

  function FailedReleaseWorlds(): seq<World> {
    [ Down(Idle(), false), Awake(Idle(), 1, false), Awake(OPENED, 2, false), Sweeping(OPENED, Selected(OPENED.transactions[1])),
      Sweeping(OPENED, Figured(ABORTED)), Sweeping(CLOSED, Sweep.Closed(ABORTED)), LEFT_OVER ]
  }

  lemma SweepRuns()
    ensures var w := Awake(OPENED, 2, false);
            var t := OPENED.transactions[1];
            && Advance(w, Quietly(Select(0, 1))) == Sweeping(OPENED, Selected(t))
            && Advance(Sweeping(OPENED, Selected(t)), Quietly(Figure(0))) == Sweeping(OPENED, Figured(ABORTED))
            && Advance(Sweeping(OPENED, Figured(ABORTED)), Quietly(Close(0))) == Sweeping(CLOSED, Sweep.Closed(ABORTED))
  {
    assert OPENED.UpdateTransaction(ABORTED).transactions == CLOSED.transactions;
    assert map[0 := Selected(OPENED.transactions[1])][0 := Figured(ABORTED)] == map[0 := Figured(ABORTED)];
    assert map[0 := Figured(ABORTED)][0 := Sweep.Closed(ABORTED)] == map[0 := Sweep.Closed(ABORTED)];
  }

  lemma ReleaseFails()
    ensures Advance(Sweeping(CLOSED, Sweep.Closed(ABORTED)), FailedRelease()[5]) == LEFT_OVER
  {
    assert map[0 := Sweep.Closed(ABORTED)][0 := Freed(ABORTED)] == map[0 := Freed(ABORTED)];
  }

  lemma FailedReleaseVisits()
    ensures Visits(FailedRelease(), FailedReleaseWorlds())
  {
    forall k | 0 <= k < |FailedRelease()| ensures Advance(FailedReleaseWorlds()[k], FailedRelease()[k]) == FailedReleaseWorlds()[k + 1] {
      match k
      case 0 => RestartIdle(Idle(), false);
      case 1 => FirstStart(false);
      case 2 => SweepRuns();
      case 3 => SweepRuns();
      case 4 => SweepRuns();
      case 5 => ReleaseFails();
    }
  }

  lemma StrandedIsUnsound()
    ensures Sound(Sweeping(CLOSED, Sweep.Closed(ABORTED))) && !Sound(LEFT_OVER)
    ensures PointsTo(LEFT_OVER.store, LEFT, 1) && Closing(LEFT_OVER.sweeps) == {} && ABORTED.finished
    ensures LEFT_OVER.memory.connectors == map[LEFT := FREE, RIGHT := FREE]
  {
    var w := Sweeping(CLOSED, Sweep.Closed(ABORTED));
    assert w.sweeps[0].Closed? && 1 in Closing(w.sweeps);
    assert PointsTo(LEFT_OVER.store, LEFT, 1) && Closing(LEFT_OVER.sweeps) == {};
  }

  /** The write of the release is lost: nobody holds the session in memory, the stored connector still
      points at the finished row, and no sweep is going to look at it again. */
  lemma FailedReleaseStrands()
    ensures var w := Run(Down(Idle(), false), FailedRelease()[..5]);
            var v := Run(Down(Idle(), false), FailedRelease());
            && Sound(w)
            && v.Up? && PointsTo(v.store, LEFT, 1) && v.store.transactions == map[1 := ABORTED] && ABORTED.finished
            && Closing(v.sweeps) == {} && v.memory.connectors == map[LEFT := FREE, RIGHT := FREE] && !Sound(v)
  {
    FailedReleaseRuns();
    StrandedIsUnsound();
  }

  lemma FailedReleaseRuns()
    ensures Run(Down(Idle(), false), FailedRelease()[..5]) == Sweeping(CLOSED, Sweep.Closed(ABORTED))
    ensures Run(Down(Idle(), false), FailedRelease()) == LEFT_OVER
  {
    FailedReleaseVisits();
    RunVisits(FailedRelease(), FailedReleaseWorlds(), 5);
    RunVisits(FailedRelease(), FailedReleaseWorlds(), 6);
    assert FailedRelease()[..6] == FailedRelease();
  }

  // ---------- a start that dies between its two writes ----------

  const HALFWAY: Store := OPENED.(connectors := map[LEFT := FREE, RIGHT := FREE])

  lemma StartDiesHalfway()
    ensures Run(Down(Idle(), false), [WAKE, Step(StartAt(LEFT), [], NO_FAULTS, Some(1))]) == Down(HALFWAY, false)
    ensures !OneOpen(HALFWAY)
  {
    var x := Step(StartAt(LEFT), [], NO_FAULTS, Some(1));
    RestartIdle(Idle(), false);
    RunSplits(Down(Idle(), false), [WAKE, x]);
    assert [WAKE, x][1..] == [x];
    RunSplits(Awake(Idle(), 1, false), [x]);
    assert HALFWAY.transactions == Idle().transactions[1 := NewTransaction(1, StartAt(LEFT).start)];
    assert Perform(Awake(Idle(), 1, false), x).history[1] == HALFWAY;
    assert !PointsTo(HALFWAY, LEFT, 1) && HALFWAY.transactions[1].place == LEFT;
  }

  // ---------- a stop from a charge point that does not own the session ----------

  const ABROAD := Place("CP2", 1)

  const FOREIGN := StopRequest("CP2", 1, 5, 0, "Local", [])

  const STOPPED: Transaction := StopFigures(NewTransaction(1, StartAt(LEFT).start), FOREIGN)

  const ROBBED: World := Up(
    Store(map[1 := STOPPED], OPENED.connectors[ABROAD := FREE], map[], OPENED.chargePoints["CP2" := ""]),
    Memory(OPENED.connectors[ABROAD := FREE], {"CP1", "CP2"}, 2, true), map[])

  function ForeignStop(): seq<Step> {
    [WAKE, Quietly(StartAt(LEFT)), Quietly(Stop(FOREIGN))]
  }

  function ForeignStopWorlds(): seq<World> {
    [Down(Idle(), true), Awake(Idle(), 1, true), Awake(OPENED, 2, true), ROBBED]
  }

  lemma ForeignStops()
    ensures Advance(Awake(OPENED, 2, true), Quietly(Stop(FOREIGN))) == ROBBED
  {
    StopFiguresKeeps(NewTransaction(1, StartAt(LEFT).start), FOREIGN);
    var s := OPENED;
    assert s.UpdateTransaction(STOPPED).transactions == map[1 := STOPPED];
    assert s.DeleteSamples(1).samples == map[];
    assert OPENED.connectors[ABROAD := FREE][ABROAD := FREE] == OPENED.connectors[ABROAD := FREE];
    assert {"CP1"} + {"CP2"} == {"CP1", "CP2"};
  }

  /** A stop naming it from elsewhere closes the row and leaves the owner pointing at it. */
  lemma ForeignStopStrands()
    ensures var w := Run(Down(Idle(), true), ForeignStop()[..2]);
            var v := Run(Down(Idle(), true), ForeignStop());
            && w.Up? && Sound(w) && !Harmless(w.store, w.memory, Closing(w.sweeps), FOREIGN)
            && PointsTo(v.store, LEFT, 1) && 1 in v.store.transactions && v.store.transactions[1].finished && !Sound(v)
  {
    ForeignStopVisits();
    RunVisits(ForeignStop(), ForeignStopWorlds(), 2);
    RunVisits(ForeignStop(), ForeignStopWorlds(), 3);
    assert ForeignStop()[..3] == ForeignStop();
    OpenedIsSingle(true);
    RobbedIsUnsound();
  }

  lemma ForeignStopVisits()
    ensures Visits(ForeignStop(), ForeignStopWorlds())
  {
    forall k | 0 <= k < |ForeignStop()| ensures Advance(ForeignStopWorlds()[k], ForeignStop()[k]) == ForeignStopWorlds()[k + 1] {
      match k
      case 0 => RestartIdle(Idle(), true);
      case 1 => FirstStart(true);
      case 2 => ForeignStops();
    }
  }

  lemma RobbedIsUnsound()
    ensures !Harmless(OPENED, Awake(OPENED, 2, true).memory, {}, FOREIGN)
    ensures PointsTo(ROBBED.store, LEFT, 1) && STOPPED.finished && !Sound(ROBBED)
  {
    StopFiguresKeeps(NewTransaction(1, StartAt(LEFT).start), FOREIGN);
    assert PointsTo(OPENED, LEFT, 1) && PointsTo(ROBBED.store, LEFT, 1);
    assert ROBBED.sweeps == map[] && Closing(ROBBED.sweeps) == {};
  }

  // ---------- a late stop of a superseded session ----------

  const LATE := StopRequest("CP1", 1, 5, 0, "Local", [])

  const DONE: Store := Store(
    map[1 := StopFigures(NewTransaction(1, StartAt(LEFT).start), LATE)],
    map[LEFT := FREE, RIGHT := FREE], map[], map["CP1" := "site"])

  const AGAIN: Store := DONE.(
    transactions := DONE.transactions[2 := NewTransaction(2, StartAt(LEFT).start)],
    connectors := map[LEFT := Connector(2, 0), RIGHT := FREE])

  const EXPOSED: Store := AGAIN.(connectors := map[LEFT := FREE, RIGHT := FREE])

  function LateStop(): seq<Step> {
    [WAKE, Quietly(StartAt(LEFT)), Quietly(Stop(LATE)), Quietly(StartAt(LEFT)), Quietly(Stop(LATE))]
  }

  lemma LateStops()
    ensures Advance(Awake(OPENED, 2, false), Quietly(Stop(LATE))) == Awake(DONE, 2, false)
    ensures Advance(Awake(AGAIN, 3, false), Quietly(Stop(LATE))) == Awake(EXPOSED, 3, false)
  {
    StopFiguresKeeps(NewTransaction(1, StartAt(LEFT).start), LATE);
    var t := StopFigures(NewTransaction(1, StartAt(LEFT).start), LATE);
    var s := OPENED;
    assert s.UpdateTransaction(t).transactions == DONE.transactions;
    assert s.DeleteSamples(1).samples == map[];
    assert OPENED.connectors[LEFT := FREE] == DONE.connectors && AGAIN.connectors[LEFT := FREE] == EXPOSED.connectors;
  }

  lemma SecondStart()
    ensures Advance(Awake(DONE, 2, false), Quietly(StartAt(LEFT))) == Awake(AGAIN, 3, false)
  {
    assert DONE.connectors[LEFT := Connector(2, 0)] == AGAIN.connectors;
  }

  /** The same stop again, after the connector has taken up another session, releases that one. */
  lemma LateStopDisplaces()
    ensures var w := Run(Down(Idle(), false), LateStop()[..4]);
            var v := Run(Down(Idle(), false), LateStop());
            && w.Up? && Single(w) && Displaces(w.store, w.memory, LATE, NO_FAULTS)
            && 2 in v.store.transactions && !v.store.transactions[2].finished && !OneOpen(v.store)
  {
    LateStopVisits();
    RunVisits(LateStop(), LateStopWorlds(), 4);
    RunVisits(LateStop(), LateStopWorlds(), 5);
    assert LateStop()[..5] == LateStop();
    LateStopSides();
  }

  function LateStopWorlds(): seq<World> {
    [ Down(Idle(), false), Awake(Idle(), 1, false), Awake(OPENED, 2, false), Awake(DONE, 2, false),
      Awake(AGAIN, 3, false), Awake(EXPOSED, 3, false) ]
  }

  lemma LateStopVisits()
    ensures Visits(LateStop(), LateStopWorlds())
  {
    forall k | 0 <= k < |LateStop()| ensures Advance(LateStopWorlds()[k], LateStop()[k]) == LateStopWorlds()[k + 1] {
      match k
      case 0 => RestartIdle(Idle(), false);
      case 1 => FirstStart(false);
      case 2 => LateStops();
      case 3 => SecondStart();
      case 4 => LateStops();
    }
  }

  lemma LateStopSides()
    ensures Single(Awake(AGAIN, 3, false)) && !OneOpen(EXPOSED)
    ensures Displaces(AGAIN, Awake(AGAIN, 3, false).memory, LATE, NO_FAULTS)
  {
    StopFiguresKeeps(NewTransaction(1, StartAt(LEFT).start), LATE);
    assert PointsTo(AGAIN, LEFT, 2) && AGAIN.transactions[2].place == LEFT;
    assert !PointsTo(EXPOSED, LEFT, 2) && EXPOSED.transactions[2].place == LEFT;
  }

  // ---------- a sweep that has to create a connector ----------

  const BARE: Store := Store(map[], map[], map[], map["CP1" := "site"])

  function StartThen(time: int): StartRequest {
    StartRequest(LEFT, 0, time, None)
  }

  const ONE: Store := BARE.(transactions := map[1 := NewTransaction(1, StartThen(0))])

  const TWO: Store := ONE.(transactions := ONE.transactions[2 := NewTransaction(2, StartThen(17 * MINUTE))])

  const DIE := Step(Status(LEFT), [], NO_FAULTS, Some(0))

  /** Twice a session starts whose connector cannot be written, and twice the process dies. */
  function Unconnected(): seq<Step> {
    [ Quietly(Restart), Step(Start(StartThen(0)), [], NO_FAULTS.(connector := true), None), DIE,
      Quietly(Restart), Step(Start(StartThen(17 * MINUTE)), [], NO_FAULTS.(connector := true), None), DIE,
      Quietly(Restart) ]
  }

  function Fresh(s: Store, nextId: int): World {
    Up(s, Memory(map[], {"CP1"}, nextId, false), map[])
  }

  function Pinned(s: Store, id: int): World {
    Up(s, Memory(map[LEFT := Connector(id, 0)], {"CP1"}, id + 1, false), map[])
  }

  function UnconnectedWorlds(): seq<World> {
    [ Down(BARE, false), Fresh(BARE, 1), Pinned(ONE, 1), Down(ONE, false), Fresh(ONE, 2), Pinned(TWO, 2),
      Down(TWO, false), Fresh(TWO, 3) ]
  }

  lemma FreshRestarts(s: Store, nextId: int)
    requires s.connectors == map[] && s.chargePoints == BARE.chargePoints && nextId >= 1
    requires forall i :: i in s.transactions <==> 1 <= i < nextId
    ensures Advance(Down(s, false), Quietly(Restart)) == Fresh(s, nextId)
  {
    assert ListsConnectors([], s);
    assert {"CP1"} == s.chargePoints.Keys;
    if nextId > 1 {
      assert nextId - 1 in s.transactions;
      LastIdUnique(s, Some(nextId - 1));
    }
  }

  lemma PinnedStarts(s: Store, s': Store, id: int, time: int)
    requires s.connectors == map[] && s.chargePoints == BARE.chargePoints && id >= 1 && id !in s.transactions
    requires s' == s.(transactions := s.transactions[id := NewTransaction(id, StartThen(time))])
    ensures Advance(Fresh(s, id), Step(Start(StartThen(time)), [], NO_FAULTS.(connector := true), None)) == Pinned(s', id)
    ensures Advance(Pinned(s', id), DIE) == Down(s', false)
  {
    assert map[LEFT := FREE][LEFT := Connector(id, 0)] == map[LEFT := Connector(id, 0)];
  }

  /** Two open sessions of one connector that is not stored, one of them stale: closing the stale one
      creates the connector, and the other is then taken for moved on. Connectors only go missing where
      they could not be written, or were deleted from outside. */
  lemma SweepReveals()
    ensures var w := Run(Down(BARE, false), Unconnected());
            && w.Up? && Anchored(w) && Calm([w.store], w.memory, {})
            && Revealed(w.store, w.memory, 2, 20 * MINUTE)
  {
    UnconnectedVisits();
    RunVisits(Unconnected(), UnconnectedWorlds(), 7);
    assert Unconnected()[..7] == Unconnected();
    TwoReveals();
  }

  lemma UnconnectedVisits()
    ensures Visits(Unconnected(), UnconnectedWorlds())
  {
    forall k | 0 <= k < |Unconnected()| ensures Advance(UnconnectedWorlds()[k], Unconnected()[k]) == UnconnectedWorlds()[k + 1] {
      if k < 3 { FirstUnconnected(k); } else { SecondUnconnected(k); }
    }
  }

  lemma FirstUnconnected(k: nat)
    requires k < 3
    ensures Advance(UnconnectedWorlds()[k], Unconnected()[k]) == UnconnectedWorlds()[k + 1]
  {
    match k
    case 0 => FreshRestarts(BARE, 1);
    case _ => PinnedStarts(BARE, ONE, 1, 0);
  }

  lemma SecondUnconnected(k: nat)
    requires 3 <= k < 7
    ensures Advance(UnconnectedWorlds()[k], Unconnected()[k]) == UnconnectedWorlds()[k + 1]
  {
    match k
    case 3 => FreshRestarts(ONE, 2);
    case 6 => FreshRestarts(TWO, 3);
    case _ => PinnedStarts(ONE, TWO, 2, 17 * MINUTE);
  }

  lemma TwoReveals()
    ensures var w := Fresh(TWO, 3);
            && Anchored(w) && Calm([w.store], w.memory, {}) && Revealed(w.store, w.memory, 2, 20 * MINUTE)
  {
    assert TWO.SamplesOf(1) == [] && TWO.SamplesOf(2) == [];
    assert AbandonedAt(TWO, TWO.transactions[1], 20 * MINUTE);
    assert 1 in AbandonedIds(TWO, 20 * MINUTE);
    assert !AbandonedAt(TWO, TWO.transactions[2], 20 * MINUTE);
  }

  // ---------- a restart that cannot read the highest id ----------

  const BOTH: Store := OPENED.(connectors := map[LEFT := Connector(1, 0), RIGHT := Connector(1, 0)])

  const BLIND := Step(Restart, [LEFT, RIGHT], NO_FAULTS.(read := true), None)

  function UnreadRestart(): seq<Step> {
    [WAKE, Quietly(StartAt(LEFT)), DIE, BLIND, Quietly(StartAt(RIGHT))]
  }

  function UnreadRestartWorlds(): seq<World> {
    [ Down(Idle(), false), Awake(Idle(), 1, false), Awake(OPENED, 2, false), Down(OPENED, false), Awake(OPENED, 1, false),
      Awake(BOTH, 2, false) ]
  }

  lemma BlindRestart()
    ensures Advance(Down(OPENED, false), BLIND) == Awake(OPENED, 1, false)
  {
    var m, f := Memory(map[], {"CP1"}, 1, false), BLIND.faults;
    assert forall p :: p in [LEFT, RIGHT] <==> p == LEFT || p == RIGHT;
    assert LEFT != RIGHT && ListsConnectors([LEFT, RIGHT], OPENED) && OPENED.chargePoints.Keys == {"CP1"};
    BlindLoads(m, f);
  }

  lemma BlindLoads(m: Memory, f: Faults)
    requires m.connectors == map[] && f.read
    ensures LoadConnectors([OPENED], m, {"CP1"}, [LEFT, RIGHT], f) == Located(true, [OPENED], m.(connectors := OPENED.connectors))
  {
    assert Now([OPENED]) == OPENED;
    var m1 := m.(connectors := map[LEFT := Connector(1, 0)]);
    var m2 := m.(connectors := OPENED.connectors);
    assert m1.connectors[RIGHT := FREE] == m2.connectors;
    assert LoadConnector([OPENED], m, LEFT, f) == Located(true, [OPENED], m1);
    assert LoadConnector([OPENED], m1, RIGHT, f) == Located(true, [OPENED], m2);
    assert [LEFT, RIGHT][1..] == [RIGHT] && [RIGHT][1..] == [];
    assert LoadConnectors([OPENED], m1, {"CP1"}, [RIGHT], f) == LoadConnectors([OPENED], m2, {"CP1"}, [], f);
  }

  lemma TakenIdStarts()
    ensures Advance(Awake(OPENED, 1, false), Quietly(StartAt(RIGHT))) == Awake(BOTH, 2, false)
    ensures Perform(Awake(BOTH, 2, false), Quietly(StartAt(RIGHT))).reply == ConcurrentTx(1)
  {
    assert OPENED.connectors[RIGHT := Connector(1, 0)] == BOTH.connectors;
  }

  lemma UnreadRestartVisits()
    ensures Visits(UnreadRestart(), UnreadRestartWorlds())
  {
    forall k | 0 <= k < |UnreadRestart()| ensures Advance(UnreadRestartWorlds()[k], UnreadRestart()[k]) == UnreadRestartWorlds()[k + 1] {
      match k
      case 0 => RestartIdle(Idle(), false);
      case 1 => FirstStart(false);
      case 2 => assert Advance(Awake(OPENED, 2, false), DIE) == Down(OPENED, false);
      case 3 => BlindRestart();
      case 4 => TakenIdStarts();
    }
  }

  /** Every row is stored, but the restart begins again at id 1. The next start is accepted under the id
      of the session still running, so two connectors hold that session, and the second is then refused. */
  lemma UnreadRestartShares()
    ensures var w, v := Run(Down(Idle(), false), UnreadRestart()[..3]), Run(Down(Idle(), false), UnreadRestart());
            && Sound(w) && !Anchored(v) && !Sound(v) && v.Up? && v.store.transactions == w.store.transactions
            && PointsTo(v.store, LEFT, 1) && PointsTo(v.store, RIGHT, 1)
            && 1 in v.store.transactions && v.store.transactions[1].place == LEFT
            && Perform(v, Quietly(StartAt(RIGHT))).reply == ConcurrentTx(1)
  {
    UnreadRestartRuns();
    SharedSides();
  }

  lemma UnreadRestartRuns()
    ensures Run(Down(Idle(), false), UnreadRestart()[..3]) == Down(OPENED, false)
    ensures Run(Down(Idle(), false), UnreadRestart()) == Awake(BOTH, 2, false)
  {
    UnreadRestartVisits();
    RunVisits(UnreadRestart(), UnreadRestartWorlds(), 3);
    RunVisits(UnreadRestart(), UnreadRestartWorlds(), 5);
    assert UnreadRestart()[..5] == UnreadRestart();
  }

  lemma SharedSides()
    ensures Sound(Down(OPENED, false)) && !Anchored(Awake(BOTH, 2, false)) && !Sound(Awake(BOTH, 2, false))
    ensures PointsTo(BOTH, LEFT, 1) && PointsTo(BOTH, RIGHT, 1) && BOTH.transactions[1].place == LEFT
    ensures Perform(Awake(BOTH, 2, false), Quietly(StartAt(RIGHT))).reply == ConcurrentTx(1)
  {
    TakenIdStarts();
    assert !Holds(BOTH, RIGHT, 1);
  }

  // ---------- a sweep whose row cannot be written ----------

  function FailedClose(): seq<Step> {
    [ WAKE, Quietly(StartAt(LEFT)), Quietly(Select(0, 1)), Quietly(Figure(0)),
      Step(Close(0), [], NO_FAULTS.(updateTransaction := true), None), Quietly(Release(0)) ]
  }

  const GIVEN_UP: World := Up(HALFWAY, Memory(HALFWAY.connectors, {"CP1"}, 2, false), map[0 := Freed(ABORTED)])

  function FailedCloseWorlds(): seq<World> {
    [ Down(Idle(), false), Awake(Idle(), 1, false), Awake(OPENED, 2, false), Sweeping(OPENED, Selected(OPENED.transactions[1])),
      Sweeping(OPENED, Figured(ABORTED)), Sweeping(OPENED, Sweep.Closed(ABORTED)), GIVEN_UP ]
  }

  lemma CloseFails()
    ensures Advance(Sweeping(OPENED, Figured(ABORTED)), FailedClose()[4]) == Sweeping(OPENED, Sweep.Closed(ABORTED))
    ensures Advance(Sweeping(OPENED, Sweep.Closed(ABORTED)), Quietly(Release(0))) == GIVEN_UP
  {
    assert map[0 := Figured(ABORTED)][0 := Sweep.Closed(ABORTED)] == map[0 := Sweep.Closed(ABORTED)];
    assert map[0 := Sweep.Closed(ABORTED)][0 := Freed(ABORTED)] == map[0 := Freed(ABORTED)];
    assert OPENED.connectors[LEFT := FREE] == HALFWAY.connectors;
  }

  lemma FailedCloseVisits()
    ensures Visits(FailedClose(), FailedCloseWorlds())
  {
    forall k | 0 <= k < |FailedClose()| ensures Advance(FailedCloseWorlds()[k], FailedClose()[k]) == FailedCloseWorlds()[k + 1] {
      match k
      case 0 => RestartIdle(Idle(), false);
      case 1 => FirstStart(false);
      case 2 => SweepRuns();
      case 3 => SweepRuns();
      case 4 => CloseFails();
      case 5 => CloseFails();
    }
  }

  /** The release goes ahead although the row is still open, so no connector holds an open session. */
  lemma FailedCloseExposes()
    ensures var w, v := Run(Down(Idle(), false), FailedClose()[..5]), Run(Down(Idle(), false), FailedClose());
            && Single(w) && Sound(v)
            && 1 in v.store.transactions && !v.store.transactions[1].finished && !OneOpen(v.store)
  {
    FailedCloseVisits();
    RunVisits(FailedClose(), FailedCloseWorlds(), 5);
    RunVisits(FailedClose(), FailedCloseWorlds(), 6);
    assert FailedClose()[..6] == FailedClose();
    FailedCloseSides();
  }

  lemma FailedCloseSides()
    ensures Single(Sweeping(OPENED, Sweep.Closed(ABORTED))) && Sound(GIVEN_UP) && !OneOpen(HALFWAY)
  {
    assert Single(Sweeping(OPENED, Sweep.Closed(ABORTED)));
    assert !PointsTo(HALFWAY, LEFT, 1) && HALFWAY.transactions[1].place == LEFT;
  }

  // ---------- a stop whose connector cannot be written ----------

  function FailedStop(): seq<Step> {
    [WAKE, Quietly(StartAt(LEFT)), Step(Stop(LATE), [], NO_FAULTS.(connector := true), None)]
  }

  const STUCK: World := Up(
    DONE.(connectors := OPENED.connectors), Memory(DONE.connectors, {"CP1"}, 2, false), map[])

  function FailedStopWorlds(): seq<World> {
    [Down(Idle(), false), Awake(Idle(), 1, false), Awake(OPENED, 2, false), STUCK]
  }

  lemma StopFails()
    ensures Advance(Awake(OPENED, 2, false), FailedStop()[2]) == STUCK
  {
    StopFiguresKeeps(NewTransaction(1, StartAt(LEFT).start), LATE);
    var t := StopFigures(NewTransaction(1, StartAt(LEFT).start), LATE);
    var s := OPENED;
    assert s.UpdateTransaction(t).transactions == DONE.transactions;
    assert s.DeleteSamples(1).samples == map[];
    assert OPENED.connectors[LEFT := FREE] == DONE.connectors;
  }

  lemma FailedStopVisits()
    ensures Visits(FailedStop(), FailedStopWorlds())
  {
    forall k | 0 <= k < |FailedStop()| ensures Advance(FailedStopWorlds()[k], FailedStop()[k]) == FailedStopWorlds()[k + 1] {
      match k
      case 0 => RestartIdle(Idle(), false);
      case 1 => FirstStart(false);
      case 2 => StopFails();
    }
  }

  /** The session's own stop closes the row and frees the connector in memory; the stored connector is
      left pointing at the finished row. */
  lemma FailedStopStrands()
    ensures var w, v := Run(Down(Idle(), false), FailedStop()[..2]), Run(Down(Idle(), false), FailedStop());
            && w.Up? && Sound(w) && Harmless(w.store, w.memory, Closing(w.sweeps), LATE)
            && v.Up? && PointsTo(v.store, LEFT, 1) && 1 in v.store.transactions && v.store.transactions[1].finished
            && v.memory.connectors == map[LEFT := FREE, RIGHT := FREE] && !Sound(v)
  {
    FailedStopVisits();
    RunVisits(FailedStop(), FailedStopWorlds(), 2);
    RunVisits(FailedStop(), FailedStopWorlds(), 3);
    assert FailedStop()[..3] == FailedStop();
    OpenedIsSingle(false);
    StuckIsUnsound();
  }

  lemma StuckIsUnsound()
    ensures PointsTo(STUCK.store, LEFT, 1) && STUCK.store.transactions[1].finished && !Sound(STUCK)
  {
    StopFiguresKeeps(NewTransaction(1, StartAt(LEFT).start), LATE);
    assert LEFT in STUCK.memory.connectors && !Agree(1, -1);
  }

  // ---------- meter stops overwritten by lower ones ----------

  function Overtaken(): seq<Step> {
    [ WAKE, Quietly(StartAt(LEFT)), Quietly(Select(0, 1)), Quietly(Figure(0)), Quietly(Stop(LATE)), Quietly(Close(0)) ]
  }

  function OvertakenWorlds(): seq<World> {
    [ Down(Idle(), false), Awake(Idle(), 1, false), Awake(OPENED, 2, false), Sweeping(OPENED, Selected(OPENED.transactions[1])),
      Sweeping(OPENED, Figured(ABORTED)), Tardy(DONE, Figured(ABORTED)),
      Tardy(DONE.(transactions := map[1 := ABORTED]), Sweep.Closed(ABORTED)) ]
  }

  /** A sweep still at work when the stop has freed the connector. */
  function Tardy(s: Store, x: Sweep): World {
    Up(s, Memory(DONE.connectors, {"CP1"}, 2, false), map[0 := x])
  }

  lemma StopOvertakes()
    ensures Advance(Sweeping(OPENED, Figured(ABORTED)), Quietly(Stop(LATE))) == Tardy(DONE, Figured(ABORTED))
    ensures Advance(Tardy(DONE, Figured(ABORTED)), Quietly(Close(0)))
            == Tardy(DONE.(transactions := map[1 := ABORTED]), Sweep.Closed(ABORTED))
  {
    StopFiguresKeeps(NewTransaction(1, StartAt(LEFT).start), LATE);
    var t := StopFigures(NewTransaction(1, StartAt(LEFT).start), LATE);
    var s := OPENED;
    assert s.UpdateTransaction(t).transactions == DONE.transactions;
    assert s.DeleteSamples(1).samples == map[];
    assert OPENED.connectors[LEFT := FREE] == DONE.connectors;
    assert DONE.UpdateTransaction(ABORTED).transactions == map[1 := ABORTED];
    assert map[0 := Figured(ABORTED)][0 := Sweep.Closed(ABORTED)] == map[0 := Sweep.Closed(ABORTED)];
  }

  lemma OvertakenVisits()
    ensures Visits(Overtaken(), OvertakenWorlds())
  {
    forall k | 0 <= k < |Overtaken()| ensures Advance(OvertakenWorlds()[k], Overtaken()[k]) == OvertakenWorlds()[k + 1] {
      match k
      case 0 => RestartIdle(Idle(), false);
      case 1 => FirstStart(false);
      case 2 => SweepRuns();
      case 3 => SweepRuns();
      case 4 => StopOvertakes();
      case 5 => StopOvertakes();
    }
  }

  /** A stop reports 5 while a sweep, which found no sample, holds figures with 0; the sweep's write
      comes last. */
  lemma OvertakenLosesFigure()
    ensures var w, v := Run(Down(Idle(), false), Overtaken()[..5]), Run(Down(Idle(), false), Overtaken());
            Stored(w.store, 1) == Some(5) && !KeepsHighest(w, Quietly(Close(0)), 1) && Stored(v.store, 1) == Some(0)
  {
    OvertakenVisits();
    RunVisits(Overtaken(), OvertakenWorlds(), 5);
    RunVisits(Overtaken(), OvertakenWorlds(), 6);
    assert Overtaken()[..6] == Overtaken();
    OvertakenSides();
  }

  lemma OvertakenSides()
    ensures Stored(DONE, 1) == Some(5) && !KeepsHighest(Tardy(DONE, Figured(ABORTED)), Quietly(Close(0)), 1)
    ensures Stored(OvertakenWorlds()[6].store, 1) == Some(0)
  {
    StopOvertakes();
    StopFiguresKeeps(NewTransaction(1, StartAt(LEFT).start), LATE);
    StopFiles(NewTransaction(1, StartAt(LEFT).start), LATE);
  }

  const AMENDED := StopRequest("CP1", 1, 7, 0, "Local", [End(3, 0)])

  function Amends(): seq<Step> {
    [WAKE, Quietly(StartAt(LEFT)), Quietly(Stop(LATE)), Quietly(Stop(AMENDED))]
  }

  function AmendsWorlds(): seq<World> {
    [ Down(Idle(), false), Awake(Idle(), 1, false), Awake(OPENED, 2, false), Awake(DONE, 2, false),
      Awake(DONE.(transactions := map[1 := StopFigures(DONE.transactions[1], AMENDED)]), 2, false) ]
  }

  lemma StopAmends()
    ensures Advance(Awake(DONE, 2, false), Quietly(Stop(AMENDED)))
            == Awake(DONE.(transactions := map[1 := StopFigures(DONE.transactions[1], AMENDED)]), 2, false)
  {
    var t := NewTransaction(1, StartAt(LEFT).start);
    StopFiguresKeeps(t, LATE);
    StopFiles(t, LATE);
    StopFiguresKeeps(DONE.transactions[1], AMENDED);
    var t' := StopFigures(DONE.transactions[1], AMENDED);
    var s := DONE;
    assert s.UpdateTransaction(t').transactions == map[1 := t'];
    assert s.DeleteSamples(1).samples == map[];
    assert DONE.connectors[LEFT := FREE] == DONE.connectors;
  }

  lemma AmendsVisits()
    ensures Visits(Amends(), AmendsWorlds())
  {
    forall k | 0 <= k < |Amends()| ensures Advance(AmendsWorlds()[k], Amends()[k]) == AmendsWorlds()[k + 1] {
      match k
      case 0 => RestartIdle(Idle(), false);
      case 1 => FirstStart(false);
      case 2 => LateStops();
      case 3 => StopAmends();
    }
  }

  /** A second stop is let through by the 7 it reports, and files the 3 of its closing boundary value
      over the stored 5. */
  lemma AmendedStopLosesFigure()
    ensures var w, v := Run(Down(Idle(), false), Amends()[..3]), Run(Down(Idle(), false), Amends());
            Stored(w.store, 1) == Some(5) && !KeepsHighest(w, Quietly(Stop(AMENDED)), 1) && Stored(v.store, 1) == Some(3)
  {
    AmendsVisits();
    RunVisits(Amends(), AmendsWorlds(), 3);
    RunVisits(Amends(), AmendsWorlds(), 4);
    assert Amends()[..4] == Amends();
    AmendedSides();
  }

  lemma AmendedSides()
    ensures Stored(DONE, 1) == Some(5) && !KeepsHighest(Awake(DONE, 2, false), Quietly(Stop(AMENDED)), 1)
    ensures Stored(AmendsWorlds()[4].store, 1) == Some(3)
  {
    var t := NewTransaction(1, StartAt(LEFT).start);
    StopFiguresKeeps(t, LATE);
    StopFiles(t, LATE);
    StopFiguresKeeps(DONE.transactions[1], AMENDED);
    StopFiles(DONE.transactions[1], AMENDED);
    assert LastEnd(AMENDED.boundaries) == Some(3);
    StopAmends();
  }

  // ---------- evaluating a run ----------

  /** The worlds a run visits. */
  ghost predicate Visits(steps: seq<Step>, worlds: seq<World>) {
    |worlds| == |steps| + 1 && forall k :: 0 <= k < |steps| ==> Advance(worlds[k], steps[k]) == worlds[k + 1]
  }

  lemma {:induction false} RunVisits(steps: seq<Step>, worlds: seq<World>, k: nat)
    requires Visits(steps, worlds) && k <= |steps|
    ensures Run(worlds[0], steps[..k]) == worlds[k]
    decreases |steps|
  {
    if k > 0 {
      forall j | 0 <= j < |steps[1..]| ensures Advance(worlds[1..][j], steps[1..][j]) == worlds[1..][j + 1] {
        assert Advance(worlds[j + 1], steps[j + 1]) == worlds[j + 2];
      }
      RunVisits(steps[1..], worlds[1..], k - 1);
      assert steps[..k][1..] == steps[1..][..k - 1];
      RunSplits(worlds[0], steps[..k]);
    }
  }
}
