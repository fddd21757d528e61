/** How StartTransaction answers, and how it repairs a connector. */
module Starts {
  import opened Domain
  import opened Persistence
  import opened Sessions
  import opened Loading
  import opened Lifecycle
  import opened Pointers
  import opened Ledger

  /** The connector is found holding an open transaction of another connector number. */
  ghost predicate HeldElsewhere(s: Store, m: Memory, p: Place, order: seq<Place>) {
    var i := PointerFound(s, m, p, order).currentTransactionId;
    i >= 0 && i in s.transactions && !s.transactions[i].finished && s.transactions[i].place.number != p.number
  }

  /** From any state whatever, however corrupt: with readable documents a start on a known charge
      point is refused exactly when the connector is found holding an open transaction of another
      connector number, and accepted otherwise. */
  lemma StartReplyExactly(s: Store, m: Memory, order: seq<Place>, r: StartRequest, f: Faults)
    requires !f.read && Known(s, m, r.place.chargePoint)
    ensures var o := StartTransaction([s], m, order, r, f);
            && (o.reply.ConcurrentTx? <==> HeldElsewhere(s, m, r.place, order))
            && (o.reply.Accepted? <==> !HeldElsewhere(s, m, r.place, order))
  {
    LocateExactly([s], m, r.place, order, f);
    GetChargePointExactly([s], m, r.place.chargePoint, order, f);
  }

  /** With readable documents a start is turned away unanswered, and changes nothing, exactly when its
      charge point is neither in memory nor stored, and unknown ones are not accepted or it has no name. */
  lemma BlockedExactly(s: Store, m: Memory, order: seq<Place>, r: StartRequest, f: Faults)
    requires !f.read
    ensures var o, cp := StartTransaction([s], m, order, r, f), r.place.chargePoint;
            && (o.reply == Blocked <==> cp !in m.chargePoints && cp !in s.chargePoints && !(m.acceptPoints && cp != ""))
            && (o.reply == Blocked ==> o.history == [s] && o.memory == m)
  {
    assert Now([s]) == s;
    GetChargePointExactly([s], m, r.place.chargePoint, order, f);
  }

  /** The connector is found holding no transaction that could be resumed: the start takes a new id. */
  ghost predicate TakesNewId(s: Store, m: Memory, p: Place, order: seq<Place>) {
    var i := PointerFound(s, m, p, order).currentTransactionId;
    i < 0 || i !in s.transactions || s.transactions[i].finished
  }

  /** The row stored under an id, if there is one already, is open and of a connector number. */
  predicate Usable(s: Store, id: int, number: int) {
    id in s.transactions ==> !s.transactions[id].finished && s.transactions[id].place.number == number
  }

  /** The row stored under an id is there, open and of a connector number. */
  predicate Running(s: Store, id: int, number: int) {
    id in s.transactions && Usable(s, id, number)
  }

  /** An accepted start leaves the connector holding the answered transaction, whatever the pointer was
      before. That transaction is stored, open and of that connector number exactly when no other row
      stands where a new id would be inserted. */
  lemma StartHealsExactly(s: Store, m: Memory, order: seq<Place>, r: StartRequest)
    requires Known(s, m, r.place.chargePoint) && !HeldElsewhere(s, m, r.place, order)
    ensures var o := StartTransaction([s], m, order, r, NO_FAULTS);
            && o.reply.Accepted?
            && r.place in o.memory.connectors && o.memory.connectors[r.place].currentTransactionId == o.reply.id
            && r.place.chargePoint in o.memory.chargePoints
            && (o.reply.id >= 0 || o.reply.id == m.nextId)
            && (TakesNewId(s, m, r.place, order) ==> o.reply.id == m.nextId && o.memory.nextId == m.nextId + 1)
            && (Running(Now(o.history), o.reply.id, r.place.number)
                <==> (TakesNewId(s, m, r.place, order) ==> Usable(s, m.nextId, r.place.number)))
  {
    LocateExactly([s], m, r.place, order, NO_FAULTS);
    GetChargePointExactly([s], m, r.place.chargePoint, order, NO_FAULTS);
    var l := GetChargePoint([s], m, r.place.chargePoint, order, NO_FAULTS);
    var g := GetConnector(l.history, l.memory, r.place, NO_FAULTS);
    StartOnHeals(g.history, g.memory, g.connector, r);
  }

  lemma StartOnHeals(h: History, m: Memory, c: Connector, r: StartRequest)
    requires r.place in m.connectors && m.connectors[r.place] == c
    requires var i := c.currentTransactionId;
             i >= 0 && i in Now(h).transactions && !Now(h).transactions[i].finished ==>
               Now(h).transactions[i].place.number == r.place.number
    ensures var o := StartOn(h, m, c, r, NO_FAULTS);
            var i := c.currentTransactionId;
            && o.reply.Accepted?
            && r.place in o.memory.connectors && o.memory.connectors[r.place].currentTransactionId == o.reply.id
            && o.memory.chargePoints == m.chargePoints
            && (o.reply.id >= 0 || o.reply.id == m.nextId)
            && (i < 0 || i !in Now(h).transactions || Now(h).transactions[i].finished ==>
                  o.reply.id == m.nextId && o.memory.nextId == m.nextId + 1)
            && (Running(Now(o.history), o.reply.id, r.place.number)
                <==> (i < 0 || i !in Now(h).transactions || Now(h).transactions[i].finished ==>
                        Usable(Now(h), m.nextId, r.place.number)))
  {
  }

  /** A charge point that repeats its StartTransaction - the answer was lost, say - is given the same
      transaction again, and the repetition writes nothing, exactly when the first one healed. */
  lemma RetriedStart(s: Store, m: Memory, order: seq<Place>, order': seq<Place>, r: StartRequest, r': StartRequest)
    requires Known(s, m, r.place.chargePoint) && !HeldElsewhere(s, m, r.place, order)
    requires r'.place == r.place && m.nextId >= 0
    ensures var o := StartTransaction([s], m, order, r, NO_FAULTS);
            StartTransaction(o.history, o.memory, order', r', NO_FAULTS) == o
            <==> (TakesNewId(s, m, r.place, order) ==> Usable(s, m.nextId, r.place.number))
  {
    StartHealsExactly(s, m, order, r);
    var o := StartTransaction([s], m, order, r, NO_FAULTS);
    assert StartTransaction(o.history, o.memory, order', r', NO_FAULTS)
           == StartOn(o.history, o.memory, o.memory.connectors[r.place], r', NO_FAULTS);
    RetriedOn(o, r');
  }

  lemma RetriedOn(o: Outcome, r: StartRequest)
    requires o.reply.Accepted? && r.place in o.memory.connectors && o.memory.connectors[r.place].currentTransactionId == o.reply.id
    requires o.reply.id >= 0 && (!Running(Now(o.history), o.reply.id, r.place.number) ==> o.memory.nextId > o.reply.id)
    ensures StartOn(o.history, o.memory, o.memory.connectors[r.place], r, NO_FAULTS) == o
            <==> Running(Now(o.history), o.reply.id, r.place.number)
  {
  }

  /** An open, unbilled row with what the request says. */
  predicate StartedAs(r: StartRequest, id: int, t: Transaction) {
    && t.id == id && t.place == r.place && t.plan == r.plan && t.meterStart == r.meterStart && t.timeStart == r.time
    && !t.finished && t.meterStop == 0 && t.payment == 0
  }

  /** A start that is answered with an id no row had, and whose row is stored, has stored what the
      request says, open and unbilled, and pinned its connector to it without a power limit. */
  lemma StartStoresRequest(s: Store, m: Memory, order: seq<Place>, r: StartRequest, f: Faults)
    requires var o := StartTransaction([s], m, order, r, f);
             !f.addTransaction && o.reply.Accepted? && o.reply.id !in s.transactions
    ensures var o := StartTransaction([s], m, order, r, f);
            var s' := Now(o.history);
            && o.reply.id == m.nextId && o.memory.nextId == m.nextId + 1
            && o.reply.id in s'.transactions && s'.transactions == s.transactions[o.reply.id := s'.transactions[o.reply.id]]
            && s'.samples == s.samples
            && StartedAs(r, o.reply.id, s'.transactions[o.reply.id])
            && r.place in o.memory.connectors && o.memory.connectors[r.place] == Connector(o.reply.id, 0)
  {
    assert Now([s]) == s;
    LocateRows([s], m, r.place.chargePoint, r.place.number, order, f);
    var l := GetChargePoint([s], m, r.place.chargePoint, order, f);
    var g := GetConnector(l.history, l.memory, r.place, f);
    StartOnFresh(g.history, g.memory, g.connector, r, f);
    FreshRow(g.history, g.memory, r, f);
    var u := PutConnector(g.history, g.memory, r.place, FREE, f);
    FreshRow(u.history, u.memory, r, f);
  }

  lemma StartOnFresh(h: History, m: Memory, c: Connector, r: StartRequest, f: Faults)
    requires var o := StartOn(h, m, c, r, f); o.reply.Accepted? && o.reply.id !in Now(h).transactions
    ensures var u := PutConnector(h, m, r.place, FREE, f);
            StartOn(h, m, c, r, f) == StartFresh(h, m, r, f) || StartOn(h, m, c, r, f) == StartFresh(u.history, u.memory, r, f)
  {
  }

  lemma FreshRow(h: History, m: Memory, r: StartRequest, f: Faults)
    requires !f.addTransaction && m.nextId !in Now(h).transactions
    ensures var o := StartFresh(h, m, r, f);
            var s, s' := Now(h), Now(o.history);
            && o.reply == Accepted(m.nextId) && o.memory.nextId == m.nextId + 1
            && m.nextId in s'.transactions && s'.transactions == s.transactions[m.nextId := s'.transactions[m.nextId]]
            && s'.samples == s.samples
            && StartedAs(r, m.nextId, s'.transactions[m.nextId])
            && r.place in o.memory.connectors && o.memory.connectors[r.place] == Connector(m.nextId, 0)
  {
  }

  predicate KnownPoint(w: World, cp: string)
    requires w.Up?
  {
    Known(w.store, w.memory, cp)
  }

  /** In an anchored state, a start that can read keeps pointers anchored exactly when its new row is
      stored or it needs none. */
  lemma StartGoodExactly(s: Store, m: Memory, order: seq<Place>, r: StartRequest, f: Faults)
    requires Anchors(s) && MemoryAnchors(s, m) && Below(s, m.nextId) && !f.read && Known(s, m, r.place.chargePoint)
    ensures var o := StartTransaction([s], m, order, r, f);
            Good(s, o.history, o.memory) <==> !f.addTransaction || !TakesNewId(s, m, r.place, order)
  {
    LocateExactly([s], m, r.place, order, f);
    GetChargePointWires([s], m, r.place.chargePoint, order, f);
    GetChargePointExactly([s], m, r.place.chargePoint, order, f);
    var l := GetChargePoint([s], m, r.place.chargePoint, order, f);
    GetConnectorWires(l.history, l.memory, r.place, f);
    var g := GetConnector(l.history, l.memory, r.place, f);
    if !f.addTransaction {
      StartGood([s], m, order, r, f);
    } else {
      LostRowUnanchors(g.history, g.memory, g.connector, r, f);
    }
  }

  lemma LostRowUnanchors(h: History, m: Memory, c: Connector, r: StartRequest, f: Faults)
    requires Ready(h, m) && Below(Now(h), m.nextId) && Holds(Now(h), r.place, c.currentTransactionId)
    requires f.addTransaction && !f.read
    ensures var o, i := StartOn(h, m, c, r, f), c.currentTransactionId;
            if i < 0 || i !in Now(h).transactions || Now(h).transactions[i].finished
            then !MemoryAnchors(Now(o.history), o.memory)
            else o == Outcome(h, m, Accepted(i))
  {
    var o := StartOn(h, m, c, r, f);
    assert m.nextId !in Now(h).transactions;
    if c.currentTransactionId < 0 || Now(h).transactions[c.currentTransactionId].finished {
      assert o.memory.connectors[r.place].currentTransactionId == m.nextId;
      assert !Holds(Now(o.history), r.place, m.nextId);
    }
  }

  /** After every run whose starts store their rows and whose restarts read the highest id - any other
      write may have failed, the process may have died at any write, stops may have named anything - a
      start on a known charge point with a readable database is accepted. Its transaction is either one
      that was open when read and belongs to exactly this connector, or a new one under an id never used
      before. */
  lemma StartAlwaysAccepted(w: World, steps: seq<Step>, x: Step)
    requires Anchored(w) && Along(w, steps, Anchoring)
    requires Run(w, steps).Up? && x.event.Start? && !x.faults.read && KnownPoint(Run(w, steps), x.event.start.place.chargePoint)
    ensures var v, e := Run(w, steps), Perform(Run(w, steps), x);
            var p := x.event.start.place;
            && e.reply.Accepted?
            && (if e.reply.id in v.store.transactions then
                  !v.store.transactions[e.reply.id].finished && v.store.transactions[e.reply.id].place == p
                else
                  e.reply.id == v.memory.nextId
                  && (!x.faults.addTransaction ==>
                        e.reply.id in Now(e.history).transactions
                        && Now(e.history).transactions[e.reply.id] == NewTransaction(e.reply.id, x.event.start)))
  {
    RunAnchored(w, steps);
    var v := Run(w, steps);
    var r, f := x.event.start, x.faults;
    StartReplyExactly(v.store, v.memory, x.order, r, f);
    LocateExactly([v.store], v.memory, r.place, x.order, f);
    GetChargePointWires([v.store], v.memory, r.place.chargePoint, x.order, f);
    var l := GetChargePoint([v.store], v.memory, r.place.chargePoint, x.order, f);
    GetConnectorWires(l.history, l.memory, r.place, f);
    var g := GetConnector(l.history, l.memory, r.place, f);
    StartOnAccepts(g.history, g.memory, g.connector, r, f);
  }

  lemma StartOnAccepts(h: History, m: Memory, c: Connector, r: StartRequest, f: Faults)
    requires Ready(h, m) && Below(Now(h), m.nextId) && Holds(Now(h), r.place, c.currentTransactionId) && !f.read
    ensures var o := StartOn(h, m, c, r, f);
            && o.reply.Accepted?
            && (if o.reply.id in Now(h).transactions then
                  !Now(h).transactions[o.reply.id].finished && Now(h).transactions[o.reply.id].place == r.place
                else
                  o.reply.id == m.nextId
                  && (!f.addTransaction ==>
                        o.reply.id in Now(o.history).transactions
                        && Now(o.history).transactions[o.reply.id] == NewTransaction(o.reply.id, r)))
  {
    if !f.addTransaction {
      StartFreshGood(h, m, r, f);
      PutConnectorWires(h, m, r.place, FREE, f);
      var u := PutConnector(h, m, r.place, FREE, f);
      StartFreshGood(u.history, u.memory, r, f);
    }
  }

  // ---------- why new rows have to be stored ----------

  const LEFT := Place("CP1", 1)
  const RIGHT := Place("CP1", 2)

  function Idle(): Store {
    Store(map[], map[LEFT := FREE, RIGHT := FREE], map[], map["CP1" := "site"])
  }

  function StartAt(p: Place): Event {
    Start(StartRequest(p, 0, 0, None))
  }

  /** Left starts but its row is not stored; the process dies and comes back; Right starts. */
  function LostRow(): seq<Step> {
    [ Step(Restart, [LEFT, RIGHT], NO_FAULTS, None),
      Step(StartAt(LEFT), [], NO_FAULTS.(addTransaction := true), None),
      Step(Status(LEFT), [], NO_FAULTS, Some(0)),
      Step(Restart, [LEFT, RIGHT], NO_FAULTS, None),
      Step(StartAt(RIGHT), [], NO_FAULTS, None) ]
  }

  const LOST: Store := Idle().(connectors := map[LEFT := Connector(1, 0), RIGHT := FREE])
  const TWICE: Store := Store(
    map[1 := NewTransaction(1, StartAt(RIGHT).start)],
    map[LEFT := Connector(1, 0), RIGHT := Connector(1, 0)], map[], map["CP1" := "site"])

  function Awake(s: Store, nextId: int, acceptPoints: bool): World {
    Up(s, Memory(s.connectors, {"CP1"}, nextId, acceptPoints), map[])
  }

  lemma LeftStarts()
    ensures Advance(Awake(Idle(), 1, false), LostRow()[1]) == Awake(LOST, 2, false)
  {
    var w := Awake(Idle(), 1, false);
    var e := Perform(w, LostRow()[1]);
    assert LOST.connectors == Idle().connectors[LEFT := Connector(1, 0)];
    assert Now(e.history) == LOST;
  }

  lemma RightStarts()
    ensures Advance(Awake(LOST, 1, false), LostRow()[4]) == Awake(TWICE, 2, false)
  {
    var w := Awake(LOST, 1, false);
    var e := Perform(w, LostRow()[4]);
    assert TWICE.connectors == LOST.connectors[RIGHT := Connector(1, 0)];
    assert Now(e.history) == TWICE;
  }

  /** Without that condition the promise fails: a row that was not stored leaves its pointer behind,
      the id is given out again after a restart, and the left connector is refused. */
  lemma LostRowRefusesStart()
    ensures var w := Run(Down(Idle(), false), LostRow());
            && w.Up? && KnownPoint(w, "CP1")
            && Perform(w, Step(StartAt(LEFT), [], NO_FAULTS, None)).reply == ConcurrentTx(1)
  {
    LostRowRuns();
  }

  lemma LostRowRuns()
    ensures Run(Down(Idle(), false), LostRow()) == Awake(TWICE, 2, false)
  {
    var x := LostRow();
    RestartIdle(Idle(), false);
    LeftStarts();
    assert Advance(Awake(LOST, 2, false), x[2]) == Down(LOST, false);
    RestartIdle(LOST, false);
    RightStarts();
    assert x[1..][1..] == x[2..] && x[2..][1..] == x[3..] && x[3..][1..] == x[4..] && x[4..][1..] == [];
    RunSplits(Down(Idle(), false), x);
    RunSplits(Awake(Idle(), 1, false), x[1..]);
    RunSplits(Awake(LOST, 2, false), x[2..]);
    RunSplits(Down(LOST, false), x[3..]);
    RunSplits(Awake(LOST, 1, false), x[4..]);
  }

  lemma RunSplits(w: World, steps: seq<Step>)
    requires steps != []
    ensures Run(w, steps) == Run(Advance(w, steps[0]), steps[1..])
  {
  }

  lemma RestartIdle(s: Store, acceptPoints: bool)
    requires s.connectors.Keys == {LEFT, RIGHT} && s.transactions == map[] && s.chargePoints.Keys == {"CP1"}
    ensures Advance(Down(s, acceptPoints), Step(Restart, [LEFT, RIGHT], NO_FAULTS, None)) == Awake(s, 1, acceptPoints)
  {
    var order := [LEFT, RIGHT];
    IdleListed(s);
    var m := Memory(map[], {"CP1"}, 1, acceptPoints);
    LoadConnectorsExactly([s], m, {"CP1"}, order, NO_FAULTS);
    var l := LoadConnectors([s], m, {"CP1"}, order, NO_FAULTS);
    assert l.memory == m.(connectors := s.connectors) && Now(l.history) == s;
  }

  lemma IdleListed(s: Store)
    requires s.connectors.Keys == {LEFT, RIGHT} && s.transactions == map[]
    ensures ListsConnectors([LEFT, RIGHT], s)
    ensures LoadedMap(s, {"CP1"}, [LEFT, RIGHT]) == s.connectors
    ensures s.connectors + s.connectors == s.connectors && map[] + s.connectors == s.connectors
  {
    assert forall p :: p in [LEFT, RIGHT] <==> p == LEFT || p == RIGHT;
    assert LEFT != RIGHT;
  }
}
