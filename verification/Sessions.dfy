/** What each step of the session lifecycle does to the database and to the handler's memory
    (server/system_handler.go). These functions specify the methods of module Handler; the safety
    properties are proved about them. */
module Sessions {
  import opened Domain
  import opened Billing
  import opened Persistence

  /** The handler's memory. Connectors are loaded from the database or created on first use. */
  datatype Memory = Memory(
    connectors: map<Place, Connector>,
    chargePoints: set<string>,
    nextId: int,
    acceptPoints: bool)

  /** Which kinds of database operation fail while a step runs. */
  datatype Faults = Faults(
    read: bool,               // reading single documents
    addTransaction: bool,
    updateTransaction: bool,
    connector: bool,          // writing connectors and charge points
    samples: bool)            // writing and deleting meter values

  const NO_FAULTS := Faults(false, false, false, false, false)

  datatype Reply = Accepted(id: int) | Blocked | ConcurrentTx(id: int) | Confirmed

  datatype Outcome = Outcome(history: History, memory: Memory, reply: Reply)

  datatype Located = Located(found: bool, history: History, memory: Memory)

  datatype Held = Held(connector: Connector, history: History, memory: Memory)

  datatype StartRequest = StartRequest(place: Place, meterStart: nat, time: int, plan: Option<Plan>)

  /** A sampled value of a stop request whose context marks the beginning or the end. */
  datatype Boundary = Begin(value: int, time: int) | End(value: int, time: int)

  datatype StopRequest = StopRequest(
    chargePoint: string, id: int, meterStop: int, time: int, reason: string, boundaries: seq<Boundary>)

  /** The energy register of one meter value, zero when it reports none. */
  datatype Reading = Reading(time: int, value: int)

  datatype MeterRequest = MeterRequest(place: Place, id: Option<int>, readings: seq<Reading>)

  // ---------- locating charge points and connectors ----------

  ghost predicate PointsAtFinished(s: Store, c: Connector) {
    c.currentTransactionId in s.transactions && s.transactions[c.currentTransactionId].finished
  }

  /** Loading one connector at start-up: a pointer positively known to be finished is cleared. */
  ghost function LoadConnector(h: History, m: Memory, p: Place, f: Faults): Located {
    if p !in Now(h).connectors then Located(true, h, m)
    else
      var c := Now(h).connectors[p];
      if c.currentTransactionId != -1 && !f.read && PointsAtFinished(Now(h), c) then
        Located(true,
                Record(h, f.connector, Now(h).UpdateConnector(p, FREE)),
                m.(connectors := m.connectors[p := FREE]))
      else
        Located(true, h, m.(connectors := m.connectors[p := c]))
  }

  /** Loading the connectors of some charge points, in cursor order. */
  ghost function LoadConnectors(h: History, m: Memory, cps: set<string>, order: seq<Place>, f: Faults): Located
    decreases |order|
  {
    if order == [] then Located(true, h, m)
    else if order[0].chargePoint !in cps then LoadConnectors(h, m, cps, order[1..], f)
    else
      var l := LoadConnector(h, m, order[0], f);
      LoadConnectors(l.history, l.memory, cps, order[1..], f)
  }

  ghost function GetChargePoint(h: History, m: Memory, cp: string, order: seq<Place>, f: Faults): Located {
    if cp in m.chargePoints then Located(true, h, m)
    else
      var m' := m.(chargePoints := m.chargePoints + {cp});
      if cp in Now(h).chargePoints && !f.read then LoadConnectors(h, m', {cp}, order, f)
      else if m.acceptPoints && cp != "" then Located(true, Record(h, f.connector, Now(h).AddChargePoint(cp)), m')
      else Located(false, h, m)
  }

  ghost function GetConnector(h: History, m: Memory, p: Place, f: Faults): Held {
    if p in m.connectors then Held(m.connectors[p], h, m)
    else if p in Now(h).connectors && !f.read then
      var c := Now(h).connectors[p];
      Held(c, h, m.(connectors := m.connectors[p := c]))
    else
      Held(FREE, Record(h, f.connector, Now(h).AddConnector(p, FREE)), m.(connectors := m.connectors[p := FREE]))
  }

  /** Setting a connector in memory and writing it. */
  ghost function PutConnector(h: History, m: Memory, p: Place, c: Connector, f: Faults): Located {
    Located(true, Record(h, f.connector, Now(h).UpdateConnector(p, c)), m.(connectors := m.connectors[p := c]))
  }

  // ---------- start of the process ----------

  ghost function OnStart(s: Store, order: seq<Place>, acceptPoints: bool, f: Faults): Located {
    var m := Memory(map[], s.chargePoints.Keys, 1, acceptPoints);
    var l := LoadConnectors([s], m, s.chargePoints.Keys, order, f);
    var last := if f.read then None else LastId(Now(l.history));
    Located(true, l.history, l.memory.(nextId := if last.Some? then last.value + 1 else 1))
  }

  // ---------- StartTransaction ----------

  function NewTransaction(id: int, r: StartRequest): Transaction {
    Transaction(id, r.place, false, r.meterStart, 0, r.time, 0, "", 0, r.plan)
  }

  ghost function StartTransaction(h: History, m: Memory, order: seq<Place>, r: StartRequest, f: Faults): Outcome {
    var l := GetChargePoint(h, m, r.place.chargePoint, order, f);
    if !l.found then Outcome(l.history, l.memory, Blocked)
    else
      var g := GetConnector(l.history, l.memory, r.place, f);
      StartOn(g.history, g.memory, g.connector, r, f)
  }

  ghost function StartOn(h: History, m: Memory, c: Connector, r: StartRequest, f: Faults): Outcome {
    var held := c.currentTransactionId;
    if held < 0 then StartFresh(h, m, r, f)
    else if f.read then Outcome(h, m, Blocked)
    else if held !in Now(h).transactions then StartFresh(h, m, r, f)
    else
      var t := Now(h).transactions[held];
      if !t.finished && t.place.number == r.place.number then Outcome(h, m, Accepted(held))
      else if t.finished then
        var u := PutConnector(h, m, r.place, FREE, f);
        StartFresh(u.history, u.memory, r, f)
      else Outcome(h, m, ConcurrentTx(held))
  }

  ghost function StartFresh(h: History, m: Memory, r: StartRequest, f: Faults): Outcome {
    var id := m.nextId;
    var h' := Record(h, f.addTransaction, Now(h).AddTransaction(NewTransaction(id, r)));
    var u := PutConnector(h', m.(nextId := id + 1), r.place, Connector(id, 0), f);
    Outcome(u.history, u.memory, Accepted(id))
  }

  // ---------- StopTransaction ----------

  function ApplyBoundary(t: Transaction, b: Boundary): Transaction {
    match b
    case Begin(value, time) => t.(meterStart := value, timeStart := time)
    case End(value, time) => t.(meterStop := value, timeStop := time)
  }

  function ApplyBoundaries(t: Transaction, bs: seq<Boundary>): Transaction
    decreases |bs|
  {
    if bs == [] then t else ApplyBoundaries(ApplyBoundary(t, bs[0]), bs[1..])
  }

  lemma {:induction false} ApplyBoundariesKeeps(t: Transaction, bs: seq<Boundary>)
    ensures var r := ApplyBoundaries(t, bs);
            && r.id == t.id && r.place == t.place && r.finished == t.finished
            && r.reason == t.reason && r.payment == t.payment && r.plan == t.plan
    ensures (forall b :: b in bs ==> b.Begin?) ==> ApplyBoundaries(t, bs).meterStop == t.meterStop
    decreases |bs|
  {
    if bs != [] {
      ApplyBoundariesKeeps(ApplyBoundary(t, bs[0]), bs[1..]);
    }
  }

  /** The figures a stop writes: the reported ones, overridden by boundary values, then billed. */
  function StopFigures(t: Transaction, r: StopRequest): Transaction {
    Bill(ApplyBoundaries(
           t.(finished := true, timeStop := r.time, meterStop := r.meterStop, reason := r.reason),
           r.boundaries))
  }

  ghost function StopTransaction(h: History, m: Memory, order: seq<Place>, r: StopRequest, f: Faults): Outcome {
    var l := GetChargePoint(h, m, r.chargePoint, order, f);
    if !l.found || f.read || r.id !in Now(l.history).transactions then Outcome(l.history, l.memory, Confirmed)
    else
      var t := Now(l.history).transactions[r.id];
      var p := Place(r.chargePoint, t.place.number);
      var g := GetConnector(l.history, l.memory, p, f);
      var h' := if AlreadyStopped(t, r) then g.history else CloseRow(g.history, StopFigures(t, r), f);
      var u := PutConnector(h', g.memory, p, FREE, f);
      Outcome(u.history, u.memory, Confirmed)
  }

  predicate AlreadyStopped(t: Transaction, r: StopRequest) {
    t.finished && t.meterStop >= r.meterStop
  }

  /** Writing the closed row, and deleting its samples only once that write has landed. */
  ghost function CloseRow(h: History, t: Transaction, f: Faults): History {
    if f.updateTransaction then h
    else
      var h' := h + [Now(h).UpdateTransaction(t)];
      Record(h', f.samples, Now(h').DeleteSamples(t.id))
  }

  // ---------- MeterValues and StatusNotification ----------

  ghost function MeterValues(h: History, m: Memory, order: seq<Place>, r: MeterRequest, f: Faults): Outcome {
    var l := GetChargePoint(h, m, r.place.chargePoint, order, f);
    if !l.found then Outcome(l.history, l.memory, Confirmed)
    else
      var g := GetConnector(l.history, l.memory, r.place, f);
      var id := MeteredTransaction(g.connector, r);
      if id.None? || f.read || id.value !in Now(g.history).transactions then Outcome(g.history, g.memory, Confirmed)
      else Outcome(RecordReadings(g.history, Now(g.history).transactions[id.value], r.readings, f), g.memory, Confirmed)
  }

  /** The transaction a meter value belongs to: the one it names, else the one its connector holds. */
  function MeteredTransaction(c: Connector, r: MeterRequest): Option<int> {
    if r.id.Some? then r.id
    else if r.place.number > 0 && c.currentTransactionId >= 0 then Some(c.currentTransactionId)
    else None
  }

  ghost function RecordReadings(h: History, t: Transaction, readings: seq<Reading>, f: Faults): History
    decreases |readings|
  {
    if readings == [] then h
    else
      var x := readings[0];
      var h' := if x.value > 0
        then Record(h, f.samples, Now(h).UpsertSample(t.id, Sample(x.time, x.value, DueAt(t, x.time, x.value))))
        else h;
      RecordReadings(h', t, readings[1..], f)
  }

  ghost function StatusNotification(h: History, m: Memory, order: seq<Place>, p: Place, f: Faults): Outcome {
    var l := GetChargePoint(h, m, p.chargePoint, order, f);
    if !l.found || p.number <= 0 then Outcome(l.history, l.memory, Confirmed)
    else
      var g := GetConnector(l.history, l.memory, p, f);
      var u := PutConnector(g.history, g.memory, p, g.connector, f);
      Outcome(u.history, u.memory, Confirmed)
  }

  // ---------- closing an abandoned transaction ----------

  /** The figures the sweep writes: those of the newest sample, billed; or, when no sample can be
      read, a close at the start time that is not billed. */
  function SweepFigures(t: Transaction, newest: Option<Sample>): Transaction {
    match newest
    case None =>
      t.(finished := true, timeStop := t.timeStart, reason := ABORTED_BY_SYSTEM)
    case Some(x) =>
      Bill(t.(finished := true, meterStop := x.value, timeStop := x.time, reason := STOPPED_BY_SYSTEM))
  }

  /** The locked part of the close: the connector is freed only if it still holds the transaction. */
  ghost function ReleaseSwept(h: History, m: Memory, order: seq<Place>, t: Transaction, f: Faults): Located {
    var l := GetChargePoint(h, m, t.place.chargePoint, order, f);
    if !l.found then l
    else
      var g := GetConnector(l.history, l.memory, t.place, f);
      if g.connector.currentTransactionId != t.id then Located(true, g.history, g.memory)
      else PutConnector(g.history, g.memory, t.place, FREE, f)
  }

  /** The whole close, with nothing running in between. */
  ghost function FinishAbandoned(h: History, m: Memory, order: seq<Place>, t: Transaction, f: Faults): Located {
    var newest := if f.read then None else Newest(Now(h).SamplesOf(t.id));
    var h1 := Record(h, f.updateTransaction, Now(h).UpdateTransaction(SweepFigures(t, newest)));
    var l := ReleaseSwept(h1, m, order, t, f);
    Located(l.found, Record(l.history, f.samples, Now(l.history).DeleteSamples(t.id)), l.memory)
  }
}
