/** What a stop exposes to a sweep running beside it (server/system_handler.go, OnStopTransaction). */
module Stops {
  import opened Billing
  import opened Domain
  import opened Persistence
  import opened Sessions
  import opened Loading
  import opened Pointers
  import opened Safety
  import opened Ledger
  import opened Starts

  /** In every state, a connector holds a transaction or the transaction is finished. */
  ghost predicate NeverExposed(h: History, p: Place, id: int) {
    forall k :: 0 <= k < |h| ==>
      PointsTo(h[k], p, id) || (id in h[k].transactions && h[k].transactions[id].finished)
  }

  lemma {:induction false} LoadConnectorsCover(h: History, m: Memory, cps: set<string>, order: seq<Place>, f: Faults, p: Place, id: int)
    requires NeverExposed(h, p, id) && PointsTo(Now(h), p, id) && id in Now(h).transactions && !Now(h).transactions[id].finished
    ensures var h' := LoadConnectors(h, m, cps, order, f).history;
            NeverExposed(h', p, id) && PointsTo(Now(h'), p, id) && Now(h').transactions == Now(h).transactions
    decreases |order|
  {
    if order != [] {
      if order[0].chargePoint !in cps {
        LoadConnectorsCover(h, m, cps, order[1..], f, p, id);
      } else {
        var l := LoadConnector(h, m, order[0], f);
        LoadConnectorsCover(l.history, l.memory, cps, order[1..], f, p, id);
      }
    }
  }

  lemma LocateCovers(h: History, m: Memory, q: Place, order: seq<Place>, f: Faults, p: Place, id: int)
    requires NeverExposed(h, p, id) && PointsTo(Now(h), p, id) && id in Now(h).transactions && !Now(h).transactions[id].finished
    ensures var l := GetChargePoint(h, m, q.chargePoint, order, f);
            var g := GetConnector(l.history, l.memory, q, f);
            && NeverExposed(l.history, p, id) && NeverExposed(g.history, p, id)
            && PointsTo(Now(g.history), p, id) && PointsTo(Now(l.history), p, id)
            && Now(g.history).transactions == Now(l.history).transactions == Now(h).transactions
  {
    LoadConnectorsCover(h, m.(chargePoints := m.chargePoints + {q.chargePoint}), {q.chargePoint}, order, f, p, id);
  }

  /** While a stop runs, no state of the database shows its transaction open with the connector
      already released, unless the transaction write failed. So a sweep reading in the middle never
      mistakes a stop in progress for an abandoned session. */
  lemma StopNeverExposes(s: Store, m: Memory, order: seq<Place>, r: StopRequest, f: Faults)
    requires Anchors(s) && r.id in s.transactions && !s.transactions[r.id].finished
    requires PointsTo(s, s.transactions[r.id].place, r.id) && !f.updateTransaction
    ensures NeverExposed(StopTransaction([s], m, order, r, f).history, s.transactions[r.id].place, r.id)
  {
    var t := s.transactions[r.id];
    var q := Place(r.chargePoint, t.place.number);
    LocateCovers([s], m, q, order, f, t.place, r.id);
    var l := GetChargePoint([s], m, r.chargePoint, order, f);
    var g := GetConnector(l.history, l.memory, q, f);
    StopFiguresKeeps(t, r);
    var h' := CloseRow(g.history, StopFigures(t, r), f);
    assert r.id in Now(h').transactions && Now(h').transactions[r.id].finished;
  }

  // ---------- the row a stop leaves ----------

  /** The last boundary value of a kind, if there is one. */
  predicate LastBegin(bs: seq<Boundary>, k: int) {
    0 <= k < |bs| && bs[k].Begin? && forall j :: k < j < |bs| ==> bs[j].End?
  }

  predicate LastEnding(bs: seq<Boundary>, k: int) {
    0 <= k < |bs| && bs[k].End? && forall j :: k < j < |bs| ==> bs[j].Begin?
  }

  /** Times and meter figures after boundary values: those of the last one of each kind, else as before. */
  ghost predicate Bounded(t: Transaction, bs: seq<Boundary>, t': Transaction) {
    && (forall k :: LastEnding(bs, k) ==> t'.meterStop == bs[k].value && t'.timeStop == bs[k].time)
    && (forall k :: LastBegin(bs, k) ==> t'.meterStart == bs[k].value && t'.timeStart == bs[k].time)
    && ((forall j :: 0 <= j < |bs| ==> bs[j].Begin?) ==> t'.meterStop == t.meterStop && t'.timeStop == t.timeStop)
    && ((forall j :: 0 <= j < |bs| ==> bs[j].End?) ==> t'.meterStart == t.meterStart && t'.timeStart == t.timeStart)
  }

  /** The row a stop closes: the reason, time and meter figure it reports, with its boundary values over
      them, charged by the row's plan. */
  ghost predicate StoppedAs(t: Transaction, r: StopRequest, t': Transaction) {
    && t'.finished && t'.id == t.id && t'.place == t.place && t'.plan == t.plan && t'.reason == r.reason
    && Bounded(t.(meterStop := r.meterStop, timeStop := r.time), r.boundaries, t')
    && t'.payment == if t.plan.None? then t.payment
                     else Price(t.plan.value, t'.timeStop - t'.timeStart, t'.meterStop - t'.meterStart)
  }

  lemma {:induction false} BoundariesExactly(t: Transaction, bs: seq<Boundary>)
    ensures Bounded(t, bs, ApplyBoundaries(t, bs))
    decreases |bs|
  {
    if bs != [] {
      var rest, t1 := bs[1..], ApplyBoundary(t, bs[0]);
      assert forall j :: 0 <= j < |rest| ==> rest[j] == bs[j + 1];
      BoundariesExactly(t1, rest);
      forall k | 0 < k < |bs| ensures (LastEnding(bs, k) ==> LastEnding(rest, k - 1)) && (LastBegin(bs, k) ==> LastBegin(rest, k - 1)) {
        assert rest[k - 1] == bs[k];
      }
    }
  }

  lemma BoundedSame(t: Transaction, bs: seq<Boundary>, t': Transaction, u: Transaction, u': Transaction)
    requires Bounded(t, bs, t')
    requires u.meterStop == t.meterStop && u.timeStop == t.timeStop && u.meterStart == t.meterStart && u.timeStart == t.timeStart
    requires u'.meterStop == t'.meterStop && u'.timeStop == t'.timeStop && u'.meterStart == t'.meterStart && u'.timeStart == t'.timeStart
    ensures Bounded(u, bs, u')
  {
  }

  /** The reported figures with the boundary values over them. */
  function Reported(t: Transaction, r: StopRequest): Transaction {
    ApplyBoundaries(t.(finished := true, timeStop := r.time, meterStop := r.meterStop, reason := r.reason), r.boundaries)
  }

  lemma BilledFields(t: Transaction, r: StopRequest)
    ensures var t', b := StopFigures(t, r), Reported(t, r);
            && t'.finished && t'.id == t.id && t'.place == t.place && t'.plan == t.plan && t'.reason == r.reason
            && t'.meterStop == b.meterStop && t'.timeStop == b.timeStop && t'.meterStart == b.meterStart && t'.timeStart == b.timeStart
            && t'.payment == if t.plan.None? then t.payment
                             else Price(t.plan.value, t'.timeStop - t'.timeStart, t'.meterStop - t'.meterStart)
  {
    ApplyBoundariesKeeps(t.(finished := true, timeStop := r.time, meterStop := r.meterStop, reason := r.reason), r.boundaries);
  }

  lemma ReportedBounded(t: Transaction, r: StopRequest)
    ensures Bounded(t.(meterStop := r.meterStop, timeStop := r.time), r.boundaries, Reported(t, r))
  {
    var reported := t.(finished := true, timeStop := r.time, meterStop := r.meterStop, reason := r.reason);
    BoundariesExactly(reported, r.boundaries);
    BoundedSame(reported, r.boundaries, Reported(t, r), t.(meterStop := r.meterStop, timeStop := r.time), Reported(t, r));
  }

  lemma StopFiguresExactly(t: Transaction, r: StopRequest)
    ensures StoppedAs(t, r, StopFigures(t, r))
  {
    var u := t.(meterStop := r.meterStop, timeStop := r.time);
    BilledFields(t, r);
    ReportedBounded(t, r);
    BoundedSame(u, r.boundaries, Reported(t, r), u, StopFigures(t, r));
  }

  /** A stop that reads its row leaves a finished one with at least its meter figure, and one it cannot
      write, as it is, with its samples; any other row is closed as it says, and loses its samples if
      they can be deleted. No other row and no other samples change. */
  lemma StopClosesExactly(s: Store, m: Memory, order: seq<Place>, r: StopRequest, f: Faults)
    requires s.WellKeyed() && Known(s, m, r.chargePoint) && r.id in s.transactions && !f.read
    ensures var s', t := Now(StopTransaction([s], m, order, r, f).history), s.transactions[r.id];
            if f.updateTransaction || (t.finished && t.meterStop >= r.meterStop) then
              s'.transactions == s.transactions && s'.samples == s.samples
            else
              && r.id in s'.transactions && s'.transactions == s.transactions[r.id := s'.transactions[r.id]]
              && StoppedAs(t, r, s'.transactions[r.id])
              && s'.samples == if f.samples then s.samples else s.samples - {r.id}
  {
    StopWritesRow(s, m, order, r, f);
    StopFiguresExactly(s.transactions[r.id], r);
  }

  lemma StopWritesRow(s: Store, m: Memory, order: seq<Place>, r: StopRequest, f: Faults)
    requires s.WellKeyed() && Known(s, m, r.chargePoint) && r.id in s.transactions && !f.read
    ensures var s', t := Now(StopTransaction([s], m, order, r, f).history), s.transactions[r.id];
            if f.updateTransaction || (t.finished && t.meterStop >= r.meterStop) then
              s'.transactions == s.transactions && s'.samples == s.samples
            else
              && s'.transactions == s.transactions[r.id := StopFigures(t, r)]
              && s'.samples == if f.samples then s.samples else s.samples - {r.id}
  {
    var t := s.transactions[r.id];
    var p := Place(r.chargePoint, t.place.number);
    assert Now([s]) == s;
    LocateRows([s], m, r.chargePoint, t.place.number, order, f);
    GetChargePointExactly([s], m, r.chargePoint, order, f);
    StopFiguresKeeps(t, r);
    var l := GetChargePoint([s], m, r.chargePoint, order, f);
    var g := GetConnector(l.history, l.memory, p, f);
    FreedRows(g.history, g.memory, p, t, r, f);
  }

  lemma FreedRows(h: History, m: Memory, p: Place, t: Transaction, r: StopRequest, f: Faults)
    requires t.id in Now(h).transactions && StopFigures(t, r).id == t.id
    ensures var h' := if AlreadyStopped(t, r) then h else CloseRow(h, StopFigures(t, r), f);
            var s, s' := Now(h), Now(PutConnector(h', m, p, FREE, f).history);
            if f.updateTransaction || AlreadyStopped(t, r) then s'.transactions == s.transactions && s'.samples == s.samples
            else
              && s'.transactions == s.transactions[t.id := StopFigures(t, r)]
              && s'.samples == if f.samples then s.samples else s.samples - {t.id}
  {
    ClosedRows(h, StopFigures(t, r), f);
  }

  lemma ClosedRows(h: History, t: Transaction, f: Faults)
    requires t.id in Now(h).transactions
    ensures var s, s' := Now(h), Now(CloseRow(h, t, f));
            if f.updateTransaction then s' == s
            else s'.transactions == s.transactions[t.id := t] && s'.samples == if f.samples then s.samples else s.samples - {t.id}
  {
  }

  /** If the transaction write fails, the row and its samples stay as they were and the connector is
      freed all the same, in memory and in the database. */
  lemma FailedStopFrees(s: Store, m: Memory, order: seq<Place>, r: StopRequest, f: Faults)
    requires r.id in s.transactions && !s.transactions[r.id].finished
    requires s.transactions[r.id].place.chargePoint == r.chargePoint && Known(s, m, r.chargePoint)
    requires f.updateTransaction && !f.read && !f.connector
    ensures var o := StopTransaction([s], m, order, r, f);
            var s', t := Now(o.history), s.transactions[r.id];
            && s'.transactions == s.transactions && s'.samples == s.samples
            && t.place in o.memory.connectors && o.memory.connectors[t.place] == FREE
            && (t.place in s'.connectors ==> s'.connectors[t.place] == FREE)
            && (t.place in s.connectors ==> t.place in s'.connectors)
  {
    var t := s.transactions[r.id];
    LocateRows([s], m, r.chargePoint, t.place.number, order, f);
    GetChargePointExactly([s], m, r.chargePoint, order, f);
  }

  /** A start and the stop that names its transaction: afterwards the connector is free in memory and
      in the database, the row is finished with the time and meter figures of the two requests and
      charged for what lies between them, and the next start on the connector gets a new id. */
  lemma StopUndoesStart(s: Store, m: Memory, order: seq<Place>, r: StartRequest, stop: StopRequest, closing: set<int>)
    requires Calm([s], m, closing) && Below(s, m.nextId) && Known(s, m, r.place.chargePoint)
    requires var o := StartTransaction([s], m, order, r, NO_FAULTS);
             && o.reply == Accepted(m.nextId) && stop.id == m.nextId && stop.chargePoint == r.place.chargePoint
             && stop.boundaries == []
    ensures var o := StartTransaction([s], m, order, r, NO_FAULTS);
            var u := StopTransaction([Now(o.history)], o.memory, order, stop, NO_FAULTS);
            Ended(u, r, stop)
  {
    var o := StartTransaction([s], m, order, r, NO_FAULTS);
    StartOpens(s, m, order, r, closing);
    StopEnds(Now(o.history), o.memory, order, r, stop, closing);
  }

  lemma StartOpens(s: Store, m: Memory, order: seq<Place>, r: StartRequest, closing: set<int>)
    requires Calm([s], m, closing) && Below(s, m.nextId) && Known(s, m, r.place.chargePoint)
    requires StartTransaction([s], m, order, r, NO_FAULTS).reply == Accepted(m.nextId)
    ensures var o := StartTransaction([s], m, order, r, NO_FAULTS);
            && Calm([Now(o.history)], o.memory, closing) && o.memory.nextId == m.nextId + 1
            && m.nextId in Now(o.history).transactions && StartedAs(r, m.nextId, Now(o.history).transactions[m.nextId])
            && r.place.chargePoint in o.memory.chargePoints
  {
    var o := StartTransaction([s], m, order, r, NO_FAULTS);
    StartCalm([s], m, order, r, NO_FAULTS, closing);
    StartStoresRequest(s, m, order, r, NO_FAULTS);
    StartKnows(s, m, order, r);
    CalmNow(o.history, o.memory, closing);
  }

  lemma StopEnds(s: Store, m: Memory, order: seq<Place>, r: StartRequest, stop: StopRequest, closing: set<int>)
    requires Calm([s], m, closing) && m.nextId > stop.id && r.place.chargePoint in m.chargePoints
    requires stop.id in s.transactions && StartedAs(r, stop.id, s.transactions[stop.id])
    requires stop.chargePoint == r.place.chargePoint && stop.boundaries == []
    ensures Ended(StopTransaction([s], m, order, stop, NO_FAULTS), r, stop)
  {
    StopForgets(s, m, order, stop, NO_FAULTS);
    OwnStopCloses(s, m, order, stop, closing);
  }

  /** The connector is free, and the row is finished with the figures of the two requests. */
  ghost predicate Ended(u: Outcome, r: StartRequest, stop: StopRequest) {
    var s := Now(u.history);
    && PointsTo(s, r.place, -1) && r.place in u.memory.connectors && u.memory.connectors[r.place] == FREE
    && stop.id in s.transactions && u.memory.nextId > stop.id
    && var t := s.transactions[stop.id];
       && t.finished && t.place == r.place && t.plan == r.plan && t.reason == stop.reason
       && t.meterStart == r.meterStart && t.timeStart == r.time && t.meterStop == stop.meterStop && t.timeStop == stop.time
       && t.payment == if r.plan.None? then 0 else Price(r.plan.value, stop.time - r.time, stop.meterStop - r.meterStart)
  }

  /** The session's own stop, without boundary values and with nothing failing. */
  lemma OwnStopCloses(s: Store, m: Memory, order: seq<Place>, r: StopRequest, closing: set<int>)
    requires Calm([s], m, closing) && Known(s, m, r.chargePoint) && r.id in s.transactions && r.boundaries == []
    requires !s.transactions[r.id].finished && s.transactions[r.id].place.chargePoint == r.chargePoint
    ensures var u, t := StopTransaction([s], m, order, r, NO_FAULTS), s.transactions[r.id];
            && PointsTo(Now(u.history), t.place, -1)
            && t.place in u.memory.connectors && u.memory.connectors[t.place] == FREE
            && r.id in Now(u.history).transactions
            && (var t' := Now(u.history).transactions[r.id];
                && StoppedAs(t, r, t') && t'.meterStart == t.meterStart && t'.timeStart == t.timeStart
                && t'.meterStop == r.meterStop && t'.timeStop == r.time)
  {
    assert Now([s]) == s;
    StopPointers([s], m, order, r, NO_FAULTS, closing);
    StopForgets(s, m, order, r, NO_FAULTS);
    StopClosesExactly(s, m, order, r, NO_FAULTS);
  }

  lemma CalmNow(h: History, m: Memory, closing: set<int>)
    requires Calm(h, m, closing)
    ensures Calm([Now(h)], m, closing)
  {
  }

  lemma StopForgets(s: Store, m: Memory, order: seq<Place>, r: StopRequest, f: Faults)
    requires Known(s, m, r.chargePoint) && r.id in s.transactions && !f.read
    ensures var o, p := StopTransaction([s], m, order, r, f), Place(r.chargePoint, s.transactions[r.id].place.number);
            p in o.memory.connectors && o.memory.connectors[p] == FREE && o.memory.nextId == m.nextId
  {
    assert Now([s]) == s;
    GetChargePointExactly([s], m, r.chargePoint, order, f);
  }

  lemma StartKnows(s: Store, m: Memory, order: seq<Place>, r: StartRequest)
    requires Known(s, m, r.place.chargePoint)
    ensures r.place.chargePoint in StartTransaction([s], m, order, r, NO_FAULTS).memory.chargePoints
  {
    LocateExactly([s], m, r.place, order, NO_FAULTS);
    var l := GetChargePoint([s], m, r.place.chargePoint, order, NO_FAULTS);
    var g := GetConnector(l.history, l.memory, r.place, NO_FAULTS);
    GetChargePointExactly([s], m, r.place.chargePoint, order, NO_FAULTS);
    StartOnKnows(g.history, g.memory, g.connector, r);
  }

  lemma StartOnKnows(h: History, m: Memory, c: Connector, r: StartRequest)
    ensures StartOn(h, m, c, r, NO_FAULTS).memory.chargePoints == m.chargePoints
  {
  }
}
