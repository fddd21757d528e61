/** Soundness of connector pointers, and one open transaction per connector, over all runs. */
module Safety {
  import opened Domain
  import opened Persistence
  import opened Sessions
  import opened Loading
  import opened Lifecycle
  import opened Pointers

  // ---------- soundness ----------

  /** Two pointers that name the same transaction, or both none. */
  predicate Agree(a: int, b: int) {
    a == b || (a < 0 && b < 0)
  }

  /** Memory and database agree on every pointer in memory. */
  ghost predicate Synced(s: Store, m: Memory) {
    && m.chargePoints <= s.chargePoints.Keys
    && forall p :: p in m.connectors ==>
         p in s.connectors && Agree(s.connectors[p].currentTransactionId, m.connectors[p].currentTransactionId)
  }

  /** Every stored charge point, and every connector that holds a transaction, is in memory. Since
      start-up loads them all, a handler then has nothing to learn from the database about pointers. */
  ghost predicate Complete(s: Store, m: Memory) {
    && s.chargePoints.Keys <= m.chargePoints
    && forall p :: p in s.connectors && p !in m.connectors ==> s.connectors[p].currentTransactionId < 0
  }

  /** The faults a step can have without losing track of a connector: connectors can be written, and
      documents read unless memory is complete. */
  ghost predicate Tracks(s: Store, m: Memory, f: Faults) {
    !f.connector && (f.read ==> Complete(s, m))
  }

  /** A connector that holds a transaction belongs to a stored charge point. */
  ghost predicate Homed(s: Store) {
    forall p :: p in s.connectors && s.connectors[p].currentTransactionId >= 0 ==> p.chargePoint in s.chargePoints
  }

  ghost predicate AllHomed(h: History) {
    forall k :: 0 <= k < |h| ==> Homed(h[k])
  }

  /** A connector holds an open transaction, or one that a sweep has closed and not yet released. */
  ghost predicate Live(s: Store, closing: set<int>) {
    forall p :: p in s.connectors ==>
      var i := s.connectors[p].currentTransactionId;
      i >= 0 && i in s.transactions && s.transactions[i].finished ==> i in closing
  }

  /** The transactions some sweep has closed and whose connector it has not yet looked at. */
  ghost function Closing(sweeps: map<nat, Sweep>): set<int> {
    set tag | tag in sweeps && sweeps[tag].Closed? :: sweeps[tag].t.id
  }

  ghost predicate Steady(s: Store, m: Memory, closing: set<int>) {
    Synced(s, m) && Homed(s) && Live(s, closing)
  }

  ghost predicate Sound(w: World) {
    && Anchored(w)
    && Homed(w.store)
    && (w.Up? ==> Steady(w.store, w.memory, Closing(w.sweeps)) && Complete(w.store, w.memory))
  }

  /** The condition every stretch of a step keeps while connectors can be written. */
  ghost predicate Calm(h: History, m: Memory, closing: set<int>) {
    Ready(h, m) && AllHomed(h) && Steady(Now(h), m, closing)
  }

  lemma {:induction false} LoadConnectorsHomed(h: History, m: Memory, cps: set<string>, order: seq<Place>, f: Faults)
    requires AllHomed(h)
    ensures AllHomed(LoadConnectors(h, m, cps, order, f).history)
    decreases |order|
  {
    if order != [] {
      if order[0].chargePoint !in cps {
        LoadConnectorsHomed(h, m, cps, order[1..], f);
      } else {
        var l := LoadConnector(h, m, order[0], f);
        LoadConnectorsHomed(l.history, l.memory, cps, order[1..], f);
      }
    }
  }

  lemma GetChargePointCalm(h: History, m: Memory, cp: string, order: seq<Place>, f: Faults, closing: set<int>)
    requires Calm(h, m, closing) && Tracks(Now(h), m, f)
    ensures var l := GetChargePoint(h, m, cp, order, f);
            && Calm(l.history, l.memory, closing) && l.memory.nextId == m.nextId
            && (l.found <==> Known(Now(h), m, cp)) && (l.found ==> cp in Now(l.history).chargePoints)
            && Now(l.history).transactions == Now(h).transactions
            && OpenPointersKept(Now(h), Now(l.history))
            && (Complete(Now(h), m) ==> Complete(Now(l.history), l.memory))
  {
    if f.read {
      GetChargePointWires(h, m, cp, order, f);
    } else {
      LookUpCalm(h, m, cp, order, f, closing);
      LookUpComplete(h, m, cp, order, f);
    }
  }

  lemma LookUpCalm(h: History, m: Memory, cp: string, order: seq<Place>, f: Faults, closing: set<int>)
    requires Calm(h, m, closing) && !f.connector && !f.read
    ensures var l := GetChargePoint(h, m, cp, order, f);
            && Calm(l.history, l.memory, closing) && l.memory.nextId == m.nextId
            && (l.found <==> Known(Now(h), m, cp)) && (l.found ==> cp in Now(l.history).chargePoints)
            && Now(l.history).transactions == Now(h).transactions
            && OpenPointersKept(Now(h), Now(l.history))
  {
    GetChargePointWires(h, m, cp, order, f);
    GetChargePointExactly(h, m, cp, order, f);
    LookUpHomed(h, m, cp, order, f);
  }

  lemma LookUpHomed(h: History, m: Memory, cp: string, order: seq<Place>, f: Faults)
    requires AllHomed(h)
    ensures AllHomed(GetChargePoint(h, m, cp, order, f).history)
  {
    LoadConnectorsHomed(h, m.(chargePoints := m.chargePoints + {cp}), {cp}, order, f);
  }

  lemma LookUpComplete(h: History, m: Memory, cp: string, order: seq<Place>, f: Faults)
    ensures var l := GetChargePoint(h, m, cp, order, f);
            Complete(Now(h), m) ==> Complete(Now(l.history), l.memory)
  {
  }

  /** No pointer appears, and none to an open transaction is lost. */
  ghost predicate OpenPointersKept(s: Store, s': Store) {
    && (forall p, i :: i >= 0 && PointsTo(s', p, i) ==> PointsTo(s, p, i))
    && (forall p, i :: i in s.transactions && !s.transactions[i].finished && PointsTo(s, p, i) ==> PointsTo(s', p, i))
  }

  ghost predicate PointsTo(s: Store, p: Place, i: int) {
    p in s.connectors && s.connectors[p].currentTransactionId == i
  }

  lemma GetConnectorCalm(h: History, m: Memory, p: Place, f: Faults, closing: set<int>)
    requires Calm(h, m, closing) && Tracks(Now(h), m, f)
    ensures var g := GetConnector(h, m, p, f);
            && Calm(g.history, g.memory, closing) && g.memory.nextId == m.nextId
            && p in Now(g.history).connectors
            && Agree(Now(g.history).connectors[p].currentTransactionId, g.connector.currentTransactionId)
            && Now(g.history).transactions == Now(h).transactions
            && Now(g.history).chargePoints == Now(h).chargePoints
            && OpenPointersKept(Now(h), Now(g.history))
            && (p in Now(h).connectors ==> Now(g.history) == Now(h))
            && (Complete(Now(h), m) ==> Complete(Now(g.history), g.memory))
  {
    GetConnectorWires(h, m, p, f);
    FindConnectorCalm(h, m, p, f, closing);
  }

  lemma FindConnectorCalm(h: History, m: Memory, p: Place, f: Faults, closing: set<int>)
    requires Calm(h, m, closing) && Tracks(Now(h), m, f)
    ensures var g := GetConnector(h, m, p, f);
            && AllHomed(g.history) && Steady(Now(g.history), g.memory, closing)
            && (Complete(Now(h), m) ==> Complete(Now(g.history), g.memory))
  {
  }

  lemma PutConnectorCalm(h: History, m: Memory, p: Place, c: Connector, f: Faults, closing: set<int>, closing': set<int>)
    requires Ready(h, m) && AllHomed(h) && Synced(Now(h), m) && !f.connector
    requires p in Now(h).connectors && Holds(Now(h), p, c.currentTransactionId)
    requires c.currentTransactionId >= 0 ==>
               p.chargePoint in Now(h).chargePoints && !Now(h).transactions[c.currentTransactionId].finished
    requires Live(Now(h), closing)
    requires forall i :: i in closing && i !in closing' ==>
               forall q :: PointsTo(Now(h), q, i) ==> q == p
    ensures var u := PutConnector(h, m, p, c, f);
            && Calm(u.history, u.memory, closing')
            && (Complete(Now(h), m) ==> Complete(Now(u.history), u.memory))
  {
    PutConnectorWires(h, m, p, c, f);
    var s' := Now(PutConnector(h, m, p, c, f).history);
    forall q | q in s'.connectors && q != p && s'.connectors[q].currentTransactionId in closing
      ensures s'.connectors[q].currentTransactionId in closing'
    {
      assert PointsTo(Now(h), q, s'.connectors[q].currentTransactionId);
    }
  }

  // ---------- what each step keeps while pointers can be tracked ----------

  lemma StartFreshCalm(h: History, m: Memory, r: StartRequest, f: Faults, closing: set<int>)
    requires Calm(h, m, closing) && Below(Now(h), m.nextId) && !f.connector && !f.addTransaction
    requires r.place in Now(h).connectors && r.place.chargePoint in Now(h).chargePoints
    ensures var o := StartFresh(h, m, r, f);
            && Calm(o.history, o.memory, closing)
            && (Complete(Now(h), m) ==> Complete(Now(o.history), o.memory))
  {
    var h' := h + [Now(h).AddTransaction(NewTransaction(m.nextId, r))];
    assert Ready(h', m) && AllHomed(h') && Synced(Now(h'), m) && Live(Now(h'), closing);
    PutConnectorCalm(h', m.(nextId := m.nextId + 1), r.place, Connector(m.nextId, 0), f, closing, closing);
  }

  lemma StartCalm(h: History, m: Memory, order: seq<Place>, r: StartRequest, f: Faults, closing: set<int>)
    requires Calm(h, m, closing) && Below(Now(h), m.nextId) && Tracks(Now(h), m, f) && !f.addTransaction
    ensures var o := StartTransaction(h, m, order, r, f);
            && Calm(o.history, o.memory, closing)
            && (Complete(Now(h), m) ==> Complete(Now(o.history), o.memory))
  {
    GetChargePointCalm(h, m, r.place.chargePoint, order, f, closing);
    var l := GetChargePoint(h, m, r.place.chargePoint, order, f);
    if l.found {
      GetConnectorCalm(l.history, l.memory, r.place, f, closing);
      var g := GetConnector(l.history, l.memory, r.place, f);
      StartOnCalm(g.history, g.memory, g.connector, r, f, closing);
    }
  }

  lemma StartOnCalm(h: History, m: Memory, c: Connector, r: StartRequest, f: Faults, closing: set<int>)
    requires Calm(h, m, closing) && Below(Now(h), m.nextId) && !f.connector && !f.addTransaction
    requires r.place in Now(h).connectors && r.place.chargePoint in Now(h).chargePoints
    ensures var o := StartOn(h, m, c, r, f);
            && Calm(o.history, o.memory, closing)
            && (Complete(Now(h), m) ==> Complete(Now(o.history), o.memory))
  {
    StartFreshCalm(h, m, r, f, closing);
    PutConnectorCalm(h, m, r.place, FREE, f, closing, closing);
    var u := PutConnector(h, m, r.place, FREE, f);
    StartFreshCalm(u.history, u.memory, r, f, closing);
  }

  /** A stop that cannot strand a pointer: it names no stored row, it comes from the charge point
      that owns the row, the row's connector does not hold it, or a sweep is about to release it. */
  ghost predicate Harmless(s: Store, m: Memory, closing: set<int>, r: StopRequest) {
    Known(s, m, r.chargePoint) && r.id in s.transactions ==>
      var place := s.transactions[r.id].place;
      place.chargePoint == r.chargePoint || !PointsTo(s, place, r.id) || r.id in closing
  }

  /** The connector a stop of a stored row finds, and what it does then. */
  ghost function StopFinds(h: History, m: Memory, order: seq<Place>, r: StopRequest, f: Faults, closing: set<int>): (g: Held)
    requires Calm(h, m, closing) && Tracks(Now(h), m, f) && !f.read
    requires Known(Now(h), m, r.chargePoint) && r.id in Now(h).transactions
    ensures var t := Now(h).transactions[r.id];
            var p := Place(r.chargePoint, t.place.number);
            && Calm(g.history, g.memory, closing) && p in Now(g.history).connectors
            && Now(g.history).transactions == Now(h).transactions && OpenPointersKept(Now(h), Now(g.history))
            && (Complete(Now(h), m) ==> Complete(Now(g.history), g.memory))
            && g.history == GetConnector(GetChargePoint(h, m, r.chargePoint, order, f).history,
                                         GetChargePoint(h, m, r.chargePoint, order, f).memory, p, f).history
            && var h' := if AlreadyStopped(t, r) then g.history else CloseRow(g.history, StopFigures(t, r), f);
               var u := PutConnector(h', g.memory, p, FREE, f);
               StopTransaction(h, m, order, r, f) == Outcome(u.history, u.memory, Confirmed)
  {
    var l := GetChargePoint(h, m, r.chargePoint, order, f);
    var p := Place(r.chargePoint, Now(h).transactions[r.id].place.number);
    GetChargePointCalm(h, m, r.chargePoint, order, f, closing);
    GetConnectorCalm(l.history, l.memory, p, f, closing);
    GetConnector(l.history, l.memory, p, f)
  }

  /** What a stop of a stored row does to rows and memory: the row is closed unless a stop with as
      much on the meter was there before, or the row cannot be written. */
  lemma StopCloses(h: History, m: Memory, order: seq<Place>, r: StopRequest, f: Faults, closing: set<int>)
    requires Calm(h, m, closing) && Tracks(Now(h), m, f) && !f.read
    requires Known(Now(h), m, r.chargePoint) && r.id in Now(h).transactions
    ensures var o := StopTransaction(h, m, order, r, f);
            var t := Now(h).transactions[r.id];
            var s' := Now(o.history);
            && AllHomed(o.history) && Steady(s', o.memory, closing + {r.id})
            && (Complete(Now(h), m) ==> Complete(s', o.memory))
            && s'.transactions == (if AlreadyStopped(t, r) || f.updateTransaction then Now(h).transactions
                                   else Now(h).transactions[r.id := StopFigures(t, r)])
  {
    var t := Now(h).transactions[r.id];
    var p := Place(r.chargePoint, t.place.number);
    var g := StopFinds(h, m, order, r, f, closing);
    StopFiguresKeeps(t, r);
    var h' := if AlreadyStopped(t, r) then g.history else CloseRow(g.history, StopFigures(t, r), f);
    CloseRowCalm(g.history, g.memory, StopFigures(t, r), f, closing);
    PutConnectorCalm(h', g.memory, p, FREE, f, closing + {r.id}, closing + {r.id});
  }

  lemma CloseRowCalm(h: History, m: Memory, t: Transaction, f: Faults, closing: set<int>)
    requires Calm(h, m, closing)
    requires t.id in Now(h).transactions && Now(h).transactions[t.id].place == t.place && t.finished
    ensures var h' := CloseRow(h, t, f);
            && Calm(h', m, closing + {t.id}) && Now(h').connectors == Now(h).connectors
            && Now(h').chargePoints == Now(h).chargePoints
            && Now(h').transactions == if f.updateTransaction then Now(h).transactions else Now(h).transactions[t.id := t]
    ensures Calm(h, m, closing + {t.id})
  {
    CloseRowGood(h, m, t, f);
  }

  /** What it does to pointers: the connector of the row's number at the sending charge point is
      freed, and no other pointer to an open transaction changes. */
  lemma StopPointers(h: History, m: Memory, order: seq<Place>, r: StopRequest, f: Faults, closing: set<int>)
    requires Calm(h, m, closing) && Tracks(Now(h), m, f) && !f.read
    requires Known(Now(h), m, r.chargePoint) && r.id in Now(h).transactions
    ensures var s' := Now(StopTransaction(h, m, order, r, f).history);
            var p := Place(r.chargePoint, Now(h).transactions[r.id].place.number);
            && PointsTo(s', p, -1)
            && (forall q, i :: i in Now(h).transactions && !Now(h).transactions[i].finished && q != p ==>
                  (PointsTo(Now(h), q, i) <==> PointsTo(s', q, i)))
            && (forall q :: PointsTo(s', q, r.id) ==> PointsTo(Now(h), q, r.id) && q != p)
  {
    var t := Now(h).transactions[r.id];
    var p := Place(r.chargePoint, t.place.number);
    var g := StopFinds(h, m, order, r, f, closing);
    StopFiguresKeeps(t, r);
    CloseRowCalm(g.history, g.memory, StopFigures(t, r), f, closing);
    assert Now(StopTransaction(h, m, order, r, f).history).connectors == Now(g.history).connectors[p := FREE];
  }

  /** A stop that can track its connector keeps pointers sound exactly when it is harmless, or could not
      read or write the row. */
  lemma StopTracked(s: Store, m: Memory, order: seq<Place>, r: StopRequest, f: Faults, closing: set<int>)
    requires Calm([s], m, closing) && Tracks(s, m, f)
    ensures var o := StopTransaction([s], m, order, r, f);
            && AllHomed(o.history)
            && (Complete(s, m) ==> Complete(Now(o.history), o.memory))
            && (Steady(Now(o.history), o.memory, closing) <==> Harmless(s, m, closing, r) || f.updateTransaction || f.read)
  {
    assert Now([s]) == s;
    GetChargePointCalm([s], m, r.chargePoint, order, f, closing);
    if Known(s, m, r.chargePoint) && r.id in s.transactions && !f.read {
      StopCloses([s], m, order, r, f, closing);
      StopPointers([s], m, order, r, f, closing);
      StopStrands(s, m, order, r, f, closing);
    }
  }

  lemma StopStrands(s: Store, m: Memory, order: seq<Place>, r: StopRequest, f: Faults, closing: set<int>)
    requires Calm([s], m, closing) && Tracks(s, m, f) && !f.read
    requires Known(s, m, r.chargePoint) && r.id in s.transactions
    ensures var o := StopTransaction([s], m, order, r, f);
            Live(Now(o.history), closing) <==> Harmless(s, m, closing, r) || f.updateTransaction
  {
    assert Now([s]) == s;
    StopCloses([s], m, order, r, f, closing);
    StopPointers([s], m, order, r, f, closing);
    var s', t := Now(StopTransaction([s], m, order, r, f).history), s.transactions[r.id];
    StopFiguresKeeps(t, r);
    if Harmless(s, m, closing, r) || f.updateTransaction {
      forall q | q in s'.connectors && s'.connectors[q].currentTransactionId == r.id && s'.transactions[r.id].finished
        ensures r.id in closing
      {
        assert PointsTo(s', q, r.id);
        assert PointsTo(s, q, r.id) && t.place == q;
      }
    } else {
      assert PointsTo(s, t.place, r.id);
      assert !t.finished;
      assert PointsTo(s', t.place, r.id) && s'.transactions[r.id].finished;
    }
  }

  lemma MeterCalm(h: History, m: Memory, order: seq<Place>, r: MeterRequest, f: Faults, closing: set<int>)
    requires Calm(h, m, closing) && Tracks(Now(h), m, f)
    ensures var o := MeterValues(h, m, order, r, f);
            && Calm(o.history, o.memory, closing) && Now(o.history).transactions == Now(h).transactions
            && OpenPointersKept(Now(h), Now(o.history))
            && (Complete(Now(h), m) ==> Complete(Now(o.history), o.memory))
  {
    GetChargePointCalm(h, m, r.place.chargePoint, order, f, closing);
    var l := GetChargePoint(h, m, r.place.chargePoint, order, f);
    GetConnectorCalm(l.history, l.memory, r.place, f, closing);
    var g := GetConnector(l.history, l.memory, r.place, f);
    var id := MeteredTransaction(g.connector, r);
    if l.found && id.Some? && !f.read && id.value in Now(g.history).transactions {
      var t := Now(g.history).transactions[id.value];
      RecordReadingsGood(g.history, g.memory, t, r.readings, f);
      RecordReadingsHomed(g.history, t, r.readings, f);
    }
  }

  lemma {:induction false} RecordReadingsHomed(h: History, t: Transaction, readings: seq<Reading>, f: Faults)
    requires AllHomed(h)
    ensures AllHomed(RecordReadings(h, t, readings, f))
    decreases |readings|
  {
    if readings != [] {
      var x := readings[0];
      var h' := if x.value > 0
        then Record(h, f.samples, Now(h).UpsertSample(t.id, Sample(x.time, x.value, Billing.DueAt(t, x.time, x.value))))
        else h;
      RecordReadingsHomed(h', t, readings[1..], f);
    }
  }

  lemma StatusCalm(h: History, m: Memory, order: seq<Place>, p: Place, f: Faults, closing: set<int>)
    requires Calm(h, m, closing) && Tracks(Now(h), m, f)
    ensures var o := StatusNotification(h, m, order, p, f);
            && Calm(o.history, o.memory, closing) && Now(o.history).transactions == Now(h).transactions
            && OpenPointersKept(Now(h), Now(o.history))
            && (Complete(Now(h), m) ==> Complete(Now(o.history), o.memory))
  {
    GetChargePointCalm(h, m, p.chargePoint, order, f, closing);
    var l := GetChargePoint(h, m, p.chargePoint, order, f);
    GetConnectorCalm(l.history, l.memory, p, f, closing);
    var g := GetConnector(l.history, l.memory, p, f);
    if l.found && p.number > 0 {
      RewriteCalm(g.history, g.memory, p, g.connector, f, closing);
    }
  }

  /** Writing a connector with the transaction it already holds. */
  lemma RewriteCalm(h: History, m: Memory, p: Place, c: Connector, f: Faults, closing: set<int>)
    requires Calm(h, m, closing) && !f.connector
    requires p in Now(h).connectors && Agree(Now(h).connectors[p].currentTransactionId, c.currentTransactionId)
    ensures var u := PutConnector(h, m, p, c, f);
            && Calm(u.history, u.memory, closing) && Now(u.history).transactions == Now(h).transactions
            && OpenPointersKept(Now(h), Now(u.history))
            && (Complete(Now(h), m) ==> Complete(Now(u.history), u.memory))
  {
    assert Holds(Now(h), p, c.currentTransactionId);
    PutConnectorWires(h, m, p, c, f);
  }

  /** The locked release: the connector of the swept transaction no longer holds it, no other
      pointer is touched, and none of an open transaction other than the swept one. */
  lemma ReleaseEffect(h: History, m: Memory, order: seq<Place>, t: Transaction, f: Faults, closing: set<int>, closing': set<int>)
    requires Calm(h, m, closing) && Tracks(Now(h), m, f)
    requires t.id in Now(h).transactions && Now(h).transactions[t.id].place == t.place
    requires closing <= closing' + {t.id}
    ensures var l := ReleaseSwept(h, m, order, t, f);
            && Calm(l.history, l.memory, closing') && Now(l.history).transactions == Now(h).transactions
            && (forall q :: !PointsTo(Now(l.history), q, t.id))
            && (forall q, i :: i in Now(h).transactions && !Now(h).transactions[i].finished && i != t.id ==>
                  (PointsTo(Now(h), q, i) <==> PointsTo(Now(l.history), q, i)))
            && (Complete(Now(h), m) ==> Complete(Now(l.history), l.memory))
  {
    GetChargePointCalm(h, m, t.place.chargePoint, order, f, closing);
    var l := GetChargePoint(h, m, t.place.chargePoint, order, f);
    if l.found {
      GetConnectorCalm(l.history, l.memory, t.place, f, closing);
      var g := GetConnector(l.history, l.memory, t.place, f);
      ReleaseOn(g.history, g.memory, g.connector, t, f, closing, closing');
    } else {
      assert forall q :: !PointsTo(Now(l.history), q, t.id);
      LiveWithout(Now(l.history), t.id, closing, closing');
    }
  }

  lemma ReleaseOn(h: History, m: Memory, c: Connector, t: Transaction, f: Faults, closing: set<int>, closing': set<int>)
    requires Calm(h, m, closing) && !f.connector && closing <= closing' + {t.id}
    requires t.id in Now(h).transactions && Now(h).transactions[t.id].place == t.place
    requires t.place in Now(h).connectors && Agree(Now(h).connectors[t.place].currentTransactionId, c.currentTransactionId)
    ensures var l := if c.currentTransactionId != t.id then Located(true, h, m) else PutConnector(h, m, t.place, FREE, f);
            && Calm(l.history, l.memory, closing') && Now(l.history).transactions == Now(h).transactions
            && (forall q :: !PointsTo(Now(l.history), q, t.id))
            && (forall q, i :: i in Now(h).transactions && !Now(h).transactions[i].finished && i != t.id ==>
                  (PointsTo(Now(h), q, i) <==> PointsTo(Now(l.history), q, i)))
            && (Complete(Now(h), m) ==> Complete(Now(l.history), l.memory))
  {
    if c.currentTransactionId == t.id {
      forall q | PointsTo(Now(h), q, t.id) ensures q == t.place {
        assert Anchors(Now(h));
      }
      PutConnectorCalm(h, m, t.place, FREE, f, closing, closing');
    } else {
      NoneHolds(Now(h), t);
      LiveWithout(Now(h), t.id, closing, closing');
    }
  }

  lemma NoneHolds(s: Store, t: Transaction)
    requires Anchors(s) && t.id in s.transactions && s.transactions[t.id].place == t.place
    requires !PointsTo(s, t.place, t.id)
    ensures forall q :: !PointsTo(s, q, t.id)
  {
  }

  lemma LiveWithout(s: Store, id: int, closing: set<int>, closing': set<int>)
    requires Live(s, closing) && closing <= closing' + {id}
    requires forall q :: !PointsTo(s, q, id)
    ensures Live(s, closing')
  {
    forall q | q in s.connectors && s.connectors[q].currentTransactionId in closing
      ensures s.connectors[q].currentTransactionId in closing'
    {
      assert PointsTo(s, q, s.connectors[q].currentTransactionId);
    }
  }

  /** Loading connectors where no row is stored, reads cannot matter; where documents can be read, they
      do not fail. Other failing writes than those of connectors go unnoticed. */
  predicate Loads(s: Store, f: Faults) {
    !f.connector && (!f.read || s.transactions == map[])
  }

  lemma {:induction false} LoadConnectorsSame(h: History, m: Memory, cps: set<string>, order: seq<Place>, f: Faults)
    requires Loads(Now(h), f)
    ensures LoadConnectors(h, m, cps, order, f) == LoadConnectors(h, m, cps, order, NO_FAULTS)
    decreases |order|
  {
    if order != [] {
      if order[0].chargePoint !in cps {
        LoadConnectorsSame(h, m, cps, order[1..], f);
      } else {
        var l := LoadConnector(h, m, order[0], f);
        LoadConnectorsSame(l.history, l.memory, cps, order[1..], f);
      }
    }
  }

  lemma OnStartSame(s: Store, order: seq<Place>, acceptPoints: bool, f: Faults)
    requires Loads(s, f)
    ensures OnStart(s, order, acceptPoints, f) == OnStart(s, order, acceptPoints, NO_FAULTS)
  {
    var m := Memory(map[], s.chargePoints.Keys, 1, acceptPoints);
    LoadConnectorsSame([s], m, s.chargePoints.Keys, order, f);
    if f.read {
      LoadConnectorsRowless([s], m, s.chargePoints.Keys, order, f);
    }
  }

  lemma {:induction false} LoadConnectorsRowless(h: History, m: Memory, cps: set<string>, order: seq<Place>, f: Faults)
    requires Now(h).transactions == map[]
    ensures Now(LoadConnectors(h, m, cps, order, f).history).transactions == map[]
    decreases |order|
  {
    if order != [] {
      if order[0].chargePoint !in cps {
        LoadConnectorsRowless(h, m, cps, order[1..], f);
      } else {
        var l := LoadConnector(h, m, order[0], f);
        LoadConnectorsRowless(l.history, l.memory, cps, order[1..], f);
      }
    }
  }

  lemma OnStartSound(s: Store, order: seq<Place>, acceptPoints: bool)
    requires Anchors(s) && Homed(s) && ListsConnectors(order, s)
    ensures var l := OnStart(s, order, acceptPoints, NO_FAULTS);
            && AllHomed(l.history) && Steady(Now(l.history), l.memory, {}) && Complete(Now(l.history), l.memory)
            && Now(l.history).transactions == s.transactions
            && OpenPointersKept(s, Now(l.history))
  {
    var m := Memory(map[], s.chargePoints.Keys, 1, acceptPoints);
    LoadConnectorsHomed([s], m, s.chargePoints.Keys, order, NO_FAULTS);
    OnStartGood(s, order, acceptPoints, NO_FAULTS);
    LoadedAtStart(s, order, acceptPoints);
  }

  lemma LoadedAtStart(s: Store, order: seq<Place>, acceptPoints: bool)
    requires Homed(s) && ListsConnectors(order, s)
    ensures var l := OnStart(s, order, acceptPoints, NO_FAULTS);
            && Steady(Now(l.history), l.memory, {}) && Complete(Now(l.history), l.memory)
            && OpenPointersKept(s, Now(l.history))
  {
    var m := Memory(map[], s.chargePoints.Keys, 1, acceptPoints);
    LoadConnectorsExactly([s], m, s.chargePoints.Keys, order, NO_FAULTS);
    assert Now([s]) == s;
    var loaded := LoadedMap(s, s.chargePoints.Keys, order);
    OverlaySteady(s, loaded);
    assert loaded == map[] + loaded;
  }

  /** Loading every connector of every stored charge point clears all pointers at finished rows. */
  lemma OverlaySteady(s: Store, loaded: map<Place, Connector>)
    requires Homed(s)
    requires forall p :: p in loaded <==> p in s.connectors && p.chargePoint in s.chargePoints
    requires forall p :: p in loaded ==> loaded[p] == Loaded(s, p)
    ensures var s' := Overlay(s, false, loaded);
            && Homed(s') && Live(s', {}) && OpenPointersKept(s, s') && s'.connectors.Keys == s.connectors.Keys
            && (forall p :: p in s.connectors && p !in loaded ==> s'.connectors[p].currentTransactionId < 0)
            && (forall p :: p in loaded ==> p in s'.connectors && s'.connectors[p] == loaded[p])
  {
  }

  // ---------- soundness over runs ----------

  /** A step that can write connectors and, if it is a start, its new row; that can read if it is a
      restart on stored rows; and whose stop, if it is one that can read and write its row, strands no
      pointer. Every other read, closing rows, and writing or deleting samples may fail. */
  ghost predicate Fair(w: World, x: Step) {
    && !x.faults.connector && Anchoring(w, x)
    && (w.Up? && x.event.Stop? && !x.faults.updateTransaction && !x.faults.read ==>
          Harmless(w.store, w.memory, Closing(w.sweeps), x.event.stop))
  }

  /** What a step of a sound world establishes. */
  ghost predicate Kept(e: Effect) {
    && AllHomed(e.history) && Steady(Now(e.history), e.memory, Closing(e.sweeps))
    && Complete(Now(e.history), e.memory)
  }

  lemma PerformCalm(w: World, x: Step)
    requires w.Up? && Sound(w) && Fair(w, x)
    ensures Kept(Perform(w, x))
  {
    var Up(s, m, sweeps) := w;
    var closing := Closing(sweeps);
    assert Now([s]) == s && Calm([s], m, closing);
    match x.event
    case Start(r) => StartCalm([s], m, x.order, r, x.faults, closing);
    case Stop(r) => StopTracked(s, m, x.order, r, x.faults, closing);
    case Meter(r) => MeterCalm([s], m, x.order, r, x.faults, closing);
    case Status(p) => StatusCalm([s], m, x.order, p, x.faults, closing);
    case Save(t, reading) =>
      RecordReadingsGood([s], m, t, [reading], x.faults);
      RecordReadingsHomed([s], t, [reading], x.faults);
    case Release(tag) => ReleaseCalm(w, x);
    case _ => SweepCalm(w, x);
  }

  lemma ReleaseCalm(w: World, x: Step)
    requires w.Up? && Sound(w) && !x.faults.connector && x.event.Release?
    ensures Kept(Perform(w, x))
  {
    var Up(s, m, sweeps) := w;
    var e := Perform(w, x);
    if x.event.tag in sweeps && sweeps[x.event.tag].Closed? {
      var t := sweeps[x.event.tag].t;
      ClosingFreed(sweeps, x.event.tag);
      assert Now([s]) == s && Calm([s], m, Closing(sweeps));
      ReleaseEffect([s], m, x.order, t, x.faults, Closing(sweeps), Closing(e.sweeps));
    }
  }

  lemma SweepCalm(w: World, x: Step)
    requires w.Up? && Sound(w)
    requires x.event.Select? || x.event.Figure? || x.event.Close? || x.event.Purge? || x.event.Restart?
    ensures Kept(Perform(w, x))
  {
    var Up(s, m, sweeps) := w;
    var e := Perform(w, x);
    if x.event.Close? && x.event.tag in sweeps && sweeps[x.event.tag].Figured? {
      CloseCalm(s, m, sweeps, x.event.tag);
    } else {
      OthersCalm(w, x);
    }
  }

  /** The steps of a sweep that write no row and no connector. */
  lemma OthersCalm(w: World, x: Step)
    requires w.Up? && Sound(w)
    requires x.event.Select? || x.event.Figure? || x.event.Close? || x.event.Purge? || x.event.Restart?
    requires x.event.Close? ==> !(x.event.tag in w.sweeps && w.sweeps[x.event.tag].Figured?)
    ensures Kept(Perform(w, x))
  {
    var e := Perform(w, x);
    OthersShape(w, x);
    forall k | 0 <= k < |e.history| ensures Homed(e.history[k]) {
      assert SamePointers(w.store, e.history[k]);
    }
    assert SamePointers(w.store, Now(e.history));
    assert Closing(w.sweeps) <= Closing(e.sweeps);
  }

  ghost predicate SamePointers(s: Store, s': Store) {
    s'.connectors == s.connectors && s'.transactions == s.transactions && s'.chargePoints == s.chargePoints
  }

  lemma OthersShape(w: World, x: Step)
    requires w.Up?
    requires x.event.Select? || x.event.Figure? || x.event.Close? || x.event.Purge? || x.event.Restart?
    requires x.event.Close? ==> !(x.event.tag in w.sweeps && w.sweeps[x.event.tag].Figured?)
    ensures var e := Perform(w, x);
            && e.memory == w.memory
            && (forall k :: 0 <= k < |e.history| ==> SamePointers(w.store, e.history[k]))
            && (forall tag :: tag in w.sweeps && w.sweeps[tag].Closed? ==> tag in e.sweeps && e.sweeps[tag] == w.sweeps[tag])
  {
  }

  lemma CloseCalm(s: Store, m: Memory, sweeps: map<nat, Sweep>, tag: nat)
    requires Steady(s, m, Closing(sweeps)) && tag in sweeps && sweeps[tag].Figured?
    ensures var t := sweeps[tag].t;
            var closing := Closing(sweeps[tag := Sweep.Closed(t)]);
            Steady(s, m, closing) && Steady(s.UpdateTransaction(t), m, closing)
  {
    var t := sweeps[tag].t;
    var next := sweeps[tag := Sweep.Closed(t)];
    assert next[tag].Closed?;
    assert forall other :: other in sweeps && sweeps[other].Closed? ==> next[other] == sweeps[other];
    assert Closing(sweeps) + {t.id} <= Closing(next);
  }

  lemma ClosingFreed(sweeps: map<nat, Sweep>, tag: nat)
    requires tag in sweeps
    ensures Closing(sweeps) <= Closing(sweeps[tag := Freed(sweeps[tag].t)]) + {sweeps[tag].t.id}
  {
    var next := sweeps[tag := Freed(sweeps[tag].t)];
    assert forall other :: other in sweeps && other != tag ==> next[other] == sweeps[other];
  }

  lemma AdvanceSound(w: World, x: Step)
    requires Sound(w) && Fair(w, x)
    ensures Sound(Advance(w, x))
  {
    AdvanceAnchored(w, x);
    if w.Up? {
      PerformCalm(w, x);
    } else if x.event.Restart? && ListsConnectors(x.order, w.store) {
      assert w.store.transactions == map[] || !x.faults.read;
      OnStartSame(w.store, x.order, w.acceptPoints, x.faults);
      OnStartSound(w.store, x.order, w.acceptPoints);
      assert Closing(map[]) == {};
    }
  }

  /** Pointers stay sound in every interleaving of starts, stops, meter values, any number of
      sweeps, crashes after any write and restarts, also where handlers and sweeps cannot read, and
      where closing a row or writing samples fails, as long as new rows and connectors can be written,
      restarts can read, and no stop strands a pointer. */
  lemma {:induction false} RunSound(w: World, steps: seq<Step>)
    requires Sound(w) && Along(w, steps, Fair)
    ensures Sound(Run(w, steps))
    decreases |steps|
  {
    if steps != [] {
      AdvanceSound(w, steps[0]);
      RunSound(Advance(w, steps[0]), steps[1..]);
    }
  }

  /** What soundness gives: no two connectors hold the same transaction, in memory or stored, and
      with no sweep between its close and its release none holds a finished one. */
  lemma SoundMeans(w: World, p: Place, q: Place)
    requires w.Up? && Sound(w)
    requires p in w.memory.connectors && w.memory.connectors[p].currentTransactionId >= 0
    ensures var i := w.memory.connectors[p].currentTransactionId;
            && i in w.store.transactions && w.store.transactions[i].place == p && i < w.memory.nextId
            && (q in w.memory.connectors && w.memory.connectors[q].currentTransactionId == i ==> q == p)
            && (PointsTo(w.store, q, i) ==> q == p)
            && (Closing(w.sweeps) == {} ==> !w.store.transactions[i].finished)
  {
  }

  // ---------- a sweep's release ----------

  /** However starts and stops interleave with a sweep between its close and its locked release,
      and whether or not its row could be written, the release takes the swept transaction off every
      connector and spares each connector that holds another, open one. */
  lemma ReleaseSparesOthers(w: World, steps: seq<Step>, x: Step, p: Place)
    requires Sound(w) && Along(w, steps, Fair) && x.event.Release? && Fair(Run(w, steps), x)
    requires Run(w, steps).Up? && x.event.tag in Run(w, steps).sweeps && Run(w, steps).sweeps[x.event.tag].Closed?
    requires p in Run(w, steps).store.connectors && Run(w, steps).store.connectors[p].currentTransactionId >= 0
    ensures var v, e := Run(w, steps), Perform(Run(w, steps), x);
            var i := v.store.connectors[p].currentTransactionId;
            var swept := v.sweeps[x.event.tag].t.id;
            && swept in v.store.transactions
            && i in v.store.transactions
            && !PointsTo(Now(e.history), p, swept)
            && (i != swept && !v.store.transactions[i].finished ==> PointsTo(Now(e.history), p, i))
  {
    RunSound(w, steps);
    var v := Run(w, steps);
    SoundReleaseSpares(v.store, v.memory, x.order, v.sweeps[x.event.tag].t, x.faults, Closing(v.sweeps), p);
  }

  lemma SoundReleaseSpares(s: Store, m: Memory, order: seq<Place>, t: Transaction, f: Faults, closing: set<int>, p: Place)
    requires Calm([s], m, closing) && Tracks(s, m, f)
    requires t.id in s.transactions && s.transactions[t.id].place == t.place
    requires p in s.connectors && s.connectors[p].currentTransactionId >= 0
    ensures var s', i := Now(ReleaseSwept([s], m, order, t, f).history), s.connectors[p].currentTransactionId;
            && i in s.transactions && !PointsTo(s', p, t.id)
            && (i != t.id && !s.transactions[i].finished ==> PointsTo(s', p, i))
  {
    assert Now([s]) == s;
    ReleaseEffect([s], m, order, t, f, closing, closing);
    assert PointsTo(s, p, s.connectors[p].currentTransactionId);
  }

  // ---------- one open transaction per connector ----------

  /** Every open transaction is held by its connector; so a connector has at most one. */
  ghost predicate OneOpen(s: Store) {
    forall i :: i in s.transactions && !s.transactions[i].finished ==> PointsTo(s, s.transactions[i].place, i)
  }

  ghost predicate AllOneOpen(h: History) {
    forall k :: 0 <= k < |h| ==> OneOpen(h[k])
  }

  lemma AtMostOneOpen(s: Store, i: int, j: int)
    requires OneOpen(s) && i in s.transactions && j in s.transactions
    requires !s.transactions[i].finished && !s.transactions[j].finished
    requires s.transactions[i].place == s.transactions[j].place
    ensures i == j
  {
    assert PointsTo(s, s.transactions[i].place, i);
  }

  /** A stop that frees a connector from an open transaction and leaves that open: it names another
      session, or its row cannot be written. */
  ghost predicate Displaces(s: Store, m: Memory, r: StopRequest, f: Faults) {
    && Known(s, m, r.chargePoint) && r.id in s.transactions && !f.read
    && var p := Place(r.chargePoint, s.transactions[r.id].place.number);
       && p in s.connectors
       && var held := s.connectors[p].currentTransactionId;
          held in s.transactions && !s.transactions[held].finished && held > 0 && (held != r.id || f.updateTransaction)
  }

  lemma {:induction false} LoadConnectorsOneOpen(h: History, m: Memory, cps: set<string>, order: seq<Place>, f: Faults)
    requires AllOneOpen(h)
    ensures AllOneOpen(LoadConnectors(h, m, cps, order, f).history)
    decreases |order|
  {
    if order != [] {
      if order[0].chargePoint !in cps {
        LoadConnectorsOneOpen(h, m, cps, order[1..], f);
      } else {
        var l := LoadConnector(h, m, order[0], f);
        LoadConnectorsOneOpen(l.history, l.memory, cps, order[1..], f);
      }
    }
  }

  lemma LocateOneOpen(h: History, m: Memory, p: Place, order: seq<Place>, f: Faults)
    requires AllOneOpen(h)
    ensures var l := GetChargePoint(h, m, p.chargePoint, order, f);
            AllOneOpen(l.history) && AllOneOpen(GetConnector(l.history, l.memory, p, f).history)
  {
    LoadConnectorsOneOpen(h, m.(chargePoints := m.chargePoints + {p.chargePoint}), {p.chargePoint}, order, f);
  }

  /** The state of a start between its two writes: the new row is stored, its pointer not yet. */
  predicate CutShort(o: Outcome, id: int, k: int) {
    o.reply == Accepted(id) && k == |o.history| - 2
  }

  /** Of all the states a start passes through, exactly the one between its two writes has an open
      transaction that no connector holds. */
  lemma StartStatesExactly(s: Store, m: Memory, order: seq<Place>, r: StartRequest, f: Faults, closing: set<int>)
    requires Calm([s], m, closing) && Below(s, m.nextId) && OneOpen(s) && Tracks(s, m, f) && !f.addTransaction
    ensures var o := StartTransaction([s], m, order, r, f);
            && OneOpen(Now(o.history))
            && forall k :: 0 <= k < |o.history| ==> (OneOpen(o.history[k]) <==> !CutShort(o, m.nextId, k))
  {
    assert Now([s]) == s;
    GetChargePointCalm([s], m, r.place.chargePoint, order, f, closing);
    LocateOneOpen([s], m, r.place, order, f);
    var l := GetChargePoint([s], m, r.place.chargePoint, order, f);
    if l.found {
      GetConnectorCalm(l.history, l.memory, r.place, f, closing);
      var g := GetConnector(l.history, l.memory, r.place, f);
      StartOnStates(g.history, g.memory, g.connector, r, f);
    }
  }

  lemma StartOnStates(h: History, m: Memory, c: Connector, r: StartRequest, f: Faults)
    requires AllOneOpen(h) && Ready(h, m) && Below(Now(h), m.nextId) && !f.connector && !f.addTransaction
    requires r.place in Now(h).connectors && Agree(Now(h).connectors[r.place].currentTransactionId, c.currentTransactionId)
    ensures var o := StartOn(h, m, c, r, f);
            && OneOpen(Now(o.history))
            && forall k :: 0 <= k < |o.history| ==> (OneOpen(o.history[k]) <==> !CutShort(o, m.nextId, k))
  {
    var i := c.currentTransactionId;
    if i < 0 || (!f.read && i !in Now(h).transactions) {
      StartFreshStates(h, m, r, f);
    } else if !f.read && Now(h).transactions[i].finished {
      var u := PutConnector(h, m, r.place, FREE, f);
      forall j | j in Now(h).transactions && !Now(h).transactions[j].finished ensures Now(h).transactions[j].place != r.place {
        assert PointsTo(Now(h), Now(h).transactions[j].place, j);
      }
      FreeingKeepsOneOpen(Now(h), r.place);
      PutConnectorWires(h, m, r.place, FREE, f);
      StartFreshStates(u.history, u.memory, r, f);
    }
  }

  lemma StartFreshStates(h: History, m: Memory, r: StartRequest, f: Faults)
    requires AllOneOpen(h) && Ready(h, m) && Below(Now(h), m.nextId) && r.place in Now(h).connectors
    requires !f.connector && !f.addTransaction
    requires var i := Now(h).connectors[r.place].currentTransactionId;
             i in Now(h).transactions ==> Now(h).transactions[i].finished
    ensures var o := StartFresh(h, m, r, f);
            && o.reply == Accepted(m.nextId) && OneOpen(Now(o.history))
            && forall k :: 0 <= k < |o.history| ==> (OneOpen(o.history[k]) <==> k != |o.history| - 2)
  {
    var s, o := Now(h), StartFresh(h, m, r, f);
    forall i | i in s.transactions && !s.transactions[i].finished ensures s.transactions[i].place != r.place {
      assert PointsTo(s, s.transactions[i].place, i);
    }
    assert o.history[|h|] == s.AddTransaction(NewTransaction(m.nextId, r));
    assert !PointsTo(o.history[|h|], r.place, m.nextId);
    assert m.nextId in o.history[|h|].transactions;
    assert forall k :: 0 <= k < |h| ==> o.history[k] == h[k];
  }

  /** A stop leaves every open transaction held exactly when it displaces none; and then no write of
      it breaks that in between either. */
  lemma StopOneOpenExactly(s: Store, m: Memory, order: seq<Place>, r: StopRequest, f: Faults, closing: set<int>)
    requires Calm([s], m, closing) && OneOpen(s) && Tracks(s, m, f)
    ensures var o := StopTransaction([s], m, order, r, f);
            (OneOpen(Now(o.history)) <==> !Displaces(s, m, r, f)) && (!Displaces(s, m, r, f) ==> AllOneOpen(o.history))
  {
    assert Now([s]) == s;
    GetChargePointCalm([s], m, r.chargePoint, order, f, closing);
    LocateOneOpen([s], m, Place(r.chargePoint, 0), order, f);
    if Known(s, m, r.chargePoint) && r.id in s.transactions && !f.read {
      if Displaces(s, m, r, f) {
        StopDisplaces(s, m, order, r, f, closing);
      } else {
        StopStatesOneOpen(s, m, order, r, f, closing);
      }
    }
  }

  lemma StopDisplaces(s: Store, m: Memory, order: seq<Place>, r: StopRequest, f: Faults, closing: set<int>)
    requires Calm([s], m, closing) && OneOpen(s) && Tracks(s, m, f) && Displaces(s, m, r, f)
    ensures !OneOpen(Now(StopTransaction([s], m, order, r, f).history))
  {
    assert Now([s]) == s;
    StopCloses([s], m, order, r, f, closing);
    StopPointers([s], m, order, r, f, closing);
    var s' := Now(StopTransaction([s], m, order, r, f).history);
    var p := Place(r.chargePoint, s.transactions[r.id].place.number);
    var held := s.connectors[p].currentTransactionId;
    StopFiguresKeeps(s.transactions[r.id], r);
    assert s'.transactions[held] == s.transactions[held] && s.transactions[held].place == p;
    assert !PointsTo(s', p, held);
  }

  lemma StopStatesOneOpen(s: Store, m: Memory, order: seq<Place>, r: StopRequest, f: Faults, closing: set<int>)
    requires Calm([s], m, closing) && OneOpen(s) && Tracks(s, m, f) && !f.read
    requires Known(s, m, r.chargePoint) && r.id in s.transactions && !Displaces(s, m, r, f)
    ensures AllOneOpen(StopTransaction([s], m, order, r, f).history)
  {
    assert Now([s]) == s;
    var t := s.transactions[r.id];
    var p := Place(r.chargePoint, t.place.number);
    LocateOneOpen([s], m, p, order, f);
    var g := StopFinds([s], m, order, r, f, closing);
    StopFiguresKeeps(t, r);
    NoOpenLeftBehind(s, m, r, f);
    ClosingOneOpen(g.history, g.memory, t, r, f, p);
  }

  /** A stop that displaces none leaves no open row at the connector it frees. */
  lemma NoOpenLeftBehind(s: Store, m: Memory, r: StopRequest, f: Faults)
    requires Anchors(s) && OneOpen(s) && !f.read && Known(s, m, r.chargePoint) && r.id in s.transactions && !Displaces(s, m, r, f)
    ensures var p := Place(r.chargePoint, s.transactions[r.id].place.number);
            forall i :: i in s.transactions && !s.transactions[i].finished && s.transactions[i].place == p ==>
              i == r.id && !f.updateTransaction
  {
    forall i | i in s.transactions && !s.transactions[i].finished
               && s.transactions[i].place == Place(r.chargePoint, s.transactions[r.id].place.number)
      ensures i == r.id && !f.updateTransaction
    {
      assert PointsTo(s, s.transactions[i].place, i);
    }
  }

  lemma ClosingOneOpen(h: History, m: Memory, t: Transaction, r: StopRequest, f: Faults, p: Place)
    requires AllOneOpen(h) && r.id in Now(h).transactions && Now(h).transactions[r.id] == t && t.id == r.id
    requires forall i :: i in Now(h).transactions && !Now(h).transactions[i].finished && Now(h).transactions[i].place == p ==>
               i == r.id && !f.updateTransaction
    ensures var h' := if AlreadyStopped(t, r) then h else CloseRow(h, StopFigures(t, r), f);
            AllOneOpen(PutConnector(h', m, p, FREE, f).history)
  {
    StopFiguresKeeps(t, r);
    CloseRowOneOpen(h, StopFigures(t, r), f);
    var h' := if AlreadyStopped(t, r) then h else CloseRow(h, StopFigures(t, r), f);
    FreeingKeepsOneOpen(Now(h'), p);
  }

  lemma CloseRowOneOpen(h: History, t: Transaction, f: Faults)
    requires AllOneOpen(h) && t.finished
    ensures AllOneOpen(CloseRow(h, t, f))
    ensures var h' := CloseRow(h, t, f);
            Now(h').connectors == Now(h).connectors
            && Now(h').transactions == if f.updateTransaction then Now(h).transactions else Now(h).UpdateTransaction(t).transactions
  {
    var h1 := h + [Now(h).UpdateTransaction(t)];
    assert OneOpen(Now(h1));
    assert OneOpen(Now(h1).DeleteSamples(t.id));
  }

  lemma FreeingKeepsOneOpen(s: Store, p: Place)
    requires OneOpen(s)
    requires forall i :: i in s.transactions && !s.transactions[i].finished ==> s.transactions[i].place != p
    ensures OneOpen(s.UpdateConnector(p, FREE))
  {
  }

  lemma {:induction false} ReadingsOneOpen(h: History, t: Transaction, readings: seq<Reading>, f: Faults)
    requires AllOneOpen(h)
    ensures AllOneOpen(RecordReadings(h, t, readings, f))
    decreases |readings|
  {
    if readings != [] {
      var x := readings[0];
      var next := Now(h).UpsertSample(t.id, Sample(x.time, x.value, Billing.DueAt(t, x.time, x.value)));
      assert OneOpen(next);
      ReadingsOneOpen(if x.value > 0 then Record(h, f.samples, next) else h, t, readings[1..], f);
    }
  }

  lemma MeterOneOpen(s: Store, m: Memory, order: seq<Place>, r: MeterRequest, f: Faults)
    requires OneOpen(s)
    ensures AllOneOpen(MeterValues([s], m, order, r, f).history)
  {
    LocateOneOpen([s], m, r.place, order, f);
    var l := GetChargePoint([s], m, r.place.chargePoint, order, f);
    var g := GetConnector(l.history, l.memory, r.place, f);
    var id := MeteredTransaction(g.connector, r);
    if id.Some? && id.value in Now(g.history).transactions {
      ReadingsOneOpen(g.history, Now(g.history).transactions[id.value], r.readings, f);
    }
  }

  lemma StatusOneOpen(s: Store, m: Memory, order: seq<Place>, p: Place, f: Faults, closing: set<int>)
    requires Calm([s], m, closing) && OneOpen(s) && Tracks(s, m, f)
    ensures AllOneOpen(StatusNotification([s], m, order, p, f).history)
  {
    assert Now([s]) == s;
    LocateOneOpen([s], m, p, order, f);
    GetChargePointCalm([s], m, p.chargePoint, order, f, closing);
    var l := GetChargePoint([s], m, p.chargePoint, order, f);
    if l.found {
      GetConnectorCalm(l.history, l.memory, p, f, closing);
      var g := GetConnector(l.history, l.memory, p, f);
      RewriteOneOpen(g.history, g.memory, p, g.connector, f);
    }
  }

  lemma RewriteOneOpen(h: History, m: Memory, p: Place, c: Connector, f: Faults)
    requires AllOneOpen(h) && Anchors(Now(h))
    requires p in Now(h).connectors && Agree(Now(h).connectors[p].currentTransactionId, c.currentTransactionId)
    ensures AllOneOpen(PutConnector(h, m, p, c, f).history)
  {
  }

  /** The release of a sweep leaves every open transaction held exactly when the swept row is closed; a
      sweep that could not write it frees the connector of a session still open. */
  lemma ReleaseOneOpenExactly(s: Store, m: Memory, order: seq<Place>, t: Transaction, f: Faults, closing: set<int>)
    requires Calm([s], m, closing) && OneOpen(s) && Tracks(s, m, f)
    requires t.id in s.transactions && s.transactions[t.id].place == t.place
    ensures var h := ReleaseSwept([s], m, order, t, f).history;
            && (OneOpen(Now(h)) <==> s.transactions[t.id].finished)
            && (s.transactions[t.id].finished ==> AllOneOpen(h))
  {
    assert Now([s]) == s;
    if s.transactions[t.id].finished {
      ReleaseOneOpen(s, m, order, t, f, closing);
    } else {
      ReleaseEffect([s], m, order, t, f, closing, closing);
      assert !PointsTo(Now(ReleaseSwept([s], m, order, t, f).history), t.place, t.id);
    }
  }

  lemma ReleaseOneOpen(s: Store, m: Memory, order: seq<Place>, t: Transaction, f: Faults, closing: set<int>)
    requires Calm([s], m, closing) && OneOpen(s) && Tracks(s, m, f)
    requires t.id in s.transactions && s.transactions[t.id].finished
    ensures AllOneOpen(ReleaseSwept([s], m, order, t, f).history)
  {
    assert Now([s]) == s;
    LocateOneOpen([s], m, t.place, order, f);
    GetChargePointCalm([s], m, t.place.chargePoint, order, f, closing);
    var l := GetChargePoint([s], m, t.place.chargePoint, order, f);
    GetConnectorCalm(l.history, l.memory, t.place, f, closing);
    var g := GetConnector(l.history, l.memory, t.place, f);
    if l.found && g.connector.currentTransactionId == t.id {
      forall i | i in Now(g.history).transactions && !Now(g.history).transactions[i].finished
        ensures Now(g.history).transactions[i].place != t.place
      {
        assert PointsTo(Now(g.history), Now(g.history).transactions[i].place, i);
      }
      FreeingKeepsOneOpen(Now(g.history), t.place);
    }
  }

  /** Sound, and every open transaction held by its connector. */
  ghost predicate Single(w: World) {
    Sound(w) && OneOpen(w.store)
  }

  /** A fair step in which no stop and no sweep's release frees a connector from a session it leaves
      open, and the process does not die between the two writes of a start. */
  ghost predicate Orderly(w: World, x: Step) {
    && Fair(w, x)
    && (w.Up? && x.event.Stop? ==> !Displaces(w.store, w.memory, x.event.stop, x.faults))
    && (w.Up? && x.event.Release? && x.event.tag in w.sweeps && w.sweeps[x.event.tag].Closed? ==>
          var id := w.sweeps[x.event.tag].t.id; id in w.store.transactions ==> w.store.transactions[id].finished)
    && (w.Up? && x.event.Start? && x.crash.Some? ==>
          var o := StartTransaction([w.store], w.memory, x.order, x.event.start, x.faults);
          !CutShort(o, w.memory.nextId, x.crash.value))
  }

  lemma PerformOneOpen(w: World, x: Step)
    requires w.Up? && Single(w) && Orderly(w, x)
    ensures var e := Perform(w, x);
            && OneOpen(Now(e.history))
            && forall k :: 0 <= k < |e.history| && (x.event.Start? ==> x.crash == Some(k)) ==> OneOpen(e.history[k])
  {
    var Up(s, m, sweeps) := w;
    var closing := Closing(sweeps);
    assert Now([s]) == s && Calm([s], m, closing);
    match x.event
    case Start(r) => StartStatesExactly(s, m, x.order, r, x.faults, closing);
    case Stop(r) => StopOneOpenExactly(s, m, x.order, r, x.faults, closing);
    case Meter(r) => MeterOneOpen(s, m, x.order, r, x.faults);
    case Status(p) => StatusOneOpen(s, m, x.order, p, x.faults, closing);
    case Save(t, reading) => ReadingsOneOpen([s], t, [reading], x.faults);
    case Release(tag) =>
      if tag in sweeps && sweeps[tag].Closed? {
        ReleaseOneOpenExactly(s, m, x.order, sweeps[tag].t, x.faults, closing);
      }
    case _ => SweepOneOpen(w, x);
  }

  lemma SweepOneOpen(w: World, x: Step)
    requires w.Up? && Single(w)
    requires x.event.Select? || x.event.Figure? || x.event.Close? || x.event.Purge? || x.event.Restart?
    ensures AllOneOpen(Perform(w, x).history)
  {
    var s, sweeps := w.store, w.sweeps;
    match x.event
    case Close(tag) =>
      if tag in sweeps && sweeps[tag].Figured? { assert OneOpen(s.UpdateTransaction(sweeps[tag].t)); }
    case Purge(tag) =>
      if tag in sweeps { assert OneOpen(s.DeleteSamples(sweeps[tag].t.id)); }
    case _ =>
  }

  lemma AdvanceSingle(w: World, x: Step)
    requires Single(w) && Orderly(w, x)
    ensures Single(Advance(w, x))
  {
    AdvanceSound(w, x);
    if w.Up? {
      PerformOneOpen(w, x);
    } else if x.event.Restart? {
      LoadConnectorsOneOpen([w.store], Memory(map[], w.store.chargePoints.Keys, 1, w.acceptPoints),
                            w.store.chargePoints.Keys, x.order, x.faults);
    }
  }

  /** Over every orderly run - any sweeps, reads that fail, samples that cannot be written, crashes after
      any write but a start's first, restarts - every open transaction is held by its connector, so no
      connector ever has two. */
  lemma {:induction false} RunSingle(w: World, steps: seq<Step>)
    requires Single(w) && Along(w, steps, Orderly)
    ensures Single(Run(w, steps))
    decreases |steps|
  {
    if steps != [] {
      AdvanceSingle(w, steps[0]);
      RunSingle(Advance(w, steps[0]), steps[1..]);
    }
  }
}
