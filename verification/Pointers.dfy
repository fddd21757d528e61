/** Pointers from connectors to transactions. */
module Pointers {
  import opened Domain
  import opened Persistence
  import opened Sessions
  import opened Lifecycle

  // ---------- anchored: every pointer names an existing transaction of exactly its connector ----------

  ghost predicate Holds(s: Store, p: Place, id: int) {
    id >= 0 ==> id in s.transactions && s.transactions[id].place == p
  }

  ghost predicate Anchors(s: Store) {
    && (forall i :: i in s.transactions ==> s.transactions[i].id == i && i > 0)
    && (forall p :: p in s.connectors ==> Holds(s, p, s.connectors[p].currentTransactionId))
  }

  ghost predicate MemoryAnchors(s: Store, m: Memory) {
    forall p :: p in m.connectors ==> Holds(s, p, m.connectors[p].currentTransactionId)
  }

  ghost predicate Below(s: Store, n: int) {
    n > 0 && forall i :: i in s.transactions ==> i < n
  }

  ghost predicate SweepsKnown(s: Store, sweeps: map<nat, Sweep>) {
    forall tag :: tag in sweeps ==>
      var t := sweeps[tag].t;
      && t.id in s.transactions && s.transactions[t.id].place == t.place
      && (sweeps[tag].Selected? || t.finished)
  }

  ghost predicate Anchored(w: World) {
    && Anchors(w.store)
    && (w.Up? ==>
          && MemoryAnchors(w.store, w.memory)
          && Below(w.store, w.memory.nextId)
          && SweepsKnown(w.store, w.sweeps))
  }

  ghost predicate AllAnchor(h: History) {
    forall k :: 0 <= k < |h| ==> Anchors(h[k])
  }

  /** A stretch of a step that writes connectors and charge points only. */
  ghost predicate Wiring(h: History, m: Memory, h': History, m': Memory) {
    && AllAnchor(h')
    && Now(h').transactions == Now(h).transactions
    && MemoryAnchors(Now(h'), m')
    && m'.nextId == m.nextId
  }

  ghost predicate Ready(h: History, m: Memory) {
    AllAnchor(h) && MemoryAnchors(Now(h), m)
  }

  lemma LoadConnectorWires(h: History, m: Memory, p: Place, f: Faults)
    requires Ready(h, m)
    ensures var l := LoadConnector(h, m, p, f); Wiring(h, m, l.history, l.memory)
  {
  }

  lemma {:induction false} LoadConnectorsWires(h: History, m: Memory, cps: set<string>, order: seq<Place>, f: Faults)
    requires Ready(h, m)
    ensures var l := LoadConnectors(h, m, cps, order, f); Wiring(h, m, l.history, l.memory)
    decreases |order|
  {
    if order != [] {
      if order[0].chargePoint !in cps {
        LoadConnectorsWires(h, m, cps, order[1..], f);
      } else {
        LoadConnectorWires(h, m, order[0], f);
        var l := LoadConnector(h, m, order[0], f);
        LoadConnectorsWires(l.history, l.memory, cps, order[1..], f);
      }
    }
  }

  lemma GetChargePointWires(h: History, m: Memory, cp: string, order: seq<Place>, f: Faults)
    requires Ready(h, m)
    ensures var l := GetChargePoint(h, m, cp, order, f); Wiring(h, m, l.history, l.memory)
  {
    var m' := m.(chargePoints := m.chargePoints + {cp});
    LoadConnectorsWires(h, m', {cp}, order, f);
  }

  lemma GetConnectorWires(h: History, m: Memory, p: Place, f: Faults)
    requires Ready(h, m)
    ensures var g := GetConnector(h, m, p, f);
            Wiring(h, m, g.history, g.memory) && Holds(Now(h), p, g.connector.currentTransactionId)
  {
  }

  lemma PutConnectorWires(h: History, m: Memory, p: Place, c: Connector, f: Faults)
    requires Ready(h, m) && Holds(Now(h), p, c.currentTransactionId)
    ensures var u := PutConnector(h, m, p, c, f); Wiring(h, m, u.history, u.memory)
  {
  }

  /** A row may be added under a fresh id, or rewritten without moving or reopening it. */
  ghost predicate Grows(s: Store, s': Store) {
    forall i :: i in s.transactions ==>
      && i in s'.transactions && s'.transactions[i].place == s.transactions[i].place
      && (s.transactions[i].finished ==> s'.transactions[i].finished)
  }

  /** What every step establishes about its effect. */
  ghost predicate Good(s: Store, h: History, m: Memory) {
    && AllAnchor(h)
    && Grows(s, Now(h))
    && MemoryAnchors(Now(h), m)
    && Below(Now(h), m.nextId)
  }

  lemma StartFreshGood(h: History, m: Memory, r: StartRequest, f: Faults)
    requires Ready(h, m) && Below(Now(h), m.nextId) && !f.addTransaction
    ensures var o := StartFresh(h, m, r, f); Good(Now(h), o.history, o.memory)
    ensures var o := StartFresh(h, m, r, f);
            && o.reply == Accepted(m.nextId) && m.nextId in Now(o.history).transactions
            && Now(o.history).transactions[m.nextId] == NewTransaction(m.nextId, r)
  {
    var h' := h + [Now(h).AddTransaction(NewTransaction(m.nextId, r))];
    PutConnectorWires(h', m.(nextId := m.nextId + 1), r.place, Connector(m.nextId, 0), f);
  }

  lemma StartGood(h: History, m: Memory, order: seq<Place>, r: StartRequest, f: Faults)
    requires Ready(h, m) && Below(Now(h), m.nextId) && !f.addTransaction
    ensures var o := StartTransaction(h, m, order, r, f); Good(Now(h), o.history, o.memory)
  {
    GetChargePointWires(h, m, r.place.chargePoint, order, f);
    var l := GetChargePoint(h, m, r.place.chargePoint, order, f);
    GetConnectorWires(l.history, l.memory, r.place, f);
    var g := GetConnector(l.history, l.memory, r.place, f);
    if l.found {
      StartFreshGood(g.history, g.memory, r, f);
      PutConnectorWires(g.history, g.memory, r.place, FREE, f);
      var u := PutConnector(g.history, g.memory, r.place, FREE, f);
      StartFreshGood(u.history, u.memory, r, f);
    }
  }

  lemma StopFiguresKeeps(t: Transaction, r: StopRequest)
    ensures var t' := StopFigures(t, r); t'.id == t.id && t'.place == t.place && t'.finished && t'.plan == t.plan
  {
    ApplyBoundariesKeeps(t.(finished := true, timeStop := r.time, meterStop := r.meterStop, reason := r.reason), r.boundaries);
  }

  lemma CloseRowGood(h: History, m: Memory, t: Transaction, f: Faults)
    requires Ready(h, m) && t.id in Now(h).transactions && Now(h).transactions[t.id].place == t.place && t.finished
    ensures var h' := CloseRow(h, t, f); Ready(h', m) && Grows(Now(h), Now(h')) && Now(h').transactions.Keys == Now(h).transactions.Keys
    ensures Now(CloseRow(h, t, f)).connectors == Now(h).connectors
  {
  }

  lemma StopGood(h: History, m: Memory, order: seq<Place>, r: StopRequest, f: Faults)
    requires Ready(h, m) && Below(Now(h), m.nextId)
    ensures var o := StopTransaction(h, m, order, r, f); Good(Now(h), o.history, o.memory)
  {
    GetChargePointWires(h, m, r.chargePoint, order, f);
    var l := GetChargePoint(h, m, r.chargePoint, order, f);
    if l.found && !f.read && r.id in Now(l.history).transactions {
      var t := Now(l.history).transactions[r.id];
      var p := Place(r.chargePoint, t.place.number);
      GetConnectorWires(l.history, l.memory, p, f);
      var g := GetConnector(l.history, l.memory, p, f);
      StopFiguresKeeps(t, r);
      CloseRowGood(g.history, g.memory, StopFigures(t, r), f);
      var h' := if AlreadyStopped(t, r) then g.history else CloseRow(g.history, StopFigures(t, r), f);
      PutConnectorWires(h', g.memory, p, FREE, f);
    }
  }

  lemma {:induction false} RecordReadingsGood(h: History, m: Memory, t: Transaction, readings: seq<Reading>, f: Faults)
    requires Ready(h, m)
    ensures var h' := RecordReadings(h, t, readings, f); Ready(h', m) && Now(h').transactions == Now(h).transactions
    ensures Now(RecordReadings(h, t, readings, f)).connectors == Now(h).connectors
    ensures Now(RecordReadings(h, t, readings, f)).chargePoints == Now(h).chargePoints
    decreases |readings|
  {
    if readings != [] {
      var x := readings[0];
      var h' := if x.value > 0
        then Record(h, f.samples, Now(h).UpsertSample(t.id, Sample(x.time, x.value, Billing.DueAt(t, x.time, x.value))))
        else h;
      RecordReadingsGood(h', m, t, readings[1..], f);
    }
  }

  lemma MeterGood(h: History, m: Memory, order: seq<Place>, r: MeterRequest, f: Faults)
    requires Ready(h, m) && Below(Now(h), m.nextId)
    ensures var o := MeterValues(h, m, order, r, f); Good(Now(h), o.history, o.memory)
  {
    GetChargePointWires(h, m, r.place.chargePoint, order, f);
    var l := GetChargePoint(h, m, r.place.chargePoint, order, f);
    GetConnectorWires(l.history, l.memory, r.place, f);
    var g := GetConnector(l.history, l.memory, r.place, f);
    var id := MeteredTransaction(g.connector, r);
    if id.Some? && id.value in Now(g.history).transactions {
      RecordReadingsGood(g.history, g.memory, Now(g.history).transactions[id.value], r.readings, f);
    }
  }

  lemma StatusGood(h: History, m: Memory, order: seq<Place>, p: Place, f: Faults)
    requires Ready(h, m) && Below(Now(h), m.nextId)
    ensures var o := StatusNotification(h, m, order, p, f); Good(Now(h), o.history, o.memory)
  {
    GetChargePointWires(h, m, p.chargePoint, order, f);
    var l := GetChargePoint(h, m, p.chargePoint, order, f);
    GetConnectorWires(l.history, l.memory, p, f);
    var g := GetConnector(l.history, l.memory, p, f);
    PutConnectorWires(g.history, g.memory, p, g.connector, f);
  }

  lemma ReleaseGood(h: History, m: Memory, order: seq<Place>, t: Transaction, f: Faults)
    requires Ready(h, m) && Below(Now(h), m.nextId)
    ensures var l := ReleaseSwept(h, m, order, t, f);
            Good(Now(h), l.history, l.memory) && Now(l.history).transactions == Now(h).transactions
  {
    GetChargePointWires(h, m, t.place.chargePoint, order, f);
    var l := GetChargePoint(h, m, t.place.chargePoint, order, f);
    GetConnectorWires(l.history, l.memory, t.place, f);
    var g := GetConnector(l.history, l.memory, t.place, f);
    PutConnectorWires(g.history, g.memory, t.place, FREE, f);
  }

  lemma HandlerGood(w: World, x: Step)
    requires w.Up? && Anchored(w) && (x.event.Start? ==> !x.faults.addTransaction)
    requires x.event.Start? || x.event.Stop? || x.event.Meter? || x.event.Status? || x.event.Save?
    ensures var e := Perform(w, x); Good(w.store, e.history, e.memory) && e.sweeps == w.sweeps
  {
    var Up(s, m, sweeps) := w;
    assert Now([s]) == s;
    match x.event
    case Start(r) => StartGood([s], m, x.order, r, x.faults);
    case Stop(r) => StopGood([s], m, x.order, r, x.faults);
    case Meter(r) => MeterGood([s], m, x.order, r, x.faults);
    case Status(p) => StatusGood([s], m, x.order, p, x.faults);
    case Save(t, reading) => RecordReadingsGood([s], m, t, [reading], x.faults);
  }

  lemma SweepGood(w: World, x: Step)
    requires w.Up? && Anchored(w)
    requires x.event.Select? || x.event.Figure? || x.event.Close? || x.event.Purge?
    ensures var e := Perform(w, x); Good(w.store, e.history, e.memory) && SweepsKnown(w.store, e.sweeps)
  {
    SweepRowsGood(w, x);
    SweepCopiesGood(w, x);
  }

  lemma SweepRowsGood(w: World, x: Step)
    requires w.Up? && Anchored(w)
    requires x.event.Select? || x.event.Figure? || x.event.Close? || x.event.Purge?
    ensures var e := Perform(w, x); Good(w.store, e.history, e.memory)
  {
  }

  lemma SweepCopiesGood(w: World, x: Step)
    requires w.Up? && Anchored(w)
    requires x.event.Select? || x.event.Figure? || x.event.Close? || x.event.Purge?
    ensures SweepsKnown(w.store, Perform(w, x).sweeps)
  {
  }

  lemma ReleaseStepGood(w: World, x: Step)
    requires w.Up? && Anchored(w) && x.event.Release?
    ensures var e := Perform(w, x); Good(w.store, e.history, e.memory) && SweepsKnown(w.store, e.sweeps)
  {
    var tag := x.event.tag;
    assert Now([w.store]) == w.store;
    if tag in w.sweeps {
      ReleaseGood([w.store], w.memory, x.order, w.sweeps[tag].t, x.faults);
    }
  }

  lemma PerformGood(w: World, x: Step)
    requires w.Up? && Anchored(w) && (x.event.Start? ==> !x.faults.addTransaction)
    ensures var e := Perform(w, x); Good(w.store, e.history, e.memory) && SweepsKnown(Now(e.history), e.sweeps)
  {
    if x.event.Start? || x.event.Stop? || x.event.Meter? || x.event.Status? || x.event.Save? {
      HandlerGood(w, x);
    } else if x.event.Release? {
      ReleaseStepGood(w, x);
    } else if !x.event.Restart? {
      SweepGood(w, x);
    }
  }

  lemma OnStartGood(s: Store, order: seq<Place>, acceptPoints: bool, f: Faults)
    requires Anchors(s)
    ensures var l := OnStart(s, order, acceptPoints, f);
            && AllAnchor(l.history) && MemoryAnchors(Now(l.history), l.memory)
            && Now(l.history).transactions == s.transactions
            && (!f.read || s.transactions == map[] ==> Below(Now(l.history), l.memory.nextId))
  {
    var m := Memory(map[], s.chargePoints.Keys, 1, acceptPoints);
    LoadConnectorsWires([s], m, s.chargePoints.Keys, order, f);
  }

  /** The only faults that can break the anchoring of pointers: a start whose new row is not stored, and
      a restart that cannot read the highest of the stored transaction ids. */
  predicate Anchoring(w: World, x: Step) {
    && (x.event.Start? ==> !x.faults.addTransaction)
    && (x.event.Restart? ==> !x.faults.read || w.store.transactions == map[])
  }

  /** A restart keeps pointers anchored exactly when it can read the highest id, or there is none. */
  lemma RestartAnchoredExactly(s: Store, acceptPoints: bool, x: Step)
    requires Anchors(s) && ListsConnectors(x.order, s) && x.event.Restart? && x.crash.None?
    ensures Anchored(Advance(Down(s, acceptPoints), x)) <==> !x.faults.read || s.transactions == map[]
  {
    OnStartGood(s, x.order, acceptPoints, x.faults);
    if x.faults.read && s.transactions != map[] {
      var i := Choose(s.transactions.Keys);
      assert i > 0 && i >= Advance(Down(s, acceptPoints), x).memory.nextId;
    }
  }

  lemma AdvanceAnchored(w: World, x: Step)
    requires Anchored(w) && Anchoring(w, x)
    ensures Anchored(Advance(w, x))
  {
    if w.Up? {
      PerformGood(w, x);
    } else if x.event.Restart? {
      OnStartGood(w.store, x.order, w.acceptPoints, x.faults);
    }
  }

  /** Every pointer, in memory and in the database, names an existing transaction of exactly its
      connector, over every run: whatever stops name, however sweeps interleave, whichever
      connector, closing or sample writes and reads of running handlers fail, and at whichever write
      the process dies - as long as starts store their rows and restarts read the highest id. */
  lemma {:induction false} RunAnchored(w: World, steps: seq<Step>)
    requires Anchored(w) && Along(w, steps, Anchoring)
    ensures Anchored(Run(w, steps))
    decreases |steps|
  {
    if steps != [] {
      AdvanceAnchored(w, steps[0]);
      RunAnchored(Advance(w, steps[0]), steps[1..]);
    }
  }
}
